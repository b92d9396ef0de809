/** The text format: exactly which delimiters let every row survive. */
module CopyText {
  import opened Prelude
  import opened Copy
  import opened CopyRoundTrip
  import opened CopyHeader

  /** A delimiter whose escape, a backslash before it, means something else to the decoder, or that a
      line ends with. */
  predicate Garbling(d: char) {
    d in {'\\', '\r', '\n', 'x', 'b', 'f', 'n', 'r', 't', 'v'} || IsOctal(d)
  }

  /** The same, or one whose escape is the end marker or the default null string. */
  predicate Ambiguous(d: char) {
    Garbling(d) || d == '.' || d == 'N'
  }

  /** Text format with the default null string. */
  predicate DefaultText(o: Options) {
    !o.csv && o.nullString == "\\N"
  }

  /** A text the field splitter takes whole: no delimiter outside a backslash pair, and no half pair at
      its end. */
  predicate Whole(d: char, s: string) {
    if s == "" then true
    else if s[0] == '\\' then |s| > 1 && Whole(d, s[2..])
    else s[0] != d && Whole(d, s[1..])
  }

  /** Text options under which every row reads as it is seen. */
  predicate TextSafe(o: Options) {
    && !o.csv && !Garbling(o.delimiter)
    && Whole(o.delimiter, o.nullString) && '\n' !in o.nullString && WithoutCR(o.nullString) == o.nullString
  }

  // ---- One field ----

  lemma UnescapeOne(d: char, c: char, rest: string)
    requires !Garbling(d)
    ensures Unescape(EscapeChar(d, c) + rest) == [c] + Unescape(rest)
  {
    var text := EscapeChar(d, c) + rest;
    if |EscapeChar(d, c)| == 2 {
      assert text[0] == '\\' && text[1] == EscapeChar(d, c)[1] && text[2..] == rest;
      assert ReadEscape(text) == (c, 2);
    } else {
      assert text[0] == c && c != '\\' && text[1..] == rest;
    }
  }

  lemma {:induction false} UnescapeEscape(d: char, v: string)
    requires !Garbling(d)
    ensures Unescape(EscapeText(d, v)) == v
  {
    if v != "" {
      UnescapeEscape(d, v[1..]);
      UnescapeOne(d, v[0], EscapeText(d, v[1..]));
    }
  }

  /** With an unambiguous delimiter a value is never written as the default null string. */
  lemma EscapedIsNotNull(d: char, v: string)
    requires !Ambiguous(d)
    ensures EscapeText(d, v) != "\\N"
  {
    if v != "" {
      var first := EscapeChar(d, v[0]);
      var text := EscapeText(d, v);
      assert text[0] == first[0];
      if |first| == 2 {
        assert text[1] == first[1] != 'N';
      }
    }
  }

  lemma ReadsAsSeen(o: Options, f: Field)
    requires TextSafe(o)
    ensures TextValue(o, TextField(o, f)) == SeenField(o, f)
  {
    if f.Some? {
      UnescapeEscape(o.delimiter, f.value);
    }
  }

  // ---- One line ----

  lemma {:induction false} WholeAppend(d: char, a: string, b: string)
    requires Whole(d, a) && Whole(d, b)
    ensures Whole(d, a + b)
    decreases |a|
  {
    if a == "" {
      assert a + b == b;
    } else if a[0] == '\\' {
      WholeAppend(d, a[2..], b);
      assert (a + b)[2..] == a[2..] + b;
    } else {
      WholeAppend(d, a[1..], b);
      assert (a + b)[1..] == a[1..] + b;
    }
  }

  lemma EscapeCharIsWhole(d: char, c: char)
    ensures Whole(d, EscapeChar(d, c))
  {
    var text := EscapeChar(d, c);
    if |text| == 2 {
      assert text[2..] == "";
    } else {
      assert text[1..] == "";
    }
  }

  lemma {:induction false} EscapedIsWhole(d: char, v: string)
    ensures Whole(d, EscapeText(d, v))
  {
    if v != "" {
      EscapeCharIsWhole(d, v[0]);
      EscapedIsWhole(d, v[1..]);
      WholeAppend(d, EscapeChar(d, v[0]), EscapeText(d, v[1..]));
    }
  }

  lemma FieldIsWhole(o: Options, f: Field)
    requires TextSafe(o)
    ensures Whole(o.delimiter, TextField(o, f))
  {
    if f.Some? {
      EscapedIsWhole(o.delimiter, f.value);
    }
  }

  lemma {:induction false} RawPastWhole(d: char, s: string, rest: string, current: string)
    requires Whole(d, s)
    ensures RawFields(d, s + rest, current) == RawFields(d, rest, current + s)
    decreases |s|
  {
    if s == "" {
      assert s + rest == rest && current + s == current;
    } else if s[0] == '\\' {
      RawPastPair(d, s[..2], s[2..] + rest, current);
      RawPastWhole(d, s[2..], rest, current + s[..2]);
      Resplit(s, 2, rest, current);
    } else {
      RawPastPlain(d, s[0], s[1..] + rest, current);
      RawPastWhole(d, s[1..], rest, current + s[..1]);
      Resplit(s, 1, rest, current);
      assert s[..1] == [s[0]];
    }
  }

  lemma Resplit(s: string, n: nat, rest: string, current: string)
    requires n <= |s|
    ensures s + rest == s[..n] + (s[n..] + rest) && current + s[..n] + s[n..] == current + s
  {
  }

  lemma RawPastPair(d: char, pair: string, rest: string, current: string)
    requires |pair| == 2 && pair[0] == '\\'
    ensures RawFields(d, pair + rest, current) == RawFields(d, rest, current + pair)
  {
    assert (pair + rest)[..2] == pair && (pair + rest)[2..] == rest;
  }

  lemma RawPastPlain(d: char, c: char, rest: string, current: string)
    requires c != '\\' && c != d
    ensures RawFields(d, [c] + rest, current) == RawFields(d, rest, current + [c])
  {
    assert ([c] + rest)[1..] == rest;
  }

  function Texts(o: Options, row: Row): seq<string> {
    seq(|row|, i requires 0 <= i < |row| => TextField(o, row[i]))
  }

  lemma {:induction false} RawOfBody(o: Options, row: Row)
    requires TextSafe(o) && row != []
    ensures RawFields(o.delimiter, Body(o, row), "") == Texts(o, row)
    decreases |row|
  {
    var text := TextField(o, row[0]);
    FieldIsWhole(o, row[0]);
    TextsStep(o, row);
    if |row| == 1 {
      RawPastWhole(o.delimiter, text, "", "");
      assert text + "" == text && "" + text == text;
    } else {
      RawOfBody(o, row[1..]);
      RawNextField(o.delimiter, text, Body(o, row[1..]));
    }
  }

  lemma TextsStep(o: Options, row: Row)
    requires row != []
    ensures Texts(o, row) == [TextField(o, row[0])] + Texts(o, row[1..])
  {
  }

  lemma RawNextField(d: char, text: string, rest: string)
    requires Whole(d, text) && d != '\\'
    ensures RawFields(d, text + [d] + rest, "") == [text] + RawFields(d, rest, "")
  {
    var after := [d] + rest;
    RawPastWhole(d, text, after, "");
    Associate(text, [d], rest);
    assert after[1..] == rest && "" + text == text;
  }

  lemma FieldsOfLine(o: Options, row: Row)
    requires TextSafe(o) && row != []
    ensures Fields(o, Body(o, row)) == Seen(o, row)
  {
    RawOfBody(o, row);
    forall i | 0 <= i < |row|
      ensures TextValue(o, Texts(o, row)[i]) == SeenField(o, row[i])
    {
      ReadsAsSeen(o, row[i]);
    }
  }

  lemma {:induction false} EscapedHasNoLineEnd(d: char, v: string)
    requires !Garbling(d)
    ensures '\n' !in EscapeText(d, v) && '\r' !in EscapeText(d, v)
  {
    if v != "" {
      EscapedHasNoLineEnd(d, v[1..]);
      assert '\n' !in EscapeChar(d, v[0]) && '\r' !in EscapeChar(d, v[0]);
    }
  }

  lemma FieldEndsWell(o: Options, f: Field)
    requires TextSafe(o)
    ensures '\n' !in TextField(o, f) && WithoutCR(TextField(o, f)) == TextField(o, f)
  {
    if f.Some? {
      EscapedHasNoLineEnd(o.delimiter, f.value);
      var t := TextField(o, f);
      assert t != "" ==> t[|t| - 1] in t;
    }
  }

  lemma {:induction false} BodyEndsWell(o: Options, row: Row)
    requires TextSafe(o)
    ensures '\n' !in Body(o, row) && WithoutCR(Body(o, row)) == Body(o, row)
    decreases |row|
  {
    if row != [] {
      FieldEndsWell(o, row[0]);
      if |row| > 1 {
        BodyEndsWell(o, row[1..]);
        var t, tail := Body(o, row), Body(o, row[1..]);
        assert t[|t| - 1] == if tail == "" then o.delimiter else tail[|tail| - 1];
      }
    }
  }

  lemma TextReadable(o: Options, row: Row)
    requires TextSafe(o) && row != []
    ensures Readable(o, row)
  {
    BodyEndsWell(o, row);
    FieldsOfLine(o, row);
    forall rest: string
      ensures RecordEnd(o, Body(o, row) + "\n" + rest) == Some(|Body(o, row)|)
    {
      LineEnds(o, Body(o, row), rest);
    }
  }

  lemma LineEnds(o: Options, body: string, rest: string)
    requires !o.csv && '\n' !in body
    ensures RecordEnd(o, body + "\n" + rest) == Some(|body|)
  {
    var text := body + "\n" + rest;
    assert forall i :: 0 <= i < |body| ==> text[i] == body[i] && text[i] in body;
    assert text[|body|] == '\n';
  }

  /** Text, with any null string the splitter takes whole: rows of at least one field come back as they
      were if and only if no line is the end marker and no value is written as the null string; behind a
      header line that is the marker, no rows do but none. */
  lemma TextRowsSurvive(o: Options, names: Row, rows: seq<Row>)
    requires TextSafe(o) && names != [] && NoEmptyRows(rows)
    ensures Decode(o, Copied(o, names, rows)) == rows <==>
            if o.header && IsMarker(o, names) then rows == []
            else forall i :: 0 <= i < |rows| ==> Survives(o, rows[i])
  {
    TextReadable(o, names);
    forall i | 0 <= i < |rows|
      ensures Readable(o, rows[i])
    {
      TextReadable(o, rows[i]);
    }
    DecodeCopied(o, names, rows);
  }

  /** With a null string of `x`, a row of the value `x` comes back as NULL. */
  lemma NullTextIsLost(o: Options, row: Row)
    requires o == Options(false, '\t', "x", false, '"', '"') && row == [Some("x")]
    ensures Decode(o, Copied(o, row, [row])) != [row]
  {
    assert "x"[1..] == "";
    assert EscapeText('\t', "x") == "x";
    assert SeenField(o, row[0]) == None;
    assert !Survives(o, [row][0]);
    assert Body(o, row) == "x" && !IsMarker(o, row);
    TextRowsSurvive(o, row, [row]);
  }

  /** No line of the text format is the end marker. */
  lemma NoMarker(o: Options, row: Row)
    requires DefaultText(o) && !Ambiguous(o.delimiter)
    ensures !IsMarker(o, row)
  {
    if row != [] {
      var body := Body(o, row);
      var head := TextField(o, row[0]);
      if head == "" {
        assert body == "" || body[0] == o.delimiter;
      } else if row[0].Some? {
        var first := EscapeChar(o.delimiter, row[0].value[0]);
        assert head[..|first|] == first;
        assert body[0] == first[0];
        if |first| == 2 {
          assert body[1] == first[1] != '.';
        }
      } else {
        assert body[1] == 'N';
      }
    }
  }

  /** With the default null string and an unambiguous delimiter every row survives, with or without a
      header line. */
  lemma TextRoundTrip(o: Options, names: Row, rows: seq<Row>)
    requires DefaultText(o) && !Ambiguous(o.delimiter) && names != [] && NoEmptyRows(rows)
    ensures Decode(o, Copied(o, names, rows)) == rows
  {
    assert "\\N"[2..] == "";
    NoMarker(o, names);
    forall i | 0 <= i < |rows|
      ensures Survives(o, rows[i])
    {
      NoMarker(o, rows[i]);
      NothingTakenForNull(o, rows[i]);
    }
    TextRowsSurvive(o, names, rows);
  }

  lemma NothingTakenForNull(o: Options, row: Row)
    requires DefaultText(o) && !Ambiguous(o.delimiter)
    ensures forall i :: 0 <= i < |row| ==> SeenField(o, row[i]) == row[i]
  {
    forall i | 0 <= i < |row|
      ensures SeenField(o, row[i]) == row[i]
    {
      if row[i].Some? {
        EscapedIsNotNull(o.delimiter, row[i].value);
      }
    }
  }

  // ---- Every other delimiter loses something ----

  /** A row the delimiter cannot carry. */
  function Victim(d: char): Row {
    if d == '\\' || d == '\n' then [Some("a"), Some("b")]
    else if d == '\r' then [Some("a"), Some("")]
    else if d == 'x' then [Some("x4")]
    else [Some([d])]
  }

  lemma DecodeOneLine(o: Options, body: string)
    requires !o.csv && !o.header && '\n' !in body
    ensures var r := WithoutCR(body);
            Decode(o, body + "\n") == if r == END_MARKER then [] else [Fields(o, r)]
  {
    var text := body + "\n";
    assert text[|body|] == '\n' && forall i :: 0 <= i < |body| ==> text[i] == body[i] && text[i] in body;
    assert RecordEnd(o, text) == Some(|body|);
    DecodeOneRecord(o, body);
  }

  lemma DecodeOneRecord(o: Options, body: string)
    requires !o.header && RecordEnd(o, body + "\n") == Some(|body|)
    ensures var r := WithoutCR(body);
            Decode(o, body + "\n") == if r == END_MARKER then [] else [Fields(o, r)]
  {
    var d := Dec(body + "\n", false, false);
    assert d.pending[..|body|] == body && d.pending[|body| + 1..] == "";
    var one := TakeRecord(o, d);
    NothingPending(o, one.dec);
    assert one.rows + [] == one.rows;
    DecodeIsOneDrain(o, d.pending);
  }

  lemma SingleCharVictim(o: Options)
    requires DefaultText(o) && Ambiguous(o.delimiter) && o.delimiter !in {'\\', '\n', '\r', 'x', '.'}
    ensures Fields(o, ['\\', o.delimiter]) != [Some([o.delimiter])]
  {
    var d := o.delimiter;
    var raw := ['\\', d];
    assert raw[2..] == "" && "" + raw[..2] == raw;
    assert RawFields(d, raw, "") == [raw];
    assert Fields(o, raw) == [TextValue(o, raw)];
    if d != 'N' {
      assert raw != "\\N" by { assert raw[1] == d; }
      assert Unescape(raw) == [ReadEscape(raw).0] + "";
      assert ReadEscape(raw).0 != d;
      assert Unescape(raw)[0] != [d][0];
    }
  }

  /** Text: every list of rows of at least one field survives, with a header or without, if and only if
      the delimiter is not ambiguous; for an ambiguous one, `Victim` is a row that does not come back. */
  lemma TextRoundTripExactly(o: Options)
    requires DefaultText(o)
    ensures !Ambiguous(o.delimiter) <==>
            forall names: Row, rows: seq<Row> :: names != [] && NoEmptyRows(rows) ==> Decode(o, Copied(o, names, rows)) == rows
    ensures Ambiguous(o.delimiter) ==>
              Decode(o, Copied(o, [Some("c")], [Victim(o.delimiter)])) != [Victim(o.delimiter)]
  {
    if Ambiguous(o.delimiter) {
      VictimIsLostToo(o);
      assert NoEmptyRows([Victim(o.delimiter)]);
    } else {
      forall names: Row, rows: seq<Row> | names != [] && NoEmptyRows(rows)
        ensures Decode(o, Copied(o, names, rows)) == rows
      {
        TextRoundTrip(o, names, rows);
      }
    }
  }

  lemma VictimIsLostToo(o: Options)
    requires DefaultText(o) && Ambiguous(o.delimiter)
    ensures Decode(o, Copied(o, [Some("c")], [Victim(o.delimiter)])) != [Victim(o.delimiter)]
  {
    assert "c"[1..] == "" && EscapeText(o.delimiter, "c") == "c";
    assert Body(o, [Some("c")]) == "c" && ['c'] == "c";
    LineEnds(o, "c", Lines(o, [Victim(o.delimiter)]));
    HeaderDoesNotMatter(o, 'c', [Victim(o.delimiter)]);
    VictimIsLost(Plain(o));
  }

  lemma VictimIsLost(o: Options)
    requires DefaultText(o) && !o.header && Ambiguous(o.delimiter)
    ensures Decode(o, Lines(o, [Victim(o.delimiter)])) != [Victim(o.delimiter)]
  {
    var d := o.delimiter;
    assert Lines(o, [Victim(d)]) == Body(o, Victim(d)) + "\n";
    if d == '\n' {
      NewlineVictim(o);
    } else if d == '\\' {
      BackslashVictim(o);
    } else if d == '\r' {
      ReturnVictim(o);
    } else if d == 'x' {
      HexVictim(o);
    } else {
      OtherVictim(o);
    }
  }

  lemma OtherBody(o: Options)
    requires DefaultText(o) && Ambiguous(o.delimiter) && o.delimiter !in {'\\', '\n', '\r', 'x'}
    ensures Body(o, Victim(o.delimiter)) == ['\\', o.delimiter]
  {
    var d := o.delimiter;
    assert [d][1..] == "";
    assert EscapeText(d, [d]) == ['\\', d] + "";
  }

  lemma OtherVictim(o: Options)
    requires DefaultText(o) && !o.header && Ambiguous(o.delimiter) && o.delimiter !in {'\\', '\n', '\r', 'x'}
    ensures Decode(o, Body(o, Victim(o.delimiter)) + "\n") != [Victim(o.delimiter)]
  {
    var body := ['\\', o.delimiter];
    OtherBody(o);
    DecodeOneLine(o, body);
    if o.delimiter != '.' {
      SingleCharVictim(o);
      assert body != END_MARKER by { assert body[1] != '.'; }
    }
  }

  lemma PairBody(o: Options, v: string)
    requires DefaultText(o) && (v == "" || (v == "b" && o.delimiter != 'b')) && o.delimiter != 'a'
    ensures Body(o, [Some("a"), Some(v)]) == ['a', o.delimiter] + v
  {
    var row := [Some("a"), Some(v)];
    assert row[1..] == [Some(v)];
    assert EscapeText(o.delimiter, "a") == "a" by { assert "a"[1..] == ""; }
    assert EscapeText(o.delimiter, v) == v by { assert v != "" ==> v[1..] == ""; }
  }

  lemma BackslashVictim(o: Options)
    requires DefaultText(o) && !o.header && o.delimiter == '\\'
    ensures Decode(o, Body(o, Victim('\\')) + "\n") != [Victim('\\')]
  {
    PairBody(o, "b");
    assert Body(o, Victim('\\')) == "a\\b";
    DecodeOneLine(o, "a\\b");
    BackslashFields();
  }

  lemma BackslashFields()
    ensures |RawFields('\\', "a\\b", "")| == 1
  {
    assert "a\\b"[1..] == "\\b" && "\\b"[2..] == "";
  }

  lemma ReturnVictim(o: Options)
    requires DefaultText(o) && !o.header && o.delimiter == '\r'
    ensures Decode(o, Body(o, Victim('\r')) + "\n") != [Victim('\r')]
  {
    PairBody(o, "");
    assert Body(o, Victim('\r')) == "a\r";
    DecodeOneLine(o, "a\r");
    assert WithoutCR("a\r") == "a";
    assert "a"[1..] == "";
    assert |RawFields('\r', "a", "")| == 1;
  }

  lemma HexVictim(o: Options)
    requires DefaultText(o) && !o.header && o.delimiter == 'x'
    ensures Decode(o, Body(o, Victim('x')) + "\n") != [Victim('x')]
  {
    HexBody(o);
    DecodeOneLine(o, "\\x4");
    HexFields(o);
  }

  lemma HexBody(o: Options)
    requires DefaultText(o) && o.delimiter == 'x'
    ensures Body(o, Victim('x')) == "\\x4"
  {
    assert "x4"[1..] == "4" && "4"[1..] == "";
    assert EscapeText('x', "4") == "4";
    assert EscapeText('x', "x4") == "\\x4";
  }

  lemma HexFields(o: Options)
    requires DefaultText(o) && o.delimiter == 'x'
    ensures Fields(o, "\\x4") == [Some([4 as char])]
  {
    var body := "\\x4";
    assert body[2..] == "4" && "4"[1..] == "" && body[..2] == "\\x";
    assert "\\x" + ['4'] == body;
    assert RawFields('x', "4", "\\x") == RawFields('x', "", body);
    assert "" + body[..2] == "\\x";
    assert RawFields('x', body, "") == [body];
    assert |o.nullString| == 2;
    assert ReadEscape(body) == (4 as char, 3);
    assert body[3..] == "";
    assert Unescape(body) == [4 as char] + "" == [4 as char];
    assert TextValue(o, body) == Some([4 as char]);
    assert TextValues(o, [body]) == [Some([4 as char])];
  }

  lemma NewlineVictim(o: Options)
    requires DefaultText(o) && !o.header && o.delimiter == '\n'
    ensures Decode(o, Body(o, Victim('\n')) + "\n") != [Victim('\n')]
  {
    PairBody(o, "b");
    assert Body(o, Victim('\n')) == "a\nb";
    var text := "a\nb\n";
    assert Body(o, Victim('\n')) + "\n" == text;
    var d := Dec(text, false, false);
    assert text[1] == '\n' && text[0] != '\n';
    assert RecordEnd(o, text) == Some(1);
    assert text[..1] == "a" && text[2..] == "b\n";
    var one := TakeRecord(o, d);
    assert one == Record(o, d.(pending := "b\n"), "a");
    assert "a"[1..] == "";
    assert |Fields(o, "a")| == 1;
    var all := Drain(o, d);
    assert |all.rows| >= 1 && |all.rows[0]| == 1;
    DecodeIsOneDrain(o, text);
  }
}

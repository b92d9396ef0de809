/** What survives encoding with COPY TO and decoding with COPY FROM. */
module CopyRoundTrip {
  import opened Prelude
  import opened Copy

  predicate NoEmptyRows(rows: seq<Row>) {
    forall i :: 0 <= i < |rows| ==> rows[i] != []
  }

  /** What a field reads back as. In the text format a value whose text is the null string is taken for
      NULL; in CSV it is quoted, and kept apart. */
  function SeenField(o: Options, f: Field): Field {
    if !o.csv && f.Some? && TextField(o, f) == o.nullString then None else f
  }

  function Seen(o: Options, row: Row): (r: Row)
    ensures |r| == |row| && forall i :: 0 <= i < |row| ==> r[i] == SeenField(o, row[i])
  {
    seq(|row|, i requires 0 <= i < |row| => SeenField(o, row[i]))
  }

  predicate IsMarker(o: Options, row: Row) {
    Body(o, row) == END_MARKER
  }

  /** The decoder takes this row's line as one record, for the end marker only if it is, and reads from
      it the row as seen. */
  ghost predicate Readable(o: Options, row: Row) {
    && (forall rest: string :: RecordEnd(o, Body(o, row) + "\n" + rest) == Some(|Body(o, row)|))
    && (WithoutCR(Body(o, row)) == END_MARKER <==> IsMarker(o, row))
    && Fields(o, WithoutCR(Body(o, row))) == Seen(o, row)
  }

  ghost predicate AllReadable(o: Options, rows: seq<Row>) {
    forall i :: 0 <= i < |rows| ==> Readable(o, rows[i])
  }

  /** What the end marker and the header leave: everything before a line that reads `\.`, less the
      first line if it is skipped. */
  function Kept(o: Options, rows: seq<Row>, skip: bool): seq<Row> {
    if rows == [] || IsMarker(o, rows[0]) then []
    else (if skip then [] else [Seen(o, rows[0])]) + Kept(o, rows[1..], false)
  }

  lemma {:induction false} DrainLines(o: Options, d: Dec, rows: seq<Row>)
    requires !d.ended && d.pending == Lines(o, rows) && AllReadable(o, rows)
    ensures Drain(o, d).rows == Kept(o, rows, d.skipHeader)
    ensures Drain(o, d).dec.pending == ""
    decreases |rows|
  {
    if rows != [] {
      var rest := Lines(o, rows[1..]);
      var body := Body(o, rows[0]);
      assert Readable(o, rows[0]);
      assert d.pending == body + "\n" + rest;
      assert RecordEnd(o, d.pending) == Some(|body|);
      assert d.pending[..|body|] == body && d.pending[|body| + 1..] == rest;
      var one := TakeRecord(o, d);
      assert one == Record(o, d.(pending := rest), body);
      if !IsMarker(o, rows[0]) {
        assert AllReadable(o, rows[1..]);
        DrainLines(o, one.dec, rows[1..]);
      }
    } else {
      assert RecordEnd(o, "").None?;
    }
  }

  lemma DecodeLines(o: Options, rows: seq<Row>)
    requires AllReadable(o, rows)
    ensures Decode(o, Lines(o, rows)) == Kept(o, rows, o.header)
  {
    var d := Dec(Lines(o, rows), false, o.header);
    DecodeIsOneDrain(o, d.pending);
    DrainLines(o, d, rows);
    NothingPending(o, Drain(o, d).dec);
  }

  /** A row that comes back as it was. */
  predicate Survives(o: Options, row: Row) {
    !IsMarker(o, row) && forall i :: 0 <= i < |row| ==> SeenField(o, row[i]) == row[i]
  }

  lemma {:induction false} KeptAll(o: Options, rows: seq<Row>)
    ensures Kept(o, rows, false) == rows <==> forall i :: 0 <= i < |rows| ==> Survives(o, rows[i])
  {
    if rows != [] {
      KeptAll(o, rows[1..]);
      assert forall i :: 0 < i < |rows| ==> rows[i] == rows[1..][i - 1];
      if !IsMarker(o, rows[0]) {
        SeenExactly(o, rows[0]);
        ConsEquals(Seen(o, rows[0]), Kept(o, rows[1..], false), rows);
      }
    }
  }

  lemma SeenExactly(o: Options, row: Row)
    ensures Seen(o, row) == row <==> forall i :: 0 <= i < |row| ==> SeenField(o, row[i]) == row[i]
  {
  }

  lemma ConsEquals(first: Row, rest: seq<Row>, rows: seq<Row>)
    requires rows != []
    ensures [first] + rest == rows <==> first == rows[0] && rest == rows[1..]
  {
    assert ([first] + rest)[1..] == rest && ([first] + rest)[0] == first;
    assert [rows[0]] + rows[1..] == rows;
  }

  // ---- CSV ----

  /** The options a CSV round trip needs, no more and no less. */
  predicate CsvSafe(o: Options) {
    && o.csv
    && o.delimiter != o.quote && o.delimiter !in {'\n', '\r'} && o.quote != '\n'
    && o.delimiter !in o.nullString && o.quote !in o.nullString && '\n' !in o.nullString
    && WithoutCR(o.nullString) == o.nullString
  }

  lemma {:induction false} EndPastPlain(o: Options, t: string, s: string)
    requires o.quote !in t && '\n' !in t
    ensures CsvEnd(o, t + s, false) == Shift(|t|, CsvEnd(o, s, false))
  {
    if t == "" {
      assert t + s == s;
    } else {
      EndPastPlain(o, t[1..], s);
      assert (t + s)[1..] == t[1..] + s;
    }
  }

  lemma EndPastOne(o: Options, c: char, rest: string)
    requires rest != ""
    ensures CsvEnd(o, EscapeQuoted(o, c) + rest, true) == Shift(|EscapeQuoted(o, c)|, CsvEnd(o, rest, true))
  {
    var text := EscapeQuoted(o, c) + rest;
    if c == o.quote || c == o.escape {
      assert text[0] == o.escape && text[1] == c && text[2..] == rest;
    } else {
      assert text[0] == c && text[1..] == rest;
    }
  }

  lemma ShiftShift(m: nat, n: nat, k: Option<nat>)
    ensures Shift(m, Shift(n, k)) == Shift(m + n, k)
  {
  }

  lemma {:induction false} EndPastBody(o: Options, v: string, tail: string)
    requires tail != ""
    ensures CsvEnd(o, EscapeBody(o, v) + tail, true) == Shift(|EscapeBody(o, v)|, CsvEnd(o, tail, true))
    decreases |v|
  {
    if v == "" {
      assert EscapeBody(o, v) + tail == tail;
    } else {
      var first, more := EscapeQuoted(o, v[0]), EscapeBody(o, v[1..]);
      EndPastBody(o, v[1..], tail);
      EndPastOne(o, v[0], more + tail);
      Associate(first, more, tail);
      ShiftShift(|first|, |more|, CsvEnd(o, tail, true));
    }
  }

  lemma EndPastClose(o: Options, s: string)
    requires s != "" && s[0] != o.quote
    ensures CsvEnd(o, [o.quote] + s, true) == Shift(1, CsvEnd(o, s, false))
  {
    var text := [o.quote] + s;
    assert text[1..] == s && text[1] == s[0];
  }

  lemma EndPastOpen(o: Options, inside: string)
    ensures CsvEnd(o, [o.quote] + inside, false) == Shift(1, CsvEnd(o, inside, true))
  {
    assert ([o.quote] + inside)[1..] == inside;
  }

  /** From just inside the opening quote to just past the closing one. */
  lemma EndPastRest(o: Options, v: string, tail: string, s: string)
    requires tail == [o.quote] + s && s != "" && s[0] != o.quote
    ensures CsvEnd(o, EscapeBody(o, v) + tail, true) == Shift(|EscapeBody(o, v)| + 1, CsvEnd(o, s, false))
  {
    EndPastClose(o, s);
    EndPastBody(o, v, tail);
    ShiftShift(|EscapeBody(o, v)|, 1, CsvEnd(o, s, false));
  }

  lemma EndPastQuoted(o: Options, v: string, inside: string, s: string)
    requires inside == EscapeBody(o, v) + ([o.quote] + s) && s != "" && s[0] != o.quote
    ensures CsvEnd(o, [o.quote] + inside, false) == Shift(|EscapeBody(o, v)| + 2, CsvEnd(o, s, false))
  {
    EndPastOpen(o, inside);
    EndPastRest(o, v, [o.quote] + s, s);
    ShiftShift(1, |EscapeBody(o, v)| + 1, CsvEnd(o, s, false));
  }

  lemma EndPastField(o: Options, f: Field, s: string)
    requires CsvSafe(o) && s != "" && s[0] != o.quote
    ensures CsvEnd(o, CsvField(o, f) + s, false) == Shift(|CsvField(o, f)|, CsvEnd(o, s, false))
  {
    if f.Some? && NeedsQuotes(o, f.value) {
      QuotedText(o, f.value, s);
      EndPastQuoted(o, f.value, EscapeBody(o, f.value) + ([o.quote] + s), s);
    } else {
      EndPastPlain(o, CsvField(o, f), s);
    }
  }

  lemma QuotedText(o: Options, v: string, s: string)
    ensures [o.quote] + EscapeBody(o, v) + [o.quote] + s == [o.quote] + (EscapeBody(o, v) + ([o.quote] + s))
  {
    Associate([o.quote] + EscapeBody(o, v), [o.quote], s);
    Associate([o.quote], EscapeBody(o, v), [o.quote] + s);
  }

  lemma {:induction false} EndAtNewline(o: Options, row: Row, tail: string)
    requires CsvSafe(o) && tail != "" && tail[0] == '\n'
    ensures CsvEnd(o, Body(o, row) + tail, false) == Some(|Body(o, row)|)
    decreases |row|
  {
    if row == [] {
      assert Body(o, row) + tail == tail;
    } else if |row| == 1 {
      EndPastField(o, row[0], tail);
    } else {
      EndAtNewline(o, row[1..], tail);
      EndNext(o, row[0], Body(o, row[1..]), tail);
    }
  }

  lemma EndNext(o: Options, f: Field, body: string, tail: string)
    requires CsvSafe(o) && CsvEnd(o, body + tail, false) == Some(|body|)
    ensures CsvEnd(o, (CsvField(o, f) + [o.delimiter] + body) + tail, false) == Some(|CsvField(o, f) + [o.delimiter] + body|)
  {
    EndPastDelimiter(o, f, body + tail);
    Associate(CsvField(o, f) + [o.delimiter], body, tail);
    Associate(CsvField(o, f), [o.delimiter], body + tail);
  }

  lemma EndPastDelimiter(o: Options, f: Field, rest: string)
    requires CsvSafe(o)
    ensures CsvEnd(o, CsvField(o, f) + ([o.delimiter] + rest), false) == Shift(|CsvField(o, f)| + 1, CsvEnd(o, rest, false))
  {
    var after := [o.delimiter] + rest;
    assert after[1..] == rest;
    EndPastField(o, f, after);
  }

  lemma {:induction false} FieldsPastPlain(o: Options, t: string, s: string, current: string, quoted: bool)
    requires o.quote !in t && o.delimiter !in t
    ensures CsvFields(o, t + s, current, quoted, false) == CsvFields(o, s, current + t, quoted, false)
    decreases |t|
  {
    if t == "" {
      assert t + s == s && current + t == current;
    } else {
      FieldsPastPlain(o, t[1..], s, current + [t[0]], quoted);
      assert (t + s)[1..] == t[1..] + s;
      assert current + [t[0]] + t[1..] == current + t;
    }
  }

  lemma FieldsPastOne(o: Options, c: char, rest: string, current: string)
    ensures CsvFields(o, EscapeQuoted(o, c) + rest, current, true, true) == CsvFields(o, rest, current + [c], true, true)
  {
    var text := EscapeQuoted(o, c) + rest;
    if c == o.quote || c == o.escape {
      assert text[0] == o.escape && text[1] == c && text[2..] == rest;
    } else {
      assert text[0] == c && text[1..] == rest;
    }
  }

  lemma {:induction false} FieldsPastBody(o: Options, v: string, tail: string, current: string)
    ensures CsvFields(o, EscapeBody(o, v) + tail, current, true, true) == CsvFields(o, tail, current + v, true, true)
    decreases |v|
  {
    if v == "" {
      assert EscapeBody(o, v) + tail == tail && current + v == current;
    } else {
      FieldsPastBody(o, v[1..], tail, current + [v[0]]);
      FieldsPastOne(o, v[0], EscapeBody(o, v[1..]) + tail, current);
      Associate(EscapeQuoted(o, v[0]), EscapeBody(o, v[1..]), tail);
      Associate(current, [v[0]], v[1..]);
      assert [v[0]] + v[1..] == v;
    }
  }

  lemma FieldsPastClose(o: Options, s: string, current: string)
    requires s == "" || s[0] != o.quote
    ensures CsvFields(o, [o.quote] + s, current, true, true) == CsvFields(o, s, current, true, false)
  {
    var text := [o.quote] + s;
    assert text[1..] == s;
  }

  lemma FieldsPastField(o: Options, f: Field, s: string)
    requires CsvSafe(o) && (s == "" || s[0] == o.delimiter)
    ensures CsvFields(o, CsvField(o, f) + s, "", false, false) ==
            [f] + if s == "" then [] else CsvFields(o, s[1..], "", false, false)
  {
    if f.Some? && NeedsQuotes(o, f.value) {
      FieldsPastQuoted(o, f.value, s);
      QuotedText(o, f.value, s);
      FieldEnds(o, s, f.value, true);
    } else {
      FieldsPastPlain(o, CsvField(o, f), s, "", false);
      assert "" + CsvField(o, f) == CsvField(o, f);
      FieldEnds(o, s, CsvField(o, f), false);
    }
  }

  lemma FieldsPastQuoted(o: Options, v: string, s: string)
    requires CsvSafe(o) && (s == "" || s[0] == o.delimiter)
    ensures CsvFields(o, [o.quote] + (EscapeBody(o, v) + ([o.quote] + s)), "", false, false) ==
            CsvFields(o, s, v, true, false)
  {
    var inside := EscapeBody(o, v) + ([o.quote] + s);
    assert ([o.quote] + inside)[1..] == inside;
    FieldsPastBody(o, v, [o.quote] + s, "");
    FieldsPastClose(o, s, v);
    assert "" + v == v;
  }

  lemma FieldEnds(o: Options, s: string, current: string, quoted: bool)
    requires CsvSafe(o) && (s == "" || s[0] == o.delimiter)
    ensures CsvFields(o, s, current, quoted, false) ==
            [CsvValue(o, current, quoted)] + if s == "" then [] else CsvFields(o, s[1..], "", false, false)
  {
  }

  lemma {:induction false} FieldsOfBody(o: Options, row: Row)
    requires CsvSafe(o) && row != []
    ensures CsvFields(o, Body(o, row), "", false, false) == row
    decreases |row|
  {
    if |row| == 1 {
      FieldsPastField(o, row[0], "");
      assert CsvField(o, row[0]) + "" == Body(o, row);
    } else {
      FieldsOfBody(o, row[1..]);
      var after := [o.delimiter] + Body(o, row[1..]);
      FieldsPastField(o, row[0], after);
      assert Body(o, row) == CsvField(o, row[0]) + after;
      assert after[1..] == Body(o, row[1..]);
      assert [row[0]] + row[1..] == row;
    }
  }

  /** A quoted field at the end of a record reads the same without its closing quote. */
  lemma FieldsUnclosed(o: Options, v: string)
    requires CsvSafe(o)
    ensures CsvFields(o, [o.quote] + EscapeBody(o, v), "", false, false) == [Some(v)]
  {
    assert ([o.quote] + EscapeBody(o, v))[1..] == EscapeBody(o, v);
    FieldsPastBody(o, v, "", "");
    assert EscapeBody(o, v) + "" == EscapeBody(o, v) && "" + v == v;
  }

  /** A line ends in a carriage return only where that is the quote that closes its last field, and then
      it reads the same without it. */
  ghost predicate EndsWell(o: Options, body: string, row: Row) {
    WithoutCR(body) == body || ClosesWell(o, body, row)
  }

  ghost predicate ClosesWell(o: Options, body: string, row: Row) {
    && body != "" && body[|body| - 1] == o.quote
    && var cut := body[..|body| - 1];
       o.quote in cut && CsvFields(o, cut, "", false, false) == row
  }

  lemma OneFieldEndsWell(o: Options, f: Field)
    requires CsvSafe(o)
    ensures EndsWell(o, CsvField(o, f), [f])
  {
    var t := CsvField(o, f);
    if f.Some? && NeedsQuotes(o, f.value) {
      var open := [o.quote] + EscapeBody(o, f.value);
      assert t[..|t| - 1] == open && open[0] == o.quote;
      FieldsUnclosed(o, f.value);
    } else if t != "" && f.Some? {
      assert t[|t| - 1] in f.value;
    }
  }

  lemma {:induction false} LineEndsWell(o: Options, row: Row)
    requires CsvSafe(o) && row != []
    ensures EndsWell(o, Body(o, row), row)
    decreases |row|
  {
    if |row| == 1 {
      OneFieldEndsWell(o, row[0]);
    } else {
      LineEndsWell(o, row[1..]);
      NextEndsWell(o, row[0], Body(o, row[1..]), row[1..]);
      assert [row[0]] + row[1..] == row;
    }
  }

  lemma NextEndsWell(o: Options, f: Field, tail: string, rest: Row)
    requires CsvSafe(o) && EndsWell(o, tail, rest)
    ensures EndsWell(o, CsvField(o, f) + [o.delimiter] + tail, [f] + rest)
  {
    var t := CsvField(o, f) + [o.delimiter] + tail;
    assert t[|t| - 1] == if tail == "" then o.delimiter else tail[|tail| - 1];
    if WithoutCR(tail) != tail {
      NextClosesWell(o, f, tail, rest);
    }
  }

  lemma NextClosesWell(o: Options, f: Field, tail: string, rest: Row)
    requires CsvSafe(o) && ClosesWell(o, tail, rest)
    ensures ClosesWell(o, CsvField(o, f) + [o.delimiter] + tail, [f] + rest)
  {
    var cut := tail[..|tail| - 1];
    var after := [o.delimiter] + cut;
    CutLast(CsvField(o, f), o.delimiter, tail);
    assert after[1..] == cut;
    FieldsPastField(o, f, after);
    InAppend(o.quote, CsvField(o, f), o.delimiter, cut);
  }

  lemma CutLast(a: string, d: char, tail: string)
    requires tail != ""
    ensures var t := a + [d] + tail;
            t[..|t| - 1] == a + ([d] + tail[..|tail| - 1]) && t[|t| - 1] == tail[|tail| - 1]
  {
  }

  lemma InAppend(q: char, a: string, d: char, b: string)
    requires q in b
    ensures q in a + ([d] + b)
  {
    var k :| 0 <= k < |b| && b[k] == q;
    assert (a + ([d] + b))[|a| + 1 + k] == q;
  }

  lemma CsvReadable(o: Options, row: Row)
    requires CsvSafe(o) && row != []
    ensures Readable(o, row)
  {
    forall rest: string
      ensures RecordEnd(o, Body(o, row) + "\n" + rest) == Some(|Body(o, row)|)
    {
      EndAtNewline(o, row, "\n" + rest);
      assert Body(o, row) + "\n" + rest == Body(o, row) + ("\n" + rest);
    }
    CsvReads(o, row);
  }

  lemma CsvReads(o: Options, row: Row)
    requires CsvSafe(o) && row != []
    ensures WithoutCR(Body(o, row)) == END_MARKER <==> IsMarker(o, row)
    ensures Fields(o, WithoutCR(Body(o, row))) == Seen(o, row)
  {
    LineEndsWell(o, row);
    FieldsOfBody(o, row);
    assert Seen(o, row) == row;
    EndRead(o, Body(o, row), row);
  }

  /** What the decoder makes of such a line. */
  lemma EndRead(o: Options, body: string, row: Row)
    requires EndsWell(o, body, row) && CsvFields(o, body, "", false, false) == row
    ensures WithoutCR(body) == END_MARKER <==> body == END_MARKER
    ensures CsvFields(o, WithoutCR(body), "", false, false) == row
  {
    if WithoutCR(body) != body {
      assert o.quote == '\r' && o.quote !in END_MARKER;
    }
  }

  /** A whole COPY: a header line if the options ask for one, and the rows. */
  function Copied(o: Options, names: Row, rows: seq<Row>): string {
    (if o.header then Line(o, names) else "") + Lines(o, rows)
  }

  lemma CopiedLines(o: Options, names: Row, rows: seq<Row>)
    ensures Copied(o, names, rows) == Lines(o, if o.header then [names] + rows else rows)
  {
    assert ([names] + rows)[1..] == rows;
    assert "" + Lines(o, rows) == Lines(o, rows);
  }

  /** What decoding a whole COPY of readable lines gives: the rows, if and only if no line is the end
      marker and no value is taken for NULL; behind a header line that is the marker, no rows. */
  lemma DecodeCopied(o: Options, names: Row, rows: seq<Row>)
    requires AllReadable(o, rows) && (o.header ==> Readable(o, names))
    ensures Decode(o, Copied(o, names, rows)) == rows <==>
            if o.header && IsMarker(o, names) then rows == []
            else forall i :: 0 <= i < |rows| ==> Survives(o, rows[i])
  {
    CopiedLines(o, names, rows);
    KeptAll(o, rows);
    if o.header {
      var all := [names] + rows;
      assert all[1..] == rows;
      DecodeLines(o, all);
      assert [] + Kept(o, rows, false) == Kept(o, rows, false);
    } else {
      DecodeLines(o, rows);
    }
  }

  /** CSV: rows of at least one field come back as they were, NULL apart from the empty string, with or
      without a header line, if and only if no line is the end marker; behind a header that is, only
      no rows at all. */
  lemma CsvRoundTrip(o: Options, names: Row, rows: seq<Row>)
    requires CsvSafe(o) && names != []
    requires forall i :: 0 <= i < |rows| ==> rows[i] != []
    ensures Decode(o, Copied(o, names, rows)) == rows <==>
            if o.header && IsMarker(o, names) then rows == []
            else forall i :: 0 <= i < |rows| ==> !IsMarker(o, rows[i])
  {
    CsvReadable(o, names);
    forall i | 0 <= i < |rows|
      ensures Readable(o, rows[i])
    {
      CsvReadable(o, rows[i]);
    }
    DecodeCopied(o, names, rows);
  }

  /** With the default options a row of the one value `\.` is lost. */
  lemma MarkerRowIsLost(o: Options, row: Row)
    requires o == Options(true, ',', "", false, '"', '"') && row == [Some(END_MARKER)]
    ensures Decode(o, Copied(o, row, [row])) != [row]
  {
    assert Body(o, row) == END_MARKER;
    assert IsMarker(o, [row][0]);
    CsvRoundTrip(o, row, [row]);
  }

  // ---- The two scanners ----

  /** Where the field scanner stands: the fields it has ended, the text of the current one, whether
      that was quoted, and whether it is inside quotes. */
  datatype Scan = Scan(done: Row, current: string, quoted: bool, inQuotes: bool)

  /** The field scanner over a text. */
  function Scanned(o: Options, s: string, at: Scan): Scan
    decreases |s|
  {
    if s == "" then at
    else if at.inQuotes then
      if o.escape != o.quote && s[0] == o.escape && |s| > 1 then Scanned(o, s[2..], at.(current := at.current + [s[1]]))
      else if s[0] == o.quote then
        if o.escape == o.quote && |s| > 1 && s[1] == o.quote then Scanned(o, s[2..], at.(current := at.current + [o.quote]))
        else Scanned(o, s[1..], at.(inQuotes := false))
      else Scanned(o, s[1..], at.(current := at.current + [s[0]]))
    else if s[0] == o.quote then Scanned(o, s[1..], at.(quoted := true, inQuotes := true))
    else if s[0] == o.delimiter then
      Scanned(o, s[1..], Scan(at.done + [CsvValue(o, at.current, at.quoted)], "", false, false))
    else Scanned(o, s[1..], at.(current := at.current + [s[0]]))
  }

  /** The fields of a record are what the scanner has ended at its end, and the current one. */
  lemma {:induction false} FieldsAreScanned(o: Options, s: string, at: Scan)
    ensures var end := Scanned(o, s, at);
            at.done + CsvFields(o, s, at.current, at.quoted, at.inQuotes) ==
            end.done + [CsvValue(o, end.current, end.quoted)]
    decreases |s|
  {
    if s != "" {
      if at.inQuotes {
        if o.escape != o.quote && s[0] == o.escape && |s| > 1 {
          FieldsAreScanned(o, s[2..], at.(current := at.current + [s[1]]));
        } else if s[0] == o.quote {
          if o.escape == o.quote && |s| > 1 && s[1] == o.quote {
            FieldsAreScanned(o, s[2..], at.(current := at.current + [o.quote]));
          } else {
            FieldsAreScanned(o, s[1..], at.(inQuotes := false));
          }
        } else {
          FieldsAreScanned(o, s[1..], at.(current := at.current + [s[0]]));
        }
      } else if s[0] == o.quote {
        FieldsAreScanned(o, s[1..], at.(quoted := true, inQuotes := true));
      } else if s[0] == o.delimiter {
        var value := CsvValue(o, at.current, at.quoted);
        FieldsAreScanned(o, s[1..], Scan(at.done + [value], "", false, false));
        Associate(at.done, [value], CsvFields(o, s[1..], "", false, false));
      } else {
        FieldsAreScanned(o, s[1..], at.(current := at.current + [s[0]]));
      }
    }
  }

  /** With a newline for a quote no record ever ends. */
  lemma {:induction false} NewlineQuoteNeverEnds(o: Options, s: string, inQuotes: bool)
    requires o.quote == '\n'
    ensures CsvEnd(o, s, inQuotes).None?
    decreases |s|
  {
    if s != "" {
      NewlineQuoteNeverEnds(o, s[1..], true);
      NewlineQuoteNeverEnds(o, s[1..], false);
      if |s| > 1 {
        NewlineQuoteNeverEnds(o, s[2..], true);
      }
    }
  }

  /** The record splitter ends a record at a newline, the first it can, if and only if the field
      scanner, having read the record up to there, is outside quotes and the newline is not a quote. */
  lemma {:induction false} ScannersAgree(o: Options, s: string, at: Scan, j: nat)
    requires j < |s| && s[j] == '\n'
    requires CsvEnd(o, s, at.inQuotes).None? || j <= CsvEnd(o, s, at.inQuotes).value
    ensures CsvEnd(o, s, at.inQuotes) == Some(j) <==> o.quote != '\n' && !Scanned(o, s[..j], at).inQuotes
    decreases |s|, 1
  {
    if o.quote == '\n' {
      NewlineQuoteNeverEnds(o, s, at.inQuotes);
    } else if j > 0 {
      assert s[..j][1..] == s[1..][..j - 1];
      if at.inQuotes {
        ScannersAgreeInside(o, s, at, j);
      } else if s[0] == o.quote {
        ScannersAgree(o, s[1..], at.(quoted := true, inQuotes := true), j - 1);
      } else if s[0] == o.delimiter {
        ScannersAgree(o, s[1..], Scan(at.done + [CsvValue(o, at.current, at.quoted)], "", false, false), j - 1);
      } else {
        ScannersAgree(o, s[1..], at.(current := at.current + [s[0]]), j - 1);
      }
    }
  }

  lemma {:induction false} ScannersAgreeInside(o: Options, s: string, at: Scan, j: nat)
    requires 0 < j < |s| && s[j] == '\n' && o.quote != '\n' && at.inQuotes
    requires CsvEnd(o, s, true).None? || j <= CsvEnd(o, s, true).value
    ensures CsvEnd(o, s, true) == Some(j) <==> !Scanned(o, s[..j], at).inQuotes
    decreases |s|, 0
  {
    assert s[..j][1..] == s[1..][..j - 1];
    if o.escape != o.quote && s[0] == o.escape {
      if j > 1 {
        assert s[..j][2..] == s[2..][..j - 2];
        ScannersAgree(o, s[2..], at.(current := at.current + [s[1]]), j - 2);
      } else {
        assert s[..j][1..] == "";
      }
    } else if s[0] == o.quote && o.escape == o.quote && s[1] == o.quote {
      assert s[..j][2..] == s[2..][..j - 2];
      ScannersAgree(o, s[2..], at.(current := at.current + [o.quote]), j - 2);
    } else if s[0] == o.quote {
      ScannersAgree(o, s[1..], at.(inQuotes := false), j - 1);
    } else {
      ScannersAgree(o, s[1..], at.(current := at.current + [s[0]]), j - 1);
    }
  }
}

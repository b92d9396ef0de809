/** Streams the encoder does not write: records cut at delimiters of the client's own, quotes around any
    part of a CSV field, lines that end in CR LF, and a last line that does not end. */
module CopyStreams {
  import opened Prelude
  import opened Copy
  import opened CopyRoundTrip
  import opened CopyText
  import opened CopySpelling

  // ---- Text records ----

  function Join(d: char, texts: seq<string>): string {
    if texts == [] then "" else if |texts| == 1 then texts[0] else texts[0] + [d] + Join(d, texts[1..])
  }

  /** The last field of a record may also end in half a pair. */
  predicate Loose(d: char, s: string) {
    Whole(d, s) || (s != "" && s[|s| - 1] == '\\' && Whole(d, s[..|s| - 1]))
  }

  predicate Cut(d: char, texts: seq<string>) {
    texts != [] && Loose(d, texts[|texts| - 1]) && forall i :: 0 <= i < |texts| - 1 ==> Whole(d, texts[i])
  }

  lemma RawLast(d: char, s: string)
    requires Loose(d, s) && d != '\\'
    ensures RawFields(d, s, "") == [s]
  {
    if Whole(d, s) {
      RawPastWhole(d, s, "", "");
      assert s + "" == s && "" + s == s;
    } else {
      var front := s[..|s| - 1];
      RawPastWhole(d, front, ['\\'], "");
      assert s == front + ['\\'] && "" + front == front;
      assert RawFields(d, ['\\'], front) == [front + ['\\']];
    }
  }

  /** Texts without a delimiter outside their backslash pairs, joined by it, are split into those texts. */
  lemma {:induction false} JoinedAreSplit(d: char, texts: seq<string>)
    requires Cut(d, texts) && d != '\\'
    ensures RawFields(d, Join(d, texts), "") == texts
    decreases |texts|
  {
    if |texts| == 1 {
      RawLast(d, texts[0]);
    } else {
      JoinedAreSplit(d, texts[1..]);
      RawNextField(d, texts[0], Join(d, texts[1..]));
    }
  }

  lemma JoinCons(d: char, text: string, rest: seq<string>)
    requires Whole(d, text) && Cut(d, rest)
    ensures Join(d, [text] + rest) == text + [d] + Join(d, rest) && Cut(d, [text] + rest)
  {
    var texts := [text] + rest;
    assert texts[1..] == rest;
    forall i | 0 <= i < |texts| - 1
      ensures Whole(d, texts[i])
    {
      if i > 0 {
        assert texts[i] == rest[i - 1];
      }
    }
  }

  lemma WholeMore(d: char, current: string, piece: string)
    requires Whole(d, current)
    requires (|piece| == 2 && piece[0] == '\\') || (|piece| == 1 && piece[0] != '\\' && piece[0] != d)
    ensures Whole(d, current + piece)
  {
    assert piece[|piece|..] == "";
    WholeAppend(d, current, piece);
  }

  lemma Regroup(current: string, s: string, n: nat)
    requires n <= |s|
    ensures current + s[..n] + s[n..] == current + s
  {
  }

  lemma HalfPair(d: char, current: string)
    requires Whole(d, current) && d != '\\'
    ensures RawFields(d, ['\\'], current) == [current + ['\\']] && Loose(d, current + ['\\'])
  {
    assert (current + ['\\'])[..|current|] == current;
  }

  /** And every record is such texts joined, so the split loses nothing and cuts where it should. */
  lemma {:induction false} SplitAreJoined(d: char, s: string, current: string)
    requires Whole(d, current)
    ensures Join(d, RawFields(d, s, current)) == current + s && Cut(d, RawFields(d, s, current))
    decreases |s|
  {
    if s == "" {
      assert current + s == current;
    } else if s[0] == '\\' && |s| > 1 {
      WholeMore(d, current, s[..2]);
      SplitAreJoined(d, s[2..], current + s[..2]);
      Regroup(current, s, 2);
    } else if s[0] == d {
      SplitAreJoined(d, s[1..], "");
      JoinCons(d, current, RawFields(d, s[1..], ""));
      assert "" + s[1..] == s[1..] && s[..1] == [d];
      Regroup(current, s, 1);
    } else if s[0] == '\\' {
      assert s == ['\\'];
      HalfPair(d, current);
    } else {
      assert s[..1] == [s[0]];
      WholeMore(d, current, s[..1]);
      SplitAreJoined(d, s[1..], current + s[..1]);
      Regroup(current, s, 1);
    }
  }

  /** A text record, whoever wrote it: a field is NULL exactly when its text, before any escape in it is
      read, is the null string, and otherwise what its spelling means. */
  lemma RecordReads(o: Options, fields: seq<seq<Piece>>, i: nat)
    requires !o.csv && o.delimiter != '\\' && i < |fields|
    requires forall j :: 0 <= j < |fields| ==> AllFit(fields[j])
    requires Cut(o.delimiter, Spellings(fields))
    ensures var row := Fields(o, Join(o.delimiter, Spellings(fields)));
            && |row| == |fields|
            && row[i] == if Spelled(fields[i]) == o.nullString then None else Some(Meant(fields[i]))
  {
    JoinedAreSplit(o.delimiter, Spellings(fields));
    EverySpellingReads(fields[i]);
  }

  function Spellings(fields: seq<seq<Piece>>): seq<string> {
    seq(|fields|, i requires 0 <= i < |fields| => Spelled(fields[i]))
  }

  // ---- The last line ----

  predicate EndsInLineEnd(s: string) {
    s != "" && (s[|s| - 1] == '\r' || s[|s| - 1] == '\n')
  }

  lemma {:induction false} CsvEndOneMore(o: Options, s: string, inQuotes: bool)
    requires CsvEnd(o, s, inQuotes).None?
    ensures CsvEnd(o, s + "\n", inQuotes) in {None, Some(|s|)}
    decreases |s|
  {
    var t := s + "\n";
    if s != "" {
      assert t[1..] == s[1..] + "\n";
      if |s| > 1 {
        assert t[2..] == s[2..] + "\n";
      }
      if !inQuotes {
        CsvEndOneMore(o, s[1..], s[0] == o.quote);
      } else if o.escape != o.quote && s[0] == o.escape {
        if |s| == 1 {
          assert t[2..] == "";
        } else {
          CsvEndOneMore(o, s[2..], true);
        }
      } else if s[0] == o.quote {
        if o.escape != o.quote {
          CsvEndOneMore(o, s[1..], false);
        } else if |s| == 1 {
          assert t[2..] == "";
        } else if s[1] == o.quote {
          CsvEndOneMore(o, s[2..], true);
        } else {
          CsvEndOneMore(o, s[1..], false);
        }
      } else {
        CsvEndOneMore(o, s[1..], true);
      }
    }
  }

  lemma RecordEndOneMore(o: Options, s: string)
    requires RecordEnd(o, s).None?
    ensures RecordEnd(o, s + "\n") in {None, Some(|s|)}
  {
    if o.csv {
      CsvEndOneMore(o, s, false);
    }
  }

  lemma StripNone(s: string)
    requires !EndsInLineEnd(s)
    ensures StripNewlines(s) == s && StripNewlines(s + "\n") == s
  {
    assert (s + "\n")[..|s|] == s;
  }

  lemma FinishPending(o: Options, d: Dec)
    requires RecordEnd(o, d.pending).None? && !d.ended
    ensures var leftover := StripNewlines(d.pending);
            Finish(o, d) == if leftover == "" then [] else Record(o, d.(pending := ""), leftover).rows
  {
    assert d.pending + "" == d.pending;
  }

  lemma LastTaken(o: Options, d: Dec)
    requires !d.ended && RecordEnd(o, d.pending + "\n") == Some(|d.pending|)
    ensures var one := Record(o, d.(pending := ""), d.pending);
            Feed(o, d, "\n") == one && one.dec.pending == ""
  {
    var p := d.pending;
    var e := d.(pending := p + "\n");
    assert (p + "\n")[..|p|] == p && (p + "\n")[|p| + 1..] == "";
    var one := TakeRecord(o, e);
    assert one == Record(o, d.(pending := ""), p);
    DrainOne(o, e);
    NothingPending(o, one.dec);
    assert one.rows + [] == one.rows;
  }

  /** Text that is left at the end and holds no whole record is one record, with or without its newline. */
  lemma FinishOneMore(o: Options, d: Dec)
    requires RecordEnd(o, d.pending).None? && !d.ended && d.pending != "" && !EndsInLineEnd(d.pending)
    ensures var fed := Feed(o, d, "\n");
            Finish(o, d) == fed.rows + Finish(o, fed.dec)
  {
    var p := d.pending;
    var e := d.(pending := p + "\n");
    FinishPending(o, d);
    StripNone(p);
    RecordEndOneMore(o, p);
    if RecordEnd(o, p + "\n").Some? {
      LastTaken(o, d);
      var one := Record(o, d.(pending := ""), p);
      NothingPending(o, one.dec);
      assert one.rows + [] == one.rows;
    } else {
      FinishPending(o, e);
    }
  }

  /** The end of a text: all of it, or what stands behind one of its newlines. */
  predicate EndOf(s: string, t: string) {
    && |s| <= |t| && t[|t| - |s|..] == s
    && (|s| < |t| ==> t[|t| - |s| - 1] == '\n')
  }

  lemma EndOfEnd(r: string, t: string, k: nat)
    requires k < |t| && t[k] == '\n' && EndOf(r, t[k + 1..])
    ensures EndOf(r, t)
  {
    assert t[|t| - |r|..] == t[k + 1..][|t| - k - 1 - |r|..];
    assert |r| < |t| - k - 1 ==> t[|t| - |r| - 1] == t[k + 1..][|t| - k - 1 - |r| - 1];
  }

  /** What a drain leaves is at an end, or holds no whole record and is the end of what there was. */
  lemma {:induction false} DrainLeaves(o: Options, d: Dec)
    ensures var e := Drain(o, d).dec;
            if e.ended then e.pending == "" else RecordEnd(o, e.pending).None? && EndOf(e.pending, d.pending)
    decreases |d.pending|
  {
    if !d.ended && RecordEnd(o, d.pending).Some? {
      var one := TakeRecord(o, d);
      var k := RecordEnd(o, d.pending).value;
      DrainLeaves(o, one.dec);
      DrainOne(o, d);
      TakeLeaves(o, d, k);
      if !Drain(o, d).dec.ended {
        EndOfEnd(Drain(o, d).dec.pending, d.pending, k);
      }
    }
  }

  lemma TakeLeaves(o: Options, d: Dec, k: nat)
    requires RecordEnd(o, d.pending) == Some(k)
    ensures TakeRecord(o, d).dec.pending == d.pending[k + 1..]
  {
  }

  lemma DecodeFed(o: Options, s: string)
    ensures var fed := Feed(o, Fresh(o), s); Decode(o, s) == fed.rows + Finish(o, fed.dec)
  {
    DecodeIsOneDrain(o, s);
    assert "" + s == s;
  }

  /** At the end of the data, or in the middle of a record. */
  predicate Midway(o: Options, d: Dec) {
    d.ended || (RecordEnd(o, d.pending).None? && d.pending != "" && !EndsInLineEnd(d.pending))
  }

  lemma FedMidway(o: Options, s: string)
    requires s != "" && !EndsInLineEnd(s)
    ensures Midway(o, Feed(o, Fresh(o), s).dec)
  {
    assert "" + s == s;
    DrainLeaves(o, Fresh(o).(pending := s));
    EndIsMidway(s, Feed(o, Fresh(o), s).dec.pending);
  }

  lemma EndIsMidway(t: string, s: string)
    requires t != "" && !EndsInLineEnd(t)
    ensures EndOf(s, t) ==> s != "" && !EndsInLineEnd(s)
  {
    if EndOf(s, t) && s != "" {
      assert s[|s| - 1] == t[|t| - 1];
    }
  }

  lemma EndedStays(o: Options, d: Dec, text: string)
    requires d.ended
    ensures Feed(o, d, text) == Step([], d.(pending := "")) && Finish(o, d) == []
  {
  }

  /** What is left behind reads the same with a newline behind it. */
  lemma FinishEither(o: Options, d: Dec)
    requires Midway(o, d)
    ensures var more := Feed(o, d, "\n"); Finish(o, d) == more.rows + Finish(o, more.dec)
  {
    if d.ended {
      EndedStays(o, d, "\n");
      EndedStays(o, d.(pending := ""), "");
    } else {
      FinishOneMore(o, d);
    }
  }

  /** The last line needs no newline: a stream that ends in neither CR nor LF gives the same rows as the
      same stream with a newline behind it, in both formats and under any options. */
  lemma LastLineNeedsNoNewline(o: Options, s: string)
    requires s != "" && !EndsInLineEnd(s)
    ensures Decode(o, s + "\n") == Decode(o, s)
  {
    DecodeFed(o, s);
    DecodeFed(o, s + "\n");
    FeedTwice(o, Fresh(o), s, "\n");
    FedMidway(o, s);
    var fed := Feed(o, Fresh(o), s);
    FinishEither(o, fed.dec);
    var more := Feed(o, fed.dec, "\n");
    Associate(fed.rows, more.rows, Finish(o, more.dec));
  }

  // ---- CR LF ----

  function CrLf(s: string): string {
    if s == "" then "" else (if s[0] == '\n' then "\r\n" else [s[0]]) + CrLf(s[1..])
  }

  lemma {:induction false} CrLfEnd(s: string)
    ensures TextEnd(s).None? ==> CrLf(s) == s
    ensures TextEnd(s).Some? ==>
              var k := TextEnd(s).value;
              CrLf(s) == s[..k] + ("\r\n" + CrLf(s[k + 1..]))
  {
    if s != "" && s[0] != '\n' {
      CrLfEnd(s[1..]);
      if TextEnd(s).Some? {
        var k := TextEnd(s[1..]).value;
        assert s[..k + 1] == [s[0]] + s[1..][..k] && s[k + 2..] == s[1..][k + 1..];
      } else {
        assert s == [s[0]] + s[1..];
      }
    }
  }

  lemma EndAt(a: string, b: string)
    requires '\n' !in a
    ensures TextEnd(a + ("\r\n" + b)) == Some(|a| + 1)
  {
    var t := a + ("\r\n" + b);
    assert t[|a| + 1] == '\n' && forall i :: 0 <= i < |a| ==> t[i] == a[i];
    assert t[|a|] == '\r';
  }

  lemma CrLfCut(s: string)
    requires '\r' !in s && TextEnd(s).Some?
    ensures var k := TextEnd(s).value;
            var t := CrLf(s);
            TextEnd(t) == Some(k + 1) && t[..k + 1] == s[..k] + "\r" && t[k + 2..] == CrLf(s[k + 1..])
  {
    var k := TextEnd(s).value;
    CrLfEnd(s);
    assert '\n' !in s[..k];
    EndAt(s[..k], CrLf(s[k + 1..]));
    CutAt(s[..k], CrLf(s[k + 1..]));
  }

  lemma CutAt(a: string, b: string)
    ensures var t := a + ("\r\n" + b); t[..|a| + 1] == a + "\r" && t[|a| + 2..] == b
  {
  }

  lemma SameRecord(o: Options, d: Dec, r: string, p: string, s: string, q: string)
    requires WithoutCR(s) == WithoutCR(r)
    ensures var one := Record(o, d.(pending := p), r);
            Record(o, d.(pending := q), s) == Step(one.rows, one.dec.(pending := q)) && one.dec.pending == p
  {
  }

  /** No carriage return, and in CSV no quote: every newline ends a line. */
  predicate Unquoted(o: Options, s: string) {
    '\r' !in s && (o.csv ==> o.quote !in s && o.quote != '\r')
  }

  lemma {:induction false} CsvEndPlain(o: Options, s: string)
    requires o.quote !in s
    ensures CsvEnd(o, s, false) == TextEnd(s)
  {
    if s != "" && s[0] != '\n' {
      CsvEndPlain(o, s[1..]);
    }
  }

  lemma {:induction false} CrLfAdds(s: string, c: char)
    requires c !in s && c != '\r'
    ensures c !in CrLf(s)
  {
    if s != "" {
      CrLfAdds(s[1..], c);
      assert "\r\n"[0] == '\r' && "\r\n"[1] == '\n';
    }
  }

  lemma UnquotedEnds(o: Options, s: string)
    requires Unquoted(o, s)
    ensures RecordEnd(o, s) == TextEnd(s) && RecordEnd(o, CrLf(s)) == TextEnd(CrLf(s))
  {
    if o.csv {
      CrLfAdds(s, o.quote);
      CsvEndPlain(o, s);
      CsvEndPlain(o, CrLf(s));
    }
  }

  lemma CrLfTake(o: Options, d: Dec, s: string)
    requires Unquoted(o, s) && TextEnd(s).Some?
    ensures RecordEnd(o, s).Some?
    ensures RecordEnd(o, CrLf(s)).Some?
    ensures var one := TakeRecord(o, d.(pending := s));
            && Unquoted(o, one.dec.pending)
            && TakeRecord(o, d.(pending := CrLf(s))) == Step(one.rows, one.dec.(pending := CrLf(one.dec.pending)))
  {
    var k := TextEnd(s).value;
    UnquotedEnds(o, s);
    CrLfCut(s);
    assert WithoutCR(s[..k] + "\r") == s[..k] == WithoutCR(s[..k]);
    SameRecord(o, d, s[..k], s[k + 1..], s[..k] + "\r", CrLf(s[k + 1..]));
  }

  lemma {:induction false} CrLfDrain(o: Options, d: Dec, s: string)
    requires Unquoted(o, s)
    ensures Drain(o, d.(pending := CrLf(s))) == Drain(o, d.(pending := s))
    decreases |s|
  {
    if !d.ended {
      CrLfEnd(s);
      UnquotedEnds(o, s);
      if TextEnd(s).Some? {
        var one := TakeRecord(o, d.(pending := s));
        CrLfTake(o, d, s);
        DrainOne(o, d.(pending := s));
        DrainOne(o, d.(pending := CrLf(s)));
        CrLfDrain(o, one.dec, one.dec.pending);
        assert one.dec.(pending := one.dec.pending) == one.dec;
      }
    }
  }

  /** Lines may end in CR LF: the rows are those of the same lines ended in LF, in CSV too where
      nothing is quoted. */
  lemma CrLfReadsTheSame(o: Options, s: string)
    requires Unquoted(o, s)
    ensures Decode(o, CrLf(s)) == Decode(o, s)
  {
    CrLfDrain(o, Dec("", false, o.header), s);
    DecodeIsOneDrain(o, s);
    DecodeIsOneDrain(o, CrLf(s));
  }

  // ---- CSV records ----

  /** A stretch of a CSV field inside or outside quotes. */
  datatype Segment = Outside(text: string) | Inside(text: string)

  function SegmentText(o: Options, g: Segment): string {
    match g
    case Outside(text) => text
    case Inside(text) => [o.quote] + (EscapeBody(o, text) + [o.quote])
  }

  function SegmentsText(o: Options, segments: seq<Segment>): string {
    if segments == [] then "" else SegmentText(o, segments[0]) + SegmentsText(o, segments[1..])
  }

  /** A quoted stretch is not followed by another: the two quotes between them would be one of the text. */
  predicate SegmentsFit(o: Options, segments: seq<Segment>) {
    segments != [] ==>
    && (segments[0].Outside? ==> o.quote !in segments[0].text && o.delimiter !in segments[0].text)
    && (segments[0].Inside? ==> SegmentsText(o, segments[1..]) == "" || SegmentsText(o, segments[1..])[0] != o.quote)
    && SegmentsFit(o, segments[1..])
  }

  function Together(segments: seq<Segment>): string {
    if segments == [] then "" else segments[0].text + Together(segments[1..])
  }

  predicate AnyInside(segments: seq<Segment>) {
    exists i :: 0 <= i < |segments| && segments[i].Inside?
  }

  lemma {:induction false} FieldsPastSegments(o: Options, segments: seq<Segment>, s: string, current: string, quoted: bool)
    requires SegmentsFit(o, segments) && (s == "" || s[0] != o.quote)
    ensures CsvFields(o, SegmentsText(o, segments) + s, current, quoted, false) ==
            CsvFields(o, s, current + Together(segments), quoted || AnyInside(segments), false)
    decreases |segments|
  {
    if segments == [] {
      assert "" + s == s && current + "" == current;
    } else {
      var g := segments[0];
      var rest := SegmentsText(o, segments[1..]) + s;
      assert SegmentsText(o, segments) + s == SegmentText(o, g) + rest;
      if g.Outside? {
        FieldsPastPlain(o, g.text, rest, current, quoted);
      } else {
        FieldsPastInside(o, g.text, rest, current, quoted);
      }
      FieldsPastSegments(o, segments[1..], s, current + g.text, quoted || g.Inside?);
      assert AnyInside(segments) <==> g.Inside? || AnyInside(segments[1..]) by {
        assert forall i :: 0 < i < |segments| ==> segments[i] == segments[1..][i - 1];
      }
      Associate(current, g.text, Together(segments[1..]));
    }
  }

  lemma FieldsPastInside(o: Options, text: string, rest: string, current: string, quoted: bool)
    requires rest == "" || rest[0] != o.quote
    ensures CsvFields(o, [o.quote] + (EscapeBody(o, text) + [o.quote]) + rest, current, quoted, false) ==
            CsvFields(o, rest, current + text, true, false)
  {
    var inside := EscapeBody(o, text) + ([o.quote] + rest);
    assert [o.quote] + (EscapeBody(o, text) + [o.quote]) + rest == [o.quote] + inside;
    assert ([o.quote] + inside)[1..] == inside;
    FieldsPastBody(o, text, [o.quote] + rest, current);
    FieldsPastClose(o, rest, current + text);
  }

  /** A field's value: NULL when no stretch of it is in quotes and it is the null string. */
  function SegmentsValue(o: Options, segments: seq<Segment>): Field {
    if !AnyInside(segments) && Together(segments) == o.nullString then None else Some(Together(segments))
  }

  function SegmentTexts(o: Options, fields: seq<seq<Segment>>): (texts: seq<string>)
    ensures |texts| == |fields|
  {
    seq(|fields|, i requires 0 <= i < |fields| => SegmentsText(o, fields[i]))
  }

  function SegmentValues(o: Options, fields: seq<seq<Segment>>): Row {
    seq(|fields|, i requires 0 <= i < |fields| => SegmentsValue(o, fields[i]))
  }

  lemma CsvNextField(o: Options, segments: seq<Segment>, rest: string)
    requires SegmentsFit(o, segments) && o.delimiter != o.quote
    ensures CsvFields(o, SegmentsText(o, segments) + [o.delimiter] + rest, "", false, false) ==
            [SegmentsValue(o, segments)] + CsvFields(o, rest, "", false, false)
  {
    var after := [o.delimiter] + rest;
    FieldsPastSegments(o, segments, after, "", false);
    Associate(SegmentsText(o, segments), [o.delimiter], rest);
    assert after[1..] == rest && "" + Together(segments) == Together(segments);
  }

  lemma CsvLastField(o: Options, segments: seq<Segment>)
    requires SegmentsFit(o, segments)
    ensures CsvFields(o, SegmentsText(o, segments), "", false, false) == [SegmentsValue(o, segments)]
  {
    FieldsPastSegments(o, segments, "", "", false);
    assert SegmentsText(o, segments) + "" == SegmentsText(o, segments) && "" + Together(segments) == Together(segments);
  }

  /** A CSV record, whoever wrote it: quotes may stand around any part of a field or none of it. */
  lemma {:induction false} CsvRecordReads(o: Options, fields: seq<seq<Segment>>)
    requires fields != [] && o.delimiter != o.quote
    requires forall i :: 0 <= i < |fields| ==> SegmentsFit(o, fields[i])
    ensures CsvFields(o, Join(o.delimiter, SegmentTexts(o, fields)), "", false, false) == SegmentValues(o, fields)
    decreases |fields|
  {
    assert SegmentValues(o, fields) == [SegmentsValue(o, fields[0])] + SegmentValues(o, fields[1..]);
    assert SegmentTexts(o, fields) == [SegmentsText(o, fields[0])] + SegmentTexts(o, fields[1..]);
    if |fields| == 1 {
      CsvLastField(o, fields[0]);
    } else {
      CsvRecordReads(o, fields[1..]);
      CsvNextField(o, fields[0], Join(o.delimiter, SegmentTexts(o, fields[1..])));
    }
  }

  // ---- What the encoder quotes ----

  function Specials(o: Options, s: string): nat {
    if s == "" then 0 else (if s[0] == o.quote || s[0] == o.escape then 1 else 0) + Specials(o, s[1..])
  }

  lemma {:induction false} EscapedLength(o: Options, s: string)
    ensures |EscapeBody(o, s)| == |s| + Specials(o, s)
  {
    if s != "" {
      EscapedLength(o, s[1..]);
    }
  }

  /** A value is written as it is exactly when it holds no delimiter, quote, CR or LF and is not the null
      string; otherwise it is one quoted stretch, with one more character for each quote and escape in it. */
  lemma QuotedExactly(o: Options, s: string)
    ensures CsvField(o, Some(s)) == s <==> s != o.nullString && (forall c :: c in s ==> c !in {o.delimiter, o.quote, '\r', '\n'})
    ensures CsvField(o, Some(s)) == s || CsvField(o, Some(s)) == SegmentText(o, Inside(s))
    ensures CsvField(o, Some(s)) == s || |CsvField(o, Some(s))| == |s| + 2 + Specials(o, s)
  {
    EscapedLength(o, s);
    assert [o.quote] + EscapeBody(o, s) + [o.quote] == [o.quote] + (EscapeBody(o, s) + [o.quote]);
    if forall c :: c in s ==> c !in {o.delimiter, o.quote, '\r', '\n'} {
      assert o.delimiter !in s && o.quote !in s && '\r' !in s && '\n' !in s;
    } else {
      var c :| c in s && c in {o.delimiter, o.quote, '\r', '\n'};
    }
  }
}

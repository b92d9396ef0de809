/** The CSV format: exactly which options let every row survive. */
module CopyCsv {
  import opened Prelude
  import opened Copy
  import opened CopyRoundTrip
  import opened CopyHeader

  /** A character that means nothing under the options, and is not the null string. */
  function Ordinary(o: Options): (p: char)
    ensures p !in {o.delimiter, o.quote, '\n', '\r', '\\'} && [p] != o.nullString
  {
    if Unused(o, 'a') then 'a' else if Unused(o, 'b') then 'b' else if Unused(o, 'c') then 'c' else 'd'
  }

  predicate Unused(o: Options, p: char) {
    p != o.delimiter && p != o.quote && [p] != o.nullString
  }

  /** A field that prints as nothing at all. */
  function Blank(o: Options): Field {
    if o.nullString == "" then None else Some("")
  }

  /** Rows the options cannot carry. */
  function Victims(o: Options): seq<Row> {
    var p := Some([Ordinary(o)]);
    if o.quote == '\n' then [[p], [p]]
    else if o.delimiter == o.quote || o.delimiter == '\n' then [[p, p]]
    else if o.delimiter == '\r' then [[p, Blank(o)]]
    else if o.nullString != END_MARKER then [[None]]
    else [[None, None]]
  }

  /** No row prints as the end marker, and neither does the header. */
  predicate MarkerFree(o: Options, names: Row, rows: seq<Row>) {
    && (o.header ==> !IsMarker(o, names))
    && forall i :: 0 <= i < |rows| ==> !IsMarker(o, rows[i])
  }

  /** CSV: every list of rows of at least one field that prints without the end marker survives, with a
      header or without, if and only if the options are safe; for any others, `Victims` are rows that do
      not come back. */
  lemma CsvRoundTripExactly(o: Options)
    requires o.csv
    ensures CsvSafe(o) <==>
            forall names: Row, rows: seq<Row> :: names != [] && NoEmptyRows(rows) && MarkerFree(o, names, rows) ==>
              Decode(o, Copied(o, names, rows)) == rows
    ensures !CsvSafe(o) ==>
              && MarkerFree(o, [Some([Ordinary(o)])], Victims(o)) && NoEmptyRows(Victims(o))
              && Decode(o, Copied(o, [Some([Ordinary(o)])], Victims(o))) != Victims(o)
  {
    if CsvSafe(o) {
      forall names: Row, rows: seq<Row> | names != [] && NoEmptyRows(rows) && MarkerFree(o, names, rows)
        ensures Decode(o, Copied(o, names, rows)) == rows
      {
        CsvRoundTrip(o, names, rows);
      }
    } else {
      VictimsPrint(o);
      VictimsAreLost(o);
    }
  }

  // ---- The victims' lines ----

  lemma OrdinaryField(o: Options)
    requires o.csv
    ensures FieldText(o, Some([Ordinary(o)])) == [Ordinary(o)] && Body(o, [Some([Ordinary(o)])]) == [Ordinary(o)]
  {
  }

  lemma PairBody(o: Options, f: Field, g: Field)
    ensures Body(o, [f, g]) == FieldText(o, f) + [o.delimiter] + FieldText(o, g)
  {
    assert [f, g][1..] == [g];
  }

  lemma VictimsPrint(o: Options)
    requires o.csv && !CsvSafe(o)
    ensures MarkerFree(o, [Some([Ordinary(o)])], Victims(o)) && NoEmptyRows(Victims(o))
  {
    var p := Some([Ordinary(o)]);
    OrdinaryField(o);
    PairBody(o, p, p);
    PairBody(o, p, Blank(o));
    PairBody(o, None, None);
    forall i | 0 <= i < |Victims(o)|
      ensures !IsMarker(o, Victims(o)[i]) && Victims(o)[i] != []
    {
      VictimNoMarker(o, i);
    }
  }

  lemma VictimNoMarker(o: Options, i: nat)
    requires o.csv && i < |Victims(o)|
    ensures !IsMarker(o, Victims(o)[i])
  {
    var p := Some([Ordinary(o)]);
    var body := Body(o, Victims(o)[i]);
    OrdinaryField(o);
    PairBody(o, p, p);
    PairBody(o, p, Blank(o));
    PairBody(o, None, None);
    assert END_MARKER[0] == '\\' && |END_MARKER| == 2;
  }

  lemma VictimsAreLost(o: Options)
    requires o.csv && !CsvSafe(o)
    ensures Decode(o, Copied(o, [Some([Ordinary(o)])], Victims(o))) != Victims(o)
  {
    var names, rows := [Some([Ordinary(o)])], Victims(o);
    if o.quote == '\n' {
      NewlineQuoteNeverEnds(o, Copied(o, names, rows), false);
      AtMostOneRow(o, Copied(o, names, rows));
    } else {
      var p := Ordinary(o);
      OrdinaryField(o);
      if o.header {
        HeaderEnds(o, p, Lines(o, rows));
      }
      HeaderDoesNotMatter(o, p, rows);
      PlainVictimsAreLost(Plain(o));
      assert Ordinary(Plain(o)) == p && Victims(Plain(o)) == rows;
    }
  }

  lemma HeaderEnds(o: Options, p: char, text: string)
    requires o.csv && p != o.quote && p != '\n' && o.quote != '\n'
    ensures RecordEnd(o, [p] + "\n" + text) == Some(1)
  {
    var all := [p] + "\n" + text;
    assert all[0] == p && all[1..] == ['\n'] + text;
    assert CsvEnd(o, all[1..], false) == Some(0);
  }

  lemma PlainVictimsAreLost(o: Options)
    requires o.csv && !o.header && !CsvSafe(o) && o.quote != '\n'
    ensures Decode(o, Lines(o, Victims(o))) != Victims(o)
  {
    var row := Victims(o)[0];
    assert Lines(o, Victims(o)) == Body(o, row) + "\n";
    if o.delimiter == o.quote {
      QuoteForDelimiter(o);
    } else if o.delimiter == '\n' {
      NewlineForDelimiter(o);
    } else if o.delimiter == '\r' {
      ReturnForDelimiter(o);
    } else if o.delimiter in o.nullString || o.quote in o.nullString {
      NoNullsDecoded(o, Body(o, row) + "\n");
      assert row[0] == None;
    } else {
      NullDoesNotReadBack(o);
    }
  }

  // ---- Counting rows and fields ----

  /** The first row of a stream, when its first record is one. */
  lemma FirstRow(o: Options, text: string)
    requires !o.header && RecordEnd(o, text).Some?
    ensures var r := WithoutCR(text[..RecordEnd(o, text).value]);
            var rows := Decode(o, text);
            if r == END_MARKER then rows == [] else rows != [] && rows[0] == Fields(o, r)
  {
    var d := Dec(text, false, false);
    var one := TakeRecord(o, d);
    DecodeIsOneDrain(o, text);
    var fed := Drain(o, one.dec);
    assert Drain(o, d) == Step(one.rows + fed.rows, fed.dec);
    if one.dec.ended {
      AfterMarker(o, one.dec);
    }
  }

  lemma AfterMarker(o: Options, d: Dec)
    requires d.ended
    ensures Drain(o, d).rows == [] && Finish(o, Drain(o, d).dec) == []
  {
  }

  /** A stream without a complete record is one row at most. */
  lemma AtMostOneRow(o: Options, text: string)
    requires RecordEnd(o, text).None?
    ensures |Decode(o, text)| <= 1
    ensures !o.header && Decode(o, text) != [] ==> Decode(o, text)[0] == Fields(o, WithoutCR(StripNewlines(text)))
  {
    var d := Dec(text, false, o.header);
    DecodeIsOneDrain(o, text);
    assert Drain(o, d) == Step([], d);
    assert text + "" == text;
  }

  // ---- A quote, a newline or a carriage return for a delimiter ----

  lemma QuoteForDelimiter(o: Options)
    requires o.csv && !o.header && o.quote != '\n' && o.delimiter == o.quote
    ensures Decode(o, Lines(o, Victims(o))) != Victims(o)
  {
    var p, q := Ordinary(o), o.quote;
    var text := [p, q, p, '\n'];
    OrdinaryField(o);
    PairBody(o, Some([p]), Some([p]));
    assert Lines(o, Victims(o)) == text;
    OpenQuoteNeverEnds(o, p);
    AtMostOneRow(o, text);
    assert text[..3] == [p, q, p] && StripNewlines(text) == StripNewlines(text[..3]) == [p, q, p];
    OpenQuoteIsOneField(o, p);
  }

  lemma OpenQuoteNeverEnds(o: Options, p: char)
    requires o.csv && p != o.quote && p != '\n' && o.quote != '\n'
    ensures RecordEnd(o, [p, o.quote, p, '\n']).None?
  {
    var text := [p, o.quote, p, '\n'];
    assert text[1..] == [o.quote, p, '\n'] && text[1..][1..] == [p, '\n'];
    assert [p, '\n'][1..] == ['\n'] && [p, '\n'][2..] == [] && ['\n'][1..] == [];
    assert CsvEnd(o, ['\n'], true).None?;
    assert CsvEnd(o, [p, '\n'], true).None?;
    assert CsvEnd(o, [o.quote, p, '\n'], false).None?;
  }

  lemma OpenQuoteIsOneField(o: Options, p: char)
    requires o.csv && p != o.quote && p != o.delimiter
    ensures |Fields(o, [p, o.quote, p])| == 1
  {
    var text := [p, o.quote, p];
    assert text[1..] == [o.quote, p] && text[1..][1..] == [p] && [p][1..] == "";
    assert |CsvFields(o, [p], [p], true, true)| == 1;
    assert |CsvFields(o, [o.quote, p], [p], false, false)| == 1;
    assert "" + [p] == [p];
  }

  lemma NewlineForDelimiter(o: Options)
    requires o.csv && !o.header && o.quote != '\n' && o.delimiter == '\n'
    ensures Decode(o, Lines(o, Victims(o))) != Victims(o)
  {
    var p := Ordinary(o);
    var text := [p] + "\n" + [p, '\n'];
    OrdinaryField(o);
    PairBody(o, Some([p]), Some([p]));
    assert Lines(o, Victims(o)) == text;
    HeaderEnds(o, p, [p, '\n']);
    assert text[..1] == [p];
    FirstRow(o, text);
    OneOrdinaryField(o);
  }

  lemma OneOrdinaryField(o: Options)
    requires o.csv
    ensures Fields(o, [Ordinary(o)]) == [Some([Ordinary(o)])]
  {
    var p := Ordinary(o);
    assert [p][1..] == "" && "" + [p] == [p];
    assert CsvFields(o, "", [p], false, false) == [Some([p])];
  }

  lemma ReturnForDelimiter(o: Options)
    requires o.csv && !o.header && o.quote != '\n' && o.delimiter == '\r' != o.quote
    ensures Decode(o, Lines(o, Victims(o))) != Victims(o)
  {
    var p := Ordinary(o);
    var text := [p, '\r', '\n'];
    OrdinaryField(o);
    PairBody(o, Some([p]), Blank(o));
    assert Lines(o, Victims(o)) == text;
    assert text[1..] == ['\r', '\n'] && text[1..][1..] == ['\n'];
    assert CsvEnd(o, ['\n'], false) == Some(0);
    assert CsvEnd(o, ['\r', '\n'], false) == Some(1);
    assert RecordEnd(o, text) == Some(2);
    assert text[..2] == [p, '\r'] && text[..2][..1] == [p];
    FirstRow(o, text);
    OneOrdinaryField(o);
  }

  // ---- A null string that cannot be read ----

  predicate Clean(o: Options, s: string) {
    o.delimiter !in s && o.quote !in s
  }

  /** Text outside quotes holds no delimiter and no quote, so such a null string is never met. */
  lemma {:induction false} NoNullField(o: Options, s: string, current: string, quoted: bool, inQuotes: bool)
    requires !Clean(o, o.nullString) && (!quoted ==> Clean(o, current)) && (inQuotes ==> quoted)
    ensures None !in CsvFields(o, s, current, quoted, inQuotes)
    decreases |s|
  {
    if s != "" {
      if inQuotes {
        if o.escape != o.quote && s[0] == o.escape && |s| > 1 {
          NoNullField(o, s[2..], current + [s[1]], quoted, true);
        } else if s[0] == o.quote {
          if o.escape == o.quote && |s| > 1 && s[1] == o.quote {
            NoNullField(o, s[2..], current + [o.quote], quoted, true);
          } else {
            NoNullField(o, s[1..], current, quoted, false);
          }
        } else {
          NoNullField(o, s[1..], current + [s[0]], quoted, true);
        }
      } else if s[0] == o.quote {
        NoNullField(o, s[1..], current, true, true);
      } else if s[0] == o.delimiter {
        NoNullField(o, s[1..], "", false, false);
      } else {
        NoNullField(o, s[1..], current + [s[0]], quoted, false);
      }
    }
  }

  predicate NoNulls(rows: seq<Row>) {
    forall i :: 0 <= i < |rows| ==> None !in rows[i]
  }

  lemma RecordNoNulls(o: Options, d: Dec, record: string)
    requires o.csv && !Clean(o, o.nullString)
    ensures NoNulls(Record(o, d, record).rows)
  {
    NoNullField(o, WithoutCR(record), "", false, false);
  }

  lemma {:induction false} DrainNoNulls(o: Options, d: Dec)
    requires o.csv && !Clean(o, o.nullString)
    ensures NoNulls(Drain(o, d).rows)
    decreases |d.pending|
  {
    if !d.ended && RecordEnd(o, d.pending).Some? {
      var k := RecordEnd(o, d.pending).value;
      RecordNoNulls(o, d.(pending := d.pending[k + 1..]), d.pending[..k]);
      DrainNoNulls(o, TakeRecord(o, d).dec);
    }
  }

  /** So no row that is decoded has a NULL. */
  lemma NoNullsDecoded(o: Options, text: string)
    requires o.csv && !Clean(o, o.nullString)
    ensures NoNulls(Decode(o, text))
  {
    var d := Dec(text, false, o.header);
    var fed := Drain(o, d);
    DecodeIsOneDrain(o, text);
    DrainNoNulls(o, d);
    var e := fed.dec.(pending := fed.dec.pending + "");
    DrainNoNulls(o, e);
    var last := Drain(o, e);
    RecordNoNulls(o, last.dec.(pending := ""), StripNewlines(last.dec.pending));
  }

  /** Only the null string itself reads as a lone NULL. */
  lemma {:induction false} NullNeedsItsText(o: Options, s: string, current: string, quoted: bool, inQuotes: bool)
    requires CsvFields(o, s, current, quoted, inQuotes) == [None]
    ensures !quoted && !inQuotes ==> current + s == o.nullString
    ensures inQuotes ==> !quoted
    decreases |s|
  {
    if s == "" {
      assert current + s == current;
    } else if inQuotes {
      if quoted {
        QuotedIsNoNull(o, s, current, true);
      }
    } else if s[0] == o.quote {
      QuotedIsNoNull(o, s[1..], current, true);
    } else if s[0] != o.delimiter && !quoted {
      NullNeedsItsText(o, s[1..], current + [s[0]], quoted, false);
      assert current + [s[0]] + s[1..] == current + s;
    }
  }

  /** A field that was quoted is not NULL. */
  lemma {:induction false} QuotedIsNoNull(o: Options, s: string, current: string, inQuotes: bool)
    ensures CsvFields(o, s, current, true, inQuotes) != []
    ensures CsvFields(o, s, current, true, inQuotes)[0] != None
    decreases |s|
  {
    if s != "" {
      if inQuotes {
        if o.escape != o.quote && s[0] == o.escape && |s| > 1 {
          QuotedIsNoNull(o, s[2..], current + [s[1]], true);
        } else if s[0] == o.quote {
          if o.escape == o.quote && |s| > 1 && s[1] == o.quote {
            QuotedIsNoNull(o, s[2..], current + [o.quote], true);
          } else {
            QuotedIsNoNull(o, s[1..], current, false);
          }
        } else {
          QuotedIsNoNull(o, s[1..], current + [s[0]], true);
        }
      } else if s[0] == o.quote {
        QuotedIsNoNull(o, s[1..], current, true);
      } else if s[0] != o.delimiter {
        QuotedIsNoNull(o, s[1..], current + [s[0]], false);
      }
    }
  }

  /** A null string with a newline in it, or a carriage return at its end. */
  lemma NullDoesNotReadBack(o: Options)
    requires o.csv && !o.header && !CsvSafe(o) && o.quote != '\n' && o.delimiter != o.quote
    requires o.delimiter !in {'\n', '\r'} && Clean(o, o.nullString)
    ensures Decode(o, Lines(o, Victims(o))) != Victims(o)
  {
    var text := o.nullString + "\n";
    assert WithoutCR(END_MARKER) == END_MARKER && '\n' !in END_MARKER;
    assert Lines(o, Victims(o)) == text;
    UnquotedEnds(o, o.nullString);
    var k := RecordEnd(o, text).value;
    FirstRow(o, text);
    var r := WithoutCR(text[..k]);
    assert text[..|o.nullString|] == o.nullString;
    assert r != o.nullString by {
      assert k < |o.nullString| ==> |r| < |o.nullString|;
    }
    OtherTextIsNoNull(o, r);
  }

  lemma OtherTextIsNoNull(o: Options, r: string)
    requires o.csv && r != o.nullString
    ensures Fields(o, r) != [None]
  {
    assert "" + r == r;
    if Fields(o, r) == [None] {
      NullNeedsItsText(o, r, "", false, false);
    }
  }

  /** Without a quote the record ends at the first newline. */
  lemma {:induction false} UnquotedEnds(o: Options, s: string)
    requires o.csv && o.quote !in s && o.quote != '\n'
    ensures RecordEnd(o, s + "\n").Some? && RecordEnd(o, s + "\n").value <= |s|
    ensures RecordEnd(o, s + "\n").value == |s| <==> '\n' !in s
  {
    if s == "" {
      assert s + "\n" == "\n";
    } else {
      UnquotedEnds(o, s[1..]);
      assert (s + "\n")[1..] == s[1..] + "\n";
      assert '\n' in s <==> s[0] == '\n' || '\n' in s[1..];
    }
  }
}

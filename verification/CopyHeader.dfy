/** A header line and the rows after it: the rows decode as they would without one. */
module CopyHeader {
  import opened Prelude
  import opened Copy
  import opened CopyRoundTrip

  function Plain(o: Options): Options {
    o.(header := false)
  }

  // ---- Nothing but the start of a stream looks at the option ----

  lemma {:induction false} EscapeIgnoresHeader(o: Options, s: string)
    ensures EscapeBody(Plain(o), s) == EscapeBody(o, s)
  {
    if s != "" {
      EscapeIgnoresHeader(o, s[1..]);
    }
  }

  lemma FieldIgnoresHeader(o: Options, f: Field)
    ensures FieldText(Plain(o), f) == FieldText(o, f)
  {
    if f.Some? {
      EscapeIgnoresHeader(o, f.value);
    }
  }

  lemma {:induction false} BodyIgnoresHeader(o: Options, row: Row)
    ensures Body(Plain(o), row) == Body(o, row)
    decreases |row|
  {
    if row != [] {
      FieldIgnoresHeader(o, row[0]);
      if |row| > 1 {
        BodyIgnoresHeader(o, row[1..]);
      }
    }
  }

  lemma {:induction false} LinesIgnoreHeader(o: Options, rows: seq<Row>)
    ensures Lines(Plain(o), rows) == Lines(o, rows)
  {
    if rows != [] {
      BodyIgnoresHeader(o, rows[0]);
      LinesIgnoreHeader(o, rows[1..]);
    }
  }

  lemma {:induction false} CsvEndIgnoresHeader(o: Options, s: string, inQuotes: bool)
    ensures CsvEnd(Plain(o), s, inQuotes) == CsvEnd(o, s, inQuotes)
    decreases |s|
  {
    if s != "" {
      CsvEndIgnoresHeader(o, s[1..], true);
      CsvEndIgnoresHeader(o, s[1..], false);
      if |s| > 1 {
        CsvEndIgnoresHeader(o, s[2..], true);
      }
    }
  }

  lemma {:induction false} CsvFieldsIgnoreHeader(o: Options, s: string, current: string, quoted: bool, inQuotes: bool)
    ensures CsvFields(Plain(o), s, current, quoted, inQuotes) == CsvFields(o, s, current, quoted, inQuotes)
    decreases |s|
  {
    if s != "" {
      if inQuotes {
        if o.escape != o.quote && s[0] == o.escape && |s| > 1 {
          CsvFieldsIgnoreHeader(o, s[2..], current + [s[1]], quoted, true);
        } else if s[0] == o.quote {
          if o.escape == o.quote && |s| > 1 && s[1] == o.quote {
            CsvFieldsIgnoreHeader(o, s[2..], current + [o.quote], quoted, true);
          } else {
            CsvFieldsIgnoreHeader(o, s[1..], current, quoted, false);
          }
        } else {
          CsvFieldsIgnoreHeader(o, s[1..], current + [s[0]], quoted, true);
        }
      } else if s[0] == o.quote {
        CsvFieldsIgnoreHeader(o, s[1..], current, true, true);
      } else if s[0] == o.delimiter {
        CsvFieldsIgnoreHeader(o, s[1..], "", false, false);
      } else {
        CsvFieldsIgnoreHeader(o, s[1..], current + [s[0]], quoted, false);
      }
    }
  }

  lemma RecordIgnoresHeader(o: Options, d: Dec, record: string)
    ensures Record(Plain(o), d, record) == Record(o, d, record)
  {
    var r := WithoutCR(record);
    CsvFieldsIgnoreHeader(o, r, "", false, false);
    assert TextValues(Plain(o), RawFields(o.delimiter, r, "")) == TextValues(o, RawFields(o.delimiter, r, ""));
  }

  lemma RecordEndIgnoresHeader(o: Options, s: string)
    ensures RecordEnd(Plain(o), s) == RecordEnd(o, s)
  {
    CsvEndIgnoresHeader(o, s, false);
  }

  lemma TakeIgnoresHeader(o: Options, d: Dec)
    requires RecordEnd(o, d.pending).Some?
    ensures RecordEnd(Plain(o), d.pending).Some? && TakeRecord(Plain(o), d) == TakeRecord(o, d)
  {
    RecordEndIgnoresHeader(o, d.pending);
    var k := RecordEnd(o, d.pending).value;
    RecordIgnoresHeader(o, d.(pending := d.pending[k + 1..]), d.pending[..k]);
  }

  lemma {:induction false} DrainIgnoresHeader(o: Options, d: Dec)
    ensures Drain(Plain(o), d) == Drain(o, d)
    decreases |d.pending|
  {
    RecordEndIgnoresHeader(o, d.pending);
    if !d.ended && RecordEnd(o, d.pending).Some? {
      TakeIgnoresHeader(o, d);
      DrainIgnoresHeader(o, TakeRecord(o, d).dec);
    }
  }

  lemma FinishIgnoresHeader(o: Options, d: Dec)
    ensures Finish(Plain(o), d) == Finish(o, d)
  {
    var e := d.(pending := d.pending + "");
    DrainIgnoresHeader(o, e);
    var last := Drain(o, e);
    RecordIgnoresHeader(o, last.dec.(pending := ""), StripNewlines(last.dec.pending));
  }

  // ---- The header line ----

  /** A header line of one column named by one character is skipped. */
  lemma HeaderIsSkipped(o: Options, p: char, text: string)
    requires o.header && p != '\r' && RecordEnd(o, [p] + "\n" + text) == Some(1)
    ensures Decode(o, [p] + "\n" + text) == Decode(Plain(o), text)
  {
    var all := [p] + "\n" + text;
    var d := Dec(all, false, true);
    var rest := Dec(text, false, false);
    assert all[..1] == [p] && all[2..] == text;
    assert TakeRecord(o, d) == Step([], rest);
    var fed := Drain(o, rest);
    assert [] + fed.rows == fed.rows;
    assert Drain(o, d) == fed;
    DrainIgnoresHeader(o, rest);
    DecodeIsOneDrain(o, all);
    DecodeIsOneDrain(Plain(o), text);
    FinishIgnoresHeader(o, fed.dec);
  }

  /** So a copy under such a header comes back exactly when it does without one. */
  lemma HeaderDoesNotMatter(o: Options, p: char, rows: seq<Row>)
    requires p != '\r' && Body(o, [Some([p])]) == [p]
    requires o.header ==> RecordEnd(o, [p] + "\n" + Lines(o, rows)) == Some(1)
    ensures Decode(o, Copied(o, [Some([p])], rows)) == Decode(Plain(o), Lines(Plain(o), rows))
  {
    LinesIgnoreHeader(o, rows);
    if o.header {
      HeaderIsSkipped(o, p, Lines(o, rows));
    } else {
      assert Plain(o) == o && "" + Lines(o, rows) == Lines(o, rows);
    }
  }
}

/** The loops of copy.py, and the decoder object, against the functions of Copy. */
module CopyDecoder {
  import opened Prelude
  import opened Copy

  // ---- Encoding ----

  method EncodeTextField(o: Options, f: Field) returns (text: string)
    ensures text == TextField(o, f)
  {
    if f.None? {
      return o.nullString;
    }
    text := "";
    var i := 0;
    while i < |f.value|
      invariant 0 <= i <= |f.value|
      invariant text + EscapeText(o.delimiter, f.value[i..]) == EscapeText(o.delimiter, f.value)
    {
      assert f.value[i..][1..] == f.value[i + 1..];
      text := text + EscapeChar(o.delimiter, f.value[i]);
      i := i + 1;
    }
  }

  // ---- Splitting ----

  /** The end of the record when the scan stands at an index, which may be past the buffer. */
  function EndFrom(o: Options, buffer: string, index: nat, inQuotes: bool): Option<nat> {
    if index > |buffer| then None else Shift(index, CsvEnd(o, buffer[index..], inQuotes))
  }

  /** One turn of the record scan. */
  lemma EndStep(o: Options, buffer: string, index: nat, inQuotes: bool)
    requires index < |buffer|
    ensures var c := buffer[index];
            var doubled := index + 1 < |buffer| && buffer[index + 1] == o.quote;
            var escaped := inQuotes && if o.escape != o.quote then c == o.escape else c == o.quote && doubled;
            EndFrom(o, buffer, index, inQuotes) ==
            if !inQuotes && c != o.quote && c == '\n' then Some(index)
            else if escaped then EndFrom(o, buffer, index + 2, true)
            else if inQuotes && o.escape == o.quote && c == o.quote && index + 1 == |buffer| then None
            else EndFrom(o, buffer, index + 1, if c == o.quote then !inQuotes else inQuotes)
  {
    var rest := buffer[index..];
    assert rest[1..] == buffer[index + 1..];
    assert |rest| > 1 ==> rest[2..] == buffer[index + 2..];
  }

  method SplitCsvRecord(o: Options, buffer: string) returns (end: Option<nat>)
    ensures end == CsvEnd(o, buffer, false)
  {
    var inQuotes := false;
    var index := 0;
    assert buffer[0..] == buffer;
    while index < |buffer|
      invariant 0 <= index
      invariant EndFrom(o, buffer, index, inQuotes) == EndFrom(o, buffer, 0, false)
    {
      var c := buffer[index];
      EndStep(o, buffer, index, inQuotes);
      if !inQuotes {
        if c == o.quote {
          inQuotes := true;
        } else if c == '\n' {
          return Some(index);
        }
        index := index + 1;
      } else if o.escape != o.quote && c == o.escape {
        index := index + 2;
      } else if c == o.quote {
        if o.escape != o.quote {
          inQuotes := false;
          index := index + 1;
        } else if index + 1 < |buffer| {
          inQuotes := buffer[index + 1] == o.quote;
          index := index + if inQuotes then 2 else 1;
        } else {
          return None;
        }
      } else {
        index := index + 1;
      }
    }
    end := None;
  }

  method SplitTextRecord(buffer: string) returns (end: Option<nat>)
    ensures end == TextEnd(buffer)
  {
    var i := 0;
    while i < |buffer| && buffer[i] != '\n'
      invariant 0 <= i <= |buffer|
      invariant forall j :: 0 <= j < i ==> buffer[j] != '\n'
    {
      i := i + 1;
    }
    end := if i < |buffer| then Some(i) else None;
    FirstNewline(buffer, end);
  }

  lemma FirstNewline(s: string, k: Option<nat>)
    requires k.Some? ==> k.value < |s| && s[k.value] == '\n'
    requires forall i :: 0 <= i < (if k.Some? then k.value else |s|) ==> s[i] != '\n'
    ensures TextEnd(s) == k
  {
  }

  method SplitTextFields(o: Options, record: string) returns (fields: Row)
    ensures fields == TextValues(o, RawFields(o.delimiter, record, ""))
  {
    var raw: seq<string> := [];
    var current := "";
    var index := 0;
    assert record[0..] == record;
    while index < |record|
      invariant 0 <= index <= |record|
      invariant raw + RawFields(o.delimiter, record[index..], current) == RawFields(o.delimiter, record, "")
    {
      var rest := record[index..];
      assert rest[1..] == record[index + 1..];
      if record[index] == '\\' && index + 1 < |record| {
        assert rest[2..] == record[index + 2..] && rest[..2] == record[index..index + 2];
        current := current + record[index..index + 2];
        index := index + 2;
      } else if record[index] == o.delimiter {
        raw := raw + [current];
        current := "";
        index := index + 1;
      } else {
        current := current + [record[index]];
        index := index + 1;
      }
    }
    raw := raw + [current];
    fields := [];
    var i := 0;
    while i < |raw|
      invariant 0 <= i <= |raw|
      invariant fields == TextValues(o, raw[..i])
    {
      var value := UnescapeField(raw[i]);
      fields := fields + [if raw[i] == o.nullString then None else Some(value)];
      i := i + 1;
    }
    assert raw[..i] == raw;
  }

  lemma UnescapeStep(out: string, field: string, index: nat)
    requires index < |field|
    ensures var rest := field[index..];
            if rest[0] != '\\' || |rest| == 1 then
              out + Unescape(rest) == out + [field[index]] + Unescape(field[index + 1..])
            else
              var (c, n) := ReadEscape(rest);
              out + Unescape(rest) == out + [c] + Unescape(field[index + n..])
  {
    var rest := field[index..];
    if rest[0] != '\\' || |rest| == 1 {
      assert rest[1..] == field[index + 1..];
    } else {
      var (c, n) := ReadEscape(rest);
      assert rest[n..] == field[index + n..];
    }
  }

  method UnescapeField(field: string) returns (out: string)
    ensures out == Unescape(field)
  {
    if '\\' !in field {
      UnescapePlain(field);
      return field;
    }
    out := "";
    var index := 0;
    assert field[0..] == field;
    while index < |field|
      invariant 0 <= index <= |field|
      invariant out + Unescape(field[index..]) == Unescape(field)
    {
      UnescapeStep(out, field, index);
      if field[index] != '\\' || index + 1 >= |field| {
        out := out + [field[index]];
        index := index + 1;
      } else {
        var (c, n) := ReadEscape(field[index..]);
        out := out + [c];
        index := index + n;
      }
    }
  }

  lemma {:induction false} UnescapePlain(s: string)
    requires '\\' !in s
    ensures Unescape(s) == s
  {
    if s != "" {
      UnescapePlain(s[1..]);
    }
  }

  method SplitCsvFields(o: Options, record: string) returns (fields: Row)
    ensures fields == CsvFields(o, record, "", false, false)
  {
    fields := [];
    var current, quoted, inQuotes, index := "", false, false, 0;
    assert record[0..] == record;
    while index < |record|
      invariant 0 <= index <= |record|
      invariant fields + CsvFields(o, record[index..], current, quoted, inQuotes) == CsvFields(o, record, "", false, false)
    {
      var rest := record[index..];
      assert rest[1..] == record[index + 1..];
      assert |rest| > 1 ==> rest[2..] == record[index + 2..] && rest[1] == record[index + 1];
      var c := record[index];
      if inQuotes {
        if o.escape != o.quote && c == o.escape && index + 1 < |record| {
          current := current + [record[index + 1]];
          index := index + 2;
        } else if c == o.quote {
          if o.escape == o.quote && index + 1 < |record| && record[index + 1] == o.quote {
            current := current + [o.quote];
            index := index + 2;
          } else {
            inQuotes := false;
            index := index + 1;
          }
        } else {
          current := current + [c];
          index := index + 1;
        }
      } else if c == o.quote {
        inQuotes, quoted := true, true;
        index := index + 1;
      } else if c == o.delimiter {
        fields := fields + [CsvValue(o, current, quoted)];
        current, quoted := "", false;
        index := index + 1;
      } else {
        current := current + [c];
        index := index + 1;
      }
    }
    fields := fields + [CsvValue(o, current, quoted)];
  }

  // ---- The object ----

  class CopyInDecoder {
    const options: Options
    var pending: string
    var ended: bool
    var skipHeader: bool

    ghost function View(): Dec
      reads this
    {
      Dec(pending, ended, skipHeader)
    }

    constructor (options: Options)
      ensures View() == Fresh(options) && this.options == options
    {
      this.options, pending, ended, skipHeader := options, "", false, options.header;
    }

    method FeedText(text: string) returns (rows: seq<Row>)
      modifies this
      ensures Step(rows, View()) == Feed(options, old(View()), text)
    {
      pending := pending + text;
      rows := [];
      ghost var start := View();
      while !ended
        invariant Drain(options, start) == Step(rows + Drain(options, View()).rows, Drain(options, View()).dec)
        decreases |pending|
      {
        var found, more := TakeOne();
        if !found {
          break;
        }
        rows := rows + more;
      }
      if ended {
        pending := "";
      }
    }

    /** The next complete record of the pending text, if there is one. */
    method TakeOne() returns (found: bool, rows: seq<Row>)
      modifies this
      ensures found <==> RecordEnd(options, old(pending)).Some?
      ensures found ==> Step(rows, View()) == TakeRecord(options, old(View()))
      ensures !found ==> View() == old(View())
    {
      var end: Option<nat>;
      if options.csv {
        end := SplitCsvRecord(options, pending);
      } else {
        end := SplitTextRecord(pending);
      }
      if end.None? {
        return false, [];
      }
      var record := pending[..end.value];
      pending := pending[end.value + 1..];
      rows := ReadRecord(record);
      found := true;
    }

    method ReadRecord(record: string) returns (rows: seq<Row>)
      modifies this
      ensures Step(rows, View()) == Record(options, old(View()), record)
    {
      var r := if record != "" && record[|record| - 1] == '\r' then record[..|record| - 1] else record;
      if r == END_MARKER {
        ended := true;
        return [];
      }
      if skipHeader {
        skipHeader := false;
        return [];
      }
      var fields;
      if options.csv {
        fields := SplitCsvFields(options, r);
      } else {
        fields := SplitTextFields(options, r);
      }
      rows := [fields];
    }

    method FinishStream() returns (rows: seq<Row>)
      modifies this
      ensures rows == Finish(options, old(View()))
    {
      rows := FeedText("");
      var leftover := StripNewlines(pending);
      pending := "";
      if leftover != "" && !ended {
        var last := ReadRecord(leftover);
        rows := rows + last;
      }
    }
  }
}

/** copy.py: the text and CSV formats of COPY, and the decoder that reads them piece by piece. */
module Copy {
  import opened Prelude

  type Field = Option<string>

  type Row = seq<Field>

  datatype Options = Options(
    csv: bool, delimiter: char, nullString: string, header: bool, quote: char, escape: char)

  const BACKSPACE := 8 as char
  const VERTICAL_TAB := 11 as char
  const FORM_FEED := 12 as char

  const END_MARKER := "\\."

  // ---- Encoding ----

  /** The letter a control character is escaped with, if it has one. */
  function EscapeLetter(c: char): Option<char> {
    if c == '\\' then Some('\\')
    else if c == BACKSPACE then Some('b')
    else if c == FORM_FEED then Some('f')
    else if c == '\n' then Some('n')
    else if c == '\r' then Some('r')
    else if c == '\t' then Some('t')
    else if c == VERTICAL_TAB then Some('v')
    else None
  }

  function EscapeChar(delimiter: char, c: char): string {
    match EscapeLetter(c)
    case Some(letter) => ['\\', letter]
    case None => if c == delimiter then ['\\', c] else [c]
  }

  function EscapeText(delimiter: char, s: string): string {
    if s == "" then "" else EscapeChar(delimiter, s[0]) + EscapeText(delimiter, s[1..])
  }

  function TextField(o: Options, f: Field): string {
    match f
    case None => o.nullString
    case Some(s) => EscapeText(o.delimiter, s)
  }

  function EscapeQuoted(o: Options, c: char): string {
    if c == o.quote || c == o.escape then [o.escape, c] else [c]
  }

  function EscapeBody(o: Options, s: string): string {
    if s == "" then "" else EscapeQuoted(o, s[0]) + EscapeBody(o, s[1..])
  }

  predicate NeedsQuotes(o: Options, s: string) {
    s == o.nullString || o.delimiter in s || o.quote in s || '\n' in s || '\r' in s
  }

  function CsvField(o: Options, f: Field): string {
    match f
    case None => o.nullString
    case Some(s) => if NeedsQuotes(o, s) then [o.quote] + EscapeBody(o, s) + [o.quote] else s
  }

  function FieldText(o: Options, f: Field): string {
    if o.csv then CsvField(o, f) else TextField(o, f)
  }

  /** A row's line without the newline that ends it. */
  function Body(o: Options, row: Row): string {
    if row == [] then ""
    else if |row| == 1 then FieldText(o, row[0])
    else FieldText(o, row[0]) + [o.delimiter] + Body(o, row[1..])
  }

  function Line(o: Options, row: Row): string {
    Body(o, row) + "\n"
  }

  function Lines(o: Options, rows: seq<Row>): string {
    if rows == [] then "" else Line(o, rows[0]) + Lines(o, rows[1..])
  }

  // ---- Splitting records ----

  /** Where the first newline is. */
  function TextEnd(s: string): (k: Option<nat>)
    ensures k.Some? ==> k.value < |s| && s[k.value] == '\n'
    ensures forall i :: 0 <= i < (if k.Some? then k.value else |s|) ==> s[i] != '\n'
  {
    if s == "" then None
    else if s[0] == '\n' then Some(0)
    else Shift(1, TextEnd(s[1..]))
  }

  function Shift(n: nat, k: Option<nat>): Option<nat> {
    match k
    case None => None
    case Some(i) => Some(n + i)
  }

  /** Where the newline is that ends a CSV record: the scan of `_split_csv_record` from a point in or
      out of quotes. */
  function CsvEnd(o: Options, s: string, inQuotes: bool): (k: Option<nat>)
    ensures k.Some? ==> k.value < |s| && s[k.value] == '\n'
    decreases |s|
  {
    if s == "" then None
    else if !inQuotes then
      if s[0] == o.quote then Shift(1, CsvEnd(o, s[1..], true))
      else if s[0] == '\n' then Some(0)
      else Shift(1, CsvEnd(o, s[1..], false))
    else if o.escape != o.quote && s[0] == o.escape then
      if |s| == 1 then None else Shift(2, CsvEnd(o, s[2..], true))
    else if s[0] == o.quote then
      if o.escape != o.quote then Shift(1, CsvEnd(o, s[1..], false))
      else if |s| == 1 then None
      else if s[1] == o.quote then Shift(2, CsvEnd(o, s[2..], true))
      else Shift(1, CsvEnd(o, s[1..], false))
    else Shift(1, CsvEnd(o, s[1..], true))
  }

  function RecordEnd(o: Options, s: string): (k: Option<nat>)
    ensures k.Some? ==> k.value < |s| && s[k.value] == '\n'
  {
    if o.csv then CsvEnd(o, s, false) else TextEnd(s)
  }

  // ---- Splitting fields ----

  function RawFields(delimiter: char, s: string, current: string): (fields: seq<string>)
    ensures fields != []
    decreases |s|
  {
    if s == "" then [current]
    else if s[0] == '\\' && |s| > 1 then RawFields(delimiter, s[2..], current + s[..2])
    else if s[0] == delimiter then [current] + RawFields(delimiter, s[1..], "")
    else RawFields(delimiter, s[1..], current + [s[0]])
  }

  function IsOctal(c: char): bool {
    '0' <= c <= '7'
  }

  function HexDigit(c: char): Option<nat> {
    if '0' <= c <= '9' then Some(c as int - '0' as int)
    else if 'a' <= c <= 'f' then Some(c as int - 'a' as int + 10)
    else if 'A' <= c <= 'F' then Some(c as int - 'A' as int + 10)
    else None
  }

  function Unescaped(letter: char): Option<char> {
    if letter == 'b' then Some(BACKSPACE)
    else if letter == 'f' then Some(FORM_FEED)
    else if letter == 'n' then Some('\n')
    else if letter == 'r' then Some('\r')
    else if letter == 't' then Some('\t')
    else if letter == 'v' then Some(VERTICAL_TAB)
    else None
  }

  /** What the escape at the front of s stands for, and how many characters it takes. */
  function ReadEscape(s: string): (r: (char, nat))
    requires |s| > 1 && s[0] == '\\'
    ensures 2 <= r.1 <= |s|
  {
    var marker := s[1];
    if Unescaped(marker).Some? then (Unescaped(marker).value, 2)
    else if marker == 'x' && |s| > 2 && HexDigit(s[2]).Some? then
      var high := HexDigit(s[2]).value;
      if |s| > 3 && HexDigit(s[3]).Some? then ((high * 16 + HexDigit(s[3]).value) as char, 4)
      else (high as char, 3)
    else if IsOctal(marker) then
      var first := marker as int - '0' as int;
      if |s| > 2 && IsOctal(s[2]) then
        var second := first * 8 + s[2] as int - '0' as int;
        if |s| > 3 && IsOctal(s[3]) then ((second * 8 + s[3] as int - '0' as int) as char, 4)
        else (second as char, 3)
      else (first as char, 2)
    else (marker, 2)
  }

  function Unescape(s: string): string
    decreases |s|
  {
    if s == "" then ""
    else if s[0] != '\\' || |s| == 1 then [s[0]] + Unescape(s[1..])
    else
      var (c, n) := ReadEscape(s);
      [c] + Unescape(s[n..])
  }

  function TextValue(o: Options, raw: string): Field {
    if raw == o.nullString then None else Some(Unescape(raw))
  }

  function TextValues(o: Options, raw: seq<string>): Row {
    seq(|raw|, i requires 0 <= i < |raw| => TextValue(o, raw[i]))
  }

  function CsvValue(o: Options, text: string, quoted: bool): Field {
    if !quoted && text == o.nullString then None else Some(text)
  }

  function CsvFields(o: Options, s: string, current: string, quoted: bool, inQuotes: bool): (fields: Row)
    ensures fields != []
    decreases |s|
  {
    if s == "" then [CsvValue(o, current, quoted)]
    else if inQuotes then
      if o.escape != o.quote && s[0] == o.escape && |s| > 1 then CsvFields(o, s[2..], current + [s[1]], quoted, true)
      else if s[0] == o.quote then
        if o.escape == o.quote && |s| > 1 && s[1] == o.quote then CsvFields(o, s[2..], current + [o.quote], quoted, true)
        else CsvFields(o, s[1..], current, quoted, false)
      else CsvFields(o, s[1..], current + [s[0]], quoted, true)
    else if s[0] == o.quote then CsvFields(o, s[1..], current, true, true)
    else if s[0] == o.delimiter then [CsvValue(o, current, quoted)] + CsvFields(o, s[1..], "", false, false)
    else CsvFields(o, s[1..], current + [s[0]], quoted, false)
  }

  function Fields(o: Options, record: string): Row {
    if o.csv then CsvFields(o, record, "", false, false) else TextValues(o, RawFields(o.delimiter, record, ""))
  }

  // ---- The decoder ----

  datatype Dec = Dec(pending: string, ended: bool, skipHeader: bool)

  datatype Step = Step(rows: seq<Row>, dec: Dec)

  function WithoutCR(record: string): string {
    if record != "" && record[|record| - 1] == '\r' then record[..|record| - 1] else record
  }

  function Record(o: Options, d: Dec, record: string): Step {
    var r := WithoutCR(record);
    if r == END_MARKER then Step([], d.(ended := true))
    else if d.skipHeader then Step([], d.(skipHeader := false))
    else Step([Fields(o, r)], d)
  }

  /** Take every complete record out of the pending text; after the end marker drop the rest. */
  function Drain(o: Options, d: Dec): Step
    decreases |d.pending|
  {
    if d.ended then Step([], d.(pending := ""))
    else
      match RecordEnd(o, d.pending)
      case None => Step([], d)
      case Some(_) =>
        var one := TakeRecord(o, d);
        var rest := Drain(o, one.dec);
        Step(one.rows + rest.rows, rest.dec)
  }

  function TakeRecord(o: Options, d: Dec): (r: Step)
    requires RecordEnd(o, d.pending).Some?
    ensures |r.dec.pending| < |d.pending|
  {
    var k := RecordEnd(o, d.pending).value;
    Record(o, d.(pending := d.pending[k + 1..]), d.pending[..k])
  }

  function Feed(o: Options, d: Dec, text: string): Step {
    Drain(o, d.(pending := d.pending + text))
  }

  function StripNewlines(s: string): string {
    if s != "" && (s[|s| - 1] == '\r' || s[|s| - 1] == '\n') then StripNewlines(s[..|s| - 1]) else s
  }

  function Finish(o: Options, d: Dec): seq<Row> {
    var last := Feed(o, d, "");
    var leftover := StripNewlines(last.dec.pending);
    last.rows + if leftover != "" && !last.dec.ended then Record(o, last.dec.(pending := ""), leftover).rows else []
  }

  function Fresh(o: Options): Dec {
    Dec("", false, o.header)
  }

  function FeedAll(o: Options, d: Dec, chunks: seq<string>): Step
    decreases |chunks|
  {
    if chunks == [] then Step([], d)
    else
      var first := Feed(o, d, chunks[0]);
      var rest := FeedAll(o, first.dec, chunks[1..]);
      Step(first.rows + rest.rows, rest.dec)
  }

  /** Everything a decoder makes of a stream that arrives in these pieces. */
  function DecodeChunks(o: Options, chunks: seq<string>): seq<Row> {
    var fed := FeedAll(o, Fresh(o), chunks);
    fed.rows + Finish(o, fed.dec)
  }

  function Decode(o: Options, text: string): seq<Row> {
    DecodeChunks(o, [text])
  }

  // ---- Framing ----

  /** A record found in a buffer is found in every longer buffer. */
  lemma {:induction false} CsvEndStable(o: Options, s: string, more: string, inQuotes: bool)
    requires CsvEnd(o, s, inQuotes).Some?
    ensures CsvEnd(o, s + more, inQuotes) == CsvEnd(o, s, inQuotes)
    decreases |s|
  {
    assert (s + more)[1..] == s[1..] + more;
    if |s| > 1 {
      assert (s + more)[2..] == s[2..] + more;
    }
    if !inQuotes {
      if s[0] == o.quote {
        CsvEndStable(o, s[1..], more, true);
      } else if s[0] != '\n' {
        CsvEndStable(o, s[1..], more, false);
      }
    } else if o.escape != o.quote && s[0] == o.escape {
      CsvEndStable(o, s[2..], more, true);
    } else if s[0] == o.quote {
      if o.escape == o.quote && s[1] == o.quote {
        CsvEndStable(o, s[2..], more, true);
      } else {
        CsvEndStable(o, s[1..], more, false);
      }
    } else {
      CsvEndStable(o, s[1..], more, true);
    }
  }

  lemma RecordEndStable(o: Options, s: string, more: string)
    requires RecordEnd(o, s).Some?
    ensures RecordEnd(o, s + more) == RecordEnd(o, s)
  {
    if o.csv {
      CsvEndStable(o, s, more, false);
    } else {
      var k := TextEnd(s).value;
      assert (s + more)[k] == '\n' && forall i :: 0 <= i < k ==> (s + more)[i] == s[i];
    }
  }

  lemma TakeRecordMore(o: Options, d: Dec, more: string)
    requires RecordEnd(o, d.pending).Some?
    ensures RecordEnd(o, d.pending + more).Some?
    ensures var one := TakeRecord(o, d);
            TakeRecord(o, d.(pending := d.pending + more)) == Step(one.rows, one.dec.(pending := one.dec.pending + more))
  {
    var k := RecordEnd(o, d.pending).value;
    RecordEndStable(o, d.pending, more);
    assert (d.pending + more)[k + 1..] == d.pending[k + 1..] + more;
    assert (d.pending + more)[..k] == d.pending[..k];
  }

  /** Draining what is left of one piece together with the next is draining both at once. */
  lemma {:induction false} DrainMore(o: Options, d: Dec, more: string)
    ensures var first := Drain(o, d);
            var second := Drain(o, first.dec.(pending := first.dec.pending + more));
            Drain(o, d.(pending := d.pending + more)) == Step(first.rows + second.rows, second.dec)
    decreases |d.pending|
  {
    if d.ended {
      assert Drain(o, d) == Step([], d.(pending := ""));
    } else if RecordEnd(o, d.pending).None? {
      assert Drain(o, d) == Step([], d);
    } else {
      var one := TakeRecord(o, d);
      TakeRecordMore(o, d, more);
      DrainMore(o, one.dec, more);
      DrainOne(o, d);
      DrainOne(o, d.(pending := d.pending + more));
      var rest := Drain(o, one.dec);
      Associate(one.rows, rest.rows, Drain(o, rest.dec.(pending := rest.dec.pending + more)).rows);
    }
  }

  lemma DrainOne(o: Options, d: Dec)
    requires !d.ended && RecordEnd(o, d.pending).Some?
    ensures var one := TakeRecord(o, d);
            var rest := Drain(o, one.dec);
            Drain(o, d) == Step(one.rows + rest.rows, rest.dec)
  {
  }

  lemma FeedTwice(o: Options, d: Dec, a: string, b: string)
    ensures var first := Feed(o, d, a);
            var second := Feed(o, first.dec, b);
            Feed(o, d, a + b) == Step(first.rows + second.rows, second.dec)
  {
    var e := d.(pending := d.pending + a);
    DrainMore(o, e, b);
    Associate(d.pending, a, b);
    assert e.(pending := e.pending + b) == d.(pending := d.pending + (a + b));
  }

  function Concat(chunks: seq<string>): string {
    if chunks == [] then "" else chunks[0] + Concat(chunks[1..])
  }

  lemma {:induction false} FeedAllIsOneFeed(o: Options, d: Dec, chunks: seq<string>)
    requires Drain(o, d) == Step([], d)
    ensures FeedAll(o, d, chunks) == Feed(o, d, Concat(chunks))
    decreases |chunks|
  {
    if chunks == [] {
      assert d.pending + "" == d.pending;
    } else {
      var first := Feed(o, d, chunks[0]);
      DrainedIsDrained(o, d.(pending := d.pending + chunks[0]));
      FeedAllIsOneFeed(o, first.dec, chunks[1..]);
      FeedTwice(o, d, chunks[0], Concat(chunks[1..]));
    }
  }

  /** What a drain leaves behind holds no complete record. */
  lemma {:induction false} DrainedIsDrained(o: Options, d: Dec)
    ensures Drain(o, Drain(o, d).dec) == Step([], Drain(o, d).dec)
    decreases |d.pending|
  {
    if !d.ended && RecordEnd(o, d.pending).Some? {
      DrainedIsDrained(o, TakeRecord(o, d).dec);
    }
  }

  /** However the stream is cut into pieces, the rows are the same. */
  lemma FramingDoesNotMatter(o: Options, chunks: seq<string>)
    ensures DecodeChunks(o, chunks) == Decode(o, Concat(chunks))
  {
    var text := Concat(chunks);
    FeedAllIsOneFeed(o, Fresh(o), chunks);
    FeedAllIsOneFeed(o, Fresh(o), [text]);
    assert Concat([text]) == text;
  }

  /** Decoding a stream that arrives in one piece. */
  lemma DecodeIsOneDrain(o: Options, text: string)
    ensures var fed := Drain(o, Dec(text, false, o.header));
            Decode(o, text) == fed.rows + Finish(o, fed.dec)
  {
    var fed := Feed(o, Fresh(o), text);
    assert "" + text == text && [text][1..] == [];
    assert FeedAll(o, Fresh(o), [text]) == Step(fed.rows + [], fed.dec);
    assert fed.rows + [] == fed.rows;
  }

  lemma NothingPending(o: Options, d: Dec)
    requires d.pending == ""
    ensures Drain(o, d) == Step([], d) && Finish(o, d) == []
  {
    assert d.pending + "" == "";
  }
}

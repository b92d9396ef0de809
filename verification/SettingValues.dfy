/** settings_values.py: what a configuration parameter's text means, and how a value reads back. */
module SettingValues {
  import opened Prelude
  import opened Text

  datatype Value = BoolV(b: bool) | IntV(n: int) | StrV(s: string)

  datatype VarType = BoolType | IntType | EnumType | StringType

  datatype Range = Range(low: int, high: int)

  /** A catalogue entry: the type, and what it says about acceptable values. */
  datatype Entry = Entry(
    vartype: VarType, unit: Option<string>, range: Option<Range>, enumvals: seq<string>, settable: bool)

  type Catalog = map<string, Entry>

  const INT32_MAX := 0x7FFF_FFFF
  const INT32_MIN := -0x8000_0000

  datatype Unit = TB | GB | MB | KB | B | Day | Hour | Minute | Second | Milli | Micro

  /** A unit's size in the smallest unit of its family. */
  function Size(u: Unit): (n: nat)
    ensures n > 0
  {
    match u
    case TB => 1024 * 1024 * 1024 * 1024
    case GB => 1024 * 1024 * 1024
    case MB => 1024 * 1024
    case KB => 1024
    case B => 1
    case Day => 86400 * 1000 * 1000
    case Hour => 3600 * 1000 * 1000
    case Minute => 60 * 1000 * 1000
    case Second => 1000 * 1000
    case Milli => 1000
    case Micro => 1
  }

  function Name(u: Unit): string {
    match u
    case TB => "TB"
    case GB => "GB"
    case MB => "MB"
    case KB => "kB"
    case B => "B"
    case Day => "d"
    case Hour => "h"
    case Minute => "min"
    case Second => "s"
    case Milli => "ms"
    case Micro => "us"
  }

  /** A family of units, largest first. */
  type Family = seq<Unit>

  const MEMORY_UNITS: Family := [TB, GB, MB, KB, B]
  const TIME_UNITS: Family := [Day, Hour, Minute, Second, Milli, Micro]

  predicate IsFamily(f: Family) {
    f == MEMORY_UNITS || f == TIME_UNITS
  }

  function Lookup(f: Family, name: string): (u: Option<Unit>)
    ensures u.Some? ==> u.value in f && Name(u.value) == name
    ensures u.None? ==> forall v :: v in f ==> Name(v) != name
  {
    if f == [] then None else if Name(f[0]) == name then Some(f[0]) else Lookup(f[1..], name)
  }

  lemma NameFacts(u: Unit)
    ensures Name(u) != ""
    ensures forall i :: 0 <= i < |Name(u)| ==>
              var c := Name(u)[i]; !IsDigit(c) && c != '.' && !IsSpace(c)
  {
  }

  lemma NamesDiffer(u: Unit, v: Unit)
    requires Name(u) == Name(v)
    ensures u == v
  {
    assert Name(u)[0] == Name(v)[0];
    assert |Name(u)| == |Name(v)|;
    if |Name(u)| > 1 {
      assert Name(u)[1] == Name(v)[1];
    }
  }

  lemma LookupName(f: Family, u: Unit)
    requires u in f
    ensures Lookup(f, Name(u)) == Some(u)
  {
    NamesDiffer(Lookup(f, Name(u)).value, u);
  }

  // ---- Units ----

  function LeadingDigits(s: string): (k: nat)
    ensures k <= |s| && AllDigits(s[..k]) && (k < |s| ==> !IsDigit(s[k]))
  {
    if s != [] && IsDigit(s[0]) then
      var k := LeadingDigits(s[1..]);
      assert s[..k + 1] == [s[0]] + s[1..][..k];
      k + 1
    else 0
  }

  /** `8kB` is eight kilobytes: the multiplier a unit carries (1 if none) and its base. */
  function SplitMultiple(unit: string): (nat, string) {
    var k := LeadingDigits(unit);
    (if k == 0 then 1 else NatOf(unit[..k]), unit[k..])
  }

  function FamilyOf(unit: Option<string>): (f: Option<Family>)
    ensures f.Some? ==> unit.Some? && IsFamily(f.value) && Lookup(f.value, SplitMultiple(unit.value).1).Some?
  {
    match unit
    case None => None
    case Some(u) =>
      var base := SplitMultiple(u).1;
      if Lookup(MEMORY_UNITS, base).Some? then Some(MEMORY_UNITS)
      else if Lookup(TIME_UNITS, base).Some? then Some(TIME_UNITS)
      else None
  }

  method SplitMultipleLoop(unit: string) returns (multiple: nat, base: string)
    ensures (multiple, base) == SplitMultiple(unit)
  {
    var i := 0;
    while i < |unit| && IsDigit(unit[i])
      invariant 0 <= i <= |unit|
      invariant AllDigits(unit[..i])
    {
      assert unit[..i + 1] == unit[..i] + [unit[i]];
      i := i + 1;
    }
    LeadingDigitsUnique(unit, i);
    multiple := if i == 0 then 1 else NatOf(unit[..i]);
    base := unit[i..];
  }

  lemma LeadingDigitsUnique(s: string, i: nat)
    requires i <= |s| && AllDigits(s[..i]) && (i < |s| ==> !IsDigit(s[i]))
    ensures LeadingDigits(s) == i
  {
    var k := LeadingDigits(s);
    assert forall j :: 0 <= j < i ==> IsDigit(s[..i][j]) && IsDigit(s[j]);
    assert forall j :: 0 <= j < k ==> IsDigit(s[..k][j]) && IsDigit(s[j]);
  }

  // ---- Rendering ----

  /** The index of the first unit, largest first, that divides the quantity exactly. */
  function LargestDividing(f: Family, quantity: int): (i: nat)
    ensures i <= |f|
    ensures i < |f| ==> quantity % Size(f[i]) == 0
    ensures forall j :: 0 <= j < i ==> quantity % Size(f[j]) != 0
  {
    if f == [] || quantity % Size(f[0]) == 0 then 0 else 1 + LargestDividing(f[1..], quantity)
  }

  function RenderNumber(n: int, unit: Option<string>): string {
    var family := FamilyOf(unit);
    if family.None? || n == 0 then IntText(n)
    else
      var f := family.value;
      var (multiple, base) := SplitMultiple(unit.value);
      var quantity := n * multiple * Size(Lookup(f, base).value);
      var i := LargestDividing(f, quantity);
      LastDivides(f, quantity);
      IntText(quantity / Size(f[i])) + Name(f[i])
  }

  lemma LastDivides(f: Family, quantity: int)
    requires IsFamily(f)
    ensures LargestDividing(f, quantity) < |f|
  {
    assert quantity % Size(f[|f| - 1]) == 0;
  }

  function Render(entry: Option<Entry>, v: Value): string {
    match v
    case BoolV(b) => if b then "on" else "off"
    case IntV(n) => RenderNumber(n, if entry.Some? then entry.value.unit else None)
    case StrV(s) => s
  }

  method FindUnit(f: Family, quantity: int) returns (i: nat)
    requires IsFamily(f)
    ensures i == LargestDividing(f, quantity) < |f|
  {
    LastDivides(f, quantity);
    i := 0;
    while quantity % Size(f[i]) != 0
      invariant i <= LargestDividing(f, quantity)
      decreases |f| - i
    {
      i := i + 1;
    }
  }

  method RenderNumberLoop(n: int, unit: Option<string>) returns (text: string)
    ensures text == RenderNumber(n, unit)
  {
    var family := FamilyOf(unit);
    if family.None? || n == 0 {
      return IntText(n);
    }
    var f := family.value;
    var multiple, base := SplitMultipleLoop(unit.value);
    var quantity := n * multiple * Size(Lookup(f, base).value);
    var i := FindUnit(f, quantity);
    text := IntText(quantity / Size(f[i])) + Name(f[i]);
  }

  // ---- Parsing ----

  function SuffixStart(s: string): (k: nat)
    ensures k <= |s|
    ensures k > 0 ==> IsDigit(s[k - 1]) || s[k - 1] == '.'
    ensures forall i :: k <= i < |s| ==> !IsDigit(s[i]) && s[i] != '.'
  {
    if s == [] || IsDigit(s[|s| - 1]) || s[|s| - 1] == '.' then |s| else SuffixStart(s[..|s| - 1])
  }

  function SplitSuffix(s: string): (string, string) {
    var k := SuffixStart(s);
    (Strip(s[..k]), Strip(s[k..]))
  }

  method SplitSuffixLoop(s: string) returns (digits: string, suffix: string)
    ensures (digits, suffix) == SplitSuffix(s)
  {
    var end := |s|;
    while end > 0 && !(IsDigit(s[end - 1]) || s[end - 1] == '.')
      invariant 0 <= end <= |s|
      invariant forall i :: end <= i < |s| ==> !IsDigit(s[i]) && s[i] != '.'
    {
      end := end - 1;
    }
    assert end == SuffixStart(s);
    digits, suffix := Strip(s[..end]), Strip(s[end..]);
  }

  /** A number as numerator over a power of ten. */
  datatype Ratio = Ratio(num: int, den: nat)

  function PointAt(s: string): (k: nat)
    ensures k <= |s| && (k < |s| ==> s[k] == '.') && forall i :: 0 <= i < k ==> s[i] != '.'
  {
    if s == [] || s[0] == '.' then 0 else 1 + PointAt(s[1..])
  }

  /** Digits, and optionally a point and more digits. */
  function ReadUnsigned(body: string): (r: Option<Ratio>)
    ensures r.Some? ==> r.value.den > 0
  {
    var k := PointAt(body);
    var whole := body[..k];
    var part := if k < |body| then body[k + 1..] else [];
    if AllDigits(whole) && AllDigits(part) && whole + part != [] then Some(Ratio(NatOf(whole + part), Pow10(|part|)))
    else None
  }

  /** The same behind an optional sign. */
  function ReadNumber(s: string): (r: Option<Ratio>)
    ensures r.Some? ==> r.value.den > 0
  {
    if s != [] && (s[0] == '-' || s[0] == '+') then
      match ReadUnsigned(s[1..])
      case None => None
      case Some(m) => Some(Ratio(if s[0] == '-' then -m.num else m.num, m.den))
    else ReadUnsigned(s)
  }

  /** Division rounding toward zero, as `int()` of a quotient. */
  function TruncDiv(a: int, b: nat): int
    requires b > 0
  {
    if a >= 0 then a / b else -((-a) / b)
  }

  /** A number of units of size `from`, in multiples of `multiple` units of size `to`. */
  function Rescale(number: Ratio, from: nat, to: nat, multiple: nat): Result<int> {
    var divisor := number.den * (to * multiple);
    if divisor == 0 then Err("division by zero") else Ok(TruncDiv(number.num * from, divisor))
  }

  function InOwnUnits(text: string, unit: Option<string>): Result<int> {
    var (digits, suffix) := SplitSuffix(text);
    match ReadNumber(digits)
    case None => Err("invalid value")
    case Some(number) =>
      if suffix == "" then Ok(TruncDiv(number.num, number.den))
      else
        match FamilyOf(unit)
        case None => Err("invalid value")
        case Some(f) =>
          var (multiple, base) := SplitMultiple(unit.value);
          match Lookup(f, suffix)
          case None => Err("invalid value")
          case Some(u) =>
            Rescale(number, Size(u), Size(Lookup(f, base).value), multiple)
  }

  predicate InRange(n: int, range: Option<Range>) {
    range.Some? ==> range.value.low <= n <= range.value.high
  }

  function ParseInt(value: string, unit: Option<string>, range: Option<Range>): Result<Value> {
    match InOwnUnits(Strip(value), unit)
    case Err(reason) => Err(reason)
    case Ok(n) =>
      if !(INT32_MIN <= n <= INT32_MAX) then Err("value exceeds integer range")
      else if !InRange(n, range) then Err("outside the valid range")
      else Ok(IntV(n))
  }

  datatype Spelling = Spelling(words: seq<string>, shortest: nat, means: bool)

  const BOOLS: seq<Spelling> := [
    Spelling(["true", "yes"], 1, true), Spelling(["false", "no"], 1, false),
    Spelling(["on"], 2, true), Spelling(["off"], 2, false)]

  predicate Spells(s: Spelling, text: string) {
    |text| >= s.shortest && exists w :: w in s.words && text <= w
  }

  function FirstSpelling(spellings: seq<Spelling>, text: string): (i: nat)
    ensures i <= |spellings|
    ensures i < |spellings| ==> Spells(spellings[i], text)
    ensures forall j :: 0 <= j < i ==> !Spells(spellings[j], text)
  {
    if spellings == [] || Spells(spellings[0], text) then 0 else 1 + FirstSpelling(spellings[1..], text)
  }

  function ParseBool(value: string): Result<Value> {
    var text := Lower(Strip(value));
    if text == "1" || text == "0" then Ok(BoolV(text == "1"))
    else
      var i := FirstSpelling(BOOLS, text);
      if i < |BOOLS| then Ok(BoolV(BOOLS[i].means)) else Err("requires a Boolean value")
  }

  method ParseBoolLoop(value: string) returns (r: Result<Value>)
    ensures r == ParseBool(value)
  {
    var text := Lower(Strip(value));
    if text == "1" || text == "0" {
      return Ok(BoolV(text == "1"));
    }
    var i := 0;
    while i < |BOOLS|
      invariant 0 <= i <= FirstSpelling(BOOLS, text)
    {
      if Spells(BOOLS[i], text) {
        return Ok(BoolV(BOOLS[i].means));
      }
      i := i + 1;
    }
    r := Err("requires a Boolean value");
  }

  const TRUE_WORDS := {"1", "true", "yes", "on"}
  const FALSE_WORDS := {"0", "false", "no", "off"}

  function FirstMatch(allowed: seq<string>, text: string): (i: nat)
    ensures i <= |allowed|
    ensures i < |allowed| ==> Lower(allowed[i]) == text
    ensures forall j :: 0 <= j < i ==> Lower(allowed[j]) != text
  {
    if allowed == [] || Lower(allowed[0]) == text then 0 else 1 + FirstMatch(allowed[1..], text)
  }

  function ParseEnum(value: string, allowed: seq<string>): Result<Value> {
    var text := Lower(Strip(value));
    var i := FirstMatch(allowed, text);
    if i < |allowed| then Ok(StrV(allowed[i]))
    else if "on" in allowed && "off" in allowed && text in TRUE_WORDS then Ok(StrV("on"))
    else if "on" in allowed && "off" in allowed && text in FALSE_WORDS then Ok(StrV("off"))
    else Err("invalid value")
  }

  function ParseAs(entry: Entry, value: string): Result<Value> {
    match entry.vartype
    case BoolType => ParseBool(value)
    case EnumType => ParseEnum(value, entry.enumvals)
    case IntType => ParseInt(value, entry.unit, entry.range)
    case StringType => Ok(StrV(value))
  }

  /** client_encoding is narrowed to the one encoding the server writes. */
  function Parse(catalog: Catalog, name: string, value: string): Result<Value> {
    if name !in catalog then Ok(StrV(value))
    else if name == "client_encoding" then ParseEnum(value, ["UTF8"])
    else ParseAs(catalog[name], value)
  }

  // ---- The round trip ----

  lemma ReadIntText(n: int)
    ensures ReadNumber(IntText(n)) == Some(Ratio(n, 1))
  {
    var size := if n < 0 then -n else n;
    var d := Digits(size);
    NatOfDigits(size);
    if n < 0 {
      assert IntText(n)[1..] == d;
    }
    ReadDigits(IntText(n), d);
  }

  lemma ReadDigits(s: string, d: string)
    requires AllDigits(d) && d != "" && (s == d || (s != "" && s[0] == '-' && s[1..] == d))
    ensures ReadNumber(s) == Some(Ratio(if s == d then NatOf(d) else 0 - NatOf(d), 1))
  {
    assert PointAt(d) == |d|;
    assert d[..|d|] + [] == d;
    assert !IsDigit('-') && Pow10(0) == 1;
  }

  lemma SplitRendered(n: int, name: string)
    requires forall i :: 0 <= i < |name| ==> !IsDigit(name[i]) && name[i] != '.' && !IsSpace(name[i])
    ensures var text := IntText(n) + name;
            Strip(text) == text && SplitSuffix(text) == (IntText(n), name)
  {
    var head := IntText(n);
    var text := head + name;
    assert IsDigit(head[|head| - 1]) && !IsSpace(head[0]);
    assert IsDigit(text[|head| - 1]);
    assert forall k :: |head| <= k < |text| ==> text[k] == name[k - |head|];
    assert SuffixStart(text) == |head|;
    assert text[..|head|] == head && text[|head|..] == name;
    assert Trimmed(text) by {
      if name != "" {
        assert text[|text| - 1] == name[|name| - 1];
      }
    }
    StripTrimmed(text);
    StripTrimmed(head);
    StripTrimmed(name);
  }

  lemma ExactQuotient(n: int, m: nat, b: nat, size: nat)
    requires m > 0 && b > 0 && size > 0 && (n * m * b) % size == 0
    ensures Rescale(Ratio((n * m * b) / size, 1), size, b, m) == Ok(n)
  {
    var q := n * m * b;
    assert q / size * size == q;
    assert b * m > 0;
    assert q == n * (b * m);
    MulDiv(n, b * m);
  }

  lemma MulDiv(n: int, k: nat)
    requires k > 0
    ensures TruncDiv(n * k, k) == n
  {
    if n < 0 {
      DivExact(-n, k);
      assert -(n * k) == (-n) * k;
      assert (-n) * k > 0;
    } else {
      DivExact(n, k);
      assert n * k >= 0;
    }
  }

  lemma ReadRendered(q: int, u: Unit, unit: string)
    requires FamilyOf(Some(unit)).Some? && u in FamilyOf(Some(unit)).value
    ensures var text := IntText(q) + Name(u);
            var (multiple, base) := SplitMultiple(unit);
            Strip(text) == text &&
            InOwnUnits(text, Some(unit)) ==
            Rescale(Ratio(q, 1), Size(u), Size(Lookup(FamilyOf(Some(unit)).value, base).value), multiple)
  {
    NameFacts(u);
    LookupName(FamilyOf(Some(unit)).value, u);
    SplitRendered(q, Name(u));
    ReadIntText(q);
  }

  lemma ReadBare(n: int, unit: Option<string>)
    ensures Strip(IntText(n)) == IntText(n) && InOwnUnits(IntText(n), unit) == Ok(n)
  {
    SplitRendered(n, "");
    assert IntText(n) + "" == IntText(n);
    ReadIntText(n);
    MulDiv(n, 1);
  }

  /** Reading back what an integer parameter renders as gives the value again, for every unit. */
  lemma IntRoundTrip(n: int, unit: Option<string>, range: Option<Range>)
    requires INT32_MIN <= n <= INT32_MAX && InRange(n, range)
    requires unit.Some? ==> SplitMultiple(unit.value).0 > 0
    ensures ParseInt(RenderNumber(n, unit), unit, range) == Ok(IntV(n))
  {
    var family := FamilyOf(unit);
    if family.None? || n == 0 {
      ReadBare(n, unit);
    } else {
      var (multiple, base) := SplitMultiple(unit.value);
      var b := Size(Lookup(family.value, base).value);
      var quantity := n * multiple * b;
      LastDivides(family.value, quantity);
      var u := family.value[LargestDividing(family.value, quantity)];
      ReadRendered(quantity / Size(u), u, unit.value);
      ExactQuotient(n, multiple, b, Size(u));
    }
  }

  lemma FamilyDescends(f: Family, i: nat, j: nat)
    requires IsFamily(f) && i < |f| && j < |f|
    ensures Size(f[j]) > Size(f[i]) <==> j < i
  {
  }

  /** The rendered unit is the largest of its family that divides the quantity exactly. */
  lemma RenderedUnitIsLargest(n: int, unit: string)
    requires FamilyOf(Some(unit)).Some? && n != 0
    ensures var f := FamilyOf(Some(unit)).value;
            var (multiple, base) := SplitMultiple(unit);
            var quantity := n * multiple * Size(Lookup(f, base).value);
            exists u :: u in f && quantity % Size(u) == 0 &&
              RenderNumber(n, Some(unit)) == IntText(quantity / Size(u)) + Name(u) &&
              forall v :: v in f && Size(v) > Size(u) ==> quantity % Size(v) != 0
  {
    var f := FamilyOf(Some(unit)).value;
    var (multiple, base) := SplitMultiple(unit);
    var quantity := n * multiple * Size(Lookup(f, base).value);
    LastDivides(f, quantity);
    var i := LargestDividing(f, quantity);
    forall v | v in f && Size(v) > Size(f[i])
      ensures quantity % Size(v) != 0
    {
      var j :| 0 <= j < |f| && f[j] == v;
      FamilyDescends(f, i, j);
    }
  }

  /** A catalogue entry that makes sense: a unit's multiplier is positive and no two enum values
      differ only in case. */
  predicate WellFormedEntry(entry: Entry) {
    && (entry.unit.Some? ==> SplitMultiple(entry.unit.value).0 > 0)
    && (forall i, j :: 0 <= i < j < |entry.enumvals| ==> Lower(entry.enumvals[i]) != Lower(entry.enumvals[j]))
  }

  lemma EnumReadsBack(value: string, allowed: seq<string>)
    requires forall i, j :: 0 <= i < j < |allowed| ==> Lower(allowed[i]) != Lower(allowed[j])
    requires ParseEnum(value, allowed).Ok?
    ensures ParseEnum(ParseEnum(value, allowed).value.s, allowed) == ParseEnum(value, allowed)
  {
    var c := ParseEnum(value, allowed).value.s;
    assert Trimmed(c) by {
      StripIsTrimmed(value);
      LowerKeepsTrimmed(Strip(value), c);
    }
    StripTrimmed(c);
    var k :| 0 <= k < |allowed| && allowed[k] == c;
    assert FirstMatch(allowed, Lower(c)) == k;
  }

  /** A spelling with the same lower case as a trimmed text, or one of the two words, is trimmed. */
  lemma LowerKeepsTrimmed(t: string, c: string)
    requires Trimmed(t)
    requires Lower(c) == Lower(t) || c == "on" || c == "off"
    ensures Trimmed(c)
  {
    if Lower(c) == Lower(t) && c != "" {
      assert |c| == |t|;
      assert LowerChar(c[0]) == LowerChar(t[0]);
      assert LowerChar(c[|c| - 1]) == LowerChar(t[|t| - 1]);
    }
  }

  lemma BoolReadsBack(b: bool)
    ensures ParseBool(if b then "on" else "off") == Ok(BoolV(b))
  {
    var word := if b then "on" else "off";
    StripTrimmed(word);
    assert Lower(word) == word;
    assert !Spells(BOOLS[0], word) && !Spells(BOOLS[1], word);
    assert word[0] == 'o';
    if b {
      assert Spells(BOOLS[2], word) by { assert "on" in BOOLS[2].words; }
    } else {
      assert word[1] == 'f' && "on"[1] == 'n';
      assert !Spells(BOOLS[2], word);
      assert Spells(BOOLS[3], word) by { assert "off" in BOOLS[3].words; }
    }
  }

  /** Whatever text a parameter accepts, the value it stores renders as a text that reads back as
      that same value: SHOW output can be fed to SET. */
  lemma AcceptedValueReadsBack(entry: Entry, text: string)
    requires WellFormedEntry(entry)
    requires ParseAs(entry, text).Ok?
    ensures ParseAs(entry, Render(Some(entry), ParseAs(entry, text).value)) == ParseAs(entry, text)
  {
    match entry.vartype
    case BoolType => BoolReadsBack(ParseAs(entry, text).value.b);
    case EnumType => EnumReadsBack(text, entry.enumvals);
    case IntType => IntRoundTrip(ParseAs(entry, text).value.n, entry.unit, entry.range);
    case StringType =>
  }

  /** No text spells both truth values: the order the spellings are tried in does not matter. */
  lemma SpellingsUnambiguous(text: string, i: nat, j: nat)
    requires i < |BOOLS| && j < |BOOLS| && Spells(BOOLS[i], text) && Spells(BOOLS[j], text)
    ensures BOOLS[i].means == BOOLS[j].means
  {
    var v :| v in BOOLS[i].words && text <= v;
    var w :| w in BOOLS[j].words && text <= w;
    assert v[0] == text[0] == w[0];
    if text[0] == 'o' {
      assert v[1] == text[1] == w[1];
    }
  }
}

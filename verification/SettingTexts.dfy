/** Which texts a configuration parameter accepts, and what number, truth value or word each one means. */
module SettingTexts {
  import opened Prelude
  import opened Text
  import opened SettingValues

  // ---- Numerals ----

  /** A sign or none, digits, and after a point more digits. */
  datatype Numeral = Numeral(sign: Sign, whole: string, point: bool, part: string)

  datatype Sign = NoSign | Plus | Minus

  predicate IsNumeral(n: Numeral) {
    && AllDigits(n.whole) && AllDigits(n.part) && (n.whole != [] || n.part != [])
    && (n.part != [] ==> n.point)
  }

  function Body(n: Numeral): string {
    n.whole + if n.point then ['.'] + n.part else []
  }

  function Signed(sign: Sign, body: string): string {
    match sign
    case NoSign => body
    case Plus => ['+'] + body
    case Minus => ['-'] + body
  }

  function Write(n: Numeral): string {
    Signed(n.sign, Body(n))
  }

  /** Its value times a power of ten, one for each digit after the point. */
  function Scaled(n: Numeral): int
    requires IsNumeral(n)
  {
    var magnitude: int := NatOf(n.whole + n.part);
    if n.sign.Minus? then -magnitude else magnitude
  }

  lemma PointIs(s: string, k: nat)
    requires k <= |s| && (k < |s| ==> s[k] == '.') && forall i :: 0 <= i < k ==> s[i] != '.'
    ensures PointAt(s) == k
  {
  }

  lemma BodyCut(n: Numeral)
    requires IsNumeral(n)
    ensures var body := Body(n);
            && body != [] && body[0] != '-' && body[0] != '+'
            && PointAt(body) == |n.whole| && body[..|n.whole|] == n.whole
            && (if |n.whole| < |body| then body[|n.whole| + 1..] else []) == n.part
            && (n.whole + n.part) != []
  {
    var body := Body(n);
    PointIs(body, |n.whole|);
    assert n.whole == [] ==> body[0] == '.';
    assert n.whole != [] ==> body[0] == n.whole[0];
  }

  lemma BodyReads(n: Numeral)
    requires IsNumeral(n)
    ensures ReadUnsigned(Body(n)) == Some(Ratio(NatOf(n.whole + n.part), Pow10(|n.part|)))
  {
    BodyCut(n);
  }

  lemma ReadPlain(s: string)
    requires s != [] && s[0] != '-' && s[0] != '+'
    ensures ReadNumber(s) == ReadUnsigned(s)
  {
  }

  lemma ReadSigned(c: char, s: string, m: Ratio)
    requires (c == '-' || c == '+') && ReadUnsigned(s) == Some(m)
    ensures ReadNumber([c] + s) == Some(Ratio(if c == '-' then -m.num else m.num, m.den))
  {
    assert ([c] + s)[1..] == s;
  }

  lemma SignReads(sign: Sign, body: string, m: Ratio)
    requires body != [] && body[0] != '-' && body[0] != '+' && ReadUnsigned(body) == Some(m)
    ensures ReadNumber(Signed(sign, body)) == Some(Ratio(if sign.Minus? then -m.num else m.num, m.den))
  {
    match sign
    case NoSign => ReadPlain(body);
    case Plus => ReadSigned('+', body, m);
    case Minus => ReadSigned('-', body, m);
  }

  lemma NumeralReads(n: Numeral)
    requires IsNumeral(n)
    ensures ReadNumber(Write(n)) == Some(Ratio(Scaled(n), Pow10(|n.part|)))
  {
    BodyReads(n);
    BodyCut(n);
    SignReads(n.sign, Body(n), ReadUnsigned(Body(n)).value);
  }

  lemma OnlyBodiesRead(s: string) returns (n: Numeral)
    requires ReadUnsigned(s).Some?
    ensures IsNumeral(n) && Body(n) == s && n.sign == NoSign
  {
    var k := PointAt(s);
    n := Numeral(NoSign, s[..k], k < |s|, if k < |s| then s[k + 1..] else []);
    CutRejoins(s, k);
  }

  /** Nothing else is a number. */
  lemma OnlyNumeralsRead(s: string) returns (n: Numeral)
    requires ReadNumber(s).Some?
    ensures IsNumeral(n) && Write(n) == s
  {
    if s != [] && (s[0] == '-' || s[0] == '+') {
      n := OnlyBodiesRead(s[1..]);
      n := n.(sign := if s[0] == '-' then Minus else Plus);
      assert s == [s[0]] + s[1..];
    } else {
      n := OnlyBodiesRead(s);
    }
  }

  lemma CutRejoins(body: string, k: nat)
    requires k <= |body| && (k < |body| ==> body[k] == '.')
    ensures body == body[..k] + if k < |body| then ['.'] + body[k + 1..] else []
  {
  }

  // ---- Whole numbers in a unit ----

  /** n is a / b with its fraction dropped. */
  predicate Toward(n: int, a: int, b: int) {
    if a >= 0 then n * b <= a < (n + 1) * b else (n - 1) * b < a <= n * b
  }

  lemma TruncIsToward(a: int, b: nat)
    requires b > 0
    ensures Toward(TruncDiv(a, b), a, b)
  {
    var m := if a >= 0 then a else -a;
    assert m == m / b * b + m % b;
    assert (m / b + 1) * b == m / b * b + b;
    if a < 0 {
      assert (-(m / b)) * b == -(m / b * b);
      assert (-(m / b) - 1) * b == -((m / b + 1) * b);
    }
  }

  predicate Spaces(s: string) {
    forall i :: 0 <= i < |s| ==> IsSpace(s[i])
  }

  /** No digit, no point, and no space around it. */
  predicate IsWord(s: string) {
    Trimmed(s) && forall i :: 0 <= i < |s| ==> !IsDigit(s[i]) && s[i] != '.'
  }

  lemma {:induction false} StripLeftSpaces(a: string, s: string)
    requires Spaces(a) && (s == "" || !IsSpace(s[0]))
    ensures StripLeft(a + s) == s
  {
    if a == "" {
      assert a + s == s;
    } else {
      StripLeftSpaces(a[1..], s);
      assert (a + s)[1..] == a[1..] + s;
    }
  }

  lemma {:induction false} StripRightSpaces(s: string, b: string)
    requires Spaces(b) && (s == "" || !IsSpace(s[|s| - 1]))
    ensures StripRight(s + b) == s
  {
    if b == "" {
      assert s + b == s;
    } else {
      StripRightSpaces(s, b[..|b| - 1]);
      assert (s + b)[..|s + b| - 1] == s + b[..|b| - 1];
    }
  }

  lemma StripSpaces(a: string, s: string, b: string)
    requires Spaces(a) && Spaces(b) && Trimmed(s)
    ensures Strip(a + s + b) == s
  {
    if s == "" {
      StripAllSpaces(a + s + b);
    } else {
      assert a + s + b == a + (s + b);
      StripLeftSpaces(a, s + b);
      StripRightSpaces(s, b);
    }
  }

  lemma {:induction false} StripAllSpaces(s: string)
    requires Spaces(s)
    ensures Strip(s) == ""
  {
    StripLeftSpaces(s, "");
    assert s + "" == s;
  }

  lemma BodyEnds(n: Numeral)
    requires IsNumeral(n)
    ensures var body := Body(n);
            body != [] && InNumber(body[0]) && InNumber(body[|body| - 1])
  {
    var body := Body(n);
    assert n.whole != [] ==> body[0] == n.whole[0];
    assert n.whole == [] ==> body[0] == '.';
    if n.part != [] {
      assert body[|body| - 1] == n.part[|n.part| - 1];
    } else if n.point {
      assert body[|body| - 1] == '.';
    } else {
      assert body[|body| - 1] == n.whole[|n.whole| - 1];
    }
  }

  predicate InNumber(c: char) {
    IsDigit(c) || c == '.'
  }

  lemma SignEnds(sign: Sign, body: string)
    requires body != [] && InNumber(body[0]) && InNumber(body[|body| - 1])
    ensures var s := Signed(sign, body); s != [] && !IsSpace(s[0]) && s[|s| - 1] == body[|body| - 1]
  {
  }

  lemma NumeralEnds(n: Numeral)
    requires IsNumeral(n)
    ensures var s := Write(n);
            s != "" && !IsSpace(s[0]) && !IsSpace(s[|s| - 1]) && (IsDigit(s[|s| - 1]) || s[|s| - 1] == '.')
  {
    BodyEnds(n);
    SignEnds(n.sign, Body(n));
  }

  lemma SuffixIs(head: string, tail: string)
    requires head != "" && (IsDigit(head[|head| - 1]) || head[|head| - 1] == '.')
    requires forall i :: 0 <= i < |tail| ==> !IsDigit(tail[i]) && tail[i] != '.'
    ensures SuffixStart(head + tail) == |head|
  {
    var s := head + tail;
    assert s[|head| - 1] == head[|head| - 1];
    assert forall k :: |head| <= k < |s| ==> s[k] == tail[k - |head|];
  }

  lemma SplitAt(n: Numeral, gap: string, word: string)
    requires IsNumeral(n) && Spaces(gap) && IsWord(word) && (word == "" ==> gap == "")
    ensures var s := Write(n) + (gap + word); Trimmed(s) && SplitSuffix(s) == (Write(n), word)
  {
    var head := Write(n);
    var tail := gap + word;
    var s := head + tail;
    NumeralEnds(n);
    SuffixIs(head, tail);
    assert s[..|head|] == head && s[|head|..] == tail;
    assert s[0] == head[0];
    assert word != "" ==> s[|s| - 1] == word[|word| - 1];
    assert word == "" ==> s == head;
    StripTrimmed(head);
    StripSpaces(gap, word, "");
    assert gap + word + "" == gap + word;
  }

  /** What the number in front of a word comes to, as a fraction. The parameter's own unit is `multiple`
      of some base unit; a number on its own is already in it. */
  datatype Fraction = Fraction(top: int, bottom: int)

  function InUnit(n: Numeral, word: string, unit: Option<string>): Option<Fraction>
    requires IsNumeral(n)
  {
    if word == "" then Some(Fraction(Scaled(n), Pow10(|n.part|)))
    else
      match FamilyOf(unit)
      case None => None
      case Some(f) =>
        match Lookup(f, word)
        case None => None
        case Some(u) =>
          var (multiple, base) := SplitMultiple(unit.value);
          Some(Fraction(Scaled(n) * Size(u), Pow10(|n.part|) * (Size(Lookup(f, base).value) * multiple)))
  }

  lemma InOwnUnitsIs(n: Numeral, gap: string, word: string, unit: Option<string>)
    requires IsNumeral(n) && IsWord(word) && Spaces(gap) && (word == "" ==> gap == "")
    requires unit.Some? ==> SplitMultiple(unit.value).0 > 0
    ensures var r := InOwnUnits(Write(n) + (gap + word), unit);
            match InUnit(n, word, unit)
            case None => r.Err?
            case Some(q) => q.bottom > 0 && r == Ok(TruncDiv(q.top, q.bottom))
  {
    SplitAt(n, gap, word);
    NumeralReads(n);
    if InUnit(n, word, unit).Some? {
      BottomPositive(n, word, unit);
    }
  }

  /** The whole number a fraction comes to, kept if it fits in 32 bits and the parameter's range. */
  ghost predicate Means(r: Result<Value>, q: Fraction, range: Option<Range>) {
    exists m :: Toward(m, q.top, q.bottom) && r == Kept(m, range)
  }

  function Kept(m: int, range: Option<Range>): Result<Value> {
    if m < INT32_MIN || INT32_MAX < m then Err("value exceeds integer range")
    else if range.None? || range.value.low <= m <= range.value.high then Ok(IntV(m)) else Err("outside the valid range")
  }

  /** Every text with a number in it: which whole number it means, and when it is refused. Spaces may
      stand around it and before the unit. */
  lemma IntMeans(n: Numeral, front: string, gap: string, word: string, back: string, unit: Option<string>, range: Option<Range>)
    requires IsNumeral(n) && IsWord(word) && Spaces(front) && Spaces(gap) && Spaces(back) && (word == "" ==> gap == "")
    requires unit.Some? ==> SplitMultiple(unit.value).0 > 0
    ensures var r := ParseInt(front + (Write(n) + (gap + word)) + back, unit, range);
            match InUnit(n, word, unit)
            case None => r.Err?
            case Some(q) => Means(r, q, range)
  {
    var s := Write(n) + (gap + word);
    SplitAt(n, gap, word);
    StripSpaces(front, s, back);
    InOwnUnitsIs(n, gap, word, unit);
    if InUnit(n, word, unit).Some? {
      ParsedMeans(front + s + back, s, InUnit(n, word, unit).value, unit, range);
    }
  }

  lemma ParsedMeans(text: string, s: string, q: Fraction, unit: Option<string>, range: Option<Range>)
    requires Strip(text) == s && q.bottom > 0 && InOwnUnits(s, unit) == Ok(TruncDiv(q.top, q.bottom))
    ensures Means(ParseInt(text, unit, range), q, range)
  {
    TruncIsToward(q.top, q.bottom);
  }

  lemma BottomPositive(n: Numeral, word: string, unit: Option<string>)
    requires IsNumeral(n) && InUnit(n, word, unit).Some? && (unit.Some? ==> SplitMultiple(unit.value).0 > 0)
    ensures InUnit(n, word, unit).value.bottom > 0
  {
    if word != "" {
      var (multiple, base) := SplitMultiple(unit.value);
      var size := Size(Lookup(FamilyOf(unit).value, base).value);
      Product(size, multiple);
      Product(Pow10(|n.part|), size * multiple);
    }
  }

  lemma Product(a: int, b: int)
    requires a > 0 && b > 0
    ensures a * b > 0
  {
  }

  /** And every text that is accepted is one of those. */
  lemma OnlyNumbersAreInts(text: string, unit: Option<string>, range: Option<Range>) returns (n: Numeral, word: string)
    requires ParseInt(text, unit, range).Ok?
    ensures IsNumeral(n) && SplitSuffix(Strip(text)) == (Write(n), word) && InUnit(n, word, unit).Some?
  {
    var (digits, suffix) := SplitSuffix(Strip(text));
    n := OnlyNumeralsRead(digits);
    word := suffix;
  }

  // ---- The units ----

  /** A unit by itself is one of itself. */
  lemma OwnUnit(f: Family, v: Unit)
    requires IsFamily(f) && v in f
    ensures SplitMultiple(Name(v)) == (1, Name(v)) && FamilyOf(Some(Name(v))) == Some(f) && Lookup(f, Name(v)) == Some(v)
  {
    NameFacts(v);
    LeadingDigitsUnique(Name(v), 0);
    LookupName(f, v);
    if f == TIME_UNITS && Lookup(MEMORY_UNITS, Name(v)).Some? {
      NamesDiffer(Lookup(MEMORY_UNITS, Name(v)).value, v);
    }
  }

  const ONE := Numeral(NoSign, ['1'], false, [])

  lemma OneIsOne()
    ensures IsNumeral(ONE) && Write(ONE) == ['1'] && Scaled(ONE) == 1 && Pow10(|ONE.part|) == 1
  {
    assert ['1'] + [] == ['1'] && NatOf(['1']) == NatOf(['1'][..0]) * 10 + 1;
  }

  lemma OneFits(f: Family, u: Unit, v: Unit)
    requires IsFamily(f) && u in f && v in f
    ensures IsWord(Name(u)) && Name(u) != "" && SplitMultiple(Name(v)).0 > 0
    ensures InUnit(ONE, Name(u), Some(Name(v))) == Some(Fraction(Size(u), Size(v)))
  {
    OwnUnit(f, v);
    OwnUnit(f, u);
    NameFacts(u);
    OneIsOne();
  }

  /** One of a unit, for a parameter measured in another of its family. */
  lemma OneOf(f: Family, u: Unit, v: Unit, k: nat)
    requires IsFamily(f) && u in f && v in f && Size(u) == k * Size(v) && k <= INT32_MAX
    ensures ParseInt(['1'] + Name(u), Some(Name(v)), None) == Ok(IntV(k))
  {
    OneFits(f, u, v);
    OneIsOne();
    var s := ['1'] + Name(u);
    assert Write(ONE) + ([] + Name(u)) == s;
    SplitAt(ONE, [], Name(u));
    StripTrimmed(s);
    InOwnUnitsIs(ONE, [], Name(u), Some(Name(v)));
    MulDiv(k, Size(v));
    ParsedIs(s, Some(Name(v)), k);
  }

  lemma ParsedIs(s: string, unit: Option<string>, k: nat)
    requires Strip(s) == s && InOwnUnits(s, unit) == Ok(k) && k <= INT32_MAX
    ensures ParseInt(s, unit, None) == Ok(IntV(k))
  {
  }

  /** How many of one unit another holds. */
  datatype Holds = Holds(name: string, count: nat, of: string)

  const UNITS := [
    Holds("TB", 1024, "GB"), Holds("GB", 1024, "MB"), Holds("MB", 1024, "kB"), Holds("kB", 1024, "B"),
    Holds("d", 24, "h"), Holds("h", 60, "min"), Holds("min", 60, "s"), Holds("s", 1000, "ms"), Holds("ms", 1000, "us")]

  lemma UnitsNamed(i: nat)
    requires i < |UNITS|
    ensures i < 4 ==> UNITS[i].name == Name(MEMORY_UNITS[i]) && UNITS[i].of == Name(MEMORY_UNITS[i + 1])
    ensures i >= 4 ==> UNITS[i].name == Name(TIME_UNITS[i - 4]) && UNITS[i].of == Name(TIME_UNITS[i - 3])
  {
  }

  /** The units by their names: one of each, for a parameter measured in the next smaller one. */
  lemma UnitsHold(i: nat)
    requires i < |UNITS|
    ensures ParseInt(['1'] + UNITS[i].name, Some(UNITS[i].of), None) == Ok(IntV(UNITS[i].count))
  {
    UnitsNamed(i);
    if i < 4 {
      OneOf(MEMORY_UNITS, MEMORY_UNITS[i], MEMORY_UNITS[i + 1], 1024);
    } else {
      OneOf(TIME_UNITS, TIME_UNITS[i - 4], TIME_UNITS[i - 3], UNITS[i].count);
    }
  }

  // ---- Truth values ----

  predicate TrueText(text: string) {
    text == "1" || text == "on" || (text != "" && (text <= "true" || text <= "yes"))
  }

  predicate FalseText(text: string) {
    text == "0" || (|text| > 1 && text <= "off") || (text != "" && (text <= "false" || text <= "no"))
  }

  lemma OnlyWords(s: Spelling, text: string, v: string, w: string)
    requires s.words == [v, w]
    ensures Spells(s, text) <==> |text| >= s.shortest && (text <= v || text <= w)
  {
    assert v == s.words[0] && w == s.words[1];
    assert v in s.words && w in s.words;
    assert forall x :: x in s.words ==> x == v || x == w;
  }

  lemma OnlyWord(s: Spelling, text: string, w: string)
    requires s.words == [w]
    ensures Spells(s, text) <==> |text| >= s.shortest && text <= w
  {
    assert w == s.words[0] && w in s.words;
    assert forall x :: x in s.words ==> x == w;
  }

  /** A Boolean parameter takes 1, 0, on, and the prefixes of true, yes, false, no and off that are not
      empty and, for off, not a single letter: in any case, with spaces around them, and nothing else. */
  lemma BoolTexts(value: string)
    ensures ParseBool(value) == Ok(BoolV(true)) <==> TrueText(Lower(Strip(value)))
    ensures ParseBool(value) == Ok(BoolV(false)) <==> FalseText(Lower(Strip(value))) && !TrueText(Lower(Strip(value)))
    ensures ParseBool(value).Err? <==> !TrueText(Lower(Strip(value))) && !FalseText(Lower(Strip(value)))
  {
    var text := Lower(Strip(value));
    OnlyWords(BOOLS[0], text, "true", "yes");
    OnlyWords(BOOLS[1], text, "false", "no");
    OnlyWord(BOOLS[2], text, "on");
    OnlyWord(BOOLS[3], text, "off");
  }

  // ---- Words ----

  predicate YesWord(text: string) {
    text == "1" || text == "true" || text == "yes" || text == "on"
  }

  predicate NoWord(text: string) {
    text == "0" || text == "false" || text == "no" || text == "off"
  }

  predicate Offers(allowed: seq<string>, text: string) {
    exists i :: 0 <= i < |allowed| && Lower(allowed[i]) == text
  }

  /** An enum parameter takes its values in any case, with spaces around them, and stores the value as the
      catalogue spells it. One that offers on and off also takes the words for them, spelled in full. It
      takes nothing else. */
  lemma EnumTexts(value: string, allowed: seq<string>)
    ensures var text := Lower(Strip(value));
            var r := ParseEnum(value, allowed);
            var switch := "on" in allowed && "off" in allowed;
            && (r.Ok? <==> Offers(allowed, text) || (switch && (YesWord(text) || NoWord(text))))
            && (r.Ok? ==> r.value.StrV? && r.value.s in allowed)
            && (Offers(allowed, text) ==> Lower(r.value.s) == text)
            && (r.Ok? && !Offers(allowed, text) ==> r.value.s == if YesWord(text) then "on" else "off")
  {
    var text := Lower(Strip(value));
    var i := FirstMatch(allowed, text);
    if i < |allowed| {
      assert Offers(allowed, text);
    }
    WordSets(text);
  }

  lemma WordSets(text: string)
    ensures text in TRUE_WORDS <==> YesWord(text)
    ensures text in FALSE_WORDS <==> NoWord(text)
  {
  }

  /** The client encoding is UTF8 and nothing else. */
  lemma EncodingTexts(catalog: Catalog, value: string)
    requires "client_encoding" in catalog
    ensures var r := Parse(catalog, "client_encoding", value);
            if Lower(Strip(value)) == Lower("UTF8") then r == Ok(StrV("UTF8")) else r.Err?
  {
    var allowed := ["UTF8"];
    EnumTexts(value, allowed);
    assert "on" !in allowed by { assert |"on"| != |"UTF8"|; }
    assert Offers(allowed, Lower("UTF8")) by { assert Lower(allowed[0]) == Lower("UTF8"); }
    assert forall x :: x in allowed ==> x == "UTF8";
  }

  /** A number in front of a unit's name is how many of it the parameter is measured in. */
  lemma MultipleIs(m: nat, u: Unit)
    ensures SplitMultiple(Digits(m) + Name(u)) == (m, Name(u))
    ensures SplitMultiple(Name(u)) == (1, Name(u))
  {
    NameFacts(u);
    NatOfDigits(m);
    var s := Digits(m) + Name(u);
    var k := |Digits(m)|;
    assert s[..k] == Digits(m) && s[k..] == Name(u);
    assert k < |s| ==> s[k] == Name(u)[0];
    LeadingDigitsUnique(s, k);
    LeadingDigitsUnique(Name(u), 0);
  }
}

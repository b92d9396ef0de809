/** Decoding what the NUMERIC encoder sent. */
module NumericRoundTrip {
  import opened Prelude
  import opened Text
  import opened ByteOrder
  import opened Numeric
  import opened NumericValues

  /** The digits of n without its trailing zeros. */
  function SignificantDigits(n: nat): nat {
    if n == 0 then 0 else if n % 10 == 0 then SignificantDigits(n / 10) else |Digits(n)|
  }

  /** The decimal as a count of units of its last fractional digit. */
  function Units(coefficient: nat, exponent: int): nat {
    WithZeros(coefficient, exponent + Scale(exponent))
  }

  // ---- Rounding ----

  lemma DigitsTimesTen(n: nat)
    requires n > 0
    ensures |Digits(n * 10)| == |Digits(n)| + 1
  {
    assert n * 10 / 10 == n;
  }

  lemma {:induction false} DropOne(n: nat, k: nat)
    ensures Drop(n, k + 1) == Drop(n / 10, k)
    decreases k
  {
    if k > 0 {
      DropOne(n, k - 1);
    }
  }

  lemma {:induction false} DropZeros(n: nat, k: nat)
    ensures Drop(WithZeros(n, k), k) == n
    decreases k
  {
    if k > 0 {
      DropZeros(n, k - 1);
      DropOne(WithZeros(n, k), k - 1);
    }
  }

  lemma HalfEvenTimesTen(n: nat, k: nat)
    ensures HalfEven(n * 10, k + 1) == HalfEven(n, k)
  {
    DropOne(n * 10, k);
  }

  lemma HalfEvenExact(n: nat, k: nat)
    ensures HalfEven(WithZeros(n, k), k) == n
  {
    DropZeros(n, k);
    ZeroWithZeros(k);
    ZerosKeepOrder(0, 1, k);
  }

  lemma RoundedTimesTen(n: nat)
    ensures Rounded(n * 10) == Rounded(n) * 10
  {
    if n > 0 {
      DigitsTimesTen(n);
      RoundedTimesTenAt(n, |Digits(n)|);
    }
  }

  lemma RoundedTimesTenAt(n: nat, count: nat)
    requires |Digits(n)| == count && |Digits(n * 10)| == count + 1
    ensures Rounded(n * 10) == Rounded(n) * 10
  {
    if count == PRECISION {
      assert WithZeros(n, 1) == n * 10;
      HalfEvenExact(n, 1);
    } else if count > PRECISION {
      HalfEvenTimesTen(n, count - PRECISION);
    }
  }

  /** Rounding to a number of digits does not depend on where the point is. */
  lemma {:induction false} RoundedScaled(n: nat, k: nat)
    ensures Rounded(WithZeros(n, k)) == WithZeros(Rounded(n), k)
    decreases k
  {
    if k > 0 {
      RoundedScaled(n, k - 1);
      RoundedTimesTen(WithZeros(n, k - 1));
    }
  }

  lemma {:induction false} SignificantScaled(n: nat, k: nat)
    ensures SignificantDigits(WithZeros(n, k)) == SignificantDigits(n)
    decreases k
  {
    if k > 0 {
      SignificantScaled(n, k - 1);
      assert WithZeros(n, k) % 10 == 0 && WithZeros(n, k) / 10 == WithZeros(n, k - 1);
    }
  }

  /** Rounding changes nothing exactly when the context holds the significant digits. */
  lemma {:induction false} RoundedExactly(n: nat)
    ensures Rounded(n) == n <==> SignificantDigits(n) <= PRECISION
    decreases n
  {
    if n > 0 && n % 10 == 0 {
      RoundedExactly(n / 10);
      RoundedTimesTen(n / 10);
      assert n / 10 * 10 == n;
    } else if n > 0 && |Digits(n)| > PRECISION {
      RoundedEndsInZero(n);
    }
  }

  lemma EndsInZero(n: nat, k: nat)
    requires k > 0
    ensures WithZeros(n, k) % 10 == 0
  {
    assert WithZeros(n, k) == 10 * WithZeros(n, k - 1);
  }

  lemma RoundedEndsInZero(n: nat)
    requires |Digits(n)| > PRECISION
    ensures Rounded(n) % 10 == 0
  {
    var excess := |Digits(n)| - PRECISION;
    EndsInZero(HalfEven(n, excess), excess);
  }

  lemma RoundedZero(n: nat)
    ensures Rounded(n) == 0 <==> n == 0
  {
    var excess := |Digits(n)| - PRECISION;
    if excess > 0 {
      DropPositive(n, excess);
      ZeroWithZeros(excess);
      ZerosKeepOrder(0, HalfEven(n, excess), excess);
    }
  }

  lemma {:induction false} DropPositive(n: nat, k: nat)
    requires n > 0 && k < |Digits(n)|
    ensures Drop(n, k) > 0
    decreases k
  {
    if k > 0 {
      DropPositive(n / 10, k - 1);
      DropOne(n, k - 1);
    }
  }

  lemma {:induction false} DigitsFew(n: nat, k: nat)
    requires k > 0 && n < WithZeros(1, k)
    ensures |Digits(n)| <= k
    decreases k
  {
    if n >= 10 {
      DigitsFew(n / 10, k - 1);
    }
  }

  /** Rounding at the groups' exponent and then printing at the display scale rounds the decimal. */
  lemma RescaledRounded(n: nat, e: int, coefficient: nat, exponent: int)
    requires SameValue(n, e, coefficient, exponent)
    ensures Rescaled(Rounded(n), e, Scale(exponent)) == Rounded(Units(coefficient, exponent))
  {
    var scale := Scale(exponent);
    var units := Units(coefficient, exponent);
    UnitsSameValue(n, e, coefficient, exponent);
    if e + scale >= 0 {
      RoundedScaled(n, e + scale);
    } else {
      var k := -(e + scale);
      RoundedScaled(units, k);
      HalfEvenExact(Rounded(units), k);
    }
  }

  lemma UnitsSameValue(n: nat, e: int, coefficient: nat, exponent: int)
    requires SameValue(n, e, coefficient, exponent)
    ensures SameValue(n, e, Units(coefficient, exponent), 0 - Scale(exponent))
  {
    var k := exponent + Scale(exponent);
    Flip(n, e, coefficient, exponent);
    Shift(coefficient, k, exponent - k, n, e);
    Flip(n, e, WithZeros(coefficient, k), exponent - k);
  }

  // ---- Texts ----

  lemma {:induction false} GroupTextValue(g: seq<nat>)
    requires Small(g)
    ensures |GroupText(g)| == 4 * |g| && NatOf(GroupText(g)) == BigNat(g)
  {
    if g != [] {
      var first := PadLeft(Digits(g[0]), 4);
      GroupTextValue(g[1..]);
      FourDigits(g[0]);
      NatOfAppend(first, GroupText(g[1..]));
      BigNatAppend([g[0]], g[1..]);
      BigNatOne(g[0]);
      assert [g[0]] + g[1..] == g;
    }
  }

  lemma FourDigits(n: nat)
    requires n < BASE
    ensures |PadLeft(Digits(n), 4)| == 4 && NatOf(PadLeft(Digits(n), 4)) == n
  {
    PadLeftValue(Digits(n), 4);
    NatOfDigits(n);
    FourZeros(1);
    DigitsFew(n, 4);
  }

  /** The printed text determines the number. */
  lemma FixedDetermines(negative: bool, m: nat, n: nat, scale: nat)
    ensures Fixed(negative, m, scale) == Fixed(negative, n, scale) <==> m == n
  {
    PointedDetermines(negative, PadLeft(Digits(m), scale + 1), PadLeft(Digits(n), scale + 1), scale);
    NatOfDigits(m);
    NatOfDigits(n);
    PadLeftValue(Digits(m), scale + 1);
    PadLeftValue(Digits(n), scale + 1);
  }

  lemma PointedDetermines(negative: bool, a: string, b: string, scale: nat)
    requires scale < |a| && scale < |b|
    ensures Pointed(negative, a, scale) == Pointed(negative, b, scale) <==> a == b
  {
    PointedParts(negative, a, scale);
    PointedParts(negative, b, scale);
  }

  lemma PointedParts(negative: bool, digits: string, scale: nat)
    requires scale < |digits|
    ensures var text := Pointed(negative, digits, scale);
            var sign := if negative then 1 else 0;
            var point := if scale > 0 then 1 else 0;
            && |text| == sign + |digits| + point
            && digits == text[sign..|text| - scale - point] + text[|text| - scale..]
  {
    var cut := |digits| - scale;
    var sign := if negative then "-" else "";
    var point := if scale > 0 then "." else "";
    assert scale == 0 ==> digits[cut..] == "";
    Parts(sign, digits[..cut], point, digits[cut..]);
    assert Pointed(negative, digits, scale) == sign + digits[..cut] + (point + digits[cut..]);
    assert digits == digits[..cut] + digits[cut..];
  }

  lemma Parts(sign: string, a: string, point: string, b: string)
    ensures var text := sign + a + (point + b);
            text[|sign|..|text| - |b| - |point|] == a && text[|text| - |b|..] == b
  {
  }

  // ---- Bytes ----

  lemma {:induction false} GroupsReadBack(g: seq<nat>, before: Bytes)
    requires PackGroups(g).Ok?
    ensures UnpackGroups(before + PackGroups(g).value, |before|, |g|) == Ok(g)
    decreases |g|
  {
    if g != [] {
      var rest := PackGroups(g[1..]).value;
      var data := before + PackGroups(g).value;
      var first := PackShort(g[0]);
      assert before + first + rest == data;
      assert data[|before|..|before| + 2] == first;
      UnpackPackShort(g[0]);
      GroupsReadBack(g[1..], before + first);
      assert [g[0]] + g[1..] == g;
    }
  }

  lemma {:induction false} SmallGroupsPack(g: seq<nat>)
    requires Small(g)
    ensures PackGroups(g).Ok?
  {
    if g != [] {
      SmallGroupsPack(g[1..]);
    }
  }

  lemma HeaderReadsBack(count: nat, weight: int, sign: nat, scale: nat, tail: Bytes)
    requires FitsShort(count) && -TWO15 <= weight < TWO15 && FitsShort(sign) && FitsShort(scale)
    ensures var data := Header(count, weight, sign, scale) + tail;
            && UnpackShort(data[0..2]) == count
            && UnpackSignedShort(data[2..4]) == weight
            && UnpackShort(data[4..6]) == sign
            && UnpackShort(data[6..8]) == scale
  {
    var data := Header(count, weight, sign, scale) + tail;
    assert data[0..2] == PackShort(count);
    assert data[2..4] == PackSignedShort(weight);
    assert data[4..6] == PackShort(sign);
    assert data[6..8] == PackShort(scale);
    UnpackPackShort(count);
    UnpackPackSignedShort(weight);
    UnpackPackShort(sign);
    UnpackPackShort(scale);
  }

  /** The decoder reads the fields and groups that were packed. */
  lemma PackedReadsBack(p: Packed, sign: nat, scale: nat)
    requires Small(p.groups) && FitsHeader(p, scale) && (sign == NEG || sign == POS)
    ensures Message(p, sign, scale).Ok?
    ensures Decode(Message(p, sign, scale).value) == Ok(Printed(sign == NEG, Joined(p.groups), Exponent(p), scale))
  {
    SmallGroupsPack(p.groups);
    HeaderReadsBack(|p.groups|, p.weight, sign, scale, PackGroups(p.groups).value);
    GroupsReadBack(p.groups, Header(|p.groups|, p.weight, sign, scale));
  }

  // ---- The main results ----

  lemma JoinedSameValue(p: Packed, coefficient: nat, exponent: int)
    requires Represents(p, coefficient, exponent)
    ensures SameValue(Joined(p.groups), Exponent(p), coefficient, exponent)
  {
    JoinedValue(p.groups);
  }

  lemma PrintedRounds(negative: bool, n: nat, e: int, coefficient: nat, exponent: int)
    requires SameValue(n, e, coefficient, exponent)
    ensures Printed(negative, n, e, Scale(exponent)) ==
            Fixed(negative && coefficient != 0, Rounded(Units(coefficient, exponent)), Scale(exponent))
  {
    RoundedZero(n);
    ZeroValue(n, e, coefficient, exponent);
    RescaledRounded(n, e, coefficient, exponent);
  }

  lemma JoinedValue(groups: seq<nat>)
    requires Small(groups)
    ensures Joined(groups) == BigNat(groups)
  {
    GroupTextValue(groups);
    assert NatOf("0") == 0;
  }

  /** Encoding then decoding prints the decimal rounded to the context's digits, with exactly the
      fractional digits it had; zero loses its sign. */
  lemma DecodedText(negative: bool, coefficient: nat, exponent: int)
    requires FitsHeader(Significant(coefficient, exponent), Scale(exponent))
    ensures var sent := Encode(Finite(negative, coefficient, exponent));
            && sent.Ok?
            && Decode(sent.value) ==
               Ok(Fixed(negative && coefficient != 0, Rounded(Units(coefficient, exponent)), Scale(exponent)))
  {
    var p := Significant(coefficient, exponent);
    var sign := if negative then NEG else POS;
    GroupsHaveTheValue(coefficient, exponent);
    PackedReadsBack(p, sign, Scale(exponent));
    JoinedSameValue(p, coefficient, exponent);
    PrintedRounds(sign == NEG, Joined(p.groups), Exponent(p), coefficient, exponent);
  }

  /** The text of a decimal in full: no exponent, and exactly its own fractional digits. */
  function InFull(negative: bool, coefficient: nat, exponent: int): string {
    Fixed(negative && coefficient != 0, Units(coefficient, exponent), Scale(exponent))
  }

  lemma RoundedInFull(negative: bool, coefficient: nat, exponent: int)
    ensures Fixed(negative && coefficient != 0, Rounded(Units(coefficient, exponent)), Scale(exponent)) ==
            InFull(negative, coefficient, exponent)
            <==> SignificantDigits(coefficient) <= PRECISION
  {
    var units := Units(coefficient, exponent);
    FixedDetermines(negative && coefficient != 0, Rounded(units), units, Scale(exponent));
    RoundedExactly(units);
    SignificantScaled(coefficient, exponent + Scale(exponent));
  }

  /** The decoded text is the decimal in full if and only if its coefficient has at most 28
      significant digits. */
  lemma NumericRoundTrips(negative: bool, coefficient: nat, exponent: int)
    requires FitsHeader(Significant(coefficient, exponent), Scale(exponent))
    ensures var sent := Encode(Finite(negative, coefficient, exponent));
            && sent.Ok?
            && (Decode(sent.value) == Ok(InFull(negative, coefficient, exponent))
                <==> SignificantDigits(coefficient) <= PRECISION)
  {
    DecodedText(negative, coefficient, exponent);
    RoundedInFull(negative, coefficient, exponent);
  }

  lemma {:induction false} DigitsMany(n: nat, k: nat)
    requires n >= WithZeros(1, k)
    ensures |Digits(n)| > k
    decreases k
  {
    if k > 0 {
      DigitsMany(n / 10, k - 1);
      ZerosKeepOrder(0, 1, k - 1);
      ZeroWithZeros(k - 1);
    }
  }

  /** An integer of up to a thousand digits fits the header. */
  lemma WholeFits(coefficient: nat)
    requires |Digits(coefficient)| <= 1000
    ensures FitsHeader(Significant(coefficient, 0), 0)
  {
    var h := AtPoint(coefficient, 0);
    assert Digits(coefficient) + Zeros(0) == Digits(coefficient);
    var all := AllGroups(h);
    assert |all.groups| <= 251 && all.weight == |all.groups| - 1;
    DropLeadingValue(all);
    var p := DropLeading(all);
    assert SameValue(BigNat(p.groups), 0, BigNat(p.groups), 0);
    DropTrailingValue(p.groups, 0, BigNat(p.groups), 0);
  }

  /** 10^28 + 1 has 29 significant digits, and its last one is lost. */
  lemma TwentyNineDigitsAreLost(n: nat)
    requires n == 10_000_000_000_000_000_000_000_000_001
    ensures Encode(Finite(false, n, 0)).Ok?
    ensures Decode(Encode(Finite(false, n, 0)).value) != Ok(InFull(false, n, 0))
  {
    TenToThe28();
    OneTooMany(n, 28);
    assert SignificantDigits(n) == 29 > PRECISION;
    WholeFits(n);
    NumericRoundTrips(false, n, 0);
  }

  lemma TenToThe28()
    ensures WithZeros(1, 28) == 10_000_000_000_000_000_000_000_000_000
  {
    ZerosAdd(1, 14, 14);
    ZerosAdd(1, 7, 7);
    assert WithZeros(1, 7) == 10_000_000;
    Times(10_000_000, 7, 10_000_000);
    Times(100_000_000_000_000, 14, 100_000_000_000_000);
  }

  lemma Times(n: nat, k: nat, p: nat)
    requires WithZeros(1, k) == p
    ensures WithZeros(n, k) == n * p
  {
    ZerosTimes(n, k);
  }

  lemma {:induction false} ZerosTimes(n: nat, k: nat)
    ensures WithZeros(n, k) == n * WithZeros(1, k)
    decreases k
  {
    if k > 0 {
      ZerosTimes(n, k - 1);
    }
  }

  lemma OneTooMany(n: nat, k: nat)
    requires k > 0 && n == WithZeros(1, k) + 1
    ensures SignificantDigits(n) == |Digits(n)| == k + 1
  {
    DigitsMany(n, k);
    EndsInZero(1, k);
    ZerosKeepOrder(0, 1, k);
    ZeroWithZeros(k);
    DigitsFew(n, k + 1);
  }

  /** The special values read back. */
  lemma SpecialValues(v: Decimal)
    requires v.NaN? || v.Infinite?
    ensures Encode(v).Ok?
    ensures Decode(Encode(v).value) ==
            Ok(if v.NaN? then "NaN" else if v.negative then "-Infinity" else "Infinity")
  {
    var sign := if v.NaN? then NAN else if v.negative then NINF else PINF;
    HeaderReadsBack(0, 0, sign, 0, []);
    assert Header(0, 0, sign, 0) + [] == Header(0, 0, sign, 0);
  }
}

/** The bytes and the texts themselves: which byte comes first, what rounding picks, and that a numeral is
    printed as it is written. */
module NumericWire {
  import opened Prelude
  import opened Text
  import opened ByteOrder
  import opened Numeric
  import opened NumericValues
  import opened NumericRoundTrip

  // ---- Byte order ----

  /** Four bytes, the most significant first. */
  lemma PackIs(a: Byte, b: Byte, c: Byte, d: Byte)
    ensures Pack(a as int * 0x100_0000 + b as int * 0x1_0000 + c as int * 256 + d as int) == [a, b, c, d]
  {
    var high, middle := a as int * 256 + b as int, (a as int * 256 + b as int) * 256 + c as int;
    var n := middle * 256 + d as int;
    DivModUnique(n, 256, middle, d as int);
    DivModUnique(n, 0x1_0000, high, c as int * 256 + d as int);
    DivModUnique(n, 0x100_0000, a as int, b as int * 0x1_0000 + c as int * 256 + d as int);
    DivModUnique(middle, 256, high, c as int);
    DivModUnique(high, 256, a as int, b as int);
  }

  lemma PackShortIs(a: Byte, b: Byte)
    ensures PackShort(a as int * 256 + b as int) == [a, b]
  {
    DivModUnique(a as int * 256 + b as int, 256, a as int, b as int);
  }

  function Flipped(b: Bytes): Bytes {
    seq(|b|, i requires 0 <= i < |b| => 255 - b[i])
  }

  /** Two's complement: -1 - n has the bytes of n, each subtracted from 255. */
  lemma PackSignedFlips(n: nat)
    requires n < TWO31
    ensures PackSigned(-1 - n) == Flipped(PackSigned(n))
  {
    var p := Pack(n);
    UnpackPack(n);
    PackIs(255 - p[0], 255 - p[1], 255 - p[2], 255 - p[3]);
    assert Flipped(p) == [255 - p[0], 255 - p[1], 255 - p[2], 255 - p[3]];
  }

  lemma PackSignedShortFlips(n: nat)
    requires n < TWO15
    ensures PackSignedShort(-1 - n) == Flipped(PackSignedShort(n))
  {
    var p := PackShort(n);
    UnpackPackShort(n);
    PackShortIs(255 - p[0], 255 - p[1]);
    assert Flipped(p) == [255 - p[0], 255 - p[1]];
  }

  // ---- Rounding ----

  lemma {:induction false} WithZerosIs(n: nat, k: nat)
    ensures WithZeros(n, k) == n * Pow10(k)
    decreases k
  {
    if k > 0 {
      WithZerosIs(n, k - 1);
      assert n * (10 * Pow10(k - 1)) == 10 * (n * Pow10(k - 1));
    }
  }

  lemma {:induction false} DropIs(n: nat, k: nat)
    ensures Drop(n, k) == n / Pow10(k)
    decreases k
  {
    if k > 0 {
      DropIs(n, k - 1);
      DivTen(n, Pow10(k - 1));
    }
  }

  lemma DivTen(n: nat, p: nat)
    requires p > 0
    ensures n / p / 10 == n / (10 * p)
  {
    var q, r := n / p, n % p;
    var a, b := q / 10, q % 10;
    DivFacts(n, p);
    Spread10(a, b, p);
    Below(b, p, r);
    DivModUnique(n, 10 * p, a, b * p + r);
  }

  lemma Spread10(a: nat, b: nat, p: nat)
    ensures (a * 10 + b) * p == a * (10 * p) + b * p
  {
  }

  lemma Below(d: nat, p: nat, r: nat)
    requires d < 10 && r < p
    ensures d * p + r < 10 * p
  {
  }

  /** Is h the multiple of p nearest to n, the even one of two? */
  predicate NearestEven(n: int, p: int, h: int) {
    var off := n - h * p;
    -p <= 2 * off <= p && (2 * off == p || 2 * off == -p ==> h % 2 == 0)
  }

  lemma EitherSide(n: int, p: int, q: int, r: int)
    requires p > 0 && n == q * p + r && 0 <= r < p
    ensures NearestEven(n, p, if 2 * r > p || (2 * r == p && q % 2 == 1) then q + 1 else q)
  {
    assert (q + 1) * p == q * p + p;
  }

  /** Dropping k digits rounds to the nearest multiple of 10^k, and to the even one of two. */
  lemma HalfEvenIsNearest(n: nat, k: nat)
    ensures NearestEven(n, Pow10(k), HalfEven(n, k))
  {
    var p, q := Pow10(k), Drop(n, k);
    DropIs(n, k);
    WithZerosIs(q, k);
    WithZerosIs(1, k);
    DivFacts(n, p);
    HalfEvenFrom(n, k, p, q, n % p);
    EitherSide(n, p, q, n % p);
  }

  lemma DivFacts(n: nat, p: nat)
    requires p > 0
    ensures n == n / p * p + n % p && 0 <= n % p < p
  {
  }

  lemma HalfEvenFrom(n: nat, k: nat, p: nat, q: nat, r: nat)
    requires Drop(n, k) == q && WithZeros(q, k) == n - r && WithZeros(1, k) == p
    ensures HalfEven(n, k) == if 2 * r > p || (2 * r == p && q % 2 == 1) then q + 1 else q
  {
  }

  /** What is kept of a coefficient: nothing is lost of 28 digits or fewer, and of more the nearest
      multiple of the power of ten that leaves 28. */
  lemma RoundedIsNearest(n: nat)
    ensures var excess := |Digits(n)| - PRECISION;
            if excess <= 0 then Rounded(n) == n
            else IsNearest(n, Pow10(excess), Rounded(n))
  {
    var excess := |Digits(n)| - PRECISION;
    if excess > 0 {
      HalfEvenIsNearest(n, excess);
      WithZerosIs(HalfEven(n, excess), excess);
      NearestFrom(n, Pow10(excess), HalfEven(n, excess));
    }
  }

  ghost predicate IsNearest(n: int, p: int, m: int) {
    exists h :: m == h * p && NearestEven(n, p, h)
  }

  lemma NearestFrom(n: int, p: int, h: int)
    requires NearestEven(n, p, h)
    ensures IsNearest(n, p, h * p)
  {
  }

  // ---- Printing ----

  /** Padding a numeral that goes on with one more digit. */
  lemma PadSnoc(digits: string, last: char, width: nat, padded: string)
    requires PadLeft(digits, width) == padded && |padded| == width
    ensures PadLeft(digits + [last], width + 1) == padded + [last]
  {
    if width > |digits| {
      Associate(Zeros(width - |digits|), digits, [last]);
    }
  }

  lemma PadZero(width: nat, last: char)
    requires width > 0
    ensures PadLeft(['0'], width) == Zeros(width) && PadLeft([last], width + 1) == Zeros(width) + [last]
  {
  }

  lemma {:induction false} PadNat(s: string)
    requires s != "" && AllDigits(s)
    ensures PadLeft(Digits(NatOf(s)), |s|) == s
    decreases |s|
  {
    var front, last := s[..|s| - 1], s[|s| - 1];
    DivModUnique(NatOf(s), 10, NatOf(front), DigitOf(last));
    assert DigitChar(DigitOf(last)) == last;
    assert s == front + [last];
    if front == "" {
      assert s == [last];
    } else {
      PadNat(front);
      if NatOf(front) == 0 {
        PadZero(|front|, last);
      } else {
        PadSnoc(Digits(NatOf(front)), last, |front|, front);
      }
    }
  }

  lemma NatOfBoundedDigits(s: string)
    requires s != "" && AllDigits(s) && PadLeft(Digits(NatOf(s)), |s|) == s
    ensures |Digits(NatOf(s))| <= |s|
  {
  }

  lemma {:induction false} LeadingDigit(n: nat)
    requires n > 0
    ensures Digits(n)[0] != '0'
    decreases n
  {
    if n >= 10 {
      LeadingDigit(n / 10);
    }
  }

  /** A decimal numeral is printed as it is written: sign, digits without needless zeros in front, and
      after a point exactly `scale` more. */
  lemma FixedIsTheNumeral(negative: bool, whole: string, fraction: string)
    requires AllDigits(whole) && AllDigits(fraction) && (whole == "0" || (whole != "" && whole[0] != '0'))
    ensures Fixed(negative, NatOf(whole + fraction), |fraction|) ==
            (if negative then "-" else "") + whole + (if fraction == "" then "" else "." + fraction)
  {
    var s := whole + fraction;
    var n := NatOf(s);
    PadNat(s);
    NatOfBoundedDigits(s);
    if |Digits(n)| < |s| {
      assert s[0] == '0';
      assert whole == "0" && |s| == |fraction| + 1;
    } else {
      assert Digits(n) == s;
    }
    assert PadLeft(Digits(n), |fraction| + 1) == s;
    assert s[..|s| - |fraction|] == whole && s[|s| - |fraction|..] == fraction;
  }

  // ---- Whole messages ----

  /** The three special values have no groups and a sign of their own. */
  lemma SpecialBytes()
    ensures Encode(NaN) == Ok([0, 0, 0, 0, 0xC0, 0, 0, 0])
    ensures Encode(Infinite(false)) == Ok([0, 0, 0, 0, 0xD0, 0, 0, 0])
    ensures Encode(Infinite(true)) == Ok([0, 0, 0, 0, 0xF0, 0, 0, 0])
  {
    HeaderBytes(0, 0, 0, 0, 0xC0, 0);
    HeaderBytes(0, 0, 0, 0, 0xD0, 0);
    HeaderBytes(0, 0, 0, 0, 0xF0, 0);
  }

  lemma HeaderBytes(count: Byte, w: Byte, weight: Byte, z: Byte, sign: Byte, scale: Byte)
    requires w == 0 && z == 0
    ensures Header(count as int, weight as int, sign as int * 256, scale as int) == [0, count, 0, weight, sign, 0, 0, scale]
  {
    PackShortIs(0, count);
    PackShortIs(0, weight);
    PackShortIs(sign, 0);
    PackShortIs(0, scale);
  }

  lemma HeaderParts(count: nat, weight: int, sign: nat, scale: nat, tail: Bytes)
    requires FitsShort(count) && -TWO15 <= weight < TWO15 && FitsShort(sign) && FitsShort(scale)
    ensures var data := Header(count, weight, sign, scale) + tail;
            && data[..2] == PackShort(count) && data[2..4] == PackSignedShort(weight)
            && data[4..6] == PackShort(sign) && data[6..8] == PackShort(scale) && data[8..] == tail
  {
  }

  lemma TailPart(data: Bytes, tail: Bytes, i: nat)
    requires |data| >= 8 && data[8..] == tail && 2 * i + 2 <= |tail|
    ensures data[8 + 2 * i..10 + 2 * i] == tail[2 * i..2 * i + 2]
  {
  }

  /** The message of a finite decimal: two bytes each for the number of groups, the weight, the sign and the
      scale, then two for each group. */
  lemma FiniteBytes(negative: bool, coefficient: nat, exponent: int)
    requires FitsHeader(Significant(coefficient, exponent), Scale(exponent))
    ensures var p := Significant(coefficient, exponent);
            var sent := Encode(Finite(negative, coefficient, exponent));
            && sent.Ok? && |sent.value| == 8 + 2 * |p.groups|
            && sent.value[..2] == PackShort(|p.groups|) && sent.value[2..4] == PackSignedShort(p.weight)
            && sent.value[4..6] == [if negative then 0x40 else 0, 0] && sent.value[6..8] == PackShort(Scale(exponent))
            && forall i :: 0 <= i < |p.groups| ==>
                 p.groups[i] < BASE && sent.value[8 + 2 * i..10 + 2 * i] == PackShort(p.groups[i])
  {
    var p := Significant(coefficient, exponent);
    var sign := if negative then NEG else POS;
    GroupsHaveTheValue(coefficient, exponent);
    SmallGroupsPack(p.groups);
    var tail := PackGroups(p.groups).value;
    var data := Header(|p.groups|, p.weight, sign, Scale(exponent)) + tail;
    HeaderParts(|p.groups|, p.weight, sign, Scale(exponent), tail);
    PackShortIs(if negative then 0x40 else 0, 0);
    assert Encode(Finite(negative, coefficient, exponent)) == Ok(data);
    GroupsBytes(p.groups, 0);
    forall i | 0 <= i < |p.groups|
      ensures p.groups[i] < BASE && data[8 + 2 * i..10 + 2 * i] == PackShort(p.groups[i])
    {
      GroupsBytes(p.groups, i);
      TailPart(data, tail, i);
    }
  }

  lemma {:induction false} GroupsBytes(g: seq<nat>, i: nat)
    requires Small(g)
    ensures PackGroups(g).Ok? && |PackGroups(g).value| == 2 * |g|
    ensures i < |g| ==> PackGroups(g).value[2 * i..2 * i + 2] == PackShort(g[i])
    decreases |g|
  {
    if g != [] {
      GroupsBytes(g[1..], if i == 0 then 0 else i - 1);
      var rest := PackGroups(g[1..]).value;
      var b := PackGroups(g).value;
      if i == 0 {
        assert b[..2] == PackShort(g[0]);
      } else if i < |g| {
        assert b[2 * i..2 * i + 2] == rest[2 * (i - 1)..2 * (i - 1) + 2];
      }
    }
  }
}

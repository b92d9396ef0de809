/** What the NUMERIC codec keeps: the groups have the value of the decimal, in one canonical form, and
    decoding prints that value whenever it has no more digits than the decimal context. */
module NumericValues {
  import opened Prelude
  import opened Text
  import opened ByteOrder
  import opened Numeric

  /** a * 10^e == b * 10^f. */
  predicate SameValue(a: nat, e: int, b: nat, f: int) {
    if e <= f then a == WithZeros(b, f - e) else WithZeros(a, e - f) == b
  }

  /** The number base-10000 groups write. */
  function BigNat(g: seq<nat>): nat {
    if g == [] then 0 else BigNat(g[..|g| - 1]) * BASE + g[|g| - 1]
  }

  predicate Small(g: seq<nat>) {
    forall i :: 0 <= i < |g| ==> g[i] < BASE
  }

  predicate Canonical(g: seq<nat>) {
    && Small(g)
    && (g != [] ==> g[0] != 0 && g[|g| - 1] != 0)
  }

  // ---- Powers and digit strings ----

  lemma {:induction false} ZerosAdd(n: nat, a: nat, b: nat)
    ensures WithZeros(WithZeros(n, a), b) == WithZeros(n, a + b)
    decreases b
  {
    if b > 0 {
      ZerosAdd(n, a, b - 1);
    }
  }

  lemma {:induction false} ZerosSum(m: nat, n: nat, k: nat)
    ensures WithZeros(m + n, k) == WithZeros(m, k) + WithZeros(n, k)
    decreases k
  {
    if k > 0 {
      ZerosSum(m, n, k - 1);
    }
  }

  lemma {:induction false} ZerosKeepOrder(m: nat, n: nat, k: nat)
    ensures m < n <==> WithZeros(m, k) < WithZeros(n, k)
    ensures m == n <==> WithZeros(m, k) == WithZeros(n, k)
    decreases k
  {
    if k > 0 {
      ZerosKeepOrder(m, n, k - 1);
    }
  }

  lemma {:induction false} ZeroWithZeros(k: nat)
    ensures WithZeros(0, k) == 0
    decreases k
  {
    if k > 0 {
      ZeroWithZeros(k - 1);
    }
  }

  lemma FourZeros(n: nat)
    ensures WithZeros(n, 4) == n * BASE
  {
    assert WithZeros(n, 1) == 10 * n;
    assert WithZeros(n, 2) == 100 * n;
    assert WithZeros(n, 3) == 1000 * n;
  }

  lemma {:induction false} NatOfAppend(a: string, b: string)
    requires AllDigits(a) && AllDigits(b)
    ensures NatOf(a + b) == WithZeros(NatOf(a), |b|) + NatOf(b)
    decreases |b|
  {
    if b == "" {
      assert a + b == a;
    } else {
      var front := b[..|b| - 1];
      NatOfAppend(a, front);
      assert (a + b)[..|a + b| - 1] == a + front;
    }
  }

  lemma {:induction false} NatOfZeros(n: nat)
    ensures NatOf(Zeros(n)) == 0
  {
    if n > 0 {
      NatOfZeros(n - 1);
      assert Zeros(n)[..n - 1] == Zeros(n - 1);
    }
  }

  lemma PadLeftValue(s: string, width: int)
    requires AllDigits(s)
    ensures NatOf(PadLeft(s, width)) == NatOf(s)
  {
    if width > |s| {
      NatOfZeros(width - |s|);
      NatOfAppend(Zeros(width - |s|), s);
      ZeroWithZeros(|s|);
    }
  }

  lemma PadRightValue(s: string, width: nat)
    requires AllDigits(s) && width >= |s|
    ensures NatOf(PadRight(s, width)) == WithZeros(NatOf(s), width - |s|)
  {
    if width > |s| {
      NatOfZeros(width - |s|);
      NatOfAppend(s, Zeros(width - |s|));
    }
  }

  lemma {:induction false} NatOfBound(s: string)
    requires AllDigits(s)
    ensures NatOf(s) < WithZeros(1, |s|)
    decreases |s|
  {
    if s != "" {
      NatOfBound(s[..|s| - 1]);
    }
  }

  // ---- Groups ----

  lemma {:induction false} BigNatAppend(a: seq<nat>, b: seq<nat>)
    ensures BigNat(a + b) == WithZeros(BigNat(a), 4 * |b|) + BigNat(b)
    decreases |b|
  {
    if b == [] {
      assert a + b == a;
    } else {
      var front := b[..|b| - 1];
      BigNatAppend(a, front);
      assert (a + b)[..|a + b| - 1] == a + front;
      ZerosAdd(BigNat(a), 4 * |front|, 4);
      FourZeros(WithZeros(BigNat(a), 4 * |front|));
    }
  }

  lemma BigNatOne(x: nat)
    ensures BigNat([x]) == x
  {
    assert [x][..0] == [];
  }

  lemma {:induction false} GroupsValue(s: string)
    requires AllDigits(s) && |s| % 4 == 0
    ensures BigNat(GroupsOf(s)) == NatOf(s)
    ensures Small(GroupsOf(s))
    decreases |s|
  {
    if s != "" {
      var first := s[..4];
      var rest := s[4..];
      GroupsValue(rest);
      BigNatAppend([NatOf(first)], GroupsOf(rest));
      BigNatOne(NatOf(first));
      NatOfAppend(first, rest);
      assert first + rest == s;
      NatOfBound(first);
      FourZeros(1);
    }
  }

  function ValueOf(h: Halves): nat
    requires AllDigits(h.whole) && AllDigits(h.fraction)
  {
    WithZeros(NatOf(h.whole), |h.fraction|) + NatOf(h.fraction)
  }

  lemma HalvesOfWhole(coefficient: nat, exponent: nat)
    ensures ValueOf(AtPoint(coefficient, exponent)) == WithZeros(coefficient, exponent)
  {
    NatOfDigits(coefficient);
    NatOfZeros(exponent);
    NatOfAppend(Digits(coefficient), Zeros(exponent));
  }

  lemma HalvesOfFraction(coefficient: nat, scale: int)
    requires scale > 0
    ensures ValueOf(AtPoint(coefficient, -scale)) == coefficient
  {
    var padded := PadLeft(Digits(coefficient), 1 + scale);
    var cut := |padded| - scale;
    NatOfDigits(coefficient);
    PadLeftValue(Digits(coefficient), 1 + scale);
    NatOfAppend(padded[..cut], padded[cut..]);
    assert padded[..cut] + padded[cut..] == padded;
  }

  lemma JoinedGroups(whole: string, fraction: string)
    requires AllDigits(whole) && AllDigits(fraction) && |whole| % 4 == 0 && |fraction| % 4 == 0
    ensures Small(GroupsOf(whole) + GroupsOf(fraction))
    ensures BigNat(GroupsOf(whole) + GroupsOf(fraction)) == WithZeros(NatOf(whole), |fraction|) + NatOf(fraction)
  {
    GroupsValue(whole);
    GroupsValue(fraction);
    BigNatAppend(GroupsOf(whole), GroupsOf(fraction));
    assert 4 * |GroupsOf(fraction)| == |fraction|;
  }

  /** All the groups, before any is dropped. */
  lemma AllGroupsValue(h: Halves)
    requires AllDigits(h.whole) && AllDigits(h.fraction)
    ensures var p := AllGroups(h);
            var scale := UpToFour(|h.fraction|);
            && Small(p.groups)
            && 4 * (|p.groups| - 1 - p.weight) == scale
            && BigNat(p.groups) == WithZeros(ValueOf(h), scale - |h.fraction|)
  {
    var scale := UpToFour(|h.fraction|);
    var more := scale - |h.fraction|;
    JoinedGroups(PadLeft(h.whole, UpToFour(|h.whole|)), PadRight(h.fraction, scale));
    PadLeftValue(h.whole, UpToFour(|h.whole|));
    PadRightValue(h.fraction, scale);
    Spread(NatOf(h.whole), |h.fraction|, NatOf(h.fraction), more);
  }

  lemma Spread(a: nat, k: nat, b: nat, more: nat)
    ensures WithZeros(a, k + more) + WithZeros(b, more) == WithZeros(WithZeros(a, k) + b, more)
  {
    ZerosAdd(a, k, more);
    ZerosSum(WithZeros(a, k), b, more);
  }

  lemma HalvesValue(coefficient: nat, exponent: int)
    ensures ValueOf(AtPoint(coefficient, exponent)) == WithZeros(coefficient, exponent + Scale(exponent))
  {
    if exponent >= 0 {
      HalvesOfWhole(coefficient, exponent);
    } else {
      HalvesOfFraction(coefficient, -exponent);
    }
  }

  lemma AllGroupsSameValue(coefficient: nat, exponent: int)
    ensures var p := AllGroups(AtPoint(coefficient, exponent));
            Small(p.groups) && SameValue(BigNat(p.groups), Exponent(p), coefficient, exponent)
  {
    var h := AtPoint(coefficient, exponent);
    AllGroupsValue(h);
    HalvesValue(coefficient, exponent);
    GroupsOfHalves(h, coefficient, exponent);
  }

  lemma GroupsOfHalves(h: Halves, coefficient: nat, exponent: int)
    requires AllDigits(h.whole) && AllDigits(h.fraction) && |h.fraction| == Scale(exponent)
    requires ValueOf(h) == WithZeros(coefficient, exponent + Scale(exponent))
    ensures SameValue(BigNat(AllGroups(h).groups), Exponent(AllGroups(h)), coefficient, exponent)
  {
    AllGroupsValue(h);
    AlignedGroups(AllGroups(h), UpToFour(Scale(exponent)), coefficient, exponent);
  }

  lemma AlignedGroups(p: Packed, scale: nat, coefficient: nat, exponent: int)
    requires scale == UpToFour(Scale(exponent)) && 4 * (|p.groups| - 1 - p.weight) == scale
    requires BigNat(p.groups) == WithZeros(WithZeros(coefficient, exponent + Scale(exponent)), scale - Scale(exponent))
    ensures SameValue(BigNat(p.groups), Exponent(p), coefficient, exponent)
  {
    Aligned(BigNat(p.groups), scale, coefficient, exponent);
  }

  lemma Aligned(n: nat, scale: nat, coefficient: nat, exponent: int)
    requires scale >= Scale(exponent) && (exponent >= 0 ==> scale == 0)
    requires n == WithZeros(WithZeros(coefficient, exponent + Scale(exponent)), scale - Scale(exponent))
    ensures SameValue(n, 0 - scale, coefficient, exponent)
  {
    ZerosAdd(coefficient, exponent + Scale(exponent), scale - Scale(exponent));
  }

  lemma LeadingZero(g: seq<nat>)
    requires g != [] && g[0] == 0
    ensures BigNat(g) == BigNat(g[1..])
  {
    assert g == [0] + g[1..];
    BigNatAppend([0], g[1..]);
    BigNatOne(0);
    ZeroWithZeros(4 * |g[1..]|);
  }

  lemma {:induction false} DropLeadingValue(p: Packed)
    ensures var q := DropLeading(p);
            && BigNat(q.groups) == BigNat(p.groups)
            && q.weight - |q.groups| == p.weight - |p.groups| && |q.groups| <= |p.groups|
            && (q.groups != [] ==> q.groups[0] != 0)
            && (Small(p.groups) ==> Small(q.groups))
    decreases |p.groups|
  {
    if p.groups != [] && p.groups[0] == 0 {
      DropLeadingValue(Packed(p.groups[1..], p.weight - 1));
      LeadingZero(p.groups);
    }
  }

  /** Moving k tens between the coefficient and the exponent keeps the value. */
  lemma Shift(a: nat, k: nat, e: int, b: nat, f: int)
    ensures SameValue(WithZeros(a, k), e, b, f) <==> SameValue(a, e + k, b, f)
  {
    if e + k <= f {
      ZerosAdd(b, f - e - k, k);
      ZerosKeepOrder(a, WithZeros(b, f - e - k), k);
    } else if e <= f {
      ZerosAdd(a, e + k - f, f - e);
      ZerosKeepOrder(WithZeros(a, e + k - f), b, f - e);
    } else {
      ZerosAdd(a, k, e - f);
    }
  }

  lemma {:induction false} DropTrailingValue(g: seq<nat>, e: int, b: nat, f: int)
    requires SameValue(BigNat(g), e, b, f)
    ensures var d := DropTrailing(g);
            && |d| <= |g| && d == g[..|d|]
            && SameValue(BigNat(d), e + 4 * (|g| - |d|), b, f)
            && (d != [] ==> d[|d| - 1] != 0)
    decreases |g|
  {
    if g != [] && g[|g| - 1] == 0 {
      var front := g[..|g| - 1];
      FourZeros(BigNat(front));
      Shift(BigNat(front), 4, e, b, f);
      DropTrailingValue(front, e + 4, b, f);
    }
  }

  lemma ZeroValue(a: nat, e: int, b: nat, f: int)
    requires SameValue(a, e, b, f)
    ensures a == 0 <==> b == 0
  {
    var k := if e <= f then f - e else e - f;
    ZeroWithZeros(k);
    ZerosKeepOrder(0, a, k);
    ZerosKeepOrder(0, b, k);
  }

  lemma {:induction false} BigNatZero(g: seq<nat>)
    requires g != [] && g[0] != 0
    ensures BigNat(g) > 0
    decreases |g|
  {
    if |g| == 1 {
      assert g == [g[0]];
      BigNatOne(g[0]);
    } else {
      BigNatZero(g[..|g| - 1]);
    }
  }

  /** The groups are each below 10000, the first and the last not zero, there are none exactly for
      zero, and the number they write, at their weight, is the decimal. */
  predicate Represents(p: Packed, coefficient: nat, exponent: int) {
    && Canonical(p.groups)
    && SameValue(BigNat(p.groups), Exponent(p), coefficient, exponent)
    && (p.groups == [] <==> coefficient == 0)
    && (p.groups == [] ==> p.weight == 0)
  }

  /** What the encoder sends represents the decimal. */
  lemma GroupsHaveTheValue(coefficient: nat, exponent: int)
    ensures Represents(Significant(coefficient, exponent), coefficient, exponent)
  {
    AllGroupsSameValue(coefficient, exponent);
    TrimRepresents(AllGroups(AtPoint(coefficient, exponent)), coefficient, exponent);
  }

  lemma TrimRepresents(all: Packed, b: nat, f: int)
    requires Small(all.groups) && SameValue(BigNat(all.groups), Exponent(all), b, f)
    ensures Represents(Trim(all), b, f)
  {
    var p := DropLeading(all);
    var e := Exponent(all);
    DropLeadingValue(all);
    DropTrailingValue(p.groups, e, b, f);
    var g := DropTrailing(p.groups);
    ZeroValue(BigNat(g), e + 4 * (|p.groups| - |g|), b, f);
    if g != [] {
      BigNatZero(g);
    } else {
      ZeroIsZero(4, f);
    }
  }

  lemma ZeroIsZero(e: int, f: int)
    ensures SameValue(0, e, 0, f)
  {
    ZeroWithZeros(if e <= f then f - e else e - f);
  }

  // ---- One form for one value ----

  /** Canonical groups are determined by the number they write. */
  lemma {:induction false} GroupsDetermined(g: seq<nat>, h: seq<nat>)
    requires Small(g) && Small(h)
    requires g != [] ==> g[0] != 0
    requires h != [] ==> h[0] != 0
    requires BigNat(g) == BigNat(h)
    ensures g == h
    decreases |g|
  {
    if g == [] || h == [] {
      if g != [] {
        BigNatZero(g);
      }
      if h != [] {
        BigNatZero(h);
      }
    } else {
      var a := g[..|g| - 1];
      var b := h[..|h| - 1];
      DivModUnique(BigNat(g), BASE, BigNat(a), g[|g| - 1]);
      DivModUnique(BigNat(h), BASE, BigNat(b), h[|h| - 1]);
      GroupsDetermined(a, b);
      assert g == a + [g[|g| - 1]] && h == b + [h[|h| - 1]];
    }
  }

  /** A canonical number is not a multiple of the base. */
  lemma NotAMultiple(g: seq<nat>, k: nat, m: nat)
    requires Canonical(g) && g != [] && k > 0
    ensures BigNat(g) != WithZeros(m, 4 * k)
  {
    var last := g[|g| - 1];
    DivModUnique(BigNat(g), BASE, BigNat(g[..|g| - 1]), last);
    ZerosAdd(m, 4 * (k - 1), 4);
    FourZeros(WithZeros(m, 4 * (k - 1)));
    DivExact(WithZeros(m, 4 * (k - 1)), BASE);
  }

  /** Equal values are equal integers at any exponent below both. */
  lemma At(a: nat, e: int, b: nat, f: int, m: int)
    requires m <= e && m <= f
    ensures SameValue(a, e, b, f) <==> WithZeros(a, e - m) == WithZeros(b, f - m)
  {
    if e <= f {
      ZerosAdd(b, f - e, e - m);
      ZerosKeepOrder(a, WithZeros(b, f - e), e - m);
    } else {
      ZerosAdd(a, e - f, f - m);
      ZerosKeepOrder(WithZeros(a, e - f), b, f - m);
    }
  }

  /** Two decimals get the same groups and weight if and only if they have the same value: only the
      display scale tells 1.5 from 1.50. */
  lemma OneFormPerValue(a: nat, e: int, b: nat, f: int)
    ensures Significant(a, e) == Significant(b, f) <==> SameValue(a, e, b, f)
  {
    GroupsHaveTheValue(a, e);
    GroupsHaveTheValue(b, f);
    OneRepresentation(Significant(a, e), Significant(b, f), a, e, b, f);
  }

  lemma OneRepresentation(p: Packed, q: Packed, a: nat, e: int, b: nat, f: int)
    requires Represents(p, a, e) && Represents(q, b, f)
    ensures p == q <==> SameValue(a, e, b, f)
  {
    SameGroups(p, q, a, e, b, f);
    if p != q && SameValue(a, e, b, f) {
      ZeroValue(a, e, b, f);
      if a != 0 {
        OneForm(p.groups, p.weight, q.groups, q.weight);
      }
    }
  }

  /** The groups of two decimals have the same value exactly when the decimals do. */
  lemma SameGroups(p: Packed, q: Packed, a: nat, e: int, b: nat, f: int)
    requires SameValue(BigNat(p.groups), Exponent(p), a, e)
    requires SameValue(BigNat(q.groups), Exponent(q), b, f)
    ensures SameValue(BigNat(p.groups), Exponent(p), BigNat(q.groups), Exponent(q)) <==>
            SameValue(a, e, b, f)
  {
    SameForBoth(BigNat(p.groups), Exponent(p), a, e, b, f);
    SameForBoth(BigNat(q.groups), Exponent(q), b, f, BigNat(p.groups), Exponent(p));
    Flip(BigNat(p.groups), Exponent(p), b, f);
    Flip(BigNat(q.groups), Exponent(q), BigNat(p.groups), Exponent(p));
  }

  lemma SameForBoth(a: nat, e: int, b: nat, f: int, c: nat, g: int)
    requires SameValue(a, e, b, f)
    ensures SameValue(a, e, c, g) <==> SameValue(b, f, c, g)
  {
    var m := Min(e, Min(f, g));
    At(a, e, b, f, m);
    At(a, e, c, g, m);
    At(b, f, c, g, m);
  }

  lemma Flip(a: nat, e: int, b: nat, f: int)
    ensures SameValue(a, e, b, f) <==> SameValue(b, f, a, e)
  {
  }

  lemma OneForm(g: seq<nat>, v: int, h: seq<nat>, w: int)
    requires Canonical(g) && Canonical(h) && g != [] && h != []
    requires SameValue(BigNat(g), 4 * (v + 1 - |g|), BigNat(h), 4 * (w + 1 - |h|))
    ensures g == h && v == w
  {
    var k := (w + 1 - |h|) - (v + 1 - |g|);
    if k > 0 {
      NotAMultiple(g, k, BigNat(h));
    } else if k < 0 {
      NotAMultiple(h, -k, BigNat(g));
    } else {
      GroupsDetermined(g, h);
    }
  }
}

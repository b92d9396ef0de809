/** types.py: NUMERIC on the wire, base-10000 digit groups behind a four-field header. */
module Numeric {
  import opened Prelude
  import opened Text
  import opened ByteOrder

  /** Python's Decimal: a coefficient without leading zeros and a power of ten, or a special value. */
  datatype Decimal =
    | Finite(negative: bool, coefficient: nat, exponent: int)
    | Infinite(negative: bool)
    | NaN

  const POS := 0x0000
  const NEG := 0x4000
  const NAN := 0xC000
  const PINF := 0xD000
  const NINF := 0xF000
  const BASE := 10000

  /** The digits the default decimal context keeps. */
  const PRECISION := 28

  // ---- Digit strings ----

  function Zeros(n: nat): (s: string)
    ensures |s| == n && AllDigits(s)
  {
    seq(n, _ => '0')
  }

  function PadLeft(s: string, width: int): (r: string)
    ensures AllDigits(s) ==> AllDigits(r)
    ensures |r| == if width > |s| then width else |s|
  {
    if width > |s| then Zeros(width - |s|) + s else s
  }

  function PadRight(s: string, width: int): (r: string)
    ensures AllDigits(s) ==> AllDigits(r)
    ensures |r| == if width > |s| then width else |s|
  {
    if width > |s| then s + Zeros(width - |s|) else s
  }

  function UpToFour(n: nat): (r: nat)
    ensures n <= r < n + 4 && r % 4 == 0
  {
    (n + 3) / 4 * 4
  }

  // ---- Encoding ----

  function Scale(exponent: int): nat {
    if exponent < 0 then -exponent else 0
  }

  datatype Halves = Halves(whole: string, fraction: string)

  /** The digits before and after the decimal point. */
  function AtPoint(coefficient: nat, exponent: int): (h: Halves)
    ensures AllDigits(h.whole) && AllDigits(h.fraction) && |h.fraction| == Scale(exponent)
  {
    var text := Digits(coefficient);
    if exponent >= 0 then Halves(text + Zeros(exponent), "")
    else
      var padded := PadLeft(text, 1 - exponent);
      var cut := |padded| + exponent;
      Halves(padded[..cut], padded[cut..])
  }

  function GroupsOf(s: string): (g: seq<nat>)
    requires AllDigits(s) && |s| % 4 == 0
    ensures |g| == |s| / 4
  {
    if s == "" then [] else [NatOf(s[..4])] + GroupsOf(s[4..])
  }

  /** Groups and the base-10000 exponent of the first one. */
  datatype Packed = Packed(groups: seq<nat>, weight: int)

  /** The power of ten of the last digit of the last group. */
  function Exponent(p: Packed): int {
    4 * (p.weight + 1 - |p.groups|)
  }

  function AllGroups(h: Halves): Packed
    requires AllDigits(h.whole) && AllDigits(h.fraction)
  {
    var whole := GroupsOf(PadLeft(h.whole, UpToFour(|h.whole|)));
    Packed(whole + GroupsOf(PadRight(h.fraction, UpToFour(|h.fraction|))), |whole| - 1)
  }

  function DropLeading(p: Packed): Packed
    decreases |p.groups|
  {
    if p.groups != [] && p.groups[0] == 0 then DropLeading(Packed(p.groups[1..], p.weight - 1)) else p
  }

  function DropTrailing(g: seq<nat>): seq<nat> {
    if g != [] && g[|g| - 1] == 0 then DropTrailing(g[..|g| - 1]) else g
  }

  /** Without the zero groups at either end; zero has no groups and weight 0. */
  function Trim(all: Packed): Packed {
    var p := DropLeading(all);
    var groups := DropTrailing(p.groups);
    Packed(groups, if groups == [] then 0 else p.weight)
  }

  function Significant(coefficient: nat, exponent: int): Packed {
    Trim(AllGroups(AtPoint(coefficient, exponent)))
  }

  predicate FitsShort(n: int) {
    0 <= n < TWO16
  }

  function PackGroups(g: seq<nat>): Result<Bytes> {
    if g == [] then Ok([])
    else
      match PackGroups(g[1..])
      case Ok(rest) => if FitsShort(g[0]) then Ok(PackShort(g[0]) + rest) else Err("struct.error")
      case Err(reason) => Err(reason)
  }

  predicate FitsHeader(p: Packed, scale: nat) {
    FitsShort(|p.groups|) && -TWO15 <= p.weight < TWO15 && FitsShort(scale)
  }

  function Header(count: nat, weight: int, sign: nat, scale: nat): (b: Bytes)
    requires FitsShort(count) && -TWO15 <= weight < TWO15 && FitsShort(sign) && FitsShort(scale)
    ensures |b| == 8
  {
    PackShort(count) + PackSignedShort(weight) + PackShort(sign) + PackShort(scale)
  }

  function Message(p: Packed, sign: nat, scale: nat): Result<Bytes>
    requires FitsShort(sign)
  {
    if !FitsHeader(p, scale) then Err("struct.error")
    else
      match PackGroups(p.groups)
      case Ok(tail) => Ok(Header(|p.groups|, p.weight, sign, scale) + tail)
      case Err(reason) => Err(reason)
  }

  function Encode(v: Decimal): Result<Bytes> {
    match v
    case NaN => Ok(Header(0, 0, NAN, 0))
    case Infinite(negative) => Ok(Header(0, 0, if negative then NINF else PINF, 0))
    case Finite(negative, coefficient, exponent) =>
      Message(Significant(coefficient, exponent), if negative then NEG else POS, Scale(exponent))
  }

  /** The two popping loops of the encoder. */
  method SignificantLoop(coefficient: nat, exponent: int) returns (groups: seq<nat>, weight: int)
    ensures Packed(groups, weight) == Significant(coefficient, exponent)
  {
    var all := AllGroups(AtPoint(coefficient, exponent));
    groups, weight := all.groups, all.weight;
    while groups != [] && groups[0] == 0
      invariant DropLeading(Packed(groups, weight)) == DropLeading(all)
      decreases |groups|
    {
      groups := groups[1..];
      weight := weight - 1;
    }
    ghost var kept := groups;
    while groups != [] && groups[|groups| - 1] == 0
      invariant DropTrailing(groups) == DropTrailing(kept)
      decreases |groups|
    {
      groups := groups[..|groups| - 1];
    }
    if groups == [] {
      weight := 0;
    }
  }

  // ---- Decoding ----

  /** n followed by k zeros: n * 10^k. */
  function WithZeros(n: nat, k: nat): nat {
    if k == 0 then n else 10 * WithZeros(n, k - 1)
  }

  /** n without its last k digits. */
  function Drop(n: nat, k: nat): nat {
    if k == 0 then n else Drop(n, k - 1) / 10
  }

  /** n without its last k digits, rounded half to even. */
  function HalfEven(n: nat, k: nat): nat {
    var q := Drop(n, k);
    var r := n - WithZeros(q, k);
    if 2 * r > WithZeros(1, k) || (2 * r == WithZeros(1, k) && q % 2 == 1) then q + 1 else q
  }

  /** What `scaleb` makes of a coefficient: rounded, half to even, to the context's digits. */
  function Rounded(n: nat): nat {
    var excess := |Digits(n)| - PRECISION;
    if excess <= 0 then n else WithZeros(HalfEven(n, excess), excess)
  }

  /** n * 10^exponent as a count of 10^-scale, rounded half to even. */
  function Rescaled(n: nat, exponent: int, scale: nat): nat {
    if exponent + scale >= 0 then WithZeros(n, exponent + scale) else HalfEven(n, -(exponent + scale))
  }

  /** A digit string with a sign and a decimal point before its last `scale` digits. */
  function Pointed(negative: bool, digits: string, scale: nat): string
    requires scale < |digits|
  {
    var cut := |digits| - scale;
    (if negative then "-" else "") + digits[..cut] + (if scale > 0 then "." + digits[cut..] else "")
  }

  /** `.{scale}f` of n * 10^-scale. */
  function Fixed(negative: bool, n: nat, scale: nat): string {
    Pointed(negative, PadLeft(Digits(n), scale + 1), scale)
  }

  function GroupText(g: seq<nat>): (s: string)
    ensures AllDigits(s) && (g != [] ==> s != "")
  {
    if g == [] then "" else PadLeft(Digits(g[0]), 4) + GroupText(g[1..])
  }

  function UnpackGroups(data: Bytes, offset: nat, count: nat): (r: Result<seq<nat>>)
    decreases count
  {
    if count == 0 then Ok([])
    else if |data| < offset + 2 then Err("struct.error")
    else
      match UnpackGroups(data, offset + 2, count - 1)
      case Ok(rest) => Ok([UnpackShort(data[offset..offset + 2])] + rest)
      case Err(reason) => Err(reason)
  }

  /** The digit string as an integer. */
  function Joined(groups: seq<nat>): nat {
    NatOf(if groups == [] then "0" else GroupText(groups))
  }

  /** n * 10^exponent after the rounding of `scaleb`, negated or not, and printed; negating zero gives
      zero. */
  function Printed(negative: bool, n: nat, exponent: int, scale: nat): string {
    var value := Rounded(n);
    Fixed(negative && value != 0, Rescaled(value, exponent, scale), scale)
  }

  function Decode(data: Bytes): Result<string> {
    if |data| < 8 then Err("struct.error")
    else
      var sign := UnpackShort(data[4..6]);
      if sign == NAN then Ok("NaN")
      else if sign == PINF then Ok("Infinity")
      else if sign == NINF then Ok("-Infinity")
      else
        match UnpackGroups(data, 8, UnpackShort(data[0..2]))
        case Err(reason) => Err(reason)
        case Ok(groups) =>
          var p := Packed(groups, UnpackSignedShort(data[2..4]));
          Ok(Printed(sign == NEG, Joined(groups), Exponent(p), UnpackShort(data[6..8])))
  }
}

/** arrays.py: the shape of nested lists, and the binary array format. */
module Arrays {
  import opened Prelude
  import opened ByteOrder

  /** A Python value in an array: a list, or an element that may be NULL. */
  datatype Node<+E> = Leaf(value: Option<E>) | List(items: seq<Node<E>>)

  // ---- Shape ----

  /** The sizes met going down the first branch. */
  function FirstPath<E>(node: Node<E>): seq<nat> {
    match node
    case Leaf(_) => []
    case List(items) => [|items|] + if items == [] then [] else FirstPath(items[0])
  }

  predicate Rectangular<E>(node: Node<E>, dims: seq<nat>)
    decreases dims
  {
    if dims == [] then node.Leaf?
    else node.List? && |node.items| == dims[0] && forall i :: 0 <= i < |node.items| ==> Rectangular(node.items[i], dims[1..])
  }

  function Dimensions<E>(items: seq<Node<E>>): Result<seq<nat>> {
    if items == [] then Ok([])
    else
      var dims := FirstPath(List(items));
      if Rectangular(List(items), dims) then Ok(dims) else Err("array is ragged")
  }

  /** The first item, or Python's None for the empty list. */
  function FirstChild<E>(node: Node<E>): Node<E>
    requires node.List?
  {
    if node.items == [] then Leaf(None) else node.items[0]
  }

  lemma FirstPathStep<E>(node: Node<E>, dims: seq<nat>)
    requires node.List?
    ensures |FirstPath(FirstChild(node))| < |FirstPath(node)|
    ensures dims + [|node.items|] + FirstPath(FirstChild(node)) == dims + FirstPath(node)
  {
  }

  method DimensionsLoop<E>(items: seq<Node<E>>) returns (r: Result<seq<nat>>)
    ensures r == Dimensions(items)
  {
    if items == [] {
      return Ok([]);
    }
    var dims: seq<nat> := [];
    var node := List(items);
    while node.List?
      invariant dims + FirstPath(node) == FirstPath(List(items))
      decreases |FirstPath(node)|
    {
      var child := FirstChild(node);
      FirstPathStep(node, dims);
      dims := dims + [|node.items|];
      node := child;
    }
    assert FirstPath(node) == [];
    assert dims == FirstPath(List(items));
    r := if Rectangular(List(items), dims) then Ok(dims) else Err("array is ragged");
  }

  function Flatten<E>(node: Node<E>): seq<Option<E>>
    decreases node
  {
    match node
    case Leaf(v) => [v]
    case List(items) => FlattenAll(items)
  }

  function FlattenAll<E>(items: seq<Node<E>>): seq<Option<E>>
    decreases items
  {
    if items == [] then [] else Flatten(items[0]) + FlattenAll(items[1..])
  }

  function Product(dims: seq<int>): int {
    if dims == [] then 1 else dims[0] * Product(dims[1..])
  }

  /** Rebuild the nesting from the flat elements. None is the ValueError of a zero step; a negative
      step gives no pieces. */
  function Reshape<E>(flat: seq<Option<E>>, dims: seq<int>): Option<seq<Node<E>>>
    decreases |dims|, 0
  {
    if |dims| <= 1 then Some(Leaves(flat))
    else
      var step := Product(dims[1..]);
      if step == 0 then None
      else if step < 0 then Some([])
      else Pieces(flat, step, dims[1..])
  }

  function Pieces<E>(flat: seq<Option<E>>, step: nat, dims: seq<int>): Option<seq<Node<E>>>
    requires step > 0
    decreases |dims|, 1, |flat|
  {
    if flat == [] then Some([])
    else
      var n := Min(step, |flat|);
      match (Reshape(flat[..n], dims), Pieces(flat[n..], step, dims))
      case (Some(first), Some(rest)) => Some([List(first)] + rest)
      case _ => None
  }

  function Leaves<E>(flat: seq<Option<E>>): seq<Node<E>> {
    seq(|flat|, i requires 0 <= i < |flat| => Leaf(flat[i]))
  }

  predicate Positive(dims: seq<int>) {
    forall i :: 0 <= i < |dims| ==> dims[i] > 0
  }

  lemma ProductPositive(dims: seq<int>)
    requires Positive(dims)
    ensures Product(dims) > 0
  {
    if dims != [] {
      ProductPositive(dims[1..]);
    }
  }

  lemma {:induction false} ProductZero(dims: seq<int>, i: nat)
    requires i < |dims| && dims[i] == 0
    ensures Product(dims) == 0
  {
    if i > 0 {
      ProductZero(dims[1..], i - 1);
    }
  }

  /** The element count is the product of the dimensions. */
  lemma {:induction false} FlattenCount<E>(node: Node<E>, dims: seq<nat>)
    requires Rectangular(node, dims)
    ensures |Flatten(node)| == Product(dims)
    decreases |dims|, 0
  {
    if dims != [] {
      FlattenAllCount(node.items, dims[1..]);
    }
  }

  lemma {:induction false} FlattenAllCount<E>(items: seq<Node<E>>, dims: seq<nat>)
    requires forall i :: 0 <= i < |items| ==> Rectangular(items[i], dims)
    ensures |FlattenAll(items)| == |items| * Product(dims)
    decreases |dims|, 1, |items|
  {
    if items != [] {
      FlattenCount(items[0], dims);
      FlattenAllCount(items[1..], dims);
      assert |items| * Product(dims) == Product(dims) + (|items| - 1) * Product(dims);
    }
  }

  /** Reshaping the flattened elements by the dimensions gives the nested list back. */
  lemma {:induction false} ReshapeFlatten<E>(node: Node<E>, dims: seq<nat>)
    requires dims != [] && Rectangular(node, dims) && Positive(dims)
    ensures Reshape(Flatten(node), dims) == Some(node.items)
    decreases |dims|, 0
  {
    if |dims| == 1 {
      LeavesFlatten(node.items);
    } else {
      ProductPositive(dims[1..]);
      assert Positive(dims[1..]);
      PiecesFlatten(node.items, dims[1..]);
    }
  }

  lemma {:induction false} LeavesFlatten<E>(items: seq<Node<E>>)
    requires forall i :: 0 <= i < |items| ==> items[i].Leaf?
    ensures Leaves(FlattenAll(items)) == items
  {
    if items != [] {
      LeavesFlatten(items[1..]);
      assert FlattenAll(items) == [items[0].value] + FlattenAll(items[1..]);
      assert Leaves(FlattenAll(items)) == [items[0]] + Leaves(FlattenAll(items[1..]));
    }
  }

  lemma {:induction false} PiecesFlatten<E>(items: seq<Node<E>>, dims: seq<nat>)
    requires dims != [] && Positive(dims)
    requires forall i :: 0 <= i < |items| ==> Rectangular(items[i], dims)
    ensures Product(dims) > 0 && Pieces(FlattenAll(items), Product(dims), dims) == Some(items)
    decreases |dims|, 1, |items|
  {
    ProductPositive(dims);
    if items != [] {
      var first := Flatten(items[0]);
      var rest := FlattenAll(items[1..]);
      var flat := FlattenAll(items);
      FlattenCount(items[0], dims);
      ReshapeFlatten(items[0], dims);
      PiecesFlatten(items[1..], dims);
      assert flat[..|first|] == first && flat[|first|..] == rest;
      assert [List(items[0].items)] + items[1..] == items;
    }
  }

  // ---- Mapping the elements through a codec ----

  function MapNode<E, D>(node: Node<E>, f: E -> D): Node<D>
    decreases node
  {
    match node
    case Leaf(None) => Leaf(None)
    case Leaf(Some(v)) => Leaf(Some(f(v)))
    case List(items) => List(MapAll(items, f))
  }

  function MapAll<E, D>(items: seq<Node<E>>, f: E -> D): (r: seq<Node<D>>)
    ensures |r| == |items| && forall i :: 0 <= i < |items| ==> r[i] == MapNode(items[i], f)
    decreases items
  {
    if items == [] then [] else [MapNode(items[0], f)] + MapAll(items[1..], f)
  }

  function MapFlat<E, D>(flat: seq<Option<E>>, f: E -> D): seq<Option<D>> {
    seq(|flat|, i requires 0 <= i < |flat| => MapOption(flat[i], f))
  }

  function MapOption<E, D>(v: Option<E>, f: E -> D): Option<D> {
    if v.Some? then Some(f(v.value)) else None
  }

  lemma {:induction false} MapKeepsShape<E, D>(node: Node<E>, f: E -> D, dims: seq<nat>)
    requires Rectangular(node, dims)
    ensures Rectangular(MapNode(node, f), dims)
    decreases dims
  {
    if dims != [] {
      forall i | 0 <= i < |node.items|
        ensures Rectangular(MapNode(node.items[i], f), dims[1..])
      {
        MapKeepsShape(node.items[i], f, dims[1..]);
      }
    }
  }

  lemma {:induction false} FlattenMap<E, D>(node: Node<E>, f: E -> D)
    ensures Flatten(MapNode(node, f)) == MapFlat(Flatten(node), f)
    decreases node
  {
    if node.List? {
      FlattenMapAll(node.items, f);
    }
  }

  lemma {:induction false} FlattenMapAll<E, D>(items: seq<Node<E>>, f: E -> D)
    ensures FlattenAll(MapAll(items, f)) == MapFlat(FlattenAll(items), f)
    decreases items
  {
    if items != [] {
      FlattenMap(items[0], f);
      FlattenMapAll(items[1..], f);
      assert MapAll(items, f)[1..] == MapAll(items[1..], f);
    }
  }

  // ---- The binary format ----

  /** An element codec: how an element of this OID is written and how its bytes read back. */
  datatype Codec<!E, !D> = Codec(oid: int, encode: E -> Bytes, decode: Bytes -> D)

  /** What an element becomes when it is written and read back. */
  function Through<E, D>(c: Codec<E, D>): E -> D {
    v => c.decode(c.encode(v))
  }

  predicate Fits(n: int) {
    n < TWO31
  }

  function EncodeDims(dims: seq<nat>): Result<Bytes> {
    if dims == [] then Ok([])
    else if !Fits(dims[0]) then Err("struct.error")
    else
      match EncodeDims(dims[1..])
      case Ok(rest) => Ok(PackSigned(dims[0]) + PackSigned(1) + rest)
      case Err(reason) => Err(reason)
  }

  function EncodeItem<E, D>(c: Codec<E, D>, item: Option<E>): Result<Bytes> {
    match item
    case None => Ok(PackSigned(-1))
    case Some(v) => if Fits(|c.encode(v)|) then Ok(PackSigned(|c.encode(v)|) + c.encode(v)) else Err("struct.error")
  }

  function EncodeItems<E, D>(c: Codec<E, D>, flat: seq<Option<E>>): Result<Bytes> {
    if flat == [] then Ok([])
    else
      match (EncodeItem(c, flat[0]), EncodeItems(c, flat[1..]))
      case (Ok(first), Ok(rest)) => Ok(first + rest)
      case _ => Err("struct.error")
  }

  function HasNull<E>(flat: seq<Option<E>>): bool {
    exists i :: 0 <= i < |flat| && flat[i].None?
  }

  /** The number of dimensions, the NULL flag and the element's OID. */
  function Header(ndim: nat, flag: nat, oid: nat): (b: Bytes)
    requires Fits(ndim) && flag < 2 && oid < TWO32
    ensures |b| == 12
  {
    PackSigned(ndim) + PackSigned(flag) + Pack(oid)
  }

  function Encode<E, D>(c: Codec<E, D>, items: seq<Node<E>>): Result<Bytes> {
    match Dimensions(items)
    case Err(reason) => Err(reason)
    case Ok(dims) =>
      var flat := if dims == [] then [] else FlattenAll(items);
      match (EncodeDims(dims), EncodeItems(c, flat))
      case (Ok(head), Ok(tail)) =>
        if Fits(|dims|) && 0 <= c.oid < TWO32 then
          Ok(Header(|dims|, if HasNull(flat) then 1 else 0, c.oid) + head + tail)
        else Err("struct.error")
      case _ => Err("struct.error")
  }

  datatype Dims = Dims(sizes: seq<int>, offset: nat)

  function DecodeDims(data: Bytes, offset: nat, count: nat): Result<Dims>
    decreases count
  {
    if count == 0 then Ok(Dims([], offset))
    else if |data| < offset + 8 then Err("struct.error")
    else
      match DecodeDims(data, offset + 8, count - 1)
      case Ok(rest) => Ok(Dims([UnpackSigned(data[offset..offset + 4])] + rest.sizes, rest.offset))
      case Err(reason) => Err(reason)
  }

  /** `struct.unpack_from` at an offset, which counts from the end when it is negative. */
  function ReadAt(data: Bytes, offset: int): Result<int> {
    var at := if offset < 0 then offset + |data| else offset;
    if 0 <= at && at + 4 <= |data| then Ok(UnpackSigned(data[at..at + 4])) else Err("struct.error")
  }

  function Clip(i: int, n: nat): nat {
    if i < 0 then (if i + n < 0 then 0 else i + n) else if i < n then i else n
  }

  /** Python's `data[a:b]`. */
  function Slice(data: Bytes, a: int, b: int): Bytes {
    var from, to := Clip(a, |data|), Clip(b, |data|);
    if from <= to then data[from..to] else []
  }

  /** The elements from an offset on. A negative length other than -1 moves the offset back, as in the
      source. */
  function DecodeItems<E, D>(c: Codec<E, D>, data: Bytes, offset: int, count: nat): Result<seq<Option<D>>>
    decreases count
  {
    if count == 0 then Ok([])
    else
      match ReadAt(data, offset)
      case Err(reason) => Err(reason)
      case Ok(length) =>
        var start := offset + 4;
        var next := if length == -1 then start else start + length;
        match DecodeItems(c, data, next, count - 1)
        case Err(reason) => Err(reason)
        case Ok(rest) => Ok([if length == -1 then None else Some(c.decode(Slice(data, start, next)))] + rest)
  }

  function Decode<E, D>(c: Codec<E, D>, data: Bytes): Result<seq<Node<D>>> {
    if |data| < 12 then Err("struct.error")
    else
      var ndim := UnpackSigned(data[0..4]);
      if ndim == 0 then Ok([])
      else if ndim < 0 then Err("negative array dimension count")
      else
        match DecodeDims(data, 12, ndim)
        case Err(reason) => Err(reason)
        case Ok(dims) =>
          var total := Product(dims.sizes);
          match DecodeItems(c, data, dims.offset, if total > 0 then total else 0)
          case Err(reason) => Err(reason)
          case Ok(flat) =>
            match Reshape(flat, dims.sizes)
            case Some(items) => Ok(items)
            case None => Err("range() arg 3 must not be zero")
  }

  // ---- The loops of the source ----

  /** What a loop that already holds `done` will return when the rest of it yields `rest`. */
  function After<T>(done: seq<T>, rest: Result<seq<T>>): Result<seq<T>> {
    match rest
    case Ok(more) => Ok(done + more)
    case Err(reason) => Err(reason)
  }

  lemma AfterAll<T>(done: seq<T>)
    ensures After(done, Ok([])) == Ok(done)
  {
    assert done + [] == done;
  }

  lemma AfterNone<T>(rest: Result<seq<T>>)
    ensures After([], rest) == rest
  {
    if rest.Ok? {
      assert [] + rest.value == rest.value;
    }
  }

  lemma AfterOne<T>(done: seq<T>, next: seq<T>, rest: Result<seq<T>>)
    ensures After(done, After(next, rest)) == After(done + next, rest)
  {
    if rest.Ok? {
      assert done + (next + rest.value) == done + next + rest.value;
    }
  }

  method EncodeItemsLoop<E, D>(c: Codec<E, D>, flat: seq<Option<E>>) returns (r: Result<Bytes>)
    ensures r == EncodeItems(c, flat)
  {
    var out: Bytes := [];
    var i := 0;
    assert flat[0..] == flat;
    AfterNone(EncodeItems(c, flat));
    while i < |flat|
      invariant i <= |flat|
      invariant After(out, EncodeItems(c, flat[i..])) == EncodeItems(c, flat)
    {
      var item := EncodeItem(c, flat[i]);
      assert flat[i..][1..] == flat[i + 1..];
      if item.Err? {
        return Err("struct.error");
      }
      AfterOne(out, item.value, EncodeItems(c, flat[i + 1..]));
      out := out + item.value;
      i := i + 1;
    }
    AfterAll(out);
    r := Ok(out);
  }

  function AfterSizes(done: seq<int>, rest: Result<Dims>): Result<Dims> {
    match rest
    case Ok(more) => Ok(Dims(done + more.sizes, more.offset))
    case Err(reason) => Err(reason)
  }

  method DecodeDimsLoop(data: Bytes, start: nat, count: nat) returns (r: Result<Dims>)
    ensures r == DecodeDims(data, start, count)
  {
    var sizes: seq<int> := [];
    ghost var all := DecodeDims(data, start, count);
    assert all.Ok? ==> [] + all.value.sizes == all.value.sizes;
    var offset: nat := start;
    var i := 0;
    while i < count
      invariant i <= count
      invariant AfterSizes(sizes, DecodeDims(data, offset, count - i)) == DecodeDims(data, start, count)
    {
      if |data| < offset + 8 {
        return Err("struct.error");
      }
      ghost var rest := DecodeDims(data, offset + 8, count - i - 1);
      var size := UnpackSigned(data[offset..offset + 4]);
      if rest.Ok? {
        assert sizes + ([size] + rest.value.sizes) == sizes + [size] + rest.value.sizes;
      }
      sizes := sizes + [size];
      offset := offset + 8;
      i := i + 1;
    }
    assert sizes + [] == sizes;
    r := Ok(Dims(sizes, offset));
  }

  method DecodeItemsLoop<E, D>(c: Codec<E, D>, data: Bytes, start: int, count: nat)
    returns (r: Result<seq<Option<D>>>)
    ensures r == DecodeItems(c, data, start, count)
  {
    var flat: seq<Option<D>> := [];
    var offset := start;
    var i := 0;
    AfterNone(DecodeItems(c, data, start, count));
    while i < count
      invariant i <= count
      invariant After(flat, DecodeItems(c, data, offset, count - i)) == DecodeItems(c, data, start, count)
    {
      var read := ReadAt(data, offset);
      if read.Err? {
        return Err(read.reason);
      }
      var length := read.value;
      var next := if length == -1 then offset + 4 else offset + 4 + length;
      var item := if length == -1 then None else Some(c.decode(Slice(data, offset + 4, next)));
      AfterOne(flat, [item], DecodeItems(c, data, next, count - i - 1));
      flat := flat + [item];
      offset := next;
      i := i + 1;
    }
    AfterAll(flat);
    r := Ok(flat);
  }

  // ---- The round trip ----

  lemma {:induction false} DimsReadBack(dims: seq<nat>, before: Bytes, after: Bytes)
    requires EncodeDims(dims).Ok?
    ensures DecodeDims(before + EncodeDims(dims).value + after, |before|, |dims|) ==
            Ok(Dims(dims, |before| + |EncodeDims(dims).value|))
    decreases |dims|
  {
    if dims != [] {
      var rest := EncodeDims(dims[1..]).value;
      var pair := PackSigned(dims[0]) + PackSigned(1);
      DimsReadBack(dims[1..], before + pair, after);
      Associate(before, pair, rest);
      SizeReadsBack(before, dims[0], rest + after);
      Associate(before + pair, rest, after);
      NextDim(before + (pair + rest) + after, |before|, dims, |before| + |pair + rest|);
    }
  }

  lemma NextDim(data: Bytes, offset: nat, dims: seq<nat>, end: nat)
    requires dims != [] && |data| >= offset + 8 && UnpackSigned(data[offset..offset + 4]) == dims[0]
    requires DecodeDims(data, offset + 8, |dims| - 1) == Ok(Dims(dims[1..], end))
    ensures DecodeDims(data, offset, |dims|) == Ok(Dims(dims, end))
  {
    assert [dims[0]] + dims[1..] == dims;
  }

  lemma SizeReadsBack(before: Bytes, size: nat, after: Bytes)
    requires Fits(size)
    ensures var data := before + (PackSigned(size) + PackSigned(1)) + after;
            |data| >= |before| + 8 && UnpackSigned(data[|before|..|before| + 4]) == size
  {
    var data := before + (PackSigned(size) + PackSigned(1)) + after;
    assert data[|before|..|before| + 4] == PackSigned(size);
    UnpackPackSigned(size);
  }

  lemma {:induction false} ItemsReadBack<E, D>(c: Codec<E, D>, flat: seq<Option<E>>, before: Bytes)
    requires EncodeItems(c, flat).Ok?
    ensures DecodeItems(c, before + EncodeItems(c, flat).value, |before|, |flat|) ==
            Ok(MapFlat(flat, Through(c)))
    decreases |flat|
  {
    if flat == [] {
      assert MapFlat(flat, Through(c)) == [];
    } else {
      var first := EncodeItem(c, flat[0]).value;
      var rest := EncodeItems(c, flat[1..]).value;
      ItemsReadBack(c, flat[1..], before + first);
      MapFlatStep(flat, Through(c));
      DecodeNext(c, flat[0], before, rest, |flat| - 1, MapFlat(flat[1..], Through(c)));
      Associate(before, first, rest);
    }
  }

  lemma MapFlatStep<E, D>(flat: seq<Option<E>>, f: E -> D)
    requires flat != []
    ensures MapFlat(flat, f) == [MapOption(flat[0], f)] + MapFlat(flat[1..], f)
  {
  }

  /** One element at a known place of the data. */
  lemma ItemReadsBack<E, D>(c: Codec<E, D>, item: Option<E>, before: Bytes, after: Bytes)
    requires EncodeItem(c, item).Ok?
    ensures var first := EncodeItem(c, item).value;
            var data := before + first + after;
            && ReadAt(data, |before|) == Ok(if item.None? then -1 else |c.encode(item.value)|)
            && |first| == 4 + (if item.None? then 0 else |c.encode(item.value)|)
            && (item.Some? ==> Slice(data, |before| + 4, |before| + |first|) == c.encode(item.value))
  {
    if item.None? {
      LengthReadsBack(before, -1, after);
    } else {
      BytesReadBack(before, c.encode(item.value), after);
    }
  }

  lemma BytesReadBack(before: Bytes, bytes: Bytes, after: Bytes)
    requires Fits(|bytes|)
    ensures var data := before + (PackSigned(|bytes|) + bytes) + after;
            && ReadAt(data, |before|) == Ok(|bytes|)
            && Slice(data, |before| + 4, |before| + 4 + |bytes|) == bytes
  {
    LengthReadsBack(before, |bytes|, bytes + after);
    var data := before + (PackSigned(|bytes|) + bytes) + after;
    assert data == before + PackSigned(|bytes|) + (bytes + after);
    assert data[|before| + 4..|before| + 4 + |bytes|] == bytes;
  }

  lemma LengthReadsBack(before: Bytes, n: int, after: Bytes)
    requires -1 <= n < TWO31
    ensures ReadAt(before + PackSigned(n) + after, |before|) == Ok(n)
  {
    var data := before + PackSigned(n) + after;
    assert data[|before|..|before| + 4] == PackSigned(n);
    UnpackPackSigned(n);
  }

  lemma DecodeNext<E, D>(c: Codec<E, D>, item: Option<E>, before: Bytes, after: Bytes, count: nat, rest: seq<Option<D>>)
    requires EncodeItem(c, item).Ok?
    requires var head := before + EncodeItem(c, item).value;
             DecodeItems(c, head + after, |head|, count) == Ok(rest)
    ensures DecodeItems(c, before + EncodeItem(c, item).value + after, |before|, count + 1) ==
            Ok([MapOption(item, Through(c))] + rest)
  {
    ItemReadsBack(c, item, before, after);
  }

  lemma HeaderReadsBack(ndim: nat, flag: nat, oid: nat, tail: Bytes)
    requires Fits(ndim) && flag < 2 && oid < TWO32
    ensures var data := Header(ndim, flag, oid) + tail;
            UnpackSigned(data[0..4]) == ndim && UnpackSigned(data[4..8]) == flag && Unpack(data[8..12]) == oid
  {
    var data := Header(ndim, flag, oid) + tail;
    assert data[0..4] == PackSigned(ndim) && data[4..8] == PackSigned(flag) && data[8..12] == Pack(oid);
    UnpackPackSigned(ndim);
    UnpackPackSigned(flag);
    UnpackPack(oid);
  }

  /** The three parts of an encoded array. */
  lemma EncodedParts<E, D>(c: Codec<E, D>, items: seq<Node<E>>)
    requires Encode(c, items).Ok?
    ensures var dims := Dimensions(items).value;
            var flat := if dims == [] then [] else FlattenAll(items);
            && Dimensions(items).Ok? && EncodeDims(dims).Ok? && EncodeItems(c, flat).Ok? && Fits(|dims|) && 0 <= c.oid < TWO32
            && Encode(c, items).value ==
               Header(|dims|, if HasNull(flat) then 1 else 0, c.oid) + EncodeDims(dims).value + EncodeItems(c, flat).value
  {
  }

  /** Decoding an encoded array gives the same shape, every element through the codec and NULLs
      kept, if and only if no dimension is zero (the empty list has none). A list of empty lists is
      encoded and then cannot be decoded. */
  lemma BinaryRoundTrip<E, D>(c: Codec<E, D>, items: seq<Node<E>>)
    requires Encode(c, items).Ok?
    ensures var back := Decode(c, Encode(c, items).value);
            if Positive(Dimensions(items).value) then back == Ok(MapAll(items, Through(c))) else back.Err?
  {
    var dims := Dimensions(items).value;
    var flat := if dims == [] then [] else FlattenAll(items);
    var header := Header(|dims|, if HasNull(flat) then 1 else 0, c.oid);
    var head := EncodeDims(dims).value;
    var tail := EncodeItems(c, flat).value;
    EncodedParts(c, items);
    Associate(header, head, tail);
    HeaderReadsBack(|dims|, if HasNull(flat) then 1 else 0, c.oid, head + tail);
    if items != [] {
      DimsReadBack(dims, header, tail);
      FlattenCount(List(items), dims);
      ItemsReadBack(c, flat, header + head);
      ShapeReadsBack(items, dims, Through(c));
    }
  }

  /** Reshaping the decoded elements. */
  lemma ShapeReadsBack<E, D>(items: seq<Node<E>>, dims: seq<nat>, f: E -> D)
    requires items != [] && Dimensions(items) == Ok(dims)
    ensures Reshape(MapFlat(FlattenAll(items), f), dims) == if Positive(dims) then Some(MapAll(items, f)) else None
  {
    if Positive(dims) {
      MapKeepsShape(List(items), f, dims);
      FlattenMap(List(items), f);
      ReshapeFlatten(MapNode(List(items), f), dims);
    } else {
      ZeroDimension(items, dims);
    }
  }

  /** The header: the number of dimensions, a flag that is set exactly when an element is NULL, and
      the element's OID. */
  lemma HeaderSays<E, D>(c: Codec<E, D>, items: seq<Node<E>>)
    requires Encode(c, items).Ok?
    ensures var data := Encode(c, items).value;
            && |data| >= 12
            && UnpackSigned(data[0..4]) == |Dimensions(items).value|
            && UnpackSigned(data[4..8]) == (if items != [] && HasNull(FlattenAll(items)) then 1 else 0)
            && Unpack(data[8..12]) == c.oid
  {
    var dims := Dimensions(items).value;
    var flat := if dims == [] then [] else FlattenAll(items);
    EncodedParts(c, items);
    var head := EncodeDims(dims).value;
    var tail := EncodeItems(c, flat).value;
    Associate(Header(|dims|, if HasNull(flat) then 1 else 0, c.oid), head, tail);
    HeaderReadsBack(|dims|, if HasNull(flat) then 1 else 0, c.oid, head + tail);
    assert dims == [] <==> items == [];
  }

  /** A list of two empty lists encodes, and what it encodes to cannot be decoded. */
  lemma EmptyListsAreLost<E, D>(c: Codec<E, D>, items: seq<Node<E>>)
    requires items == [List([]), List([])] && 0 <= c.oid < TWO32
    ensures Encode(c, items).Ok? && Decode(c, Encode(c, items).value).Err?
  {
    assert FirstPath(items[0]) == [0] && FirstPath(List(items)) == [2, 0];
    assert [2, 0][1..] == [0];
    assert Rectangular(List(items), [2, 0]);
    assert Dimensions(items) == Ok([2, 0]);
    assert FlattenAll(items[1..]) == [] && FlattenAll(items) == [];
    assert EncodeDims([0]).Ok? && EncodeDims([2, 0]).Ok?;
    BinaryRoundTrip(c, items);
    assert !Positive([2, 0]) by { assert [2, 0][1] == 0; }
  }

  /** A zero among the dimensions of a non-empty list is not the first, and makes the step zero. */
  lemma ZeroDimension<E>(items: seq<Node<E>>, dims: seq<nat>)
    requires items != [] && Dimensions(items) == Ok(dims) && !Positive(dims)
    ensures |dims| > 1 && Product(dims[1..]) == 0
  {
    var i :| 0 <= i < |dims| && dims[i] == 0;
    assert dims[0] == |items|;
    ProductZero(dims[1..], i - 1);
  }

  // ---- Which lists are arrays ----

  /** The dimensions up to the first zero: below an empty list there is nothing to measure. */
  function ToZero(dims: seq<nat>): seq<nat> {
    if dims == [] then [] else if dims[0] == 0 then [0] else [dims[0]] + ToZero(dims[1..])
  }

  lemma {:induction false} RectanglePath<E>(node: Node<E>, dims: seq<nat>)
    requires Rectangular(node, dims)
    ensures FirstPath(node) == ToZero(dims) && Rectangular(node, ToZero(dims))
    decreases dims
  {
    if dims != [] && dims[0] != 0 {
      forall i | 0 <= i < |node.items|
        ensures FirstPath(node.items[i]) == ToZero(dims[1..]) && Rectangular(node.items[i], ToZero(dims[1..]))
      {
        RectanglePath(node.items[i], dims[1..]);
      }
      assert ToZero(dims)[1..] == ToZero(dims[1..]);
    }
  }

  /** A list has dimensions exactly when it is empty or some sizes fit every branch, and then they are
      those sizes, up to the first zero. */
  lemma RaggedExactly<E>(items: seq<Node<E>>, dims: seq<nat>)
    ensures items == [] ==> Dimensions(items) == Ok([])
    ensures items != [] && Rectangular(List(items), dims) ==> Dimensions(items) == Ok(ToZero(dims))
    ensures items != [] && Dimensions(items).Ok? ==> Rectangular(List(items), Dimensions(items).value)
  {
    if items != [] && Rectangular(List(items), dims) {
      RectanglePath(List(items), dims);
    }
  }

  // ---- The order of the elements ----

  /** A place in a nested list: an index at every level. */
  predicate Within(path: seq<nat>, dims: seq<nat>) {
    |path| == |dims| && forall i :: 0 <= i < |path| ==> path[i] < dims[i]
  }

  function ElementAt<E>(node: Node<E>, dims: seq<nat>, path: seq<nat>): Option<E>
    requires Rectangular(node, dims) && Within(path, dims)
    decreases dims
  {
    if dims == [] then node.value else ElementAt(node.items[path[0]], dims[1..], path[1..])
  }

  /** Row-major: the last index moves fastest. */
  function Place(dims: seq<nat>, path: seq<nat>): int
    requires Within(path, dims)
  {
    if dims == [] then 0 else path[0] * Product(dims[1..]) + Place(dims[1..], path[1..])
  }

  lemma {:induction false} PlaceWithin(dims: seq<nat>, path: seq<nat>)
    requires Within(path, dims)
    ensures 0 <= Place(dims, path) < Product(dims)
  {
    if dims != [] {
      var step := Product(dims[1..]);
      PlaceWithin(dims[1..], path[1..]);
      NextRow(path[0], dims[0], step, Place(dims[1..], path[1..]));
    }
  }

  lemma NextRow(i: nat, n: nat, step: int, k: int)
    requires i < n && 0 <= k < step
    ensures 0 <= i * step + k < n * step
  {
    NotNegative(i, step);
    NotNegative(n - 1 - i, step);
    assert (n - 1 - i) * step == n * step - step - i * step;
  }

  lemma NotNegative(a: nat, b: nat)
    ensures a * b >= 0
  {
  }

  /** The elements are written in row-major order. */
  lemma {:induction false} RowMajor<E>(node: Node<E>, dims: seq<nat>, path: seq<nat>)
    requires Rectangular(node, dims) && Within(path, dims)
    ensures 0 <= Place(dims, path) < |Flatten(node)| && Flatten(node)[Place(dims, path)] == ElementAt(node, dims, path)
    decreases |dims|, 0
  {
    PlaceWithin(dims, path);
    FlattenCount(node, dims);
    if dims != [] {
      RowOf(node.items, dims[1..], path[0], path[1..]);
    }
  }

  lemma {:induction false} RowOf<E>(items: seq<Node<E>>, dims: seq<nat>, i: nat, path: seq<nat>)
    requires i < |items| && Within(path, dims)
    requires forall j :: 0 <= j < |items| ==> Rectangular(items[j], dims)
    ensures var k := i * Product(dims) + Place(dims, path);
            0 <= k < |FlattenAll(items)| && FlattenAll(items)[k] == ElementAt(items[i], dims, path)
    decreases |dims|, 1, i
  {
    var step := Product(dims);
    PlaceWithin(dims, path);
    FlattenCount(items[0], dims);
    FlattenAllCount(items, dims);
    NextRow(i, |items|, step, Place(dims, path));
    if i == 0 {
      RowMajor(items[0], dims, path);
    } else {
      RowOf(items[1..], dims, i - 1, path);
      assert i * step == step + (i - 1) * step;
    }
  }

  // ---- The bytes ----

  /** Each dimension is its size and a lower bound of one. */
  lemma {:induction false} DimsBytes(dims: seq<nat>, i: nat)
    requires EncodeDims(dims).Ok? && i < |dims|
    ensures var b := EncodeDims(dims).value;
            && |b| == 8 * |dims| && Fits(dims[i])
            && b[8 * i..8 * i + 8] == PackSigned(dims[i]) + PackSigned(1)
    decreases |dims|
  {
    var rest := EncodeDims(dims[1..]).value;
    var first := PackSigned(dims[0]) + PackSigned(1);
    var b := EncodeDims(dims).value;
    if |dims| > 1 {
      DimsBytes(dims[1..], if i == 0 then 0 else i - 1);
    }
    if i == 0 {
      assert b[..8] == first;
    } else {
      assert b[8 * i..8 * i + 8] == rest[8 * (i - 1)..8 * (i - 1) + 8];
    }
  }

  /** The elements one after the other: each its length and its bytes, NULL as the length -1. */
  lemma {:induction false} ItemsBytes<E, D>(c: Codec<E, D>, flat: seq<Option<E>>, i: nat)
    requires EncodeItems(c, flat).Ok? && i < |flat|
    ensures EncodeItems(c, flat[..i]).Ok? && EncodeItems(c, flat[i + 1..]).Ok?
    ensures (flat[i].Some? ==> |c.encode(flat[i].value)| < TWO31)
    ensures EncodeItems(c, flat).value ==
            EncodeItems(c, flat[..i]).value +
            ((if flat[i].None? then [255, 255, 255, 255] else PackSigned(|c.encode(flat[i].value)|) + c.encode(flat[i].value)) +
             EncodeItems(c, flat[i + 1..]).value)
    decreases |flat|
  {
    NullBytes();
    if i == 0 {
      assert flat[..0] == [] && flat[0 + 1..] == flat[1..];
    } else {
      ItemsBytes(c, flat[1..], i - 1);
      assert flat[..i][1..] == flat[1..][..i - 1] && flat[1..][i..] == flat[i + 1..];
      Associate(EncodeItem(c, flat[0]).value, EncodeItems(c, flat[1..][..i - 1]).value, EncodeItem(c, flat[i]).value + EncodeItems(c, flat[i + 1..]).value);
    }
  }

  lemma NullBytes()
    ensures PackSigned(-1) == [255, 255, 255, 255]
  {
  }
}

/** Big-endian integers, as Python's struct module packs them. */
module ByteOrder {

  newtype Byte = n: int | 0 <= n < 256

  type Bytes = seq<Byte>

  const TWO32 := 0x1_0000_0000
  const TWO31 := 0x8000_0000

  /** `!I`: four bytes, most significant first. */
  function Pack(n: int): (b: Bytes)
    requires 0 <= n < TWO32
    ensures |b| == 4
  {
    [(n / 0x100_0000) as Byte, (n / 0x1_0000 % 256) as Byte, (n / 256 % 256) as Byte, (n % 256) as Byte]
  }

  function Unpack(b: Bytes): (n: int)
    requires |b| == 4
    ensures 0 <= n < TWO32
  {
    b[0] as int * 0x100_0000 + b[1] as int * 0x1_0000 + b[2] as int * 256 + b[3] as int
  }

  /** `!i`, in two's complement. */
  function PackSigned(n: int): (b: Bytes)
    requires -TWO31 <= n < TWO31
    ensures |b| == 4
  {
    Pack(if n < 0 then n + TWO32 else n)
  }

  function UnpackSigned(b: Bytes): int
    requires |b| == 4
  {
    var n := Unpack(b);
    if n < TWO31 then n else n - TWO32
  }

  lemma UnpackPack(n: int)
    requires 0 <= n < TWO32
    ensures Unpack(Pack(n)) == n
  {
    assert n / 0x1_0000 == n / 0x100_0000 * 256 + n / 0x1_0000 % 256;
    assert n / 256 == n / 0x1_0000 * 256 + n / 256 % 256;
    assert n == n / 256 * 256 + n % 256;
  }

  lemma UnpackPackSigned(n: int)
    requires -TWO31 <= n < TWO31
    ensures UnpackSigned(PackSigned(n)) == n
  {
    UnpackPack(if n < 0 then n + TWO32 else n);
  }

  const TWO16 := 0x1_0000
  const TWO15 := 0x8000

  /** `!H`: two bytes, most significant first. */
  function PackShort(n: int): (b: Bytes)
    requires 0 <= n < TWO16
    ensures |b| == 2
  {
    [(n / 256) as Byte, (n % 256) as Byte]
  }

  function UnpackShort(b: Bytes): (n: int)
    requires |b| == 2
    ensures 0 <= n < TWO16
  {
    b[0] as int * 256 + b[1] as int
  }

  /** `!h`, in two's complement. */
  function PackSignedShort(n: int): (b: Bytes)
    requires -TWO15 <= n < TWO15
    ensures |b| == 2
  {
    PackShort(if n < 0 then n + TWO16 else n)
  }

  function UnpackSignedShort(b: Bytes): int
    requires |b| == 2
  {
    var n := UnpackShort(b);
    if n < TWO15 then n else n - TWO16
  }

  lemma UnpackPackShort(n: int)
    requires 0 <= n < TWO16
    ensures UnpackShort(PackShort(n)) == n
  {
    assert n == n / 256 * 256 + n % 256;
  }

  lemma UnpackPackSignedShort(n: int)
    requires -TWO15 <= n < TWO15
    ensures UnpackSignedShort(PackSignedShort(n)) == n
  {
    UnpackPackShort(if n < 0 then n + TWO16 else n);
  }
}

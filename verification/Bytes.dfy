/** Bytes, identifiers and addresses, and the little-endian words of the wire format. */
module Bytes {

  type byte = x: int | 0 <= x < 256

  /** A 16-byte identifier; the all-zero one is null. */
  type UUID = b: seq<byte> | |b| == 16 witness [0, 0, 0, 0, 0, 0, 0, 0, 0, 0, 0, 0, 0, 0, 0, 0]

  const NULL: UUID := [0, 0, 0, 0, 0, 0, 0, 0, 0, 0, 0, 0, 0, 0, 0, 0]

  datatype Address = Address(session: UUID, node: UUID, computation: UUID)

  function Min(a: nat, b: nat): nat { if a <= b then a else b }

  datatype Option<T> = None | Some(value: T)

  datatype Result<T> = Ok(value: T) | Err(error: string)

  // ---------------------------------------------------------------- little-endian words

  const TWO_16 := 0x1_0000
  const TWO_32 := 0x1_0000_0000
  const TWO_64 := 0x1_0000_0000_0000_0000

  type u16 = x: int | 0 <= x < 0x1_0000
  type u32 = x: int | 0 <= x < 0x1_0000_0000
  type u64 = x: int | 0 <= x < 0x1_0000_0000_0000_0000

  /** A length cut down to a 16-bit or a 32-bit field. */
  function Low16(n: nat): (r: u16)
    ensures r <= n && (n < TWO_16 <==> r == n)
  {
    n % TWO_16
  }

  function Low32(n: nat): (r: u32)
    ensures r <= n && (n < TWO_32 <==> r == n)
  {
    n % TWO_32
  }

  function Encode16(n: u16): (b: seq<byte>)
    ensures |b| == 2 && Decode16(b) == n
  {
    [n % 256, n / 256]
  }

  function Decode16(b: seq<byte>): (n: u16)
    requires |b| == 2
  {
    b[0] as int + 256 * (b[1] as int)
  }

  function Encode32(n: u32): (b: seq<byte>)
    ensures |b| == 4 && Decode32(b) == n
  {
    Encode16(n % TWO_16) + Encode16(n / TWO_16)
  }

  function Decode32(b: seq<byte>): (n: u32)
    requires |b| == 4
  {
    Decode16(b[..2]) as int + TWO_16 * (Decode16(b[2..]) as int)
  }

  function Encode64(n: u64): (b: seq<byte>)
    ensures |b| == 8 && Decode64(b) == n
  {
    assert n == n % TWO_32 + TWO_32 * (n / TWO_32);
    var lo, hi := Encode32(n % TWO_32), Encode32(n / TWO_32);
    assert (lo + hi)[..4] == lo && (lo + hi)[4..] == hi;
    lo + hi
  }

  function Decode64(b: seq<byte>): (n: u64)
    requires |b| == 8
  {
    Decode32(b[..4]) as int + TWO_32 * (Decode32(b[4..]) as int)
  }

  /** The decoders lose nothing either. */
  lemma Reencode16(b: seq<byte>)
    requires |b| == 2
    ensures Encode16(Decode16(b)) == b
  {
  }

  lemma Reencode32(b: seq<byte>)
    requires |b| == 4
    ensures Encode32(Decode32(b)) == b
  {
    Reencode16(b[..2]);
    Reencode16(b[2..]);
    assert b == b[..2] + b[2..];
    var lo: int, hi: int := Decode16(b[..2]), Decode16(b[2..]);
    assert (lo + TWO_16 * hi) % TWO_16 == lo && (lo + TWO_16 * hi) / TWO_16 == hi;
  }

  lemma Associative(a: seq<byte>, b: seq<byte>, c: seq<byte>)
    ensures a + (b + c) == a + b + c
  {
  }
}

/** Octet strings and the big-endian integers inside them. */
module Bytes {

  type byte = x: int | 0 <= x < 256
  type Bytes = seq<byte>

  type uint8 = byte
  type uint16 = x: int | 0 <= x < 0x1_0000
  type uint32 = x: int | 0 <= x < 0x1_0000_0000
  type uint64 = x: int | 0 <= x < 0x1_0000_0000_0000_0000

  datatype Option<+T> = None | Some(value: T)

  /** The outcome of an operation whose failures are not told apart. */
  datatype Result<+T> = Ok(value: T) | Err

  /** The two octets of a 16-bit field, most significant first; a wider v is truncated
      like a uint16 cast. */
  function Hi(v: nat): byte {
    v / 256 % 256
  }

  function Lo(v: nat): byte {
    v % 256
  }

  /** The 16-bit field at offset i. */
  function U16At(b: Bytes, i: nat): uint16
    requires i + 2 <= |b|
  {
    (b[i] as int) * 256 + b[i + 1] as int
  }

  lemma HiLo(v: nat)
    ensures (Hi(v) as int) * 256 + Lo(v) as int == v % 0x1_0000
  {}

  /** n octets, most significant first, of v truncated to n octets. */
  function Be(v: nat, n: nat): (b: Bytes)
    ensures |b| == n
  {
    if n == 0 then [] else Be(v / 256, n - 1) + [v % 256]
  }

  function U(b: Bytes): nat {
    if b == [] then 0 else U(b[..|b| - 1]) * 256 + b[|b| - 1]
  }

  function Limit(n: nat): nat {
    if n == 0 then 1 else 256 * Limit(n - 1)
  }

  lemma {:induction false} UOfBe(v: nat, n: nat)
    requires v < Limit(n)
    ensures U(Be(v, n)) == v
  {
    if n > 0 {
      UOfBe(v / 256, n - 1);
      assert Be(v, n)[..n - 1] == Be(v / 256, n - 1);
    }
  }

  lemma {:induction false} BeOfU(b: Bytes)
    ensures U(b) < Limit(|b|) && Be(U(b), |b|) == b
  {
    if b != [] {
      BeOfU(b[..|b| - 1]);
      assert U(b) / 256 == U(b[..|b| - 1]) && U(b) % 256 == b[|b| - 1];
      assert b == b[..|b| - 1] + [b[|b| - 1]];
    }
  }

  lemma Limits()
    ensures Limit(4) == 0x1_0000_0000
    ensures Limit(8) == 0x1_0000_0000_0000_0000
  {
    assert Limit(2) == 0x1_0000;
    assert Limit(4) == 256 * (256 * Limit(2));
    assert Limit(6) == 256 * (256 * Limit(4));
  }

  function Be32(v: uint32): (b: Bytes)
    ensures |b| == 4
  {
    Be(v, 4)
  }

  function U32(b: Bytes): (v: uint32)
    requires |b| == 4
  {
    BeOfU(b); Limits(); U(b)
  }

  function Be64(v: uint64): (b: Bytes)
    ensures |b| == 8
  {
    Be(v, 8)
  }

  function U64(b: Bytes): (v: uint64)
    requires |b| == 8
  {
    BeOfU(b); Limits(); U(b)
  }

  lemma U32OfBe32(v: uint32)
    ensures U32(Be32(v)) == v
  {
    Limits(); UOfBe(v, 4);
  }

  lemma U64OfBe64(v: uint64)
    ensures U64(Be64(v)) == v
  {
    Limits(); UOfBe(v, 8);
  }

  /** Most significant octet first. */
  lemma BigEndian(b: Bytes)
    ensures |b| == 4 ==> U32(b) == (b[0] as int) * 0x100_0000 + (b[1] as int) * 0x1_0000 + (b[2] as int) * 0x100 + b[3]
    ensures |b| == 8 ==> U64(b) == U32(b[..4]) * 0x1_0000_0000 + U32(b[4..])
  {
    if |b| == 4 {
      FourOctets(b);
    } else if |b| == 8 {
      FourOctets(b[..4]);
      FourOctets(b[4..]);
      assert b[..7][..6] == b[..6] && b[..6][..5] == b[..5] && b[..5][..4] == b[..4];
      assert U(b[..5]) == U(b[..4]) * 256 + b[4] && U(b[..6]) == U(b[..5]) * 256 + b[5];
      assert U(b[..7]) == U(b[..6]) * 256 + b[6] && U(b) == U(b[..7]) * 256 + b[7];
    }
  }

  lemma FourOctets(b: Bytes)
    requires |b| == 4
    ensures U(b) == (b[0] as int) * 0x100_0000 + (b[1] as int) * 0x1_0000 + (b[2] as int) * 0x100 + b[3]
  {
    assert b[..3][..2] == b[..2] && b[..2][..1] == b[..1] && b[..1][..0] == [];
    assert U(b[..1]) == b[0] && U(b[..2]) == U(b[..1]) * 256 + b[1] && U(b[..3]) == U(b[..2]) * 256 + b[2];
  }

  /** The counting padding 1, 2, 3, ... both protocols use. */
  function Padding(n: byte): (p: Bytes)
    ensures |p| == n
  {
    seq(n, (i: nat) => if i < 255 then i + 1 else 0)
  }

  /** n zero octets. */
  function Zeros(n: nat): (b: Bytes)
    ensures |b| == n
  {
    seq(n, _ => 0)
  }
}

/** Shared vocabulary: bytes, option values, clock arithmetic and big-endian numbers. */
module Prelude {

  type byte = b: int | 0 <= b < 256

  type Bytes = seq<byte>

  datatype Option<+T> = None | Some(value: T)

  /** One second, in the nanoseconds that every instant of the model is counted in. */
  const SECOND: nat := 1_000_000_000

  const U32_LIMIT: nat := 0x1_0000_0000
  const U64_LIMIT: nat := 0x1_0000_0000_0000_0000

  type u64 = n: int | 0 <= n < U64_LIMIT

  function Max(a: int, b: int): int {
    if a >= b then a else b
  }

  function Min(a: int, b: int): int {
    if a <= b then a else b
  }

  /** Subtraction that stops at zero: `Instant::duration_since`, `saturating_sub`. */
  function Monus(a: nat, b: nat): nat {
    if a >= b then a - b else 0
  }

  /** Addition in `u64` that stops at the largest value. */
  function SatAdd(a: nat, b: nat): nat {
    if a + b < U64_LIMIT then a + b else U64_LIMIT - 1
  }

  function Zeros(n: nat): (z: Bytes)
    ensures |z| == n
  {
    seq(n, _ => 0)
  }

  function Copies<T>(a: T, n: nat): (s: seq<T>)
    ensures |s| == n && forall i :: 0 <= i < n ==> s[i] == a
  {
    seq(n, _ => a)
  }

  function Pow256(width: nat): (p: nat)
    ensures p > 0
  {
    if width == 0 then 1 else 256 * Pow256(width - 1)
  }

  lemma Pow256Widths()
    ensures Pow256(2) == 0x1_0000 && Pow256(4) == U32_LIMIT && Pow256(8) == U64_LIMIT
  {
    assert Pow256(2) == 0x1_0000;
    assert Pow256(4) == 0x1_0000 * Pow256(2);
    assert Pow256(6) == 0x1_0000 * Pow256(4);
    assert Pow256(8) == 0x1_0000 * Pow256(6);
  }

  /** `to_be_bytes`: the low `8 * width` bits of `n`, most significant byte first. */
  function ToBigEndian(n: nat, width: nat): (b: Bytes)
    ensures |b| == width
    decreases width
  {
    if width == 0 then [] else ToBigEndian(n / 256, width - 1) + [n % 256]
  }

  /** `from_be_bytes`. */
  function FromBigEndian(b: Bytes): (n: nat)
  {
    if b == [] then 0 else FromBigEndian(b[..|b| - 1]) * 256 + b[|b| - 1]
  }

  lemma {:induction false} BigEndianBound(b: Bytes)
    ensures FromBigEndian(b) < Pow256(|b|)
  {
    if b == [] {
    } else {
      BigEndianBound(b[..|b| - 1]);
    }
  }

  lemma {:induction false} BigEndianRoundTrip(n: nat, width: nat)
    requires n < Pow256(width)
    ensures FromBigEndian(ToBigEndian(n, width)) == n
    decreases width
  {
    if width == 0 {
    } else {
      BigEndianRoundTrip(n / 256, width - 1);
      var b := ToBigEndian(n, width);
      assert b[..|b| - 1] == ToBigEndian(n / 256, width - 1);
    }
  }

  lemma {:induction false} BigEndianUnique(b: Bytes)
    ensures ToBigEndian(FromBigEndian(b), |b|) == b
  {
    if b == [] {
    } else {
      var init := b[..|b| - 1];
      BigEndianUnique(init);
      assert FromBigEndian(b) / 256 == FromBigEndian(init);
      assert b == init + [b[|b| - 1]];
    }
  }
}

/** Bytes, and the fixed-width big- and little-endian integers of the wire formats. */
module Bytes {
  type byte = b: int | 0 <= b < 256

  function Pow256(k: nat): (p: nat)
    ensures p >= 1
  {
    if k == 0 then 1 else 256 * Pow256(k - 1)
  }

  /** `n` as `k` bytes, least significant first, dropping what does not fit. */
  function LittleEndian(n: nat, k: nat): (bytes: seq<byte>)
    ensures |bytes| == k
    decreases k
  {
    if k == 0 then [] else [n % 256] + LittleEndian(n / 256, k - 1)
  }

  function FromLittleEndian(bytes: seq<byte>): nat {
    if bytes == [] then 0 else bytes[0] + 256 * FromLittleEndian(bytes[1..])
  }

  function Reversed(bytes: seq<byte>): (r: seq<byte>)
    ensures |r| == |bytes|
  {
    if bytes == [] then [] else Reversed(bytes[1..]) + [bytes[0]]
  }

  function BigEndian(n: nat, k: nat): (bytes: seq<byte>)
    ensures |bytes| == k
  {
    Reversed(LittleEndian(n, k))
  }

  function FromBigEndian(bytes: seq<byte>): nat {
    FromLittleEndian(Reversed(bytes))
  }

  lemma {:induction false} LittleEndianRoundTrip(n: nat, k: nat)
    requires n < Pow256(k)
    ensures FromLittleEndian(LittleEndian(n, k)) == n
    decreases k
  {
    if k > 0 {
      LittleEndianRoundTrip(n / 256, k - 1);
      assert LittleEndian(n, k)[1..] == LittleEndian(n / 256, k - 1);
    }
  }

  lemma {:induction false} ReversedSnoc(bytes: seq<byte>, b: byte)
    ensures Reversed(bytes + [b]) == [b] + Reversed(bytes)
  {
    if bytes == [] {
      assert bytes + [b] == [b];
    } else {
      assert (bytes + [b])[1..] == bytes[1..] + [b];
      ReversedSnoc(bytes[1..], b);
    }
  }

  lemma {:induction false} ReversedTwice(bytes: seq<byte>)
    ensures Reversed(Reversed(bytes)) == bytes
  {
    if bytes != [] {
      ReversedSnoc(Reversed(bytes[1..]), bytes[0]);
      ReversedTwice(bytes[1..]);
    }
  }

  lemma BigEndianRoundTrip(n: nat, k: nat)
    requires n < Pow256(k)
    ensures FromBigEndian(BigEndian(n, k)) == n
  {
    ReversedTwice(LittleEndian(n, k));
    LittleEndianRoundTrip(n, k);
  }

  /** The ranges of `u32` and `u64`. */
  lemma Widths()
    ensures Pow256(4) == 0x1_0000_0000
    ensures Pow256(8) == 0x1_0000_0000_0000_0000
  {
    assert Pow256(2) == 256 * Pow256(1) == 65536;
    assert Pow256(4) == 256 * Pow256(3);
    assert Pow256(6) == 256 * Pow256(5);
    assert Pow256(8) == 256 * Pow256(7);
  }

  // ---------- What the bytes are ----------

  lemma DivUnique(a: int, b: int, q: int, r: int)
    requires b > 0 && a == b * q + r && 0 <= r < b
    ensures a / b == q
  {
    var d := a / b - q;
    assert b * (a / b) + a % b == b * q + r;
    assert b * d == b * (a / b) - b * q;
    assert d >= 1 ==> b * d >= b;
    assert d <= -1 ==> b * d <= -b;
  }

  lemma DivTwice(n: nat, b: nat)
    requires b > 0
    ensures n / (256 * b) == n / 256 / b
  {
    var q, r, low := n / 256 / b, n / 256 % b, n % 256;
    MulAssociates(256, b, q);
    DivUnique(n, 256 * b, q, 256 * r + low);
  }

  lemma MulAssociates(a: int, b: int, c: int)
    ensures a * b * c == a * (b * c)
  {
  }

  /** Byte `i` is the `i`-th digit to base 256, counted from the low end. */
  lemma {:induction false} LittleEndianByte(n: nat, k: nat, i: nat)
    requires i < k
    ensures LittleEndian(n, k)[i] == n / Pow256(i) % 256
    decreases k
  {
    if i > 0 {
      LittleEndianByte(n / 256, k - 1, i - 1);
      DivTwice(n, Pow256(i - 1));
    }
  }

  lemma {:induction false} ReversedAt(bytes: seq<byte>, i: nat)
    requires i < |bytes|
    ensures Reversed(bytes)[i] == bytes[|bytes| - 1 - i]
  {
    if i < |bytes| - 1 {
      ReversedAt(bytes[1..], i);
    }
  }

  /** In the big-endian form the digits come from the high end. */
  lemma BigEndianByte(n: nat, k: nat, i: nat)
    requires i < k
    ensures BigEndian(n, k)[i] == n / Pow256(k - 1 - i) % 256
  {
    ReversedAt(LittleEndian(n, k), i);
    LittleEndianByte(n, k, k - 1 - i);
  }

  /** Every byte string is the encoding of the number it decodes to. */
  lemma {:induction false} LittleEndianOnto(bytes: seq<byte>)
    ensures FromLittleEndian(bytes) < Pow256(|bytes|)
    ensures LittleEndian(FromLittleEndian(bytes), |bytes|) == bytes
  {
    if bytes != [] {
      LittleEndianOnto(bytes[1..]);
      var n := FromLittleEndian(bytes[1..]);
      DivUnique(bytes[0] + 256 * n, 256, n, bytes[0]);
      assert bytes == [bytes[0]] + bytes[1..];
    }
  }

  lemma BigEndianOnto(bytes: seq<byte>)
    ensures FromBigEndian(bytes) < Pow256(|bytes|)
    ensures BigEndian(FromBigEndian(bytes), |bytes|) == bytes
  {
    LittleEndianOnto(Reversed(bytes));
    ReversedTwice(bytes);
  }
}

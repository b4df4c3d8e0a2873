/** Power-of-two padding of backup bundles. */
module BackupPadding {
  import opened Wrappers
  import opened Bytes

  const MIN_PADDED_LEN: nat := 4096
  const LEN_PREFIX_SIZE: nat := 8

  datatype UnpadError = ShorterThanPrefix | PrefixExceedsBuffer

  function Pow2(k: nat): (p: nat)
    ensures p >= 1
  {
    if k == 0 then 1 else 2 * Pow2(k - 1)
  }

  /** Doubles `Pow2(k)` until it reaches `n`. */
  function NextPowerOfTwoFrom(k: nat, n: nat): nat
    decreases n - Pow2(k)
  {
    if Pow2(k) >= n then Pow2(k) else assert Pow2(k + 1) == 2 * Pow2(k); NextPowerOfTwoFrom(k + 1, n)
  }

  function NextPowerOfTwo(n: nat): nat {
    NextPowerOfTwoFrom(0, n)
  }

  function Bucket(len: nat): nat {
    var p := NextPowerOfTwo(len + LEN_PREFIX_SIZE);
    if p < MIN_PADDED_LEN then MIN_PADDED_LEN else p
  }

  function Padded(data: seq<byte>): seq<byte>
    requires |data| + LEN_PREFIX_SIZE <= Bucket(|data|)
  {
    BigEndian(|data|, LEN_PREFIX_SIZE) + data + seq(Bucket(|data|) - LEN_PREFIX_SIZE - |data|, _ => 0)
  }

  function Unpadded(padded: seq<byte>): Result<seq<byte>, UnpadError> {
    if |padded| < LEN_PREFIX_SIZE then Failure(ShorterThanPrefix)
    else
      var declared := FromBigEndian(padded[..LEN_PREFIX_SIZE]);
      var end := LEN_PREFIX_SIZE + declared;
      if end > |padded| then Failure(PrefixExceedsBuffer)
      else Success(padded[LEN_PREFIX_SIZE..end])
  }

  // ---------- The bucket ----------

  lemma {:induction false} Pow2Monotone(j: nat, k: nat)
    requires j <= k
    ensures Pow2(j) <= Pow2(k)
    decreases k
  {
    if j < k {
      Pow2Monotone(j, k - 1);
    }
  }

  lemma {:induction false} NextPowerOfTwoFromIsLeast(k: nat, n: nat, j: nat)
    requires k == 0 || Pow2(k) < 2 * n
    ensures n <= NextPowerOfTwoFrom(k, n)
    ensures NextPowerOfTwoFrom(k, n) == 1 || NextPowerOfTwoFrom(k, n) < 2 * n
    ensures exists i: nat :: NextPowerOfTwoFrom(k, n) == Pow2(i)
    ensures k <= j && n <= Pow2(j) ==> NextPowerOfTwoFrom(k, n) <= Pow2(j)
    decreases n - Pow2(k)
  {
    if Pow2(k) >= n {
      if k <= j {
        Pow2Monotone(k, j);
      }
    } else {
      assert Pow2(k + 1) == 2 * Pow2(k);
      NextPowerOfTwoFromIsLeast(k + 1, n, j);
      assert k == j ==> Pow2(j) < n;
    }
  }

  /**
   The padded length is the least power of two that holds the prefix and the data and is no less than
   4096; above that floor it is less than twice what is needed.
   */
  lemma BucketIsLeast(len: nat, j: nat)
    ensures exists i: nat :: Bucket(len) == Pow2(i)
    ensures len + LEN_PREFIX_SIZE <= Bucket(len) && MIN_PADDED_LEN <= Bucket(len)
    ensures len + LEN_PREFIX_SIZE <= Pow2(j) && MIN_PADDED_LEN <= Pow2(j) ==> Bucket(len) <= Pow2(j)
    ensures Bucket(len) > MIN_PADDED_LEN ==> Bucket(len) < 2 * (len + LEN_PREFIX_SIZE)
  {
    NextPowerOfTwoFromIsLeast(0, len + LEN_PREFIX_SIZE, j);
    assert Pow2(12) == 4096 by {
      assert Pow2(4) == 4 * Pow2(2) == 16;
      assert Pow2(6) == 4 * Pow2(4) == 64;
      assert Pow2(8) == 4 * Pow2(6) == 256;
      assert Pow2(10) == 4 * Pow2(8) == 1024;
      assert Pow2(12) == 4 * Pow2(10);
    }
  }

  /** A longer bundle never gets a shorter padded length. */
  lemma BucketIsMonotone(a: nat, b: nat)
    requires a <= b
    ensures Bucket(a) <= Bucket(b)
  {
    BucketIsLeast(b, 0);
    var i: nat :| Bucket(b) == Pow2(i);
    BucketIsLeast(a, i);
  }

  // ---------- Round trip ----------

  /** Fills the buffer piece by piece. The padded length must be representable, as for any Rust vector. */
  method Pad(data: seq<byte>) returns (out: seq<byte>)
    requires |data| + LEN_PREFIX_SIZE <= 0x8000_0000_0000_0000
    ensures |out| == Bucket(|data|)
    ensures Unpadded(out) == Success(data)
  {
    BackupPaddingRoundTrip(data);
    out := BigEndian(|data|, LEN_PREFIX_SIZE);
    out := out + data;
    out := out + seq(Bucket(|data|) - |out|, _ => 0);
    assert out == Padded(data);
  }

  lemma BackupPaddingRoundTrip(data: seq<byte>)
    requires |data| < 0x1_0000_0000_0000_0000
    ensures |data| + LEN_PREFIX_SIZE <= Bucket(|data|)
    ensures |Padded(data)| == Bucket(|data|)
    ensures Unpadded(Padded(data)) == Success(data)
  {
    BucketIsLeast(|data|, 0);
    Widths();
    BigEndianRoundTrip(|data|, LEN_PREFIX_SIZE);
    var out := Padded(data);
    assert out[..LEN_PREFIX_SIZE] == BigEndian(|data|, LEN_PREFIX_SIZE);
    assert out[LEN_PREFIX_SIZE..LEN_PREFIX_SIZE + |data|] == data;
  }

  /** The padded form: the length as eight big-endian bytes, the data, and zeros to the end of the bucket. */
  lemma PaddedLayout(data: seq<byte>, i: nat)
    requires |data| < 0x1_0000_0000_0000_0000
    ensures |data| + LEN_PREFIX_SIZE <= Bucket(|data|)
    ensures i < |Padded(data)| ==>
      Padded(data)[i] == if i < 8 then |data| / Pow256(7 - i) % 256
                         else if i < 8 + |data| then data[i - 8] else 0
  {
    BackupPaddingRoundTrip(data);
    if i < 8 {
      BigEndianByte(|data|, LEN_PREFIX_SIZE, i);
    }
  }

  /** Unpadding succeeds exactly on buffers that start with the length of the data and the data itself. */
  lemma UnpaddingIsExact(padded: seq<byte>, data: seq<byte>)
    ensures Unpadded(padded) == Success(data)
       <==> && |data| < 0x1_0000_0000_0000_0000 && LEN_PREFIX_SIZE + |data| <= |padded|
            && padded[..LEN_PREFIX_SIZE] == BigEndian(|data|, LEN_PREFIX_SIZE)
            && padded[LEN_PREFIX_SIZE..LEN_PREFIX_SIZE + |data|] == data
    ensures Unpadded(padded) == Failure(ShorterThanPrefix) <==> |padded| < LEN_PREFIX_SIZE
  {
    Widths();
    if LEN_PREFIX_SIZE <= |padded| {
      BigEndianOnto(padded[..LEN_PREFIX_SIZE]);
      if |data| < 0x1_0000_0000_0000_0000 {
        BigEndianRoundTrip(|data|, LEN_PREFIX_SIZE);
      }
    }
  }
}

/** Fixed-size padding buckets for serialized envelopes. */
module EnvelopePadding {
  import opened Wrappers
  import opened Bytes

  const BUCKETS: seq<nat> := [256, 1024, 4096]
  const LEN_PREFIX_SIZE: nat := 4

  datatype PaddingError =
    | TooLargeToPad(len: nat, max: nat)
    | PaddedBufferTooShort
    | PaddedLengthInvalid(declared: nat, actual: nat)

  function Zeros(k: nat): (zeros: seq<byte>)
    ensures |zeros| == k
  {
    seq(k, _ => 0)
  }

  /** The first bucket that holds `needed` bytes. */
  function FirstFit(buckets: seq<nat>, needed: nat): (fit: Option<nat>)
    ensures fit.Some? ==> fit.value in buckets && needed <= fit.value
    ensures fit.None? ==> forall i :: 0 <= i < |buckets| ==> buckets[i] < needed
  {
    if buckets == [] then None
    else if buckets[0] >= needed then Some(buckets[0])
    else FirstFit(buckets[1..], needed)
  }

  function Padded(data: seq<byte>): Result<seq<byte>, PaddingError> {
    match FirstFit(BUCKETS, |data| + LEN_PREFIX_SIZE)
    case None => Failure(TooLargeToPad(|data|, BUCKETS[|BUCKETS| - 1] - LEN_PREFIX_SIZE))
    case Some(bucket) =>
      Success(BigEndian(|data|, LEN_PREFIX_SIZE) + data + Zeros(bucket - LEN_PREFIX_SIZE - |data|))
  }

  function Unpadded(padded: seq<byte>): Result<seq<byte>, PaddingError> {
    if |padded| < LEN_PREFIX_SIZE then Failure(PaddedBufferTooShort)
    else
      var declared := FromBigEndian(padded[..LEN_PREFIX_SIZE]);
      var end := LEN_PREFIX_SIZE + declared;
      if end > |padded| then Failure(PaddedLengthInvalid(declared, |padded|))
      else Success(padded[LEN_PREFIX_SIZE..end])
  }

  /** Fills the buffer piece by piece. */
  method Pad(data: seq<byte>) returns (r: Result<seq<byte>, PaddingError>)
    ensures r == Padded(data)
    ensures r.Success? <==> |data| <= 4092
    ensures r.Success? ==> Unpadded(r.value) == Success(data)
  {
    PaddingRoundTrip(data);
    var fit := FirstFit(BUCKETS, |data| + LEN_PREFIX_SIZE);
    if fit.None? {
      return Failure(TooLargeToPad(|data|, BUCKETS[|BUCKETS| - 1] - LEN_PREFIX_SIZE));
    }
    var out := BigEndian(|data|, LEN_PREFIX_SIZE);
    out := out + data;
    out := out + Zeros(fit.value - |out|);
    return Success(out);
  }

  /**
   Data fits exactly up to 4092 bytes; it is padded to the smallest bucket that holds it and its prefix,
   and unpadding recovers it.
   */
  lemma PaddingRoundTrip(data: seq<byte>)
    ensures Padded(data).Success? <==> |data| <= 4092
    ensures Padded(data).Success? ==>
      && Unpadded(Padded(data).value) == Success(data)
      && |Padded(data).value| in BUCKETS
      && |Padded(data).value| == (if |data| <= 252 then 256 else if |data| <= 1020 then 1024 else 4096)
      && forall b :: b in BUCKETS && |data| + LEN_PREFIX_SIZE <= b ==> |Padded(data).value| <= b
  {
    assert BUCKETS[0] == 256 && BUCKETS[1] == 1024 && BUCKETS[2] == 4096;
    assert BUCKETS[1..][1..] == [4096] && BUCKETS[1..] == [1024, 4096] && [4096][1..] == [];
    assert FirstFit([4096], |data| + 4) == if |data| + 4 <= 4096 then Some(4096) else None;
    assert FirstFit([1024, 4096], |data| + 4)
      == if |data| + 4 <= 1024 then Some(1024) else FirstFit([4096], |data| + 4);
    if |data| <= 4092 {
      Widths();
      BigEndianRoundTrip(|data|, LEN_PREFIX_SIZE);
      var out := Padded(data).value;
      assert out[..LEN_PREFIX_SIZE] == BigEndian(|data|, LEN_PREFIX_SIZE);
      assert out[LEN_PREFIX_SIZE..LEN_PREFIX_SIZE + |data|] == data;
    }
  }

  /** The padded form: the length as four big-endian bytes, the data, and zeros to the end of the bucket. */
  lemma PaddedLayout(data: seq<byte>, i: nat)
    requires |data| <= 4092
    ensures Padded(data).Success?
    ensures i < |Padded(data).value| ==>
      Padded(data).value[i] == if i < 4 then |data| / Pow256(3 - i) % 256
                               else if i < 4 + |data| then data[i - 4] else 0
  {
    PaddingRoundTrip(data);
    if i < 4 {
      BigEndianByte(|data|, LEN_PREFIX_SIZE, i);
    }
  }

  /**
   Unpadding succeeds exactly on buffers that start with the length of the data, as four big-endian bytes, and
   the data itself; what follows is ignored.
   */
  lemma UnpaddingIsExact(padded: seq<byte>, data: seq<byte>)
    ensures Unpadded(padded) == Success(data)
       <==> && |data| < 0x1_0000_0000 && LEN_PREFIX_SIZE + |data| <= |padded|
            && padded[..LEN_PREFIX_SIZE] == BigEndian(|data|, LEN_PREFIX_SIZE)
            && padded[LEN_PREFIX_SIZE..LEN_PREFIX_SIZE + |data|] == data
    ensures Unpadded(padded) == Failure(PaddedBufferTooShort) <==> |padded| < LEN_PREFIX_SIZE
  {
    Widths();
    if LEN_PREFIX_SIZE <= |padded| {
      BigEndianOnto(padded[..LEN_PREFIX_SIZE]);
      if |data| < 0x1_0000_0000 {
        BigEndianRoundTrip(|data|, LEN_PREFIX_SIZE);
      }
    }
  }
}

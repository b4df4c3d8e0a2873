/**
 The message envelope in bincode's fixed-width little-endian layout, then padded. Attachments are in the
 format although the client never sends any.
 */
module EnvelopeCodec {
  import opened Wrappers
  import opened Bytes
  import EnvelopePadding

  type u64 = n: int | 0 <= n < 0x1_0000_0000_0000_0000
  type Id16 = id: seq<byte> | |id| == 16 witness seq(16, _ => 0)

  datatype AttachmentRef = AttachmentRef(id: Id16, size: u64)

  datatype Envelope = Envelope(
    version: byte, olmType: byte, ciphertext: seq<byte>,
    n: u64, lamport: u64, sentAt: u64, msgId: Id16, attachments: seq<AttachmentRef>)

  // ---------- Serialization ----------

  function EncodeAttachment(a: AttachmentRef): (bytes: seq<byte>)
    ensures |bytes| == 24
  {
    a.id + LittleEndian(a.size, 8)
  }

  function EncodeAttachments(refs: seq<AttachmentRef>): (bytes: seq<byte>)
    ensures |bytes| == 24 * |refs|
  {
    if refs == [] then []
    else EncodeAttachment(refs[0]) + EncodeAttachments(refs[1..])
  }

  /** The part between ciphertext and attachments. */
  function EncodeFixed(e: Envelope): (bytes: seq<byte>)
    ensures |bytes| == 40
  {
    LittleEndian(e.n, 8) + (LittleEndian(e.lamport, 8) + (LittleEndian(e.sentAt, 8) + e.msgId))
  }

  /** Variable-length parts carry their element count. */
  function EncodeBlob(data: seq<byte>): (bytes: seq<byte>)
    ensures |bytes| == 8 + |data|
  {
    LittleEndian(|data|, 8) + data
  }

  function EncodeList(refs: seq<AttachmentRef>): (bytes: seq<byte>)
    ensures |bytes| == 8 + 24 * |refs|
  {
    LittleEndian(|refs|, 8) + EncodeAttachments(refs)
  }

  function Encode(e: Envelope): (bytes: seq<byte>)
    ensures |bytes| == 58 + |e.ciphertext| + 24 * |e.attachments|
  {
    [e.version, e.olmType] + (EncodeBlob(e.ciphertext) + (EncodeFixed(e) + EncodeList(e.attachments)))
  }

  // ---------- Deserialization ----------

  datatype Parsed<+T> = Parsed(value: T, rest: seq<byte>) | Malformed

  function TakeBytes(k: nat, bytes: seq<byte>): Parsed<seq<byte>> {
    if k <= |bytes| then Parsed(bytes[..k], bytes[k..]) else Malformed
  }

  function TakeU64(bytes: seq<byte>): (p: Parsed<u64>)
  {
    if 8 <= |bytes| then
      FromLittleEndianBound(bytes[..8]);
      Parsed(FromLittleEndian(bytes[..8]), bytes[8..])
    else Malformed
  }

  lemma FromLittleEndianBound(bytes: seq<byte>)
    requires |bytes| == 8
    ensures FromLittleEndian(bytes) < 0x1_0000_0000_0000_0000
  {
    LittleEndianOnto(bytes);
    Widths();
  }

  function DecodeAttachment(bytes: seq<byte>): Parsed<AttachmentRef> {
    match TakeBytes(16, bytes)
    case Malformed => Malformed
    case Parsed(id, r0) => match TakeU64(r0)
    case Malformed => Malformed
    case Parsed(size, rest) => Parsed(AttachmentRef(id, size), rest)
  }

  function DecodeAttachments(count: nat, bytes: seq<byte>): Parsed<seq<AttachmentRef>> {
    if count == 0 then Parsed([], bytes)
    else match DecodeAttachment(bytes)
      case Malformed => Malformed
      case Parsed(first, r0) => match DecodeAttachments(count - 1, r0)
      case Malformed => Malformed
      case Parsed(others, rest) => Parsed([first] + others, rest)
  }

  datatype Fixed = Fixed(n: u64, lamport: u64, sentAt: u64, msgId: Id16)

  function DecodeFixed(bytes: seq<byte>): Parsed<Fixed> {
    match TakeU64(bytes)
    case Malformed => Malformed
    case Parsed(n, r0) => match TakeU64(r0)
    case Malformed => Malformed
    case Parsed(lamport, r1) => match TakeU64(r1)
    case Malformed => Malformed
    case Parsed(sentAt, r2) => match TakeBytes(16, r2)
    case Malformed => Malformed
    case Parsed(msgId, rest) => Parsed(Fixed(n, lamport, sentAt, msgId), rest)
  }

  function DecodeBlob(bytes: seq<byte>): Parsed<seq<byte>> {
    match TakeU64(bytes)
    case Malformed => Malformed
    case Parsed(len, rest) => TakeBytes(len, rest)
  }

  function DecodeList(bytes: seq<byte>): Parsed<seq<AttachmentRef>> {
    match TakeU64(bytes)
    case Malformed => Malformed
    case Parsed(count, rest) => DecodeAttachments(count, rest)
  }

  /** Trailing bytes are allowed, as `bincode::deserialize` allows them. */
  function Decode(bytes: seq<byte>): Parsed<Envelope> {
    match TakeBytes(2, bytes)
    case Malformed => Malformed
    case Parsed(head, r0) => match DecodeBlob(r0)
    case Malformed => Malformed
    case Parsed(ciphertext, r1) => match DecodeFixed(r1)
    case Malformed => Malformed
    case Parsed(f, r2) => match DecodeList(r2)
    case Malformed => Malformed
    case Parsed(attachments, rest) =>
      Parsed(Envelope(head[0], head[1], ciphertext, f.n, f.lamport, f.sentAt, f.msgId, attachments), rest)
  }

  datatype CodecError = Padding(error: EnvelopePadding.PaddingError) | Serialization

  function ToPaddedBytes(e: Envelope): Result<seq<byte>, CodecError> {
    match EnvelopePadding.Padded(Encode(e))
    case Failure(error) => Failure(Padding(error))
    case Success(bytes) => Success(bytes)
  }

  function FromPaddedBytes(padded: seq<byte>): Result<Envelope, CodecError> {
    match EnvelopePadding.Unpadded(padded)
    case Failure(error) => Failure(Padding(error))
    case Success(bytes) =>
      match Decode(bytes)
      case Malformed => Failure(Serialization)
      case Parsed(e, _) => Success(e)
  }

  // ---------- Round trip ----------

  lemma TakeBytesRoundTrip(data: seq<byte>, rest: seq<byte>)
    ensures TakeBytes(|data|, data + rest) == Parsed(data, rest)
  {
    assert (data + rest)[..|data|] == data;
    assert (data + rest)[|data|..] == rest;
  }

  lemma TakeU64RoundTrip(n: u64, rest: seq<byte>)
    ensures TakeU64(LittleEndian(n, 8) + rest) == Parsed(n, rest)
  {
    Widths();
    LittleEndianRoundTrip(n, 8);
    TakeBytesRoundTrip(LittleEndian(n, 8), rest);
  }

  lemma AttachmentRoundTrip(a: AttachmentRef, rest: seq<byte>)
    ensures DecodeAttachment(EncodeAttachment(a) + rest) == Parsed(a, rest)
  {
    var s0 := LittleEndian(a.size, 8) + rest;
    assert EncodeAttachment(a) + rest == a.id + s0;
    TakeBytesRoundTrip(a.id, s0);
    TakeU64RoundTrip(a.size, rest);
  }

  lemma Associate(a: seq<byte>, b: seq<byte>, c: seq<byte>)
    ensures a + b + c == a + (b + c)
  {
  }

  lemma {:induction false} AttachmentsRoundTrip(refs: seq<AttachmentRef>, rest: seq<byte>)
    ensures DecodeAttachments(|refs|, EncodeAttachments(refs) + rest) == Parsed(refs, rest)
  {
    hide EncodeAttachment, DecodeAttachment;
    if refs == [] {
      assert EncodeAttachments(refs) + rest == rest;
    } else {
      var later := EncodeAttachments(refs[1..]) + rest;
      Associate(EncodeAttachment(refs[0]), EncodeAttachments(refs[1..]), rest);
      AttachmentRoundTrip(refs[0], later);
      AttachmentsRoundTrip(refs[1..], rest);
      assert [refs[0]] + refs[1..] == refs;
    }
  }

  lemma FixedRoundTrip(e: Envelope, rest: seq<byte>)
    ensures DecodeFixed(EncodeFixed(e) + rest) == Parsed(Fixed(e.n, e.lamport, e.sentAt, e.msgId), rest)
  {
    var s2 := e.msgId + rest;
    var s1 := LittleEndian(e.sentAt, 8) + s2;
    var s0 := LittleEndian(e.lamport, 8) + s1;
    assert EncodeFixed(e) + rest == LittleEndian(e.n, 8) + s0;
    TakeU64RoundTrip(e.n, s0);
    TakeU64RoundTrip(e.lamport, s1);
    TakeU64RoundTrip(e.sentAt, s2);
    TakeBytesRoundTrip(e.msgId, rest);
  }

  lemma BlobRoundTrip(data: seq<byte>, rest: seq<byte>)
    requires |data| < 0x1_0000_0000_0000_0000
    ensures DecodeBlob(EncodeBlob(data) + rest) == Parsed(data, rest)
  {
    assert EncodeBlob(data) + rest == LittleEndian(|data|, 8) + (data + rest);
    TakeU64RoundTrip(|data|, data + rest);
    TakeBytesRoundTrip(data, rest);
  }

  lemma ListRoundTrip(refs: seq<AttachmentRef>, rest: seq<byte>)
    requires |refs| < 0x1_0000_0000_0000_0000
    ensures DecodeList(EncodeList(refs) + rest) == Parsed(refs, rest)
  {
    var later := EncodeAttachments(refs) + rest;
    assert EncodeList(refs) + rest == LittleEndian(|refs|, 8) + later;
    TakeU64RoundTrip(|refs|, later);
    AttachmentsRoundTrip(refs, rest);
  }

  predicate Encodable(e: Envelope) {
    |e.ciphertext| < 0x1_0000_0000_0000_0000 && |e.attachments| < 0x1_0000_0000_0000_0000
  }

  lemma DecodeUndoesEncode(e: Envelope, rest: seq<byte>)
    requires Encodable(e)
    ensures Decode(Encode(e) + rest) == Parsed(e, rest)
  {
    hide EncodeList, EncodeFixed, EncodeBlob, DecodeList, DecodeFixed, DecodeBlob;
    var s2 := EncodeList(e.attachments) + rest;
    var s1 := EncodeFixed(e) + s2;
    var s0 := EncodeBlob(e.ciphertext) + s1;
    Reassociate([e.version, e.olmType], EncodeBlob(e.ciphertext), EncodeFixed(e), EncodeList(e.attachments), rest);
    TakeBytesRoundTrip([e.version, e.olmType], s0);
    BlobRoundTrip(e.ciphertext, s1);
    FixedRoundTrip(e, s2);
    ListRoundTrip(e.attachments, rest);
  }

  // ---------- The decoder accepts nothing but encodings ----------

  lemma TakeU64Exact(bytes: seq<byte>)
    requires TakeU64(bytes).Parsed?
    ensures bytes == LittleEndian(TakeU64(bytes).value, 8) + TakeU64(bytes).rest
  {
    LittleEndianOnto(bytes[..8]);
    assert bytes == bytes[..8] + bytes[8..];
  }

  lemma TakeBytesExact(k: nat, bytes: seq<byte>)
    requires TakeBytes(k, bytes).Parsed?
    ensures bytes == TakeBytes(k, bytes).value + TakeBytes(k, bytes).rest && |TakeBytes(k, bytes).value| == k
  {
    assert bytes == bytes[..k] + bytes[k..];
  }

  lemma BlobExact(bytes: seq<byte>)
    requires DecodeBlob(bytes).Parsed?
    ensures bytes == EncodeBlob(DecodeBlob(bytes).value) + DecodeBlob(bytes).rest
    ensures |DecodeBlob(bytes).value| < 0x1_0000_0000_0000_0000
  {
    var len := TakeU64(bytes);
    TakeU64Exact(bytes);
    TakeBytesExact(len.value, len.rest);
  }

  lemma FixedExact(bytes: seq<byte>, e: Envelope)
    requires DecodeFixed(bytes).Parsed?
    requires DecodeFixed(bytes).value == Fixed(e.n, e.lamport, e.sentAt, e.msgId)
    ensures bytes == EncodeFixed(e) + DecodeFixed(bytes).rest
  {
    var n := TakeU64(bytes);
    var lamport := TakeU64(n.rest);
    var sentAt := TakeU64(lamport.rest);
    TakeU64Exact(bytes);
    TakeU64Exact(n.rest);
    TakeU64Exact(lamport.rest);
    TakeBytesExact(16, sentAt.rest);
    var rest := DecodeFixed(bytes).rest;
    hide LittleEndian, TakeU64, TakeBytes;
    assert sentAt.rest == e.msgId + rest;
    assert lamport.rest == LittleEndian(e.sentAt, 8) + e.msgId + rest;
    assert n.rest == LittleEndian(e.lamport, 8) + (LittleEndian(e.sentAt, 8) + e.msgId) + rest;
  }

  lemma AttachmentExact(bytes: seq<byte>)
    requires DecodeAttachment(bytes).Parsed?
    ensures bytes == EncodeAttachment(DecodeAttachment(bytes).value) + DecodeAttachment(bytes).rest
  {
    var id := TakeBytes(16, bytes);
    TakeBytesExact(16, bytes);
    TakeU64Exact(id.rest);
  }

  lemma {:induction false} AttachmentsExact(count: nat, bytes: seq<byte>)
    requires DecodeAttachments(count, bytes).Parsed?
    ensures var p := DecodeAttachments(count, bytes);
      |p.value| == count && bytes == EncodeAttachments(p.value) + p.rest
  {
    if count == 0 {
      assert EncodeAttachments([]) + bytes == bytes;
    } else {
      var first := DecodeAttachment(bytes);
      AttachmentExact(bytes);
      AttachmentsExact(count - 1, first.rest);
      var others := DecodeAttachments(count - 1, first.rest);
      assert ([first.value] + others.value)[1..] == others.value;
      hide EncodeAttachment, DecodeAttachment;
      assert bytes == EncodeAttachment(first.value) + (EncodeAttachments(others.value) + others.rest);
    }
  }

  lemma ListExact(bytes: seq<byte>)
    requires DecodeList(bytes).Parsed?
    ensures bytes == EncodeList(DecodeList(bytes).value) + DecodeList(bytes).rest
    ensures |DecodeList(bytes).value| < 0x1_0000_0000_0000_0000
  {
    var count := TakeU64(bytes);
    TakeU64Exact(bytes);
    AttachmentsExact(count.value, count.rest);
  }

  lemma DecodedIsEncoding(bytes: seq<byte>)
    requires Decode(bytes).Parsed?
    ensures Encodable(Decode(bytes).value)
    ensures bytes == Encode(Decode(bytes).value) + Decode(bytes).rest
  {
    hide EncodeBlob, EncodeFixed, EncodeList, DecodeBlob, DecodeFixed, DecodeList;
    var e, rest := Decode(bytes).value, Decode(bytes).rest;
    var head := TakeBytes(2, bytes);
    TakeBytesExact(2, bytes);
    var blob := DecodeBlob(head.rest);
    BlobExact(head.rest);
    var fixed := DecodeFixed(blob.rest);
    FixedExact(blob.rest, e);
    ListExact(fixed.rest);
    assert head.value == [e.version, e.olmType];
    Reassociate([e.version, e.olmType], EncodeBlob(e.ciphertext), EncodeFixed(e), EncodeList(e.attachments), rest);
  }

  lemma Reassociate(a: seq<byte>, b: seq<byte>, c: seq<byte>, d: seq<byte>, rest: seq<byte>)
    ensures a + (b + (c + (d + rest))) == a + (b + (c + d)) + rest
  {
  }

  /** The decoder reads exactly what the encoder writes: it accepts an envelope's encoding and nothing else as it. */
  lemma DecodesExactly(bytes: seq<byte>, e: Envelope, rest: seq<byte>)
    requires Encodable(e)
    ensures Decode(bytes) == Parsed(e, rest) <==> bytes == Encode(e) + rest
  {
    hide Decode, Encode;
    if Decode(bytes) == Parsed(e, rest) {
      DecodedIsEncoding(bytes);
    }
    if bytes == Encode(e) + rest {
      DecodeUndoesEncode(e, rest);
    }
  }

  /** A received buffer holds an envelope exactly when its declared part starts with that envelope's encoding. */
  lemma ReceivedExactly(padded: seq<byte>, e: Envelope)
    requires Encodable(e)
    ensures FromPaddedBytes(padded) == Success(e)
       <==> EnvelopePadding.Unpadded(padded).Success?
            && |Encode(e)| <= |EnvelopePadding.Unpadded(padded).value|
            && EnvelopePadding.Unpadded(padded).value[..|Encode(e)|] == Encode(e)
  {
    hide Decode, Encode, EnvelopePadding.Unpadded;
    if EnvelopePadding.Unpadded(padded).Success? {
      var bytes := EnvelopePadding.Unpadded(padded).value;
      if Decode(bytes).Parsed? {
        DecodesExactly(bytes, e, Decode(bytes).rest);
      }
      if |Encode(e)| <= |bytes| && bytes[..|Encode(e)|] == Encode(e) {
        assert bytes == Encode(e) + bytes[|Encode(e)|..];
        DecodesExactly(bytes, e, bytes[|Encode(e)|..]);
      }
    }
  }

  /** Where each field is: numbers as eight little-endian bytes, byte strings and lists after their length. */
  lemma EncodingLayout(e: Envelope)
    ensures var bytes, o := Encode(e), 10 + |e.ciphertext|;
      && bytes[0] == e.version && bytes[1] == e.olmType
      && bytes[2..10] == LittleEndian(|e.ciphertext|, 8) && bytes[10..o] == e.ciphertext
      && bytes[o..o + 8] == LittleEndian(e.n, 8)
      && bytes[o + 8..o + 16] == LittleEndian(e.lamport, 8)
      && bytes[o + 16..o + 24] == LittleEndian(e.sentAt, 8)
      && bytes[o + 24..o + 40] == e.msgId
      && bytes[o + 40..o + 48] == LittleEndian(|e.attachments|, 8)
      && bytes[o + 48..] == EncodeAttachments(e.attachments)
  {
    hide LittleEndian, EncodeAttachments;
  }

  /**
   An envelope encodes exactly when its variable parts fit 4034 bytes; then the result is the smallest
   bucket that fits and decodes back to the envelope.
   */
  lemma EnvelopeRoundTrip(e: Envelope)
    ensures ToPaddedBytes(e).Success? <==> |e.ciphertext| + 24 * |e.attachments| <= 4034
    ensures ToPaddedBytes(e).Success? ==>
      && FromPaddedBytes(ToPaddedBytes(e).value) == Success(e)
      && |ToPaddedBytes(e).value| in EnvelopePadding.BUCKETS
      && forall b :: b in EnvelopePadding.BUCKETS && 62 + |e.ciphertext| + 24 * |e.attachments| <= b ==>
           |ToPaddedBytes(e).value| <= b
  {
    EnvelopePadding.PaddingRoundTrip(Encode(e));
    if ToPaddedBytes(e).Success? {
      assert Encode(e) + [] == Encode(e);
      DecodeUndoesEncode(e, []);
    }
  }
}

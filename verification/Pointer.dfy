/**
 Signed mailbox-pointer updates: what is signed, when a received update is applied, and what a contact's
 record is after any history of deliveries.
 */
module Pointer {
  import opened Wrappers
  import opened Bytes
  import opened Crypto
  import opened Store
  import opened EnvelopeCodec

  /** A serialized address. Its length fits a machine word. */
  type Addr = a: seq<byte> | |a| < 0x1_0000_0000_0000_0000

  /** What the owner of a mailbox announces. */
  datatype Announcement = Announcement(addr: Option<Addr>, updatedAt: u64, seqNo: u64)

  /** An announcement as received, with whatever signature came along. */
  datatype Update = Update(news: Announcement, signature: Signature<seq<byte>>)

  // ---------- Signing ----------

  function EncodeAddr(addr: Option<Addr>): seq<byte> {
    match addr
    case None => [0]
    case Some(a) => [1] + EncodeBlob(a)
  }

  /** bincode's layout of the signed triple. */
  function SignedBytes(a: Announcement): seq<byte> {
    EncodeAddr(a.addr) + (LittleEndian(a.updatedAt, 8) + LittleEndian(a.seqNo, 8))
  }

  lemma DropFirst(b: byte, xs: seq<byte>, ys: seq<byte>)
    ensures ([b] + xs + ys)[0] == b && ([b] + xs + ys)[1..] == xs + ys
  {
  }

  lemma BlobInjective(x: Addr, xs: seq<byte>, y: Addr, ys: seq<byte>)
    requires EncodeBlob(x) + xs == EncodeBlob(y) + ys
    ensures x == y && xs == ys
  {
    BlobRoundTrip(x, xs);
    BlobRoundTrip(y, ys);
  }

  lemma AddrInjective(x: Option<Addr>, xs: seq<byte>, y: Option<Addr>, ys: seq<byte>)
    requires EncodeAddr(x) + xs == EncodeAddr(y) + ys
    ensures x == y && xs == ys
  {
    var bodyX, bodyY := if x.Some? then EncodeBlob(x.value) else [], if y.Some? then EncodeBlob(y.value) else [];
    var tx, ty: byte := if x.Some? then 1 else 0, if y.Some? then 1 else 0;
    assert EncodeAddr(x) == [tx] + bodyX && EncodeAddr(y) == [ty] + bodyY;
    DropFirst(tx, bodyX, xs);
    DropFirst(ty, bodyY, ys);
    if x.Some? {
      BlobInjective(x.value, xs, y.value, ys);
    } else {
      assert bodyX + xs == xs && bodyY + ys == ys;
    }
  }

  lemma NumberInjective(m: u64, ms: seq<byte>, n: u64, ns: seq<byte>)
    requires LittleEndian(m, 8) + ms == LittleEndian(n, 8) + ns
    ensures m == n && ms == ns
  {
    TakeU64RoundTrip(m, ms);
    TakeU64RoundTrip(n, ns);
  }

  /** Different announcements are signed over different bytes. */
  lemma SignedBytesInjective(a: Announcement, b: Announcement)
    requires SignedBytes(a) == SignedBytes(b)
    ensures a == b
  {
    var sa, sb := LittleEndian(a.seqNo, 8), LittleEndian(b.seqNo, 8);
    AddrInjective(a.addr, LittleEndian(a.updatedAt, 8) + sa, b.addr, LittleEndian(b.updatedAt, 8) + sb);
    NumberInjective(a.updatedAt, sa, b.updatedAt, sb);
    NumberInjective(a.seqNo, [], b.seqNo, []);
  }

  /** What is signed: the address, tagged and with its length if there is one, then time and sequence number. */
  lemma SignedLayout(a: Announcement)
    ensures var bytes := SignedBytes(a);
      var o := if a.addr.Some? then 9 + |a.addr.value| else 1;
      && |bytes| == o + 16 && bytes[0] == (if a.addr.Some? then 1 else 0)
      && (a.addr.Some? ==> bytes[1..9] == LittleEndian(|a.addr.value|, 8) && bytes[9..o] == a.addr.value)
      && bytes[o..o + 8] == LittleEndian(a.updatedAt, 8) && bytes[o + 8..] == LittleEndian(a.seqNo, 8)
  {
    hide LittleEndian;
  }

  function Sign(key: IdentityKey, a: Announcement): Update {
    Update(a, Signed(key, SignedBytes(a)))
  }

  predicate Authentic(key: IdentityKey, u: Update) {
    Verifies(key, SignedBytes(u.news), u.signature)
  }

  /** The test a receiver applies. The timestamp plays no part. */
  predicate IsValid(key: IdentityKey, currentSeq: nat, u: Update) {
    Authentic(key, u) && u.news.seqNo > currentSeq
  }

  function Applied(c: Contact, u: Update): Contact {
    if IsValid(c.identityKey, c.pointerSeq, u)
    then c.(serverAddr := u.news.addr, pointerUpdatedAt := u.news.updatedAt, pointerSeq := u.news.seqNo)
    else c
  }

  function AppliedAll(c: Contact, updates: seq<Update>): Contact
    decreases updates
  {
    if updates == [] then c else AppliedAll(Applied(c, updates[0]), updates[1..])
  }

  // ---------- Last writer wins ----------

  /** Nobody but the owner of `key` can sign with it: every such signature is over something they issued. */
  ghost predicate OnlyIssuedAreSigned(key: IdentityKey, issued: set<Announcement>, updates: seq<Update>) {
    forall i :: 0 <= i < |updates| && updates[i].signature.Signed? && updates[i].signature.key == key ==>
      exists a :: a in issued && updates[i].signature.content == SignedBytes(a)
  }

  ghost predicate DistinctSeqs(issued: set<Announcement>) {
    forall a, b :: a in issued && b in issued && a.seqNo == b.seqNo ==> a == b
  }

  /** `u` was delivered and really comes from the owner of `key`. */
  ghost predicate Delivered(key: IdentityKey, updates: seq<Update>, a: Announcement) {
    exists i :: 0 <= i < |updates| && updates[i].news == a && Authentic(key, updates[i])
  }

  /** An authentic update says what its signer issued, not something spliced onto an old signature. */
  lemma DeliveredWasIssued(key: IdentityKey, issued: set<Announcement>, updates: seq<Update>, a: Announcement)
    requires OnlyIssuedAreSigned(key, issued, updates) && Delivered(key, updates, a)
    ensures a in issued
  {
    var i :| 0 <= i < |updates| && updates[i].news == a && Authentic(key, updates[i]);
    var b :| b in issued && updates[i].signature.content == SignedBytes(b);
    SignedBytesInjective(a, b);
  }

  /** `c` records `a`. */
  predicate Records(c: Contact, a: Announcement) {
    c.serverAddr == a.addr && c.pointerUpdatedAt == a.updatedAt && c.pointerSeq == a.seqNo
  }

  /** `c'` is `c` but for the three pointer columns. */
  predicate SameButPointer(c: Contact, c': Contact) {
    c' == c.(serverAddr := c'.serverAddr, pointerUpdatedAt := c'.pointerUpdatedAt, pointerSeq := c'.pointerSeq)
  }

  lemma {:induction false} HighestSeqWins(c: Contact, updates: seq<Update>)
    ensures var c' := AppliedAll(c, updates);
      && SameButPointer(c, c')
      && c.pointerSeq <= c'.pointerSeq
      && (forall i :: 0 <= i < |updates| && Authentic(c.identityKey, updates[i]) ==>
            updates[i].news.seqNo <= c'.pointerSeq)
      && (c' == c
          || exists i :: 0 <= i < |updates| && Authentic(c.identityKey, updates[i]) && Records(c', updates[i].news))
    decreases updates
  {
    if updates != [] {
      var c1, rest := Applied(c, updates[0]), updates[1..];
      HighestSeqWins(c1, rest);
      var c' := AppliedAll(c, updates);
      forall i | 0 <= i < |updates| && Authentic(c.identityKey, updates[i])
        ensures updates[i].news.seqNo <= c'.pointerSeq
      {
        assert i > 0 ==> updates[i] == rest[i - 1];
      }
      if c' != c {
        if c' == c1 {
          assert Records(c', updates[0].news) && Authentic(c.identityKey, updates[0]);
        } else {
          var i :| 0 <= i < |rest| && Authentic(c1.identityKey, rest[i]) && Records(c', rest[i].news);
          assert updates[i + 1] == rest[i];
        }
      }
    }
  }

  /**
   Any list of updates, in any order, with repeats and forgeries: the record ends at the announcement of
   highest sequence number among those that were really issued and delivered, whatever their timestamps.
   */
  lemma LastWriterWins(c: Contact, issued: set<Announcement>, updates: seq<Update>, top: Announcement)
    requires OnlyIssuedAreSigned(c.identityKey, issued, updates) && DistinctSeqs(issued)
    requires Delivered(c.identityKey, updates, top) && c.pointerSeq < top.seqNo
    requires forall a :: Delivered(c.identityKey, updates, a) ==> a.seqNo <= top.seqNo
    ensures Records(AppliedAll(c, updates), top) && SameButPointer(c, AppliedAll(c, updates))
    ensures top in issued
  {
    HighestSeqWins(c, updates);
    var c' := AppliedAll(c, updates);
    DeliveredWasIssued(c.identityKey, issued, updates, top);
    var k :| 0 <= k < |updates| && updates[k].news == top && Authentic(c.identityKey, updates[k]);
    var i :| 0 <= i < |updates| && Authentic(c.identityKey, updates[i]) && Records(c', updates[i].news);
    assert Delivered(c.identityKey, updates, updates[i].news);
    DeliveredWasIssued(c.identityKey, issued, updates, updates[i].news);
  }

  /** With nothing newer delivered, the record does not move. */
  lemma NothingNewerChangesNothing(c: Contact, updates: seq<Update>)
    requires forall a :: Delivered(c.identityKey, updates, a) ==> a.seqNo <= c.pointerSeq
    ensures AppliedAll(c, updates) == c
  {
    HighestSeqWins(c, updates);
    var c' := AppliedAll(c, updates);
    if c' != c {
      var i :| 0 <= i < |updates| && Authentic(c.identityKey, updates[i]) && Records(c', updates[i].news);
      assert Delivered(c.identityKey, updates, updates[i].news);
      assert c'.pointerSeq == c.pointerSeq;
      AppliedStrictly(c, updates);
    }
  }

  lemma {:induction false} AppliedStrictly(c: Contact, updates: seq<Update>)
    ensures AppliedAll(c, updates) == c || c.pointerSeq < AppliedAll(c, updates).pointerSeq
    decreases updates
  {
    if updates != [] {
      AppliedStrictly(Applied(c, updates[0]), updates[1..]);
    }
  }

  /** Order and repetition do not matter: lists with the same authentic announcements end in the same record. */
  lemma DeliveryOrderIsIrrelevant(c: Contact, issued: set<Announcement>, xs: seq<Update>, ys: seq<Update>)
    requires DistinctSeqs(issued)
    requires OnlyIssuedAreSigned(c.identityKey, issued, xs) && OnlyIssuedAreSigned(c.identityKey, issued, ys)
    requires forall a :: Delivered(c.identityKey, xs, a) <==> Delivered(c.identityKey, ys, a)
    ensures AppliedAll(c, xs) == AppliedAll(c, ys)
  {
    var x := AppliedAll(c, xs);
    HighestSeqWins(c, xs);
    if x == c {
      forall a | Delivered(c.identityKey, ys, a) ensures a.seqNo <= c.pointerSeq {
        assert Delivered(c.identityKey, xs, a);
      }
      NothingNewerChangesNothing(c, ys);
    } else {
      AppliedStrictly(c, xs);
      var i :| 0 <= i < |xs| && Authentic(c.identityKey, xs[i]) && Records(x, xs[i].news);
      var top := xs[i].news;
      assert Delivered(c.identityKey, xs, top) && Delivered(c.identityKey, ys, top);
      forall a | Delivered(c.identityKey, ys, a) ensures a.seqNo <= top.seqNo {
        assert Delivered(c.identityKey, xs, a);
      }
      LastWriterWins(c, issued, ys, top);
    }
  }
}

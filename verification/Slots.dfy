/**
 Write slots between two paired devices: the owner registers a batch when adding the contact, the sender
 spends write numbers, and the owner's node checks them, whatever else reaches that node.
 */
module Slots {
  import opened Wrappers
  import opened Crypto
  import opened Pairing
  import Store
  import Mailbox
  import NodeHandler

  const SLOT_REPLENISH_BATCH: nat := 8

  /** The hashes `add_contact` registers. */
  function Batch(pairSecret: Secret, count: nat): set<Digest> {
    set n | 0 <= n < count :: SlotHash(pairSecret, n)
  }

  /** The registration loop of `add_contact`, one request after the other. */
  method RegisterSlots<B>(handler: NodeHandler.MailboxHandler<B>, pairSecret: Secret, now: int)
    requires Mailbox.Valid(handler.store.Contents())
    modifies handler.store, handler.queue
    ensures Mailbox.Valid(handler.store.Contents())
    ensures handler.Contents() == Registered(old(handler.Contents()), pairSecret)
  {
    ghost var before := handler.Contents();
    for n := 0 to SLOT_REPLENISH_BATCH
      invariant Mailbox.Valid(handler.store.Contents())
      invariant handler.Contents()
             == before.(mailbox := before.mailbox.(slots := before.mailbox.slots + Batch(pairSecret, n)))
    {
      assert Batch(pairSecret, n + 1) == Batch(pairSecret, n) + {SlotHash(pairSecret, n)};
      var response := handler.Handle(NodeHandler.RegisterSlot(handler.key, SlotHash(pairSecret, n)), now);
      assert response == NodeHandler.Ok;
    }
  }

  function Registered<B>(node: NodeHandler.Node<B>, pairSecret: Secret): NodeHandler.Node<B> {
    node.(mailbox := node.mailbox.(slots := node.mailbox.slots + Batch(pairSecret, SLOT_REPLENISH_BATCH)))
  }

  // ---------- Runs ----------

  /** A write as sent, with the number drawn for it. */
  datatype Numbered<+B> = Numbered(n: nat, blob: B)

  /** A write of this pairing handled by the owner's node: its number and the node's answer. */
  datatype Arrival = Arrival(n: nat, accepted: bool)

  /**
   The owner's node, the sender's database, the writes the sender has sent, and what reached the node, in
   the order in which it did.
   */
  datatype World<B> = World(
    node: NodeHandler.Node<B>, sender: Store.Database, sent: seq<Numbered<B>>, arrivals: seq<Arrival>)

  /** A write may arrive at any time after it was sent, in any order, more than once, or never. */
  datatype Event<B> =
    | Send(blob: B)
    | Arrive(k: nat, at: int)
    | Other(request: NodeHandler.Request<B>, at: int)
    | Elsewhere(db: Store.Database)

  /** A request that is not about this pairing: no other party knows its secret. */
  predicate Foreign<B>(pairSecret: Secret, request: NodeHandler.Request<B>) {
    match request
    case RegisterSlot(_, slotHash) => slotHash.preimage.Hkdf? ==> slotHash.preimage.root != pairSecret
    case Write(auth, _) => auth.Hkdf? ==> auth.root != pairSecret
    case _ => true
  }

  function NextN(db: Store.Database, contact: Store.ContactId): nat {
    match Store.FindContact(db, contact)
    case None => 0
    case Some(c) => c.nextWriteN
  }

  /** The number a write carries is the counter's value when it was sent; the counter advances at once. */
  function After<B>(pairSecret: Secret, contact: Store.ContactId, w: World<B>, e: Event<B>): World<B> {
    match e
    case Send(blob) =>
      w.(sender := Store.WithWrites(w.sender, contact, 1), sent := w.sent + [Numbered(NextN(w.sender, contact), blob)])
    case Arrive(k, at) =>
      if k >= |w.sent| then w
      else
        var auth := DeriveAuth(pairSecret, w.sent[k].n);
        var (node, response) := NodeHandler.Handled(w.node, NodeHandler.Write(auth, w.sent[k].blob), at);
        w.(node := node, arrivals := w.arrivals + [Arrival(w.sent[k].n, response == NodeHandler.Ok)])
    case Other(request, at) => w.(node := NodeHandler.Handled(w.node, request, at).0)
    case Elsewhere(db) => w.(sender := db)
  }

  /** Strangers do not know the secret, and the sender's other doings leave this contact's counter alone. */
  ghost predicate Enabled<B>(pairSecret: Secret, contact: Store.ContactId, w: World<B>, e: Event<B>) {
    match e
    case Other(request, _) => Foreign(pairSecret, request)
    case Elsewhere(db) =>
      Store.Valid(db) && 1 <= contact <= |db.contacts| && NextN(db, contact) == NextN(w.sender, contact)
    case _ => true
  }

  ghost predicate ValidRun<B>(pairSecret: Secret, contact: Store.ContactId, w: World<B>, events: seq<Event<B>>)
    decreases events
  {
    events != [] ==>
      && Enabled(pairSecret, contact, w, events[0])
      && ValidRun(pairSecret, contact, After(pairSecret, contact, w, events[0]), events[1..])
  }

  function Final<B>(pairSecret: Secret, contact: Store.ContactId, w: World<B>, events: seq<Event<B>>): World<B>
    decreases events
  {
    if events == [] then w else Final(pairSecret, contact, After(pairSecret, contact, w, events[0]), events[1..])
  }

  /** Write `n` is among the first `count` arrivals. */
  ghost predicate Arrived(arrivals: seq<Arrival>, count: nat, n: nat) {
    exists j :: 0 <= j < count && j < |arrivals| && arrivals[j].n == n
  }

  /** The slots of this pairing that are open are those of the batch whose write has not arrived. */
  ghost predicate Inv<B>(pairSecret: Secret, contact: Store.ContactId, w: World<B>) {
    && Store.Valid(w.sender) && 1 <= contact <= |w.sender.contacts|
    && NextN(w.sender, contact) == |w.sent|
    && (forall k :: 0 <= k < |w.sent| ==> w.sent[k].n == k)
    && (forall i :: 0 <= i < |w.arrivals| ==>
          && w.arrivals[i].n < |w.sent|
          && (w.arrivals[i].accepted
              <==> w.arrivals[i].n < SLOT_REPLENISH_BATCH && !Arrived(w.arrivals, i, w.arrivals[i].n)))
    && (forall n: nat :: SlotHash(pairSecret, n) in w.node.mailbox.slots
          <==> n < SLOT_REPLENISH_BATCH && !Arrived(w.arrivals, |w.arrivals|, n))
  }

  lemma ArrivedAppend(arrivals: seq<Arrival>, a: Arrival, count: nat, n: nat)
    requires count <= |arrivals|
    ensures Arrived(arrivals + [a], count, n) <==> Arrived(arrivals, count, n)
    ensures Arrived(arrivals + [a], |arrivals| + 1, n) <==> a.n == n || Arrived(arrivals, |arrivals|, n)
  {
    var more := arrivals + [a];
    assert more[|arrivals|] == a;
    assert forall j :: 0 <= j < |arrivals| ==> more[j] == arrivals[j];
  }

  lemma ArriveKeepsInv<B>(pairSecret: Secret, contact: Store.ContactId, w: World<B>, n: nat, at: int)
    requires Inv(pairSecret, contact, w) && n < |w.sent|
    ensures Inv(pairSecret, contact, After(pairSecret, contact, w, Arrive(n, at)))
  {
    var w' := After(pairSecret, contact, w, Arrive(n, at));
    var a := w'.arrivals[|w.arrivals|];
    assert SlotHash(pairSecret, n) in w.node.mailbox.slots
      <==> n < SLOT_REPLENISH_BATCH && !Arrived(w.arrivals, |w.arrivals|, n);
    hide Arrived;
    forall i | 0 <= i < |w'.arrivals|
      ensures w'.arrivals[i].accepted
        <==> w'.arrivals[i].n < SLOT_REPLENISH_BATCH && !Arrived(w'.arrivals, i, w'.arrivals[i].n)
    {
      ArrivedAppend(w.arrivals, a, i, w'.arrivals[i].n);
    }
    forall k: nat
      ensures SlotHash(pairSecret, k) in w'.node.mailbox.slots
        <==> k < SLOT_REPLENISH_BATCH && !Arrived(w'.arrivals, |w'.arrivals|, k)
    {
      ArrivedAppend(w.arrivals, a, 0, k);
      assert k != n ==> SlotHash(pairSecret, k) != SlotHash(pairSecret, n);
    }
  }

  lemma OtherKeepsInv<B>(
      pairSecret: Secret, contact: Store.ContactId, w: World<B>, request: NodeHandler.Request<B>, at: int)
    requires Inv(pairSecret, contact, w) && Foreign(pairSecret, request)
    ensures Inv(pairSecret, contact, After(pairSecret, contact, w, Other(request, at)))
  {
    var w' := After(pairSecret, contact, w, Other(request, at));
    forall n: nat
      ensures SlotHash(pairSecret, n) in w'.node.mailbox.slots <==> SlotHash(pairSecret, n) in w.node.mailbox.slots
    {
    }
  }

  lemma StepKeepsInv<B>(pairSecret: Secret, contact: Store.ContactId, w: World<B>, e: Event<B>)
    requires Inv(pairSecret, contact, w) && Enabled(pairSecret, contact, w, e)
    ensures Inv(pairSecret, contact, After(pairSecret, contact, w, e))
  {
    match e
    case Send(_) =>
    case Arrive(n, at) =>
      if n < |w.sent| {
        ArriveKeepsInv(pairSecret, contact, w, n, at);
      }
    case Other(request, at) => OtherKeepsInv(pairSecret, contact, w, request, at);
    case Elsewhere(_) =>
  }

  lemma {:induction false} RunKeepsInv<B>(
      pairSecret: Secret, contact: Store.ContactId, w: World<B>, events: seq<Event<B>>)
    requires Inv(pairSecret, contact, w) && ValidRun(pairSecret, contact, w, events)
    ensures Inv(pairSecret, contact, Final(pairSecret, contact, w, events))
    decreases events
  {
    if events != [] {
      StepKeepsInv(pairSecret, contact, w, events[0]);
      RunKeepsInv(pairSecret, contact, After(pairSecret, contact, w, events[0]), events[1..]);
    }
  }

  /**
   Owner and sender derive their secrets independently. After the owner registered its batch, the sender's
   writes are numbered 0, 1, 2, …. In whatever order they reach the node, however late and however often,
   and whoever else talks to the node: a write is accepted exactly when it arrives for the first time and
   its number is below the batch size.
   */
  lemma SlotAgreement<B>(
      ownerNonce: Nonce, senderNonce: Nonce, node: NodeHandler.Node<B>, sender: Store.Database,
      contact: Store.ContactId, events: seq<Event<B>>, i: nat)
    requires Store.Valid(sender) && 1 <= contact <= |sender.contacts| && NextN(sender, contact) == 0
    requires forall slot :: slot in node.mailbox.slots ==>
      slot.preimage.Hkdf? ==> slot.preimage.root != ComputePairSecret(ownerNonce, senderNonce)
    requires var registered := Registered(node, ComputePairSecret(ownerNonce, senderNonce));
      ValidRun(ComputePairSecret(senderNonce, ownerNonce), contact, World(registered, sender, [], []), events)
    ensures var registered := Registered(node, ComputePairSecret(ownerNonce, senderNonce));
      var w := Final(ComputePairSecret(senderNonce, ownerNonce), contact, World(registered, sender, [], []), events);
      && (forall k :: 0 <= k < |w.sent| ==> w.sent[k].n == k)
      && (i < |w.arrivals| ==>
            && w.arrivals[i].n < |w.sent|
            && (w.arrivals[i].accepted
                <==> w.arrivals[i].n < 8
                     && forall j :: 0 <= j < i ==> w.arrivals[j].n != w.arrivals[i].n))
  {
    PairSecretIsSymmetric(ownerNonce, senderNonce);
    var pairSecret := ComputePairSecret(senderNonce, ownerNonce);
    var start := World(Registered(node, pairSecret), sender, [], []);
    forall n: nat ensures SlotHash(pairSecret, n) in start.node.mailbox.slots <==> n < SLOT_REPLENISH_BATCH {
      assert SlotHash(pairSecret, n) !in node.mailbox.slots;
    }
    RunKeepsInv(pairSecret, contact, start, events);
  }
}

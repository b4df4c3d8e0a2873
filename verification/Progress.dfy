/**
 Progress: from every state a run of `Delivery` can reach, a chat message or a receipt that meets no obstacle
 gets through, by whichever of the three paths, and leaves exactly the right rows on both devices.
 */
module Progress {
  import opened Wrappers
  import opened Bytes
  import opened Crypto
  import opened Store
  import opened Client
  import opened Delivery
  import NodeHandler
  import Pairing
  import RetryQueue

  function Peer(w: World, d: DeviceId, contact: ContactId): Contact
    requires 1 <= contact <= |Db(w, d).contacts|
  {
    Db(w, d).contacts[contact - 1]
  }

  /** `d` can send to `contact` under the fresh id `m`, and that device knows `d` as its contact `j`. */
  ghost predicate CanSend(w: World, d: DeviceId, contact: ContactId, m: MsgId, j: ContactId) {
    && Inv(w) && m !in w.emitted
    && 1 <= contact <= |Db(w, d).contacts| && HasSession(Db(w, d), contact)
    && var s := Peer(w, d, contact).identityKey;
       1 <= j <= |Db(w, s).contacts| && Db(w, s).contacts[j - 1].identityKey == d
  }

  ghost predicate Sends(e: Event, d: DeviceId, contact: ContactId, payload: Payload, m: MsgId) {
    e.Begin? && e.d == d && e.contact == contact && e.payload == payload && e.m == m && e.sealing.Sealed?
  }

  /** The envelope of a send by `d` to `contact` in state `w`. */
  predicate IsEnvelope(w: World, d: DeviceId, contact: ContactId, env: Envelope, payload: Payload, m: MsgId, now: nat)
    requires 1 <= contact <= |Db(w, d).contacts|
  {
    && env.sender == d && env.recipient == Peer(w, d, contact).identityKey && env.payload == payload
    && env.msgId == m && env.lamport == Db(w, d).lamport + 1 && env.sentAt == now
  }

  // ---------- Sending and being handed the envelope ----------

  /** Sending emits the envelope and leaves the peer's database, all nodes and all rows as they were. */
  lemma SendingBegins(w: World, d: DeviceId, contact: ContactId, payload: Payload, m: MsgId, j: ContactId, e: Event)
    requires CanSend(w, d, contact, m, j) && Sends(e, d, contact, payload, m)
    ensures var c, w' := Peer(w, d, contact), After(w, e);
      && c.identityKey != d && Db(w', c.identityKey) == Db(w, c.identityKey) && w'.nodes == w.nodes
      && Db(w', d).account == Db(w, d).account && Db(w', d).messages == Db(w, d).messages
      && (c.serverAddr.Some? && c.pairSecret.Some? ==>
            && IsCall(w, w', d, contact, payload, m, e.now)
            && w'.calls[m].stage == ToServer(e.owner, Pairing.DeriveAuth(c.pairSecret.value, c.nextWriteN)))
      && (c.serverAddr.None? && c.transportKey.Some? ==>
            IsCall(w, w', d, contact, payload, m, e.now) && w'.calls[m].stage == Dialing(c.transportKey.value))
  {
    var db := Db(w, d);
    DbIsOk(w, d);
    assert Honest(d, Peer(w, d, contact));
    hide Inv, Prepared, Valid, After;
    BeginStep(w, e);
    var p := Prepared(db, d, contact, payload, m, e.now, e.sealing);
    ReadyExactlyWhen(db, d, contact, payload, m, e.now, e.sealing);
    PreparationCases(db, d, contact, payload, m, e.now, e.sealing);
    if p.Ready? {
      RouteIsRight(db, d, contact, payload, m, e.now, e.sealing);
    }
  }

  predicate IsCall(w: World, w': World, d: DeviceId, contact: ContactId, payload: Payload, m: MsgId, now: nat)
    requires 1 <= contact <= |Db(w, d).contacts|
  {
    && m in w'.calls && w'.calls[m].device == d && w'.calls[m].contact == contact
    && m in w'.emitted && IsEnvelope(w, d, contact, w'.emitted[m], payload, m, now)
  }

  /** A device's contact is found by its session key where it stands. */
  lemma FoundByCurve(w: World, d: DeviceId, contact: ContactId)
    requires Inv(w) && 1 <= contact <= |Db(w, d).contacts|
    ensures IndexOfCurve(Db(w, d).contacts, Db(w, d).contacts[contact - 1].identityKey) == contact - 1
    ensures Db(w, d).contacts[contact - 1].id == contact
  {
    DbIsOk(w, d);
    var contacts := Db(w, d).contacts;
    var i := IndexOfCurve(contacts, contacts[contact - 1].identityKey);
    assert Honest(d, contacts[contact - 1]);
    assert i < |contacts| ==> Honest(d, contacts[i]);
  }

  /** In any later state where the peer's database is as it was, the peer opens the envelope as from `d`. */
  lemma PeerOpens(
      w: World, w': World, d: DeviceId, contact: ContactId, m: MsgId, j: ContactId, env: Envelope, opening: Opening)
    requires CanSend(w, d, contact, m, j) && opening.Opens?
    requires env.sender == d && env.recipient == Peer(w, d, contact).identityKey
    requires Db(w', env.recipient) == Db(w, env.recipient)
    ensures var s := env.recipient;
      var (db, a) := Handled(Opened(Db(w, s), j, opening), j, env);
      var (w2, ok) := Receive(w', s, env, opening);
      && w2 == w'.(dbs := w'.dbs[s := db], dues := w2.dues) && ok == Acknowledges(a)
      && w'.dues <= w2.dues && (a.ChatStored? ==> Due(s, j, env.msgId) in w2.dues)
  {
    FoundByCurve(w, env.recipient, j);
    hide Inv, Handled, Opened;
  }

  // ---------- Chats ----------

  /** A fresh id is in no row. */
  lemma FreshIdIsNowhere(w: World, m: MsgId, d: DeviceId)
    requires Inv(w) && m !in w.emitted
    ensures forall row :: row in Db(w, d).messages ==> row.message.msgId != m
  {
    assert DbOk(w, d);
    forall row | row in Db(w, d).messages ensures row.message.msgId != m {
      var k :| 0 <= k < |Db(w, d).messages| && Db(w, d).messages[k] == row;
      assert RowOk(w, d, Db(w, d).messages[k]);
    }
  }

  /** The rows of the recipient have gained one, for this chat. */
  ghost predicate GainedChat(db: Database, db': Database, j: ContactId, m: MsgId, now: nat, text: seq<byte>) {
    db'.messages == db.messages + [Row(j, Message(m, Incoming, db'.lamport, now, text, None))]
  }

  /** The rows of the sender have gained one, with the value of the send. */
  ghost predicate KeptChat(
      db: Database, db': Database, contact: ContactId, m: MsgId, now: nat, text: seq<byte>, status: Status) {
    db'.messages == db.messages + [Row(contact, Message(m, Outgoing, db.lamport + 1, now, text, Some(status)))]
  }

  /** Both devices hold the chat, the sender shows `status`, and a receipt is due. */
  ghost predicate ChatIsThrough(
      w: World, w': World, d: DeviceId, contact: ContactId, j: ContactId, m: MsgId, now: nat, text: seq<byte>,
      status: Status)
    requires 1 <= contact <= |Db(w, d).contacts|
  {
    var s := Peer(w, d, contact).identityKey;
    && KeptChat(Db(w, d), Db(w', d), contact, m, now, text, status)
    && GainedChat(Db(w, s), Db(w', s), j, m, now, text)
    && Due(s, j, m) in w'.dues
  }

  lemma ChatArrives(
      w: World, w': World, d: DeviceId, contact: ContactId, m: MsgId, j: ContactId, now: nat, text: seq<byte>,
      env: Envelope, opening: Opening)
    requires CanSend(w, d, contact, m, j) && opening.Opens?
    requires IsEnvelope(w, d, contact, env, Chat(text), m, now)
    requires Db(w', env.recipient) == Db(w, env.recipient)
    ensures var s := env.recipient;
      var (w2, ok) := Receive(w', s, env, opening);
      && ok && GainedChat(Db(w, s), Db(w2, s), j, m, now, text) && Due(s, j, m) in w2.dues
      && w2 == w'.(dbs := w2.dbs, dues := w2.dues)
      && (forall x :: x != s ==> Db(w2, x) == Db(w', x))
  {
    var s := env.recipient;
    PeerOpens(w, w', d, contact, m, j, env, opening);
    FreshIdIsNowhere(w, m, s);
    OpeningSaves(Db(w, s), j, opening);
    ChatIsStored(Opened(Db(w, s), j, opening), j, env);
    hide Inv, Receive, Handled, Opened;
    var db := Handled(Opened(Db(w, s), j, opening), j, env).0;
    var rows := Db(w, s).messages;
    assert db.messages == rows + [db.messages[|rows|]];
  }

  lemma ReturnKeepsChat(w: World, m: MsgId, text: seq<byte>)
    requires m in w.calls && w.calls[m].stage.Done? && m in w.emitted && w.emitted[m].payload == Chat(text)
    requires forall row :: row in Db(w, w.calls[m].device).messages ==> row.message.msgId != m
    ensures var w', call, env := Returned(w, m), w.calls[m], w.emitted[m];
      && Db(w', call.device).messages
         == Db(w, call.device).messages
            + [Row(call.contact, Message(m, Outgoing, env.lamport, env.sentAt, text, Some(call.stage.status)))]
      && (forall x :: x != call.device ==> Db(w', x) == Db(w, x))
      && w'.dues == w.dues && w'.nodes == w.nodes && w'.emitted == w.emitted
  {
  }

  // ---------- The three paths, up to the moment the envelope is handed over ----------

  predicate IsDirect(c: Contact) {
    c.serverAddr.None? && c.transportKey == Some(c.identityKey)
  }

  lemma DialStep(w: World, m: MsgId, opening: Opening)
    requires m in w.calls && m in w.emitted && w.calls[m].stage.Dialing?
    ensures var peer := w.calls[m].stage.peer;
      var (w', ok) := Receive(w, peer, w.emitted[m], opening);
      m in w'.calls && After(w, DialReaches(m, opening)) == WithStage(w', m, DialAnswered(peer, ok))
  {
    hide Attributed;
  }

  lemma WriteStep(w: World, m: MsgId, at: int)
    requires m in w.calls && m in w.emitted && w.calls[m].stage.ToServer?
    requires Sha256(w.calls[m].stage.auth) in NodeOf(w, w.calls[m].stage.owner).mailbox.slots
    ensures var w', owner := After(w, WriteReaches(m, at)), w.calls[m].stage.owner;
      && w' == w.(nodes := w'.nodes, calls := w.calls[m := w.calls[m].(stage := ServerAnswered(true))])
      && NodeOf(w', owner).key == NodeOf(w, owner).key
      && |NodeOf(w', owner).mailbox.blobs| == |NodeOf(w, owner).mailbox.blobs| + 1
      && NodeOf(w', owner).mailbox.blobs[|NodeOf(w, owner).mailbox.blobs|].data == w.emitted[m]
  {
  }

  lemma SyncStep(w: World, d: DeviceId, k: nat, opening: Opening)
    requires NodeOf(w, d).key == d && k < |NodeOf(w, d).mailbox.blobs|
    ensures After(w, SyncReceives(d, k, opening)) == Receive(w, d, NodeOf(w, d).mailbox.blobs[k].data, opening).0
  {
    hide Attributed;
  }

  lemma FallBackStep(w: World, m: MsgId)
    requires m in w.calls && w.calls[m].stage.Dialing?
    requires AccountOf(Db(w, w.calls[m].device)).ownServerAddr.Some?
    ensures After(w, NoAnswer(m)) == WithStage(w, m, Scheduling(w.calls[m].stage.peer))
  {
  }

  lemma ScheduleStep(w: World, m: MsgId, at: int)
    requires m in w.calls && m in w.emitted && w.calls[m].stage.Scheduling?
    requires NodeOf(w, w.calls[m].device).key == w.calls[m].device
    ensures var w', d := After(w, ScheduleReaches(m, at)), w.calls[m].device;
      && w' == w.(nodes := w'.nodes, calls := w.calls[m := w.calls[m].(stage := ScheduleAnswered(true))])
      && m in NodeOf(w', d).queue.entries
      && NodeOf(w', d).queue.entries[m] == RetryQueue.Entry(w.calls[m].stage.peer, w.emitted[m], 0, at)
  {
  }

  lemma NodeDialStep(w: World, owner: DeviceId, m: MsgId, opening: Opening)
    requires m in NodeOf(w, owner).queue.entries
    ensures var entry := NodeOf(w, owner).queue.entries[m];
      var w1, w2 := Receive(w, entry.recipient, entry.envelope, opening).0, After(w, NodeDial(owner, m, opening));
      w2 == w1.(acks := w2.acks)
  {
    hide Attributed;
  }

  lemma AnswerStep(w: World, m: MsgId)
    requires m in w.calls
    ensures var stage, w' := w.calls[m].stage, After(w, AnswerArrives(m));
      && (stage == ServerAnswered(true) ==> w' == WithStage(w, m, Done(Sent)))
      && (stage == ScheduleAnswered(true) ==> w' == WithStage(w, m, Done(Sent)))
      && (stage.DialAnswered? && stage.ok ==> w' == WithStage(w, m, Done(Status.Delivered)))
  {
  }

  lemma SameDbs(w: World, w': World)
    requires w'.dbs == w.dbs
    ensures forall d :: Db(w', d) == Db(w, d)
  {
  }

  lemma SameNodes(w: World, w': World)
    requires w'.nodes == w.nodes
    ensures forall d :: NodeOf(w', d) == NodeOf(w, d)
  {
  }

  /** After the send and the write, the envelope is in the peer's mailbox and the call knows it. */
  ghost predicate Stored(w: World, w': World, d: DeviceId, contact: ContactId, payload: Payload, m: MsgId, now: nat)
    requires 1 <= contact <= |Db(w, d).contacts|
  {
    var s := Peer(w, d, contact).identityKey;
    var k := |NodeOf(w, s).mailbox.blobs|;
    && IsCall(w, w', d, contact, payload, m, now) && w'.calls[m].stage == ServerAnswered(true)
    && NodeOf(w', s).key == s && k < |NodeOf(w', s).mailbox.blobs|
    && NodeOf(w', s).mailbox.blobs[k].data == w'.emitted[m]
  }

  /** After the send, the missed dial and the hand-over, the envelope is in the own node's queue. */
  ghost predicate Queued(w: World, w': World, d: DeviceId, contact: ContactId, payload: Payload, m: MsgId, now: nat)
    requires 1 <= contact <= |Db(w, d).contacts|
  {
    && IsCall(w, w', d, contact, payload, m, now) && w'.calls[m].stage == ScheduleAnswered(true)
    && m in NodeOf(w', d).queue.entries && NodeOf(w', d).queue.entries[m].envelope == w'.emitted[m]
    && NodeOf(w', d).queue.entries[m].recipient == Peer(w, d, contact).identityKey
  }

  /** The peer's database and the sender's rows are as before the send. */
  ghost predicate Undisturbed(w: World, w': World, d: DeviceId, contact: ContactId)
    requires 1 <= contact <= |Db(w, d).contacts|
  {
    var s := Peer(w, d, contact).identityKey;
    s != d && Db(w', s) == Db(w, s) && Db(w', d).messages == Db(w, d).messages
  }

  predicate IsOpenServer(w: World, c: Contact) {
    && c.serverAddr.Some? && c.pairSecret.Some?
    && Pairing.SlotHash(c.pairSecret.value, c.nextWriteN) in NodeOf(w, c.identityKey).mailbox.slots
  }

  lemma ServerPath(
      w: World, d: DeviceId, contact: ContactId, payload: Payload, m: MsgId, j: ContactId, e: Event, at: int)
    requires CanSend(w, d, contact, m, j) && Sends(e, d, contact, payload, m)
    requires IsOpenServer(w, Peer(w, d, contact)) && e.owner == Peer(w, d, contact).identityKey
    ensures var w' := After(After(w, e), WriteReaches(m, at));
      Stored(w, w', d, contact, payload, m, e.now) && Undisturbed(w, w', d, contact)
  {
    var s := Peer(w, d, contact).identityKey;
    assert NodeOf(w, s).key == s by { NodeIsOk(w, s); }
    SendingBegins(w, d, contact, payload, m, j, e);
    hide Inv, After, CanSend;
    var w1 := After(w, e);
    SameNodes(w, w1);
    WriteStep(w1, m, at);
    SameDbs(w1, After(w1, WriteReaches(m, at)));
  }

  lemma RetryPath(
      w: World, d: DeviceId, contact: ContactId, payload: Payload, m: MsgId, j: ContactId, e: Event, at: int)
    requires CanSend(w, d, contact, m, j) && Sends(e, d, contact, payload, m)
    requires IsDirect(Peer(w, d, contact)) && AccountOf(Db(w, d)).ownServerAddr.Some?
    ensures var w' := After(After(After(w, e), NoAnswer(m)), ScheduleReaches(m, at));
      Queued(w, w', d, contact, payload, m, e.now) && Undisturbed(w, w', d, contact)
  {
    assert NodeOf(w, d).key == d by { NodeIsOk(w, d); }
    SendingBegins(w, d, contact, payload, m, j, e);
    hide Inv, After, CanSend;
    var w1 := After(w, e);
    SameNodes(w, w1);
    assert AccountOf(Db(w1, d)) == AccountOf(Db(w, d));
    FallBackStep(w1, m);
    var w2 := After(w1, NoAnswer(m));
    assert w2.calls[m] == w1.calls[m].(stage := Scheduling(w1.calls[m].stage.peer));
    hide AccountOf;
    SameNodes(w1, w2);
    SameDbs(w1, w2);
    ScheduleStep(w2, m, at);
    SameDbs(w2, After(w2, ScheduleReaches(m, at)));
  }

  // ---------- Chats get through ----------

  /** The call returns, and the sender has its row. */
  lemma ReturnsWith(w: World, w': World, d: DeviceId, contact: ContactId, m: MsgId, now: nat, text: seq<byte>)
    requires Inv(w) && m !in w.emitted && 1 <= contact <= |Db(w, d).contacts|
    requires IsCall(w, w', d, contact, Chat(text), m, now) && Db(w', d).messages == Db(w, d).messages
    requires Claimable(w'.calls[m].stage)
    ensures var w2 := After(After(w', AnswerArrives(m)), Return(m));
      && KeptChat(Db(w, d), Db(w2, d), contact, m, now, text, StatusOf(w'.calls[m].stage))
      && (forall x :: x != d ==> Db(w2, x) == Db(w', x))
      && w2.dues == w'.dues && w2.nodes == w'.nodes && w2.emitted == w'.emitted
  {
    FreshIdIsNowhere(w, m, d);
    AnswerStep(w', m);
    hide Inv, After;
    var w1 := After(w', AnswerArrives(m));
    SameDbs(w', w1);
    ReturnKeepsChat(w1, m, text);
    hide Returned;
    ReturnStep(w1, m);
  }

  lemma ReturnStep(w: World, m: MsgId)
    ensures After(w, Return(m)) == Returned(w, m)
  {
  }

  predicate Claimable(stage: Stage) {
    stage == ServerAnswered(true) || stage == ScheduleAnswered(true) || (stage.DialAnswered? && stage.ok)
  }

  function StatusOf(stage: Stage): Status {
    if stage.DialAnswered? then Status.Delivered else Sent
  }

  /** Directly: the peer answers the dial, and the sender shows the chat as delivered. */
  lemma DirectChatGetsThrough(
      w: World, d: DeviceId, contact: ContactId, text: seq<byte>, m: MsgId, j: ContactId, e: Event, opening: Opening)
    requires CanSend(w, d, contact, m, j) && Sends(e, d, contact, Chat(text), m) && opening.Opens?
    requires IsDirect(Peer(w, d, contact))
    ensures Enabled(w, e)
    ensures var dialed := After(After(w, e), DialReaches(m, opening));
      ChatIsThrough(
        w, After(After(dialed, AnswerArrives(m)), Return(m)), d, contact, j, m, e.now, text, Status.Delivered)
  {
    SendingBegins(w, d, contact, Chat(text), m, j, e);
    hide Inv, After, KeptChat, GainedChat, Receive;
    var s := Peer(w, d, contact).identityKey;
    var w1 := After(w, e);
    ChatArrives(w, w1, d, contact, m, j, e.now, text, w1.emitted[m], opening);
    DialStep(w1, m, opening);
    var w2 := After(w1, DialReaches(m, opening));
    SameDbs(Receive(w1, s, w1.emitted[m], opening).0, w2);
    ReturnsWith(w, w2, d, contact, m, e.now, text);
  }

  /** Over the peer's Server: the write is accepted, the call returns, and the peer syncs. */
  lemma ServerChatGetsThrough(
      w: World, d: DeviceId, contact: ContactId, text: seq<byte>, m: MsgId, j: ContactId, e: Event, at: int,
      opening: Opening)
    requires CanSend(w, d, contact, m, j) && Sends(e, d, contact, Chat(text), m) && opening.Opens?
    requires IsOpenServer(w, Peer(w, d, contact)) && e.owner == Peer(w, d, contact).identityKey
    ensures Enabled(w, e)
    ensures var written := After(After(w, e), WriteReaches(m, at));
      var returned := After(After(written, AnswerArrives(m)), Return(m));
      var k := |NodeOf(w, e.owner).mailbox.blobs|;
      ChatIsThrough(w, After(returned, SyncReceives(e.owner, k, opening)), d, contact, j, m, e.now, text, Sent)
  {
    ServerPath(w, d, contact, Chat(text), m, j, e, at);
    hide Inv, After, KeptChat, GainedChat, Receive;
    var s, k := e.owner, |NodeOf(w, e.owner).mailbox.blobs|;
    var w2 := After(After(w, e), WriteReaches(m, at));
    ReturnsWith(w, w2, d, contact, m, e.now, text);
    var w4 := After(After(w2, AnswerArrives(m)), Return(m));
    SameNodes(w2, w4);
    SyncStep(w4, s, k, opening);
    ChatArrives(w, w4, d, contact, m, j, e.now, text, w2.emitted[m], opening);
  }

  /** Over the own node: the dial goes unanswered, the node takes over, and later reaches the peer. */
  lemma RetriedChatGetsThrough(
      w: World, d: DeviceId, contact: ContactId, text: seq<byte>, m: MsgId, j: ContactId, e: Event, at: int,
      opening: Opening)
    requires CanSend(w, d, contact, m, j) && Sends(e, d, contact, Chat(text), m) && opening.Opens?
    requires IsDirect(Peer(w, d, contact)) && AccountOf(Db(w, d)).ownServerAddr.Some?
    ensures Enabled(w, e)
    ensures var queued := After(After(After(w, e), NoAnswer(m)), ScheduleReaches(m, at));
      var returned := After(After(queued, AnswerArrives(m)), Return(m));
      ChatIsThrough(w, After(returned, NodeDial(d, m, opening)), d, contact, j, m, e.now, text, Sent)
  {
    RetryPath(w, d, contact, Chat(text), m, j, e, at);
    hide Inv, After, KeptChat, GainedChat, Receive;
    var s := Peer(w, d, contact).identityKey;
    var w3 := After(After(After(w, e), NoAnswer(m)), ScheduleReaches(m, at));
    ReturnsWith(w, w3, d, contact, m, e.now, text);
    var w5 := After(After(w3, AnswerArrives(m)), Return(m));
    SameNodes(w3, w5);
    NodeDialStep(w5, d, m, opening);
    ChatArrives(w, w5, d, contact, m, j, e.now, text, w3.emitted[m], opening);
    SameDbs(Receive(w5, s, w3.emitted[m], opening).0, After(w5, NodeDial(d, m, opening)));
  }

  // ---------- Receipts get through ----------

  /** `due` is a receipt for row `k` of the device it goes to. */
  ghost predicate IsAbout(w: World, due: Due, k: nat) {
    && due in w.dues && 1 <= due.contact <= |Db(w, due.device).contacts|
    && var rows := Db(w, Peer(w, due.device, due.contact).identityKey).messages;
       k < |rows| && rows[k].message.msgId == due.msgId
  }

  /** The rows with row `k`, and no other, turned to delivered. */
  function RowDelivered(rows: seq<Row>, k: nat): seq<Row>
    requires k < |rows|
  {
    rows[k := StatusSet(rows[k], Status.Delivered)]
  }

  lemma ReceiptSetsRow(db: Database, j: ContactId, env: Envelope, k: nat)
    requires Valid(db) && k < |db.messages| && db.messages[k].contact == j
    requires env.payload == Receipt(db.messages[k].message.msgId)
    ensures Handled(db, j, env).0.messages == RowDelivered(db.messages, k)
  {
  }

  /** In any later state where the peer's database is as it was, being handed the receipt sets its row. */
  lemma ReceiptArrives(w: World, w': World, due: Due, m: MsgId, k: nat, env: Envelope, opening: Opening)
    requires IsAbout(w, due, k) && opening.Opens?
    requires var rows := Db(w, Peer(w, due.device, due.contact).identityKey).messages;
      CanSend(w, due.device, due.contact, m, rows[k].contact)
    requires env.sender == due.device && env.recipient == Peer(w, due.device, due.contact).identityKey
    requires env.payload == Receipt(due.msgId) && Db(w', env.recipient) == Db(w, env.recipient)
    ensures Db(Receive(w', env.recipient, env, opening).0, env.recipient).messages
         == RowDelivered(Db(w, env.recipient).messages, k)
  {
    var s := env.recipient;
    var j := Db(w, s).messages[k].contact;
    PeerOpens(w, w', due.device, due.contact, m, j, env, opening);
    DbIsOk(w, s);
    OpeningSaves(Db(w, s), j, opening);
    OpenedIsValid(Db(w, s), j, opening);
    hide Inv, Receive, Handled, Opened, Valid;
    ReceiptSetsRow(Opened(Db(w, s), j, opening), j, env, k);
  }

  lemma OpenedIsValid(db: Database, id: ContactId, opening: Opening)
    requires Valid(db) && opening.Opens? && 1 <= id <= |db.contacts|
    ensures Valid(Opened(db, id, opening))
  {
  }

  /** Row `k` of the peer is about to become delivered, when `due` is sent under `m` by event `e`. */
  ghost predicate SendsReceipt(w: World, due: Due, m: MsgId, k: nat, e: Event) {
    && IsAbout(w, due, k)
    && CanSend(
         w, due.device, due.contact, m, Db(w, Peer(w, due.device, due.contact).identityKey).messages[k].contact)
    && Sends(e, due.device, due.contact, Receipt(due.msgId), m)
  }

  /** The row it is about, and no other, has become delivered. */
  ghost predicate ReceiptIsThrough(w: World, w': World, due: Due, k: nat)
    requires IsAbout(w, due, k)
  {
    var s := Peer(w, due.device, due.contact).identityKey;
    Db(w', s).messages == RowDelivered(Db(w, s).messages, k)
  }

  lemma DirectReceiptGetsThrough(w: World, due: Due, m: MsgId, k: nat, e: Event, opening: Opening)
    requires SendsReceipt(w, due, m, k, e) && opening.Opens? && IsDirect(Peer(w, due.device, due.contact))
    ensures Enabled(w, e) && ReceiptIsThrough(w, After(After(w, e), DialReaches(m, opening)), due, k)
  {
    var s := Peer(w, due.device, due.contact).identityKey;
    var j := Db(w, s).messages[k].contact;
    SendingBegins(w, due.device, due.contact, Receipt(due.msgId), m, j, e);
    hide Inv, After, Receive;
    var w1 := After(w, e);
    ReceiptArrives(w, w1, due, m, k, w1.emitted[m], opening);
    DialStep(w1, m, opening);
    SameDbs(Receive(w1, s, w1.emitted[m], opening).0, After(w1, DialReaches(m, opening)));
  }

  lemma ServerReceiptGetsThrough(w: World, due: Due, m: MsgId, k: nat, e: Event, at: int, opening: Opening)
    requires SendsReceipt(w, due, m, k, e) && opening.Opens?
    requires var c := Peer(w, due.device, due.contact); IsOpenServer(w, c) && e.owner == c.identityKey
    ensures var written := After(After(w, e), WriteReaches(m, at));
      var blob := |NodeOf(w, e.owner).mailbox.blobs|;
      Enabled(w, e) && ReceiptIsThrough(w, After(written, SyncReceives(e.owner, blob, opening)), due, k)
  {
    var j := Db(w, e.owner).messages[k].contact;
    ServerPath(w, due.device, due.contact, Receipt(due.msgId), m, j, e, at);
    hide Inv, After, Receive;
    var w2 := After(After(w, e), WriteReaches(m, at));
    SyncStep(w2, e.owner, |NodeOf(w, e.owner).mailbox.blobs|, opening);
    ReceiptArrives(w, w2, due, m, k, w2.emitted[m], opening);
  }

  lemma RetriedReceiptGetsThrough(w: World, due: Due, m: MsgId, k: nat, e: Event, at: int, opening: Opening)
    requires SendsReceipt(w, due, m, k, e) && opening.Opens? && IsDirect(Peer(w, due.device, due.contact))
    requires AccountOf(Db(w, due.device)).ownServerAddr.Some?
    ensures var queued := After(After(After(w, e), NoAnswer(m)), ScheduleReaches(m, at));
      Enabled(w, e) && ReceiptIsThrough(w, After(queued, NodeDial(due.device, m, opening)), due, k)
  {
    var s := Peer(w, due.device, due.contact).identityKey;
    RetryPath(w, due.device, due.contact, Receipt(due.msgId), m, Db(w, s).messages[k].contact, e, at);
    hide Inv, After, Receive;
    var w3 := After(After(After(w, e), NoAnswer(m)), ScheduleReaches(m, at));
    NodeDialStep(w3, due.device, m, opening);
    ReceiptArrives(w, w3, due, m, k, w3.emitted[m], opening);
    SameDbs(Receive(w3, s, w3.emitted[m], opening).0, After(w3, NodeDial(due.device, m, opening)));
  }
}

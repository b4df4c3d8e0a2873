/**
 Delivery between any number of honest devices and their nodes, over all three paths: the recipient's
 Server, a direct connection, and the sender's own node retrying. Pairing has happened before the run.
 Requests, answers and acknowledgements may be lost at any point; an envelope once sent may reach any device
 again at any later time, and so may the requests that carry it reach any node. Nodes may use any clock.
 */
module Delivery {
  import opened Wrappers
  import opened Bytes
  import opened Crypto
  import opened Store
  import opened Client
  import Mailbox
  import NodeHandler
  import RetryQueue

  type Node = NodeHandler.Node<Envelope>

  /** Where a running `deliver` call stands. */
  datatype Stage =
    | ToServer(owner: DeviceId, auth: Secret)
    | ServerAnswered(ok: bool)
    | Dialing(peer: DeviceId)
    | DialAnswered(peer: DeviceId, ok: bool)
    | Scheduling(peer: DeviceId)
    | ScheduleAnswered(ok: bool)
    | Done(status: Status)

  /** `session` is what the call saves when it succeeds. */
  datatype Call = Call(device: DeviceId, contact: ContactId, session: seq<byte>, stage: Stage)

  /** A receipt a device is about to send. */
  datatype Due = Due(device: DeviceId, contact: ContactId, msgId: MsgId)

  /**
   `emitted` holds every envelope ever sent, by message id; `acks` the node dials that a recipient has
   acknowledged; `reported` the messages whose failure a node has handed out to a poll.
   */
  datatype World = World(
    dbs: map<DeviceId, Database>, nodes: map<DeviceId, Node>, emitted: map<MsgId, Envelope>,
    calls: map<MsgId, Call>, dues: set<Due>, acks: set<(DeviceId, MsgId)>, reported: set<(DeviceId, MsgId)>)

  function Db(w: World, d: DeviceId): Database {
    if d in w.dbs then w.dbs[d] else EMPTY
  }

  function NodeOf(w: World, d: DeviceId): Node {
    if d in w.nodes then w.nodes[d] else NodeHandler.Node(d, Mailbox.Empty(), RetryQueue.Queue(map[], []))
  }

  datatype Event =
    | Begin(d: DeviceId, contact: ContactId, payload: Payload, m: MsgId, now: nat, sealing: Sealing, owner: DeviceId)
    | WriteReaches(m: MsgId, at: int)
    | DialReaches(m: MsgId, opening: Opening)
    | ScheduleReaches(m: MsgId, at: int)
    | AnswerArrives(m: MsgId)
    | NoAnswer(m: MsgId)
    | Return(m: MsgId)
    | Sweep(owner: DeviceId, at: int)
    | NodeDial(owner: DeviceId, m: MsgId, opening: Opening)
    | NodeReport(owner: DeviceId, m: MsgId, acked: bool, at: int)
    | SyncReceives(d: DeviceId, k: nat, opening: Opening)
    | Poll(d: DeviceId, answered: bool)
    | Stray(m: MsgId, d: DeviceId, opening: Opening)
    | StrayWrite(m: MsgId, owner: DeviceId, auth: Secret, at: int)
    | StraySchedule(m: MsgId, peer: DeviceId, at: int)
    | Housekeeping(owner: DeviceId, request: NodeHandler.Request<Envelope>, at: int)

  /** Message ids are fresh, receipts are only sent when due, and a node's success report follows an ack. */
  predicate Enabled(w: World, e: Event) {
    match e
    case Begin(d, contact, payload, m, _, _, _) =>
      m !in w.emitted && (payload.Receipt? ==> Due(d, contact, payload.msgId) in w.dues)
    case NodeReport(owner, m, acked, _) => acked ==> (owner, m) in w.acks
    case Housekeeping(_, request, _) =>
      request.RegisterSlot? || request.Fetch? || request.Ack? || request.PutBackup? || request.GetBackup?
    case _ => true
  }

  // ---------- Steps ----------

  /** Device `d` is handed `env`; also says whether it acknowledges. */
  function Receive(w: World, d: DeviceId, env: Envelope, opening: Opening): (World, bool) {
    var (db, a) := Attributed(Db(w, d), d, env, opening);
    var contact := IndexOfCurve(Db(w, d).contacts, env.sender) + 1;
    (w.(dbs := w.dbs[d := db], dues := if a.ChatStored? then w.dues + {Due(d, contact, env.msgId)} else w.dues),
     Acknowledges(a))
  }

  function WithStage(w: World, m: MsgId, stage: Stage): World
    requires m in w.calls
  {
    w.(calls := w.calls[m := w.calls[m].(stage := stage)])
  }

  function Abandoned(w: World, m: MsgId): World {
    w.(calls := w.calls - {m})
  }

  /** A direct attempt failed: hand over to the own node if there is one, else give up. */
  function FallBack(w: World, m: MsgId, peer: DeviceId): World
    requires m in w.calls
  {
    if AccountOf(Db(w, w.calls[m].device)).ownServerAddr.Some? then WithStage(w, m, Scheduling(peer))
    else Abandoned(w, m)
  }

  function Requested(w: World, owner: DeviceId, request: NodeHandler.Request<Envelope>, at: int): (World, bool) {
    var (node, response) := NodeHandler.Handled(NodeOf(w, owner), request, at);
    (w.(nodes := w.nodes[owner := node]), response == NodeHandler.Ok)
  }

  function WithQueue(w: World, owner: DeviceId, queue: RetryQueue.Queue<Envelope>): World {
    w.(nodes := w.nodes[owner := NodeOf(w, owner).(queue := queue)])
  }

  /** `owner` is the device behind the server address on file. */
  function Begun(
      w: World, d: DeviceId, contact: ContactId, payload: Payload, m: MsgId, now: nat, sealing: Sealing,
      owner: DeviceId)
    : World
  {
    match Prepared(Db(w, d), d, contact, payload, m, now, sealing)
    case Unsendable(db) => w.(dbs := w.dbs[d := db])
    case Ready(db, env, route, session) =>
      var stage := match route
        case ViaServer(_, auth) => ToServer(owner, auth)
        case Direct(transportKey) => Dialing(transportKey);
      w.(dbs := w.dbs[d := db], emitted := w.emitted[m := env],
         calls := w.calls[m := Call(d, contact, session, stage)])
  }

  /** `deliver` saves the session on success, and `send` then persists a chat message. */
  function Returned(w: World, m: MsgId): World {
    if m !in w.calls || !w.calls[m].stage.Done? || m !in w.emitted then w
    else
      var call, env := w.calls[m], w.emitted[m];
      var db := WithSession(Db(w, call.device), call.contact, call.session);
      match env.payload
      case Chat(text) =>
        (match Inserted(db, call.contact, SentMessage(m, env, text, call.stage.status))
         case Failure(_) => Abandoned(w, m).(dbs := w.dbs[call.device := db])
         case Success(db') => Abandoned(w, m).(dbs := w.dbs[call.device := db']))
      case _ => Abandoned(w, m).(dbs := w.dbs[call.device := db])
  }

  function SentMessage(m: MsgId, env: Envelope, text: seq<byte>, status: Status): Message {
    Message(m, Outgoing, env.lamport, env.sentAt, text, Some(status))
  }

  function Answered(w: World, m: MsgId): World
    requires m in w.calls
  {
    match w.calls[m].stage
    case ServerAnswered(ok) => if ok then WithStage(w, m, Done(Sent)) else Abandoned(w, m)
    case DialAnswered(peer, ok) => if ok then WithStage(w, m, Done(Delivered)) else FallBack(w, m, peer)
    case ScheduleAnswered(ok) => if ok then WithStage(w, m, Done(Sent)) else Abandoned(w, m)
    case _ => w
  }

  function Unanswered(w: World, m: MsgId): World
    requires m in w.calls
  {
    match w.calls[m].stage
    case Dialing(peer) => FallBack(w, m, peer)
    case DialAnswered(peer, _) => FallBack(w, m, peer)
    case Done(_) => w
    case _ => Abandoned(w, m)
  }

  function After(w: World, e: Event): World {
    match e
    case Begin(d, contact, payload, m, now, sealing, owner) => Begun(w, d, contact, payload, m, now, sealing, owner)
    case WriteReaches(m, at) =>
      if m !in w.calls || m !in w.emitted || !w.calls[m].stage.ToServer? then w
      else
        var request := NodeHandler.Write(w.calls[m].stage.auth, w.emitted[m]);
        var (w', ok) := Requested(w, w.calls[m].stage.owner, request, at);
        WithStage(w', m, ServerAnswered(ok))
    case DialReaches(m, opening) =>
      if m !in w.calls || m !in w.emitted || !w.calls[m].stage.Dialing? then w
      else
        var (w', ok) := Receive(w, w.calls[m].stage.peer, w.emitted[m], opening);
        WithStage(w', m, DialAnswered(w.calls[m].stage.peer, ok))
    case ScheduleReaches(m, at) =>
      if m !in w.calls || m !in w.emitted || !w.calls[m].stage.Scheduling? then w
      else
        var d := w.calls[m].device;
        var (w', ok) := Requested(w, d, NodeHandler.ScheduleRetry(d, m, w.calls[m].stage.peer, w.emitted[m]), at);
        WithStage(w', m, ScheduleAnswered(ok))
    case AnswerArrives(m) => if m in w.calls then Answered(w, m) else w
    case NoAnswer(m) => if m in w.calls then Unanswered(w, m) else w
    case Return(m) => Returned(w, m)
    case Sweep(owner, at) => WithQueue(w, owner, RetryQueue.Taken(NodeOf(w, owner).queue, at))
    case NodeDial(owner, m, opening) =>
      var entries := NodeOf(w, owner).queue.entries;
      if m !in entries then w
      else
        var (w', ok) := Receive(w, entries[m].recipient, entries[m].envelope, opening);
        if ok then w'.(acks := w'.acks + {(owner, m)}) else w'
    case NodeReport(owner, m, acked, at) =>
      var queue := NodeOf(w, owner).queue;
      WithQueue(w, owner, if acked then RetryQueue.MarkedDelivered(queue, m) else RetryQueue.MarkedFailed(queue, m, at))
    case SyncReceives(d, k, opening) =>
      (match NodeHandler.Handled(NodeOf(w, d), NodeHandler.Fetch(d), 0).1
       case Blobs(blobs) => if k < |blobs| then Receive(w, d, blobs[k].data, opening).0 else w
       case _ => w)
    case Poll(d, answered) =>
      var (node, response) := NodeHandler.Handled(NodeOf(w, d), NodeHandler.PollFailedDeliveries(d), 0);
      var ids := if response.FailedDeliveries? then response.ids else [];
      var w' := w.(nodes := w.nodes[d := node], reported := w.reported + set m | m in ids :: (d, m));
      if answered then w'.(dbs := w.dbs[d := AllFailed(Db(w, d), ids)]) else w'
    case Stray(m, d, opening) => if m in w.emitted then Receive(w, d, w.emitted[m], opening).0 else w
    case StrayWrite(m, owner, auth, at) =>
      if m in w.emitted then Requested(w, owner, NodeHandler.Write(auth, w.emitted[m]), at).0 else w
    case StraySchedule(m, peer, at) =>
      if m !in w.emitted then w
      else
        var d := w.emitted[m].sender;
        Requested(w, d, NodeHandler.ScheduleRetry(d, m, peer, w.emitted[m]), at).0
    case Housekeeping(owner, request, at) => Requested(w, owner, request, at).0
  }

  ghost predicate ValidRun(w: World, events: seq<Event>)
    decreases events
  {
    events != [] ==> Enabled(w, events[0]) && ValidRun(After(w, events[0]), events[1..])
  }

  function Final(w: World, events: seq<Event>): World
    decreases events
  {
    if events == [] then w else Final(After(w, events[0]), events[1..])
  }

  /** A contact record describes one device, and it is not this one. */
  predicate Honest(d: DeviceId, c: Contact) {
    c.curveKey == c.identityKey && c.identityKey != d
  }

  /** Devices have paired but exchanged nothing yet. */
  ghost predicate Start(w: World) {
    && (forall d :: Valid(Db(w, d)) && Db(w, d).messages == [])
    && (forall d, i :: 0 <= i < |Db(w, d).contacts| ==> Honest(d, Db(w, d).contacts[i]))
    && (forall d ::
          && NodeOf(w, d).mailbox.blobs == []
          && NodeOf(w, d).queue == RetryQueue.Queue(map[], [])
          && NodeOf(w, d).key == d)
    && w.emitted == map[] && w.calls == map[] && w.dues == {} && w.acks == {} && w.reported == {}
  }

  // ---------- What the world must satisfy ----------

  predicate IsIncoming(db: Database, row: Row, from: DeviceId, m: MsgId, text: seq<byte>) {
    && 1 <= row.contact <= |db.contacts|
    && db.contacts[row.contact - 1].identityKey == from
    && row.message.msgId == m && row.message.direction.Incoming? && row.message.plaintext == text
  }

  /** Device `to` holds an incoming message `m` with this text under the contact `from`. */
  ghost predicate HasIncoming(w: World, to: DeviceId, from: DeviceId, m: MsgId, text: seq<byte>) {
    exists k :: 0 <= k < |Db(w, to).messages| && IsIncoming(Db(w, to), Db(w, to).messages[k], from, m, text)
  }

  /** `m` was sent as a chat message from `from` to `to`. */
  predicate ChatSent(w: World, m: MsgId, from: DeviceId, to: DeviceId, text: seq<byte>) {
    m in w.emitted && w.emitted[m].sender == from && w.emitted[m].recipient == to && w.emitted[m].payload == Chat(text)
  }

  ghost predicate RowOk(w: World, d: DeviceId, row: Row) {
    && 1 <= row.contact <= |Db(w, d).contacts|
    && var peer, m := Db(w, d).contacts[row.contact - 1].identityKey, row.message;
       if m.direction.Outgoing? then
         && ChatSent(w, m.msgId, d, peer, m.plaintext)
         && m.status.Some?
         && (m.status == Some(Delivered) ==> HasIncoming(w, peer, d, m.msgId, m.plaintext))
       else
         ChatSent(w, m.msgId, peer, d, m.plaintext) && m.status.None?
  }

  ghost predicate DbOk(w: World, d: DeviceId) {
    && Valid(Db(w, d))
    && (forall i :: 0 <= i < |Db(w, d).contacts| ==> Honest(d, Db(w, d).contacts[i]))
    && (forall k :: 0 <= k < |Db(w, d).messages| ==> RowOk(w, d, Db(w, d).messages[k]))
  }

  /** The message was received: sent as a chat and stored by its recipient. */
  ghost predicate Received(w: World, m: MsgId, from: DeviceId, to: DeviceId) {
    m in w.emitted && w.emitted[m].payload.Chat?
    && ChatSent(w, m, from, to, w.emitted[m].payload.text) && HasIncoming(w, to, from, m, w.emitted[m].payload.text)
  }

  /** A receipt is only sent by a device that holds the message, to the device that sent it. */
  ghost predicate EnvelopeOk(w: World, m: MsgId)
    requires m in w.emitted
  {
    var env := w.emitted[m];
    env.msgId == m && (env.payload.Receipt? ==> Received(w, env.payload.msgId, env.recipient, env.sender))
  }

  ghost predicate CallOk(w: World, m: MsgId, c: Call) {
    && m in w.emitted && w.emitted[m].sender == c.device
    && 1 <= c.contact <= |Db(w, c.device).contacts|
    && Db(w, c.device).contacts[c.contact - 1].identityKey == w.emitted[m].recipient
    && (w.emitted[m].payload.Chat? && ((c.stage.DialAnswered? && c.stage.ok) || c.stage == Done(Delivered)) ==>
          Received(w, m, c.device, w.emitted[m].recipient))
  }

  ghost predicate DueOk(w: World, due: Due) {
    && 1 <= due.contact <= |Db(w, due.device).contacts|
    && Received(w, due.msgId, Db(w, due.device).contacts[due.contact - 1].identityKey, due.device)
  }

  /** A node only holds envelopes that were sent, and retries only its owner's. */
  ghost predicate NodeOk(w: World, d: DeviceId, node: Node) {
    && node.key == d
    && (forall m :: m in node.queue.entries ==>
          m in w.emitted && w.emitted[m].sender == d && node.queue.entries[m].envelope == w.emitted[m])
    && (forall i :: 0 <= i < |node.queue.failed| ==>
          node.queue.failed[i] in w.emitted && w.emitted[node.queue.failed[i]].sender == d)
    && (forall i :: 0 <= i < |node.mailbox.blobs| ==> WasSent(w, node.mailbox.blobs[i].data))
  }

  predicate WasSent(w: World, env: Envelope) {
    env.msgId in w.emitted && w.emitted[env.msgId] == env
  }

  ghost predicate Inv(w: World) {
    && (forall d :: DbOk(w, d))
    && (forall m :: m in w.emitted ==> EnvelopeOk(w, m))
    && (forall m :: m in w.calls ==> CallOk(w, m, w.calls[m]))
    && (forall due :: due in w.dues ==> DueOk(w, due))
    && (forall d :: NodeOk(w, d, NodeOf(w, d)))
  }

  // ---------- Growth: what no step takes away ----------

  /** Contacts keep their identity, and rows stay, with at most their status changed. */
  ghost predicate Extends(db: Database, db': Database) {
    && |db'.contacts| == |db.contacts|
    && (forall i :: 0 <= i < |db.contacts| ==> db'.contacts[i].identityKey == db.contacts[i].identityKey)
    && |db.messages| <= |db'.messages|
    && (forall k :: 0 <= k < |db.messages| ==>
          && db'.messages[k].contact == db.messages[k].contact
          && db'.messages[k].message == db.messages[k].message.(status := db'.messages[k].message.status))
  }

  ghost predicate Grows(w: World, w': World) {
    && (forall m :: m in w.emitted ==> m in w'.emitted && w'.emitted[m] == w.emitted[m])
    && (forall d :: Extends(Db(w, d), Db(w', d)))
  }

  lemma HasIncomingGrows(w: World, w': World, to: DeviceId, from: DeviceId, m: MsgId, text: seq<byte>)
    requires Grows(w, w') && HasIncoming(w, to, from, m, text)
    ensures HasIncoming(w', to, from, m, text)
  {
    assert Extends(Db(w, to), Db(w', to));
    var k :| 0 <= k < |Db(w, to).messages| && IsIncoming(Db(w, to), Db(w, to).messages[k], from, m, text);
    assert IsIncoming(Db(w', to), Db(w', to).messages[k], from, m, text);
  }

  lemma ReceivedGrows(w: World, w': World, m: MsgId, from: DeviceId, to: DeviceId)
    requires Grows(w, w') && Received(w, m, from, to)
    ensures Received(w', m, from, to)
  {
    HasIncomingGrows(w, w', to, from, m, w.emitted[m].payload.text);
  }

  lemma RowOkGrows(w: World, w': World, d: DeviceId, row: Row)
    requires Grows(w, w') && RowOk(w, d, row)
    ensures RowOk(w', d, row)
  {
    assert Extends(Db(w, d), Db(w', d));
    var peer, m := Db(w, d).contacts[row.contact - 1].identityKey, row.message;
    if m.direction.Outgoing? && m.status == Some(Delivered) {
      HasIncomingGrows(w, w', peer, d, m.msgId, m.plaintext);
    }
  }

  lemma CallOkGrows(w: World, w': World, m: MsgId, c: Call)
    requires Grows(w, w') && CallOk(w, m, c)
    ensures CallOk(w', m, c)
  {
    assert Extends(Db(w, c.device), Db(w', c.device));
    if Received(w, m, c.device, w.emitted[m].recipient) {
      ReceivedGrows(w, w', m, c.device, w.emitted[m].recipient);
    }
  }

  lemma EnvelopeOkGrows(w: World, w': World, m: MsgId)
    requires Grows(w, w') && m in w.emitted && EnvelopeOk(w, m)
    ensures EnvelopeOk(w', m)
  {
    var env := w.emitted[m];
    if env.payload.Receipt? {
      ReceivedGrows(w, w', env.payload.msgId, env.recipient, env.sender);
    }
  }

  lemma DueOkGrows(w: World, w': World, due: Due)
    requires Grows(w, w') && DueOk(w, due)
    ensures DueOk(w', due)
  {
    assert Extends(Db(w, due.device), Db(w', due.device));
    ReceivedGrows(w, w', due.msgId, Db(w, due.device).contacts[due.contact - 1].identityKey, due.device);
  }

  lemma NodeOkGrows(w: World, w': World, d: DeviceId, node: Node)
    requires Grows(w, w') && NodeOk(w, d, node)
    ensures NodeOk(w', d, node)
  {
  }

  lemma DbOkGrows(w: World, w': World, d: DeviceId)
    requires Grows(w, w') && DbOk(w, d) && Db(w', d) == Db(w, d)
    ensures DbOk(w', d)
  {
    forall k | 0 <= k < |Db(w, d).messages| ensures RowOk(w', d, Db(w, d).messages[k]) {
      RowOkGrows(w, w', d, Db(w, d).messages[k]);
    }
  }

  /** To keep the invariant, a step that only grows the world has to justify what it adds or changes. */
  lemma Carry(w: World, w': World)
    requires Inv(w) && Grows(w, w')
    requires forall d :: Db(w', d) == Db(w, d) || DbOk(w', d)
    requires forall m :: m in w'.emitted ==> m in w.emitted || EnvelopeOk(w', m)
    requires forall m :: m in w'.calls ==> (m in w.calls && w'.calls[m] == w.calls[m]) || CallOk(w', m, w'.calls[m])
    requires forall due :: due in w'.dues ==> due in w.dues || DueOk(w', due)
    requires forall d :: NodeOf(w', d) == NodeOf(w, d) || NodeOk(w', d, NodeOf(w', d))
    ensures Inv(w')
  {
    forall d ensures DbOk(w', d) {
      if Db(w', d) == Db(w, d) {
        DbOkGrows(w, w', d);
      }
    }
    forall m | m in w'.emitted ensures EnvelopeOk(w', m) {
      if m in w.emitted {
        EnvelopeOkGrows(w, w', m);
      }
    }
    forall m | m in w'.calls ensures CallOk(w', m, w'.calls[m]) {
      if m in w.calls && w'.calls[m] == w.calls[m] {
        CallOkGrows(w, w', m, w.calls[m]);
      }
    }
    forall due | due in w'.dues ensures DueOk(w', due) {
      if due in w.dues {
        DueOkGrows(w, w', due);
      }
    }
    forall d ensures NodeOk(w', d, NodeOf(w', d)) {
      if NodeOf(w', d) == NodeOf(w, d) {
        NodeOkGrows(w, w', d, NodeOf(w, d));
      }
    }
  }

  // ---------- Elementary changes that keep the invariant ----------

  lemma DbStep(w: World, d: DeviceId, db: Database)
    requires Inv(w) && Extends(Db(w, d), db) && DbOk(w.(dbs := w.dbs[d := db]), d)
    ensures Inv(w.(dbs := w.dbs[d := db]))
  {
    var w' := w.(dbs := w.dbs[d := db]);
    GrowsByOneDb(w, d, db);
    forall x ensures (Db(w', x) == Db(w, x) || DbOk(w', x)) && NodeOf(w', x) == NodeOf(w, x) {
      assert x != d ==> Db(w', x) == Db(w, x);
    }
    Carry(w, w');
  }

  lemma GrowsByOneDb(w: World, d: DeviceId, db: Database)
    requires Extends(Db(w, d), db)
    ensures Grows(w, w.(dbs := w.dbs[d := db]))
  {
    var w' := w.(dbs := w.dbs[d := db]);
    forall x ensures Extends(Db(w, x), Db(w', x)) {
      assert x != d ==> Db(w', x) == Db(w, x);
    }
  }

  /** `db'` differs from `db` in nothing the invariant looks at. */
  ghost predicate SameRows(db: Database, db': Database) {
    && |db'.contacts| == |db.contacts|
    && (forall i :: 0 <= i < |db.contacts| ==>
          && db'.contacts[i].id == db.contacts[i].id
          && db'.contacts[i].identityKey == db.contacts[i].identityKey
          && db'.contacts[i].curveKey == db.contacts[i].curveKey)
    && db'.messages == db.messages
    && (forall id :: id in db'.sessions ==> id in db.sessions || 1 <= id <= |db.contacts|)
  }

  lemma SameRowsStep(w: World, d: DeviceId, db: Database)
    requires Inv(w) && SameRows(Db(w, d), db)
    ensures Inv(w.(dbs := w.dbs[d := db])) && Grows(w, w.(dbs := w.dbs[d := db]))
  {
    var w' := w.(dbs := w.dbs[d := db]);
    assert DbOk(w, d);
    GrowsByOneDb(w, d, db);
    forall k | 0 <= k < |db.messages| ensures RowOk(w', d, db.messages[k]) {
      RowOkGrows(w, w', d, db.messages[k]);
    }
    DbStep(w, d, db);
  }

  lemma AppendRowStep(w: World, d: DeviceId, row: Row)
    requires Inv(w) && RowOk(w, d, row) && !HasMessage(Db(w, d).messages, row.contact, row.message.msgId)
    ensures var db := Db(w, d).(messages := Db(w, d).messages + [row]);
      Inv(w.(dbs := w.dbs[d := db])) && Grows(w, w.(dbs := w.dbs[d := db]))
  {
    var db := Db(w, d).(messages := Db(w, d).messages + [row]);
    var w' := w.(dbs := w.dbs[d := db]);
    assert DbOk(w, d);
    GrowsByOneDb(w, d, db);
    forall k | 0 <= k < |db.messages| ensures RowOk(w', d, db.messages[k]) {
      if k < |db.messages| - 1 {
        RowOkGrows(w, w', d, Db(w, d).messages[k]);
      } else {
        RowOkGrows(w, w', d, row);
      }
    }
    DbStep(w, d, db);
  }

  lemma EmitStep(w: World, m: MsgId, env: Envelope)
    requires Inv(w) && m !in w.emitted && env.msgId == m
    requires env.payload.Receipt? ==> Received(w, env.payload.msgId, env.recipient, env.sender)
    ensures Inv(w.(emitted := w.emitted[m := env])) && Grows(w, w.(emitted := w.emitted[m := env]))
  {
    var w' := w.(emitted := w.emitted[m := env]);
    assert forall d :: Db(w', d) == Db(w, d) && NodeOf(w', d) == NodeOf(w, d);
    if env.payload.Receipt? {
      ReceivedGrows(w, w', env.payload.msgId, env.recipient, env.sender);
    }
    Carry(w, w');
  }

  lemma SameDbsGrow(w: World, w': World)
    requires w'.dbs == w.dbs && w'.emitted == w.emitted
    ensures Grows(w, w') && forall d :: Db(w', d) == Db(w, d)
  {
    forall d ensures Db(w', d) == Db(w, d) && Extends(Db(w, d), Db(w', d)) {}
  }

  lemma CallStep(w: World, m: MsgId, c: Call)
    requires Inv(w) && CallOk(w, m, c)
    ensures Inv(w.(calls := w.calls[m := c]))
  {
    var w' := w.(calls := w.calls[m := c]);
    SameDbsGrow(w, w');
    CallOkGrows(w, w', m, c);
    assert forall d :: NodeOf(w', d) == NodeOf(w, d);
    Carry(w, w');
  }

  lemma AbandonStep(w: World, m: MsgId)
    requires Inv(w)
    ensures Inv(Abandoned(w, m))
  {
    SameDbsGrow(w, Abandoned(w, m));
    assert forall d :: NodeOf(Abandoned(w, m), d) == NodeOf(w, d);
    Carry(w, Abandoned(w, m));
  }

  lemma DueStep(w: World, due: Due)
    requires Inv(w) && DueOk(w, due)
    ensures Inv(w.(dues := w.dues + {due}))
  {
    var w' := w.(dues := w.dues + {due});
    SameDbsGrow(w, w');
    DueOkGrows(w, w', due);
    assert forall d :: NodeOf(w', d) == NodeOf(w, d);
    Carry(w, w');
  }

  lemma HistoryStep(w: World, acks: set<(DeviceId, MsgId)>, reported: set<(DeviceId, MsgId)>)
    requires Inv(w)
    ensures Inv(w.(acks := acks, reported := reported))
  {
    var w' := w.(acks := acks, reported := reported);
    SameDbsGrow(w, w');
    assert forall d :: NodeOf(w', d) == NodeOf(w, d);
    Carry(w, w');
  }

  lemma NodeStep(w: World, owner: DeviceId, node: Node)
    requires Inv(w) && NodeOk(w, owner, node)
    ensures Inv(w.(nodes := w.nodes[owner := node]))
  {
    var w' := w.(nodes := w.nodes[owner := node]);
    SameDbsGrow(w, w');
    NodeOkGrows(w, w', owner, node);
    forall d ensures NodeOf(w', d) == NodeOf(w, d) || NodeOk(w', d, NodeOf(w', d)) {
      assert d != owner ==> NodeOf(w', d) == NodeOf(w, d);
    }
    Carry(w, w');
  }

  // ---------- What the invariant says of one thing ----------

  lemma DbIsOk(w: World, d: DeviceId)
    requires Inv(w)
    ensures Valid(Db(w, d)) && forall i :: 0 <= i < |Db(w, d).contacts| ==> Honest(d, Db(w, d).contacts[i])
  {
    assert DbOk(w, d);
  }

  lemma CallIsOk(w: World, m: MsgId)
    requires Inv(w) && m in w.calls
    ensures CallOk(w, m, w.calls[m])
  {
  }

  lemma EnvelopeIsOk(w: World, m: MsgId)
    requires Inv(w) && m in w.emitted
    ensures EnvelopeOk(w, m) && WasSent(w, w.emitted[m])
  {
  }

  lemma NodeIsOk(w: World, d: DeviceId)
    requires Inv(w)
    ensures NodeOk(w, d, NodeOf(w, d))
  {
  }

  lemma DueIsOk(w: World, due: Due)
    requires Inv(w) && due in w.dues
    ensures DueOk(w, due)
  {
  }

  // ---------- Receiving keeps the invariant ----------

  lemma OpenedKeepsRows(db: Database, id: ContactId, opening: Opening)
    requires opening.Opens? && 1 <= id <= |db.contacts|
    ensures SameRows(db, Opened(db, id, opening)) && Opened(db, id, opening).lamport == db.lamport
    ensures Opened(db, id, opening).contacts == db.contacts
  {
  }

  /** What `Handled` does to a device's data, case by case. */
  lemma HandledCases(db: Database, id: ContactId, env: Envelope)
    requires Valid(db) && 1 <= id <= |db.contacts|
    ensures var (db', a) := Handled(db, id, env);
      && (a.ChatStored? ==>
            && env.payload.Chat? && !HasMessage(db.messages, id, env.msgId)
            && db' == ChatKept(db, id, env, env.payload.text))
      && (a.ReceiptApplied? ==> env.payload.Receipt? && db' == WithStatus(db, id, env.payload.msgId, Delivered))
      && (!a.ChatStored? && !a.ReceiptApplied? ==> SameRows(db, db'))
      && (env.payload.Chat? && Acknowledges(a) ==> a.ChatStored?)
  {
  }

  /** The database with a received chat added. */
  function ChatKept(db: Database, id: ContactId, env: Envelope, text: seq<byte>): Database {
    var observed := Observed(db, env.lamport);
    observed.(messages := db.messages + [Row(id, IncomingMessage(env, observed.lamport, text))])
  }

  /** Stores the message of `row` and notes the receipt that is now due. */
  lemma StoresRow(w: World, d: DeviceId, observed: Database, row: Row)
    requires Inv(w) && SameRows(Db(w, d), observed)
    requires 1 <= row.contact <= |observed.contacts| && row.message.direction.Incoming? && row.message.status.None?
    requires !HasMessage(observed.messages, row.contact, row.message.msgId)
    requires ChatSent(w, row.message.msgId, observed.contacts[row.contact - 1].identityKey, d, row.message.plaintext)
    ensures var db := observed.(messages := observed.messages + [row]);
      var w' := w.(dbs := w.dbs[d := db], dues := w.dues + {Due(d, row.contact, row.message.msgId)});
      Inv(w') && Grows(w, w') && Received(w', row.message.msgId, observed.contacts[row.contact - 1].identityKey, d)
  {
    hide Inv, DbOk, Valid, EnvelopeOk, NodeOk, CallOk;
    var from, m := observed.contacts[row.contact - 1].identityKey, row.message;
    var db := observed.(messages := observed.messages + [row]);
    var w1 := w.(dbs := w.dbs[d := observed]);
    SameRowsStep(w, d, observed);
    assert Db(w1, d) == observed;
    AppendRowStep(w1, d, row);
    var w2 := w1.(dbs := w1.dbs[d := db]);
    assert w2 == w.(dbs := w.dbs[d := db]);
    assert Db(w2, d) == db;
    assert IsIncoming(db, db.messages[|db.messages| - 1], from, m.msgId, m.plaintext);
    assert Received(w2, m.msgId, from, d);
    GrowsByOneDb(w, d, db);
    var due := Due(d, row.contact, m.msgId);
    DueStep(w2, due);
    var w' := w2.(dues := w2.dues + {due});
    SameDbsGrow(w2, w');
    ReceivedGrows(w2, w', m.msgId, from, d);
    assert forall x :: Db(w', x) == Db(w2, x);
  }

  /** A receipt only ever touches the sender's own outgoing row, and rightly. */
  lemma AppliesReceipt(w: World, d: DeviceId, env: Envelope, msgId: MsgId)
    requires Inv(w) && WasSent(w, env) && env.payload == Receipt(msgId) && env.recipient == d
    requires IndexOfCurve(Db(w, d).contacts, env.sender) < |Db(w, d).contacts|
    ensures var contact := IndexOfCurve(Db(w, d).contacts, env.sender) + 1;
      var db := WithStatus(Db(w, d), contact, msgId, Delivered);
      Inv(w.(dbs := w.dbs[d := db])) && Grows(w, w.(dbs := w.dbs[d := db]))
  {
    var i := IndexOfCurve(Db(w, d).contacts, env.sender);
    var db := WithStatus(Db(w, d), i + 1, msgId, Delivered);
    var w' := w.(dbs := w.dbs[d := db]);
    assert DbOk(w, d) && Honest(d, Db(w, d).contacts[i]) && EnvelopeOk(w, env.msgId);
    GrowsByOneDb(w, d, db);
    ReceivedGrows(w, w', msgId, d, env.sender);
    forall k | 0 <= k < |db.messages| ensures RowOk(w', d, db.messages[k]) {
      RowOkGrows(w, w', d, Db(w, d).messages[k]);
    }
    DbStep(w, d, db);
  }

  /** Any device may be handed any envelope that was sent, any number of times. */
  lemma ReceiveKeepsInv(w: World, d: DeviceId, env: Envelope, opening: Opening)
    requires Inv(w) && WasSent(w, env)
    ensures Inv(Receive(w, d, env, opening).0)
    ensures Grows(w, Receive(w, d, env, opening).0)
    ensures Receive(w, d, env, opening).1 && env.payload.Chat? ==>
      env.recipient == d && Received(Receive(w, d, env, opening).0, env.msgId, env.sender, d)
  {
    hide Inv, Grows, Received, Valid, SameRows;
    var i := IndexOfCurve(Db(w, d).contacts, env.sender);
    if opening.Opens? && env.recipient == d && i < |Db(w, d).contacts| {
      OpensKeepsInv(w, d, env, opening);
    } else {
      assert SameRows(Db(w, d), Db(w, d)) by { SameRowsReflexive(Db(w, d)); }
      SameRowsStep(w, d, Db(w, d));
    }
  }

  lemma SameRowsReflexive(db: Database)
    ensures SameRows(db, db)
  {
  }

  lemma GrowsTwice(w: World, w1: World, w2: World)
    requires Grows(w, w1) && Grows(w1, w2)
    ensures Grows(w, w2)
  {
    forall d ensures Extends(Db(w, d), Db(w2, d)) {
      assert Extends(Db(w, d), Db(w1, d)) && Extends(Db(w1, d), Db(w2, d));
    }
  }

  lemma OpensKeepsInv(w: World, d: DeviceId, env: Envelope, opening: Opening)
    requires Inv(w) && WasSent(w, env) && opening.Opens? && env.recipient == d
    requires IndexOfCurve(Db(w, d).contacts, env.sender) < |Db(w, d).contacts|
    ensures Inv(Receive(w, d, env, opening).0)
    ensures Grows(w, Receive(w, d, env, opening).0)
    ensures Receive(w, d, env, opening).1 && env.payload.Chat? ==>
      Received(Receive(w, d, env, opening).0, env.msgId, env.sender, d)
  {
    hide Inv, Grows, Received, Valid, WithStatus, HasMessage, RowOk, Opened, Handled, SameRows, ChatKept;
    var i := IndexOfCurve(Db(w, d).contacts, env.sender);
    DbIsOk(w, d);
    IdOfContact(w, d, i);
    var db := Opened(Db(w, d), i + 1, opening);
    OpenedKeepsRows(Db(w, d), i + 1, opening);
    SameRowsStep(w, d, db);
    var w1 := w.(dbs := w.dbs[d := db]);
    assert Db(w1, d) == db;
    DbIsOk(w1, d);
    HandledCases(db, i + 1, env);
    HandledKeepsInv(w1, d, env);
    var db' := Handled(db, i + 1, env).0;
    assert w.dbs[d := db][d := db'] == w.dbs[d := db'];
    GrowsTwice(w, w1, Stepped(w1, d, env));
    assert Receive(w, d, env, opening).0 == Stepped(w1, d, env);
  }

  lemma IdOfContact(w: World, d: DeviceId, i: nat)
    requires Inv(w) && i < |Db(w, d).contacts|
    ensures Db(w, d).contacts[i].id == i + 1 && Honest(d, Db(w, d).contacts[i])
  {
    assert DbOk(w, d);
  }

  /** The world after device `d` has handled an envelope it has opened. */
  function Stepped(w: World, d: DeviceId, env: Envelope): World {
    var contact := IndexOfCurve(Db(w, d).contacts, env.sender) + 1;
    var (db, a) := Handled(Db(w, d), contact, env);
    w.(dbs := w.dbs[d := db], dues := if a.ChatStored? then w.dues + {Due(d, contact, env.msgId)} else w.dues)
  }

  lemma HandledKeepsInv(w: World, d: DeviceId, env: Envelope)
    requires Inv(w) && WasSent(w, env) && env.recipient == d
    requires IndexOfCurve(Db(w, d).contacts, env.sender) < |Db(w, d).contacts|
    ensures Inv(Stepped(w, d, env)) && Grows(w, Stepped(w, d, env))
    ensures Handled(Db(w, d), IndexOfCurve(Db(w, d).contacts, env.sender) + 1, env).1.ChatStored? ==>
      Received(Stepped(w, d, env), env.msgId, env.sender, d)
  {
    hide Inv, Grows, Received, Valid, WithStatus, HasMessage, RowOk, Handled;
    var db := Db(w, d);
    var i := IndexOfCurve(db.contacts, env.sender);
    DbIsOk(w, d);
    IdOfContact(w, d, i);
    HandledCases(db, i + 1, env);
    var (db', a) := Handled(db, i + 1, env);
    if a.ChatStored? {
      var observed := Observed(db, env.lamport);
      StoresRow(w, d, observed, Row(i + 1, IncomingMessage(env, observed.lamport, env.payload.text)));
    } else if a.ReceiptApplied? {
      AppliesReceipt(w, d, env, env.payload.msgId);
    } else {
      SameRowsStep(w, d, db');
    }
  }

  // ---------- The events ----------

  lemma SamePeopleSameRows(db: Database, db': Database)
    requires SamePeople(db, db')
    ensures SameRows(db, db')
  {
  }

  /** What beginning a delivery changes. */
  lemma BeginStep(w: World, e: Event)
    requires e.Begin?
    ensures var w', p := After(w, e), Prepared(Db(w, e.d), e.d, e.contact, e.payload, e.m, e.now, e.sealing);
      && w'.dbs == w.dbs[e.d := p.db] && w'.nodes == w.nodes
      && Db(w', e.d) == p.db && (forall x :: x != e.d ==> Db(w', x) == Db(w, x))
      && (p.Unsendable? ==> w'.emitted == w.emitted && w'.calls == w.calls)
      && (p.Ready? ==>
            && w'.emitted == w.emitted[e.m := p.env]
            && e.m in w'.calls && w'.calls == w.calls[e.m := w'.calls[e.m]]
            && w'.calls[e.m].device == e.d && w'.calls[e.m].contact == e.contact
            && w'.calls[e.m].stage == match p.route
                                      case ViaServer(_, auth) => ToServer(e.owner, auth)
                                      case Direct(key) => Dialing(key))
  {
    hide Prepared;
  }

  lemma PollStep(w: World, e: Event)
    requires e.Poll?
    ensures var w' := After(w, e);
      var response := NodeHandler.Handled(NodeOf(w, e.d), NodeHandler.PollFailedDeliveries(e.d), 0).1;
      var ids := if response.FailedDeliveries? then response.ids else [];
      && (forall x :: x != e.d ==> Db(w', x) == Db(w, x))
      && Db(w', e.d) == (if e.answered then AllFailed(Db(w, e.d), ids) else Db(w, e.d))
      && w'.emitted == w.emitted && w'.calls == w.calls
  {
    hide NodeHandler.Handled, AllFailed;
  }

  lemma BeginKeepsInv(w: World, e: Event)
    requires Inv(w) && Enabled(w, e) && e.Begin?
    ensures Inv(After(w, e))
  {
    hide Inv, Valid, Prepared, Received, Extends;
    var p := Prepared(Db(w, e.d), e.d, e.contact, e.payload, e.m, e.now, e.sealing);
    var w1 := w.(dbs := w.dbs[e.d := p.db]);
    DbIsOk(w, e.d);
    PreparationCases(Db(w, e.d), e.d, e.contact, e.payload, e.m, e.now, e.sealing);
    SamePeopleSameRows(Db(w, e.d), p.db);
    SameRowsStep(w, e.d, p.db);
    if p.Ready? {
      assert Db(w1, e.d) == p.db;
      if e.payload.Receipt? {
        var due := Due(e.d, e.contact, e.payload.msgId);
        DueIsOk(w, due);
        DueOkGrows(w, w1, due);
      }
      BeginsCall(w1, e.m, p.env, After(w, e).calls[e.m]);
    }
  }

  /** An envelope goes out and its `deliver` call starts. */
  lemma BeginsCall(w: World, m: MsgId, env: Envelope, call: Call)
    requires Inv(w) && m !in w.emitted && env.msgId == m && env.sender == call.device
    requires env.payload.Receipt? ==> Received(w, env.payload.msgId, env.recipient, env.sender)
    requires 1 <= call.contact <= |Db(w, call.device).contacts|
    requires Db(w, call.device).contacts[call.contact - 1].identityKey == env.recipient
    requires call.stage.ToServer? || call.stage.Dialing?
    ensures Inv(w.(emitted := w.emitted[m := env], calls := w.calls[m := call]))
  {
    hide Inv, Received;
    EmitStep(w, m, env);
    var w1 := w.(emitted := w.emitted[m := env]);
    assert Db(w1, call.device) == Db(w, call.device);
    CallStep(w1, m, call);
  }

  /** A request reaches a node, which answers; the call moves on. */
  lemma RequestStep(w: World, m: MsgId, stage: Stage, owner: DeviceId, node: Node)
    requires Inv(w) && m in w.calls && NodeOk(w, owner, node)
    requires !stage.DialAnswered? && !stage.Done?
    ensures Inv(WithStage(w.(nodes := w.nodes[owner := node]), m, stage))
  {
    hide Inv, NodeOk, Received, Extends;
    CallIsOk(w, m);
    NodeStep(w, owner, node);
    var w1 := w.(nodes := w.nodes[owner := node]);
    SameDbsGrow(w, w1);
    CallStep(w1, m, w.calls[m].(stage := stage));
  }

  /** Any envelope that was sent may be written to any node, and scheduled at its sender's. */
  lemma WriteKeepsNodeOk(w: World, owner: DeviceId, auth: Secret, m: MsgId, at: int)
    requires Inv(w) && m in w.emitted
    ensures NodeOk(w, owner, NodeHandler.Handled(NodeOf(w, owner), NodeHandler.Write(auth, w.emitted[m]), at).0)
  {
    hide Inv, Received;
    NodeIsOk(w, owner);
    EnvelopeIsOk(w, m);
  }

  lemma ScheduleKeepsNodeOk(w: World, m: MsgId, peer: DeviceId, at: int)
    requires Inv(w) && m in w.emitted
    ensures var d := w.emitted[m].sender;
      NodeOk(w, d, NodeHandler.Handled(NodeOf(w, d), NodeHandler.ScheduleRetry(d, m, peer, w.emitted[m]), at).0)
  {
    hide Inv, Received;
    NodeIsOk(w, w.emitted[m].sender);
  }

  lemma WriteReachesKeepsInv(w: World, e: Event)
    requires Inv(w) && e.WriteReaches?
    ensures Inv(After(w, e))
  {
    hide Inv, Received, NodeOk, NodeHandler.Handled;
    if e.m in w.calls && e.m in w.emitted && w.calls[e.m].stage.ToServer? {
      var owner, auth := w.calls[e.m].stage.owner, w.calls[e.m].stage.auth;
      WriteKeepsNodeOk(w, owner, auth, e.m, e.at);
      var (node, response) := NodeHandler.Handled(NodeOf(w, owner), NodeHandler.Write(auth, w.emitted[e.m]), e.at);
      RequestStep(w, e.m, ServerAnswered(response == NodeHandler.Ok), owner, node);
    }
  }

  lemma ScheduleReachesKeepsInv(w: World, e: Event)
    requires Inv(w) && e.ScheduleReaches?
    ensures Inv(After(w, e))
  {
    hide Inv, Received, NodeOk, NodeHandler.Handled;
    if e.m in w.calls && e.m in w.emitted && w.calls[e.m].stage.Scheduling? {
      var d, peer := w.calls[e.m].device, w.calls[e.m].stage.peer;
      CallIsOk(w, e.m);
      ScheduleKeepsNodeOk(w, e.m, peer, e.at);
      var request := NodeHandler.ScheduleRetry(d, e.m, peer, w.emitted[e.m]);
      var (node, response) := NodeHandler.Handled(NodeOf(w, d), request, e.at);
      RequestStep(w, e.m, ScheduleAnswered(response == NodeHandler.Ok), d, node);
    }
  }

  /** A request may reach its node long after the call that made it has ended. */
  lemma StrayRequestKeepsInv(w: World, e: Event)
    requires Inv(w) && (e.StrayWrite? || e.StraySchedule?)
    ensures Inv(After(w, e))
  {
    hide Inv, NodeOk, NodeHandler.Handled;
    if e.m in w.emitted {
      var env := w.emitted[e.m];
      if e.StrayWrite? {
        WriteKeepsNodeOk(w, e.owner, e.auth, e.m, e.at);
        NodeStep(w, e.owner, NodeHandler.Handled(NodeOf(w, e.owner), NodeHandler.Write(e.auth, env), e.at).0);
      } else {
        ScheduleKeepsNodeOk(w, e.m, e.peer, e.at);
        var request := NodeHandler.ScheduleRetry(env.sender, e.m, e.peer, env);
        NodeStep(w, env.sender, NodeHandler.Handled(NodeOf(w, env.sender), request, e.at).0);
      }
    }
  }

  lemma DialReachesKeepsInv(w: World, e: Event)
    requires Inv(w) && e.DialReaches?
    ensures Inv(After(w, e))
  {
    hide Inv, Received, Extends, Receive;
    if e.m in w.calls && e.m in w.emitted && w.calls[e.m].stage.Dialing? {
      var peer, env := w.calls[e.m].stage.peer, w.emitted[e.m];
      EnvelopeIsOk(w, e.m);
      CallIsOk(w, e.m);
      ReceiveKeepsInv(w, peer, env, e.opening);
      ReceiveKeepsCalls(w, peer, env, e.opening);
      var (w1, ok) := Receive(w, peer, env, e.opening);
      CallOkGrows(w, w1, e.m, w.calls[e.m]);
      CallStep(w1, e.m, w.calls[e.m].(stage := DialAnswered(peer, ok)));
    }
  }

  lemma ReceiveKeepsCalls(w: World, d: DeviceId, env: Envelope, opening: Opening)
    ensures Receive(w, d, env, opening).0.calls == w.calls && Receive(w, d, env, opening).0.emitted == w.emitted
  {
  }

  /** A call may move to any stage that claims no more than its present one. */
  lemma StageStep(w: World, m: MsgId, stage: Stage)
    requires Inv(w) && m in w.calls
    requires (stage.DialAnswered? && stage.ok) || stage == Done(Delivered) ==>
      w.calls[m].stage.DialAnswered? && w.calls[m].stage.ok
    ensures Inv(WithStage(w, m, stage))
  {
    hide Inv, Received;
    CallIsOk(w, m);
    CallStep(w, m, w.calls[m].(stage := stage));
  }

  lemma FallBackStep(w: World, m: MsgId, peer: DeviceId)
    requires Inv(w) && m in w.calls
    ensures Inv(FallBack(w, m, peer))
  {
    hide Inv;
    StageStep(w, m, Scheduling(peer));
    AbandonStep(w, m);
  }

  lemma AnswerKeepsInv(w: World, m: MsgId)
    requires Inv(w) && m in w.calls
    ensures Inv(Answered(w, m))
  {
    hide Inv, FallBack, WithStage, Abandoned;
    AbandonStep(w, m);
    match w.calls[m].stage
    case ServerAnswered(_) => StageStep(w, m, Done(Sent));
    case DialAnswered(peer, ok) =>
      if ok {
        StageStep(w, m, Done(Delivered));
      } else {
        FallBackStep(w, m, peer);
      }
    case ScheduleAnswered(_) => StageStep(w, m, Done(Sent));
    case _ =>
  }

  lemma NoAnswerKeepsInv(w: World, m: MsgId)
    requires Inv(w) && m in w.calls
    ensures Inv(Unanswered(w, m))
  {
    hide Inv, FallBack, WithStage, Abandoned;
    AbandonStep(w, m);
    match w.calls[m].stage
    case Dialing(peer) => FallBackStep(w, m, peer);
    case DialAnswered(peer, _) => FallBackStep(w, m, peer);
    case _ =>
  }

  lemma ReturnKeepsInv(w: World, e: Event)
    requires Inv(w) && e.Return?
    ensures Inv(After(w, e))
  {
    hide Inv, Valid, Grows;
    if e.m in w.calls && w.calls[e.m].stage.Done? && e.m in w.emitted {
      var call, env := w.calls[e.m], w.emitted[e.m];
      CallIsOk(w, e.m);
      AbandonStep(w, e.m);
      var w1 := Abandoned(w, e.m);
      var db := WithSession(Db(w, call.device), call.contact, call.session);
      assert Db(w1, call.device) == Db(w, call.device);
      SameRowsStep(w1, call.device, db);
      var w2 := w1.(dbs := w1.dbs[call.device := db]);
      SameDbsGrow(w, w1);
      CallOkGrows(w, w1, e.m, call);
      CallOkGrows(w1, w2, e.m, call);
      assert Db(w2, call.device) == db;
      if env.payload.Chat? && !HasMessage(db.messages, call.contact, e.m) {
        KeepsSentRow(w2, e.m, call);
        var m := SentMessage(e.m, env, env.payload.text, call.stage.status);
        var db' := db.(messages := db.messages + [Row(call.contact, m)]);
        assert w2.dbs[call.device := db'] == w.dbs[call.device := db'];
      }
    }
  }

  lemma KeepsSentRow(w: World, m: MsgId, call: Call)
    requires Inv(w) && CallOk(w, m, call) && call.stage.Done? && w.emitted[m].payload.Chat?
    requires !HasMessage(Db(w, call.device).messages, call.contact, m)
    ensures var row := Row(call.contact, SentMessage(m, w.emitted[m], w.emitted[m].payload.text, call.stage.status));
      var db := Db(w, call.device).(messages := Db(w, call.device).messages + [row]);
      Inv(w.(dbs := w.dbs[call.device := db]))
  {
    hide Inv, Valid, Grows;
    var m' := SentMessage(m, w.emitted[m], w.emitted[m].payload.text, call.stage.status);
    AppendRowStep(w, call.device, Row(call.contact, m'));
  }

  lemma QueueStepKeepsInv(w: World, owner: DeviceId, queue: RetryQueue.Queue<Envelope>)
    requires Inv(w)
    requires forall m :: m in queue.entries ==>
      m in NodeOf(w, owner).queue.entries && queue.entries[m].envelope == NodeOf(w, owner).queue.entries[m].envelope
    requires forall i :: 0 <= i < |queue.failed| ==>
      queue.failed[i] in NodeOf(w, owner).queue.failed || queue.failed[i] in NodeOf(w, owner).queue.entries
    ensures Inv(WithQueue(w, owner, queue))
  {
    hide Inv, WasSent;
    NodeIsOk(w, owner);
    NodeStep(w, owner, NodeOf(w, owner).(queue := queue));
  }

  lemma SweepKeepsInv(w: World, e: Event)
    requires Inv(w) && (e.Sweep? || e.NodeReport?)
    ensures Inv(After(w, e))
  {
    hide Inv;
    QueueStepKeepsInv(w, e.owner, NodeOf(After(w, e), e.owner).queue);
  }

  lemma HousekeepingKeepsInv(w: World, e: Event)
    requires Inv(w) && Enabled(w, e) && e.Housekeeping?
    ensures Inv(After(w, e))
  {
    hide Inv, WasSent;
    NodeIsOk(w, e.owner);
    NodeStep(w, e.owner, NodeHandler.Handled(NodeOf(w, e.owner), e.request, e.at).0);
  }

  /** Marking one of the device's own sends as failed cannot touch an incoming row. */
  lemma MarkFailedKeepsInv(w: World, d: DeviceId, m: MsgId)
    requires Inv(w) && m in w.emitted && w.emitted[m].sender == d
    ensures Inv(w.(dbs := w.dbs[d := WithStatusByMsgId(Db(w, d), m, Failed)]))
  {
    var db := WithStatusByMsgId(Db(w, d), m, Failed);
    var w' := w.(dbs := w.dbs[d := db]);
    assert DbOk(w, d);
    GrowsByOneDb(w, d, db);
    forall k | 0 <= k < |db.messages| ensures RowOk(w', d, db.messages[k]) {
      RowOkGrows(w, w', d, Db(w, d).messages[k]);
      assert Honest(d, Db(w, d).contacts[Db(w, d).messages[k].contact - 1]);
    }
    DbStep(w, d, db);
  }

  lemma {:induction false} AllFailedKeepsInv(w: World, d: DeviceId, ids: seq<MsgId>)
    requires Inv(w) && forall i :: 0 <= i < |ids| ==> ids[i] in w.emitted && w.emitted[ids[i]].sender == d
    ensures Inv(w.(dbs := w.dbs[d := AllFailed(Db(w, d), ids)]))
    decreases ids
  {
    if ids == [] {
      SameRowsStep(w, d, Db(w, d));
    } else {
      var w1 := w.(dbs := w.dbs[d := WithStatusByMsgId(Db(w, d), ids[0], Failed)]);
      MarkFailedKeepsInv(w, d, ids[0]);
      AllFailedKeepsInv(w1, d, ids[1..]);
      assert w1.dbs[d := AllFailed(Db(w1, d), ids[1..])] == w.dbs[d := AllFailed(Db(w, d), ids)];
    }
  }

  lemma PollKeepsInv(w: World, e: Event)
    requires Inv(w) && e.Poll?
    ensures Inv(After(w, e))
  {
    hide Inv, WasSent;
    var queue := NodeOf(w, e.d).queue;
    NodeIsOk(w, e.d);
    QueueStepKeepsInv(w, e.d, RetryQueue.Drained(queue));
    var w1 := WithQueue(w, e.d, RetryQueue.Drained(queue));
    var reported := w.reported + set m | m in queue.failed :: (e.d, m);
    HistoryStep(w1, w1.acks, reported);
    if e.answered {
      AllFailedKeepsInv(w1.(acks := w1.acks, reported := reported), e.d, queue.failed);
    }
  }

  lemma NodeDialKeepsInv(w: World, owner: DeviceId, m: MsgId, opening: Opening)
    requires Inv(w)
    ensures Inv(After(w, NodeDial(owner, m, opening)))
  {
    hide Inv, Receive, Grows, Received;
    var entries := NodeOf(w, owner).queue.entries;
    NodeIsOk(w, owner);
    if m in entries {
      EnvelopeIsOk(w, m);
      ReceiveKeepsInv(w, entries[m].recipient, entries[m].envelope, opening);
      var w1 := Receive(w, entries[m].recipient, entries[m].envelope, opening).0;
      HistoryStep(w1, w1.acks + {(owner, m)}, w1.reported);
    }
  }

  lemma HandOverKeepsInv(w: World, e: Event)
    requires Inv(w) && (e.SyncReceives? || e.Stray?)
    ensures Inv(After(w, e))
  {
    hide Inv, Receive, Grows, Received;
    match e
    case SyncReceives(d, k, opening) =>
      NodeIsOk(w, d);
      if k < |NodeOf(w, d).mailbox.blobs| {
        ReceiveKeepsInv(w, d, NodeOf(w, d).mailbox.blobs[k].data, opening);
      }
    case Stray(m, d, opening) =>
      if m in w.emitted {
        EnvelopeIsOk(w, m);
        ReceiveKeepsInv(w, d, w.emitted[m], opening);
      }
  }

  lemma StepKeepsInv(w: World, e: Event)
    requires Inv(w) && Enabled(w, e)
    ensures Inv(After(w, e))
  {
    hide Inv, Enabled, Receive, Requested, Returned, Answered, Unanswered, Begun, WithStage;
    match e
    case Begin(_, _, _, _, _, _, _) => BeginKeepsInv(w, e);
    case WriteReaches(_, _) => WriteReachesKeepsInv(w, e);
    case DialReaches(_, _) => DialReachesKeepsInv(w, e);
    case ScheduleReaches(_, _) => ScheduleReachesKeepsInv(w, e);
    case AnswerArrives(m) =>
      if m in w.calls {
        AnswerKeepsInv(w, m);
      }
    case NoAnswer(m) =>
      if m in w.calls {
        NoAnswerKeepsInv(w, m);
      }
    case Return(_) => ReturnKeepsInv(w, e);
    case Sweep(_, _) => SweepKeepsInv(w, e);
    case NodeReport(_, _, _, _) => SweepKeepsInv(w, e);
    case Poll(_, _) => PollKeepsInv(w, e);
    case Housekeeping(_, _, _) => HousekeepingKeepsInv(w, e);
    case StrayWrite(_, _, _, _) => StrayRequestKeepsInv(w, e);
    case StraySchedule(_, _, _) => StrayRequestKeepsInv(w, e);
    case NodeDial(owner, m, opening) => NodeDialKeepsInv(w, owner, m, opening);
    case _ => HandOverKeepsInv(w, e);
  }

  lemma {:induction false} RunKeepsInv(w: World, events: seq<Event>)
    requires Inv(w) && ValidRun(w, events)
    ensures Inv(Final(w, events))
    decreases events
  {
    if events != [] {
      StepKeepsInv(w, events[0]);
      RunKeepsInv(After(w, events[0]), events[1..]);
    }
  }

  // ---------- The stages of a call and the `deliver` method ----------

  /** The stages of call `m` played out under fixed answers of the network. */
  function PlayedOut(w: World, m: MsgId, net: Network): World
    requires m in w.calls
  {
    match w.calls[m].stage
    case ToServer(_, _) => Answered(WithStage(w, m, ServerAnswered(net.writeOk)), m)
    case Dialing(peer) =>
      var w1 := if net.dialOk then Answered(WithStage(w, m, DialAnswered(peer, true)), m) else Unanswered(w, m);
      if m in w1.calls && w1.calls[m].stage.Scheduling?
      then Answered(WithStage(w1, m, ScheduleAnswered(net.retryOk)), m) else w1
    case _ => w
  }

  lemma StagesEndAsOutcome(w: World, m: MsgId, route: Route, net: Network)
    requires m in w.calls
    requires route.ViaServer? ==> w.calls[m].stage.ToServer?
    requires route.Direct? ==> w.calls[m].stage.Dialing?
    ensures var ended := PlayedOut(w, m, net).calls;
      match Outcome(route, AccountOf(Db(w, w.calls[m].device)).ownServerAddr.Some?, net)
      case None => m !in ended
      case Some(status) => m in ended && ended[m].stage == Done(status)
  {
  }

  lemma PreparedKeepsAccount(db: Database, e: Event)
    requires e.Begin?
    ensures Prepared(db, e.d, e.contact, e.payload, e.m, e.now, e.sealing).db.account == db.account
  {
  }

  /** A call begun by the state machine ends as the `deliver` method says, on every route and for all answers. */
  lemma CallsEndAsDeliverSays(w: World, e: Event, net: Network)
    requires e.Begin? && e.m !in w.calls
    ensures var p := Prepared(Db(w, e.d), e.d, e.contact, e.payload, e.m, e.now, e.sealing);
      && (e.m in After(w, e).calls <==> p.Ready?)
      && (p.Ready? ==>
            var ended := PlayedOut(After(w, e), e.m, net).calls;
            match Outcome(p.route, AccountOf(Db(w, e.d)).ownServerAddr.Some?, net)
            case None => e.m !in ended
            case Some(status) => e.m in ended && ended[e.m].stage == Done(status))
  {
    hide PlayedOut, Outcome;
    var p := Prepared(Db(w, e.d), e.d, e.contact, e.payload, e.m, e.now, e.sealing);
    if p.Ready? {
      var w' := After(w, e);
      assert Db(w', e.d).account == Db(w, e.d).account by {
        PreparedKeepsAccount(Db(w, e.d), e);
      }
      StagesEndAsOutcome(w', e.m, p.route, net);
    }
  }

  // ---------- Main results ----------

  /**
   In every run: an outgoing message shown as delivered is held by its recipient, as an incoming message
   with the same id and text under the sender's contact.
   */
  lemma DeliveredIsTruthful(w: World, events: seq<Event>, d: DeviceId, k: nat)
    requires Start(w) && ValidRun(w, events) && k < |Db(Final(w, events), d).messages|
    requires var m := Db(Final(w, events), d).messages[k].message;
      m.direction.Outgoing? && m.status == Some(Delivered)
    ensures var w', row := Final(w, events), Db(Final(w, events), d).messages[k];
      && 1 <= row.contact <= |Db(w', d).contacts|
      && HasIncoming(w', Db(w', d).contacts[row.contact - 1].identityKey, d, row.message.msgId, row.message.plaintext)
  {
    RunKeepsInv(w, events);
    assert DbOk(Final(w, events), d);
    assert RowOk(Final(w, events), d, Db(Final(w, events), d).messages[k]);
  }

  /** Incoming messages never gain a status, outgoing ones always have one, and no message is stored twice. */
  lemma StatusesBelongToOutgoing(w: World, events: seq<Event>, d: DeviceId, k: nat)
    requires Start(w) && ValidRun(w, events) && k < |Db(Final(w, events), d).messages|
    ensures var m := Db(Final(w, events), d).messages[k].message; m.status.Some? <==> m.direction.Outgoing?
    ensures DistinctMessages(Db(Final(w, events), d).messages)
  {
    RunKeepsInv(w, events);
    assert DbOk(Final(w, events), d);
    assert RowOk(Final(w, events), d, Db(Final(w, events), d).messages[k]);
  }

  /** What a device shows as received was really sent to it, by that contact, with that text. */
  lemma IncomingIsAuthentic(w: World, events: seq<Event>, d: DeviceId, k: nat)
    requires Start(w) && ValidRun(w, events) && k < |Db(Final(w, events), d).messages|
    requires Db(Final(w, events), d).messages[k].message.direction.Incoming?
    ensures var w', row := Final(w, events), Db(Final(w, events), d).messages[k];
      && 1 <= row.contact <= |Db(w', d).contacts|
      && ChatSent(w', row.message.msgId, Db(w', d).contacts[row.contact - 1].identityKey, d, row.message.plaintext)
  {
    RunKeepsInv(w, events);
    assert DbOk(Final(w, events), d);
    assert RowOk(Final(w, events), d, Db(Final(w, events), d).messages[k]);
  }
}

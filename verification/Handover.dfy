/**
 What it means that a message is shown as sent: somebody else has taken responsibility for it. Runs are
 those of `Delivery`.
 */
module Handover {
  import opened Wrappers
  import opened Bytes
  import opened Store
  import opened Client
  import opened Delivery
  import NodeHandler

  // ---------- Who has the message ----------

  /** A node's mailbox holds this envelope. */
  ghost predicate Holds(node: Node, env: Envelope) {
    exists i :: 0 <= i < |node.mailbox.blobs| && node.mailbox.blobs[i].data == env
  }

  ghost predicate Deposited(w: World, env: Envelope) {
    exists owner :: Holds(NodeOf(w, owner), env)
  }

  /** Device `d`'s own node has been asked to deliver `m`: it is trying, has succeeded, or has given up. */
  predicate WithOwnNode(w: World, m: MsgId, d: DeviceId) {
    || m in NodeOf(w, d).queue.entries
    || (d, m) in w.acks
    || m in NodeOf(w, d).queue.failed
    || (d, m) in w.reported
  }

  ghost predicate Handed(w: World, m: MsgId, d: DeviceId) {
    m in w.emitted && (Deposited(w, w.emitted[m]) || WithOwnNode(w, m, d))
  }

  /** The call has been told, or has told its caller, that the message was taken over. */
  predicate Claims(stage: Stage) {
    (stage.ServerAnswered? && stage.ok) || (stage.ScheduleAnswered? && stage.ok) || stage == Done(Sent)
  }

  predicate ShownAsSent(row: Row) {
    row.message.direction.Outgoing? && row.message.status == Some(Sent)
  }

  /** The recipient's acknowledgement of a chat is the recipient's word for it. */
  ghost predicate AckOk(w: World, m: MsgId) {
    m in w.emitted
    && (w.emitted[m].payload.Chat? ==> Received(w, m, w.emitted[m].sender, w.emitted[m].recipient))
  }

  ghost predicate CallsHandOver(w: World) {
    forall m :: m in w.calls && Claims(w.calls[m].stage) ==> Handed(w, m, w.calls[m].device)
  }

  ghost predicate RowsHandedOver(w: World) {
    forall d, row :: row in Db(w, d).messages && ShownAsSent(row) ==> Handed(w, row.message.msgId, d)
  }

  ghost predicate AcksOk(w: World) {
    forall owner, m :: (owner, m) in w.acks ==> AckOk(w, m)
  }

  ghost predicate HandoverInv(w: World) {
    Inv(w) && CallsHandOver(w) && RowsHandedOver(w) && AcksOk(w)
  }

  // ---------- Nothing handed over is dropped ----------

  /** Blobs stay; a queued message stays, or was acknowledged or given up; a failure stays or is reported. */
  ghost predicate NodeKeeps(w: World, w': World, d: DeviceId) {
    var node, node' := NodeOf(w, d), NodeOf(w', d);
    && |node.mailbox.blobs| <= |node'.mailbox.blobs|
    && (forall i :: 0 <= i < |node.mailbox.blobs| ==> node'.mailbox.blobs[i].data == node.mailbox.blobs[i].data)
    && (forall m :: m in node.queue.entries ==>
          m in node'.queue.entries || m in node'.queue.failed || (d, m) in w'.acks)
    && (forall m :: m in node.queue.failed ==> m in node'.queue.failed || (d, m) in w'.reported)
  }

  ghost predicate Keeps(w: World, w': World) {
    && (forall m :: m in w.emitted ==> m in w'.emitted && w'.emitted[m] == w.emitted[m])
    && w.acks <= w'.acks && w.reported <= w'.reported
    && forall d :: NodeKeeps(w, w', d)
  }

  lemma HandedStays(w: World, w': World, m: MsgId, d: DeviceId)
    requires Keeps(w, w') && Handed(w, m, d)
    ensures Handed(w', m, d)
  {
    if Deposited(w, w.emitted[m]) {
      var owner :| Holds(NodeOf(w, owner), w.emitted[m]);
      assert NodeKeeps(w, w', owner);
      var i :| 0 <= i < |NodeOf(w, owner).mailbox.blobs| && NodeOf(w, owner).mailbox.blobs[i].data == w.emitted[m];
      assert NodeOf(w', owner).mailbox.blobs[i].data == w'.emitted[m];
      assert Holds(NodeOf(w', owner), w'.emitted[m]);
    } else {
      assert NodeKeeps(w, w', d);
    }
  }

  /** A request other than a poll takes nothing away from a node. */
  lemma RequestKeeps(node: Node, request: NodeHandler.Request<Envelope>, at: int)
    requires !request.PollFailedDeliveries?
    ensures var node' := NodeHandler.Handled(node, request, at).0;
      && |node.mailbox.blobs| <= |node'.mailbox.blobs|
      && (forall i :: 0 <= i < |node.mailbox.blobs| ==> node'.mailbox.blobs[i].data == node.mailbox.blobs[i].data)
      && (forall m :: m in node.queue.entries ==> m in node'.queue.entries)
      && node'.queue.failed == node.queue.failed
  {
  }

  lemma OneNodeKeeps(w: World, w': World, owner: DeviceId)
    requires w'.emitted == w.emitted && w.acks <= w'.acks && w.reported <= w'.reported
    requires forall d :: d != owner ==> NodeOf(w', d) == NodeOf(w, d)
    requires NodeKeeps(w, w', owner)
    ensures Keeps(w, w')
  {
    forall d ensures NodeKeeps(w, w', d) {
      assert d != owner ==> NodeOf(w', d) == NodeOf(w, d);
    }
  }

  lemma SameNodesKeep(w: World, w': World)
    requires forall m :: m in w.emitted ==> m in w'.emitted && w'.emitted[m] == w.emitted[m]
    requires w.acks <= w'.acks && w.reported <= w'.reported && w'.nodes == w.nodes
    ensures Keeps(w, w')
  {
    forall d ensures NodeKeeps(w, w', d) {
      assert NodeOf(w', d) == NodeOf(w, d);
    }
  }

  lemma RequestedKeeps(w: World, owner: DeviceId, request: NodeHandler.Request<Envelope>, at: int)
    requires !request.PollFailedDeliveries?
    ensures Keeps(w, Requested(w, owner, request, at).0)
  {
    hide Keeps;
    RequestKeeps(NodeOf(w, owner), request, at);
    hide NodeHandler.Handled;
    OneNodeKeeps(w, Requested(w, owner, request, at).0, owner);
  }

  lemma StagedKeeps(w: World, w': World, m: MsgId, stage: Stage)
    requires m in w'.calls && Keeps(w, w')
    ensures Keeps(w, WithStage(w', m, stage))
  {
    var w2 := WithStage(w', m, stage);
    forall d ensures NodeKeeps(w, w2, d) {
      assert NodeKeeps(w, w', d) && NodeOf(w2, d) == NodeOf(w', d);
    }
  }

  lemma ReportKeeps(w: World, e: Event)
    requires Enabled(w, e) && (e.Sweep? || e.NodeReport?)
    ensures Keeps(w, After(w, e))
  {
    hide Keeps;
    OneNodeKeeps(w, After(w, e), e.owner);
  }

  lemma PollKeeps(w: World, e: Event)
    requires e.Poll?
    ensures Keeps(w, After(w, e))
  {
    hide Keeps, AllFailed;
    OneNodeKeeps(w, After(w, e), e.d);
  }

  lemma RequestEventsKeep(w: World, e: Event)
    requires Enabled(w, e) && IsRequest(e)
    ensures Keeps(w, After(w, e))
  {
    hide Keeps, Requested;
    match e
    case WriteReaches(m, at) =>
      if m in w.calls && m in w.emitted && w.calls[m].stage.ToServer? {
        var call := w.calls[m];
        var request := NodeHandler.Write(call.stage.auth, w.emitted[m]);
        RequestedKeeps(w, call.stage.owner, request, at);
        RequestedKeepsCalls(w, call.stage.owner, request, at);
        var (w', ok) := Requested(w, call.stage.owner, request, at);
        StagedKeeps(w, w', m, ServerAnswered(ok));
      } else {
        SameNodesKeep(w, w);
      }
    case ScheduleReaches(m, at) =>
      if m in w.calls && m in w.emitted && w.calls[m].stage.Scheduling? {
        var call := w.calls[m];
        var request := NodeHandler.ScheduleRetry(call.device, m, call.stage.peer, w.emitted[m]);
        RequestedKeeps(w, call.device, request, at);
        RequestedKeepsCalls(w, call.device, request, at);
        var (w', ok) := Requested(w, call.device, request, at);
        StagedKeeps(w, w', m, ScheduleAnswered(ok));
      } else {
        SameNodesKeep(w, w);
      }
    case Housekeeping(owner, request, at) => RequestedKeeps(w, owner, request, at);
    case StrayWrite(m, owner, auth, at) =>
      if m in w.emitted {
        RequestedKeeps(w, owner, NodeHandler.Write(auth, w.emitted[m]), at);
      } else {
        SameNodesKeep(w, w);
      }
    case StraySchedule(m, peer, at) =>
      if m in w.emitted {
        var d := w.emitted[m].sender;
        RequestedKeeps(w, d, NodeHandler.ScheduleRetry(d, m, peer, w.emitted[m]), at);
      } else {
        SameNodesKeep(w, w);
      }
  }

  /** The events in which a node handles a request other than a poll. */
  predicate IsRequest(e: Event) {
    e.WriteReaches? || e.ScheduleReaches? || e.Housekeeping? || e.StrayWrite? || e.StraySchedule?
  }

  lemma RequestedKeepsCalls(w: World, owner: DeviceId, request: NodeHandler.Request<Envelope>, at: int)
    ensures var w' := Requested(w, owner, request, at).0;
      w'.calls == w.calls && w'.emitted == w.emitted && w'.dbs == w.dbs && w'.acks == w.acks
  {
  }

  /** The devices' own steps leave the nodes alone. */
  lemma BeginKeeps(w: World, e: Event)
    requires Enabled(w, e) && e.Begin?
    ensures Keeps(w, After(w, e))
  {
    hide Keeps, Prepared;
    SameNodesKeep(w, After(w, e));
  }

  lemma ReturnKeeps(w: World, m: MsgId)
    ensures Keeps(w, Returned(w, m))
  {
    hide Keeps, Inserted;
    SameNodesKeep(w, Returned(w, m));
  }

  /** Moving calls along is all that answers do. */
  lemma AnswersOnlyMoveCalls(w: World, m: MsgId)
    requires m in w.calls
    ensures Answered(w, m) == w.(calls := Answered(w, m).calls)
    ensures Unanswered(w, m) == w.(calls := Unanswered(w, m).calls)
  {
    FallBackClaimsNothing(w, m);
    hide FallBack;
  }

  /** Falling back leaves the other calls alone, and makes no claim. */
  lemma FallBackClaimsNothing(w: World, m: MsgId)
    requires m in w.calls
    ensures forall peer :: FallBack(w, m, peer) == w.(calls := FallBack(w, m, peer).calls)
    ensures forall peer, n :: ClaimedBefore(w, FallBack(w, m, peer), n)
  {
    hide AccountOf, Db;
  }

  lemma AnswersKeep(w: World, m: MsgId)
    requires m in w.calls
    ensures Keeps(w, Answered(w, m)) && Keeps(w, Unanswered(w, m))
  {
    hide Keeps, Answered, Unanswered;
    AnswersOnlyMoveCalls(w, m);
    SameNodesKeep(w, w.(calls := Answered(w, m).calls));
    SameNodesKeep(w, w.(calls := Unanswered(w, m).calls));
  }

  lemma CallEventsKeep(w: World, e: Event)
    requires Enabled(w, e) && (e.Begin? || e.AnswerArrives? || e.NoAnswer? || e.Return?)
    ensures Keeps(w, After(w, e))
  {
    hide Keeps, Begun, Returned, Answered, Unanswered;
    if e.Begin? {
      BeginKeeps(w, e);
    } else if e.Return? {
      ReturnKeeps(w, e.m);
    } else if e.m in w.calls {
      AnswersKeep(w, e.m);
    } else {
      SameNodesKeep(w, w);
    }
  }

  lemma ReceiveEventsKeep(w: World, e: Event)
    requires e.DialReaches? || e.NodeDial? || e.SyncReceives? || e.Stray?
    ensures Keeps(w, After(w, e))
  {
    hide Keeps, Attributed;
    SameNodesKeep(w, After(w, e));
  }

  lemma StepKeeps(w: World, e: Event)
    requires Enabled(w, e)
    ensures Keeps(w, After(w, e))
  {
    hide Keeps, After, Enabled;
    if IsRequest(e) {
      RequestEventsKeep(w, e);
    } else if e.Sweep? || e.NodeReport? {
      ReportKeeps(w, e);
    } else if e.Poll? {
      PollKeeps(w, e);
    } else if e.DialReaches? || e.NodeDial? || e.SyncReceives? || e.Stray? {
      ReceiveEventsKeep(w, e);
    } else {
      CallEventsKeep(w, e);
    }
  }

  // ---------- Where rows come from ----------

  /** Rows stay, and no row is newly shown as sent. */
  ghost predicate Evolves(db: Database, db': Database) {
    Extends(db, db') && forall row :: row in db'.messages && ShownAsSent(row) ==> row in db.messages
  }

  lemma SameRowsEvolve(db: Database, db': Database)
    requires SameRows(db, db')
    ensures Evolves(db, db')
  {
  }

  lemma PreparedEvolves(db: Database, e: Event)
    requires e.Begin? && Valid(db)
    ensures Evolves(db, Prepared(db, e.d, e.contact, e.payload, e.m, e.now, e.sealing).db)
  {
    hide Prepared, Valid, Evolves;
    var p := Prepared(db, e.d, e.contact, e.payload, e.m, e.now, e.sealing);
    PreparationCases(db, e.d, e.contact, e.payload, e.m, e.now, e.sealing);
    SamePeopleSameRows(db, p.db);
    SameRowsEvolve(db, p.db);
  }

  lemma ChatEvolves(db: Database, id: ContactId, env: Envelope, text: seq<byte>)
    ensures Evolves(db, ChatKept(db, id, env, text))
  {
    var db' := ChatKept(db, id, env, text);
    forall row | row in db'.messages && ShownAsSent(row) ensures row in db.messages {
      assert row != db'.messages[|db.messages|];
    }
  }

  lemma ReceiptEvolves(db: Database, id: ContactId, msgId: MsgId)
    ensures Evolves(db, WithStatus(db, id, msgId, Delivered))
  {
    var db' := WithStatus(db, id, msgId, Delivered);
    forall row | row in db'.messages && ShownAsSent(row) ensures row in db.messages {
      var k :| 0 <= k < |db'.messages| && db'.messages[k] == row;
      assert db.messages[k] == row;
    }
  }

  lemma FailuresEvolve(db: Database, ids: seq<MsgId>)
    ensures Evolves(db, AllFailed(db, ids))
  {
    AllFailedRows(db, ids);
    var db' := AllFailed(db, ids);
    forall row | row in db'.messages && ShownAsSent(row) ensures row in db.messages {
      var k :| 0 <= k < |db'.messages| && db'.messages[k] == row;
      assert db.messages[k] == row;
    }
  }

  lemma EvolvesTwice(db: Database, db1: Database, db2: Database)
    requires Evolves(db, db1) && Evolves(db1, db2)
    ensures Evolves(db, db2)
  {
  }

  lemma AttributedEvolves(db: Database, d: DeviceId, env: Envelope, opening: Opening)
    requires Valid(db)
    ensures Evolves(db, Attributed(db, d, env, opening).0)
  {
    hide Evolves, Handled, WithStatus, ChatKept, Opened;
    var i := IndexOfCurve(db.contacts, env.sender);
    if opening.Opens? && env.recipient == d && i < |db.contacts| {
      var held := Opened(db, i + 1, opening);
      OpenedKeepsRows(db, i + 1, opening);
      SameRowsEvolve(db, held);
      OpenedIsValid(db, i + 1, opening);
      HandledCases(held, i + 1, env);
      var (db', a) := Handled(held, i + 1, env);
      if a.ChatStored? {
        ChatEvolves(held, i + 1, env, env.payload.text);
      } else if a.ReceiptApplied? {
        ReceiptEvolves(held, i + 1, env.payload.msgId);
      } else {
        SameRowsEvolve(held, db');
      }
      EvolvesTwice(db, held, db');
    } else {
      SameRowsReflexive(db);
      SameRowsEvolve(db, db);
    }
  }

  lemma OpenedIsValid(db: Database, id: ContactId, opening: Opening)
    requires Valid(db) && opening.Opens? && 1 <= id <= |db.contacts|
    ensures Valid(Opened(db, id, opening))
  {
  }

  /** Returning from a call adds at most one row, with the call's own status. */
  lemma ReturnAdds(w: World, m: MsgId)
    requires m in w.calls && w.calls[m].stage.Done? && m in w.emitted
    ensures var call, db, db' := w.calls[m], Db(w, w.calls[m].device), Db(Returned(w, m), w.calls[m].device);
      && Extends(db, db')
      && (forall row :: row in db'.messages && ShownAsSent(row) ==>
            row in db.messages || (row.message.msgId == m && call.stage == Done(Sent)))
  {
    var db, db' := Db(w, w.calls[m].device), Db(Returned(w, m), w.calls[m].device);
    forall row | row in db'.messages && ShownAsSent(row)
      ensures row in db.messages || (row.message.msgId == m && w.calls[m].stage == Done(Sent))
    {
      assert db'.messages == db.messages || db'.messages == db.messages + [db'.messages[|db.messages|]];
    }
  }

  /** A row newly shown as sent belongs to a call that has just returned with that status. */
  predicate JustReturned(w: World, e: Event, d: DeviceId, m: MsgId) {
    e.Return? && e.m == m && m in w.calls && w.calls[m].stage == Done(Sent) && w.calls[m].device == d
  }

  ghost predicate RowsStep(w: World, e: Event, w': World, d: DeviceId) {
    && Extends(Db(w, d), Db(w', d))
    && forall row :: row in Db(w', d).messages && ShownAsSent(row) ==>
         row in Db(w, d).messages || JustReturned(w, e, d, row.message.msgId)
  }

  lemma OtherRows(w: World, e: Event, w': World, d: DeviceId)
    requires Evolves(Db(w, d), Db(w', d))
    ensures RowsStep(w, e, w', d)
  {
  }

  lemma UnchangedRows(w: World, e: Event, w': World, d: DeviceId)
    requires Db(w', d) == Db(w, d)
    ensures RowsStep(w, e, w', d)
  {
  }

  lemma ReceiveRows(w: World, e: Event, d: DeviceId, to: DeviceId, env: Envelope, opening: Opening)
    requires Inv(w)
    ensures RowsStep(w, e, Receive(w, to, env, opening).0, d)
  {
    hide Inv, RowsStep, Attributed, Valid, Evolves;
    var w' := Receive(w, to, env, opening).0;
    if d == to {
      DbIsOk(w, d);
      AttributedEvolves(Db(w, d), d, env, opening);
      OtherRows(w, e, w', d);
    } else {
      UnchangedRows(w, e, w', d);
    }
  }

  lemma SameDbsRows(w: World, e: Event, w1: World, w2: World, d: DeviceId)
    requires RowsStep(w, e, w1, d) && w2.dbs == w1.dbs
    ensures RowsStep(w, e, w2, d)
  {
    assert Db(w2, d) == Db(w1, d);
  }

  lemma ReceiveEventRows(w: World, e: Event, d: DeviceId)
    requires Inv(w) && (e.DialReaches? || e.NodeDial? || e.SyncReceives? || e.Stray?)
    ensures RowsStep(w, e, After(w, e), d)
  {
    hide Inv, RowsStep, Receive;
    if After(w, e).dbs == w.dbs {
      UnchangedRows(w, e, After(w, e), d);
    } else {
      match e {
        case DialReaches(m, opening) =>
          ReceiveRows(w, e, d, w.calls[m].stage.peer, w.emitted[m], opening);
          SameDbsRows(w, e, Receive(w, w.calls[m].stage.peer, w.emitted[m], opening).0, After(w, e), d);
        case NodeDial(owner, m, opening) =>
          var entry := NodeOf(w, owner).queue.entries[m];
          ReceiveRows(w, e, d, entry.recipient, entry.envelope, opening);
          SameDbsRows(w, e, Receive(w, entry.recipient, entry.envelope, opening).0, After(w, e), d);
        case SyncReceives(to, k, opening) => ReceiveRows(w, e, d, to, NodeOf(w, to).mailbox.blobs[k].data, opening);
        case Stray(m, to, opening) => ReceiveRows(w, e, d, to, w.emitted[m], opening);
      }
    }
  }

  lemma BeginRows(w: World, e: Event, d: DeviceId)
    requires Inv(w) && e.Begin?
    ensures RowsStep(w, e, After(w, e), d)
  {
    hide Inv, RowsStep, Prepared, Valid, Evolves;
    if d == e.d {
      DbIsOk(w, d);
      PreparedEvolves(Db(w, d), e);
      OtherRows(w, e, After(w, e), d);
    } else {
      UnchangedRows(w, e, After(w, e), d);
    }
  }

  lemma ReturnRows(w: World, e: Event, d: DeviceId)
    requires e.Return?
    ensures RowsStep(w, e, After(w, e), d)
  {
    if e.m in w.calls && w.calls[e.m].stage.Done? && e.m in w.emitted && w.calls[e.m].device == d {
      ReturnAdds(w, e.m);
      hide Extends, Inserted;
    } else {
      hide Extends, Inserted;
      UnchangedRows(w, e, After(w, e), d);
    }
  }

  lemma PollRows(w: World, e: Event, d: DeviceId)
    requires e.Poll?
    ensures RowsStep(w, e, After(w, e), d)
  {
    hide RowsStep, Evolves, AllFailed;
    if d == e.d && e.answered {
      var response := NodeHandler.Handled(NodeOf(w, d), NodeHandler.PollFailedDeliveries(d), 0).1;
      FailuresEvolve(Db(w, d), if response.FailedDeliveries? then response.ids else []);
      OtherRows(w, e, After(w, e), d);
    } else {
      UnchangedRows(w, e, After(w, e), d);
    }
  }

  lemma NodeEventRows(w: World, e: Event, d: DeviceId)
    requires IsRequest(e) || e.Sweep? || e.NodeReport? || e.AnswerArrives? || e.NoAnswer?
    ensures RowsStep(w, e, After(w, e), d)
  {
    hide RowsStep, NodeHandler.Handled;
    UnchangedRows(w, e, After(w, e), d);
  }

  lemma StepRows(w: World, e: Event, d: DeviceId)
    requires Inv(w)
    ensures RowsStep(w, e, After(w, e), d)
  {
    hide Inv, RowsStep, After;
    if e.Begin? {
      BeginRows(w, e, d);
    } else if e.Return? {
      ReturnRows(w, e, d);
    } else if e.Poll? {
      PollRows(w, e, d);
    } else if e.DialReaches? || e.NodeDial? || e.SyncReceives? || e.Stray? {
      ReceiveEventRows(w, e, d);
    } else {
      NodeEventRows(w, e, d);
    }
  }

  // ---------- Calls and acknowledgements ----------

  lemma DepositIsHanded(w: World, e: Event)
    requires Inv(w) && e.WriteReaches? && e.m in After(w, e).calls && After(w, e).calls[e.m] != w.calls[e.m]
    requires e.m in w.calls && Claims(After(w, e).calls[e.m].stage)
    ensures Handed(After(w, e), e.m, w.calls[e.m].device)
  {
    hide Inv;
    var w', owner := After(w, e), w.calls[e.m].stage.owner;
    var blobs := NodeOf(w', owner).mailbox.blobs;
    assert blobs[|blobs| - 1].data == w.emitted[e.m];
    assert Holds(NodeOf(w', owner), w'.emitted[e.m]);
  }

  lemma ScheduledIsHanded(w: World, e: Event)
    requires Inv(w) && e.ScheduleReaches? && e.m in After(w, e).calls && After(w, e).calls[e.m] != w.calls[e.m]
    requires e.m in w.calls && Claims(After(w, e).calls[e.m].stage)
    ensures Handed(After(w, e), e.m, w.calls[e.m].device)
  {
    hide Inv;
    assert e.m in NodeOf(After(w, e), w.calls[e.m].device).queue.entries;
  }

  /** A claim in `w'` rests on one in `w` by the same device. */
  predicate ClaimedBefore(w: World, w': World, m: MsgId) {
    m in w'.calls && Claims(w'.calls[m].stage) ==>
      m in w.calls && w'.calls[m].device == w.calls[m].device && Claims(w.calls[m].stage)
  }

  lemma AnswersClaimNothingNew(w: World, n: MsgId, m: MsgId)
    requires n in w.calls
    ensures ClaimedBefore(w, Answered(w, n), m) && ClaimedBefore(w, Unanswered(w, n), m)
  {
    FallBackClaimsNothing(w, n);
    hide FallBack;
  }

  lemma CallEventsClaimNothingNew(w: World, e: Event, m: MsgId)
    requires e.Begin? || e.AnswerArrives? || e.NoAnswer? || e.Return?
    ensures ClaimedBefore(w, After(w, e), m)
  {
    hide Prepared, Inserted, Answered, Unanswered;
    if (e.AnswerArrives? || e.NoAnswer?) && e.m in w.calls {
      AnswersClaimNothingNew(w, e.m, m);
    }
  }

  lemma OtherEventsClaimNothingNew(w: World, e: Event, m: MsgId)
    requires !e.Begin? && !e.AnswerArrives? && !e.NoAnswer? && !e.Return?
    requires (e.WriteReaches? || e.ScheduleReaches?) && e.m == m ==> After(w, e).calls == w.calls
    ensures ClaimedBefore(w, After(w, e), m)
  {
    hide Attributed, NodeHandler.Handled, AllFailed;
  }

  /** A call newly in a claiming stage was in one before, or its request has just been granted. */
  lemma ClaimsFrom(w: World, e: Event, m: MsgId)
    requires m in After(w, e).calls && Claims(After(w, e).calls[m].stage)
    ensures m in w.calls && After(w, e).calls[m].device == w.calls[m].device
    ensures Claims(w.calls[m].stage)
         || ((e.WriteReaches? || e.ScheduleReaches?) && e.m == m && After(w, e).calls[m] != w.calls[m])
  {
    if e.Begin? || e.AnswerArrives? || e.NoAnswer? || e.Return? {
      hide After;
      CallEventsClaimNothingNew(w, e, m);
    } else if (e.WriteReaches? || e.ScheduleReaches?) && e.m == m && After(w, e).calls != w.calls {
      hide Attributed, NodeHandler.Handled, AllFailed;
      RequestMovesCall(w, e);
    } else {
      hide After;
      OtherEventsClaimNothingNew(w, e, m);
    }
  }

  lemma RequestMovesCall(w: World, e: Event)
    requires (e.WriteReaches? || e.ScheduleReaches?) && After(w, e).calls != w.calls
    ensures e.m in w.calls && e.m in After(w, e).calls
    ensures After(w, e).calls[e.m].device == w.calls[e.m].device && After(w, e).calls[e.m] != w.calls[e.m]
  {
    hide NodeHandler.Handled;
  }

  lemma StepCallsHandOver(w: World, e: Event)
    requires HandoverInv(w) && Enabled(w, e)
    ensures CallsHandOver(After(w, e))
  {
    hide Inv, After, Handed, Keeps, RowsHandedOver, AcksOk;
    var w' := After(w, e);
    StepKeeps(w, e);
    forall m | m in w'.calls && Claims(w'.calls[m].stage) ensures Handed(w', m, w'.calls[m].device) {
      ClaimsFrom(w, e, m);
      if Claims(w.calls[m].stage) {
        HandedStays(w, w', m, w.calls[m].device);
      } else if e.WriteReaches? {
        DepositIsHanded(w, e);
      } else {
        ScheduledIsHanded(w, e);
      }
    }
  }

  lemma StepRowsHandedOver(w: World, e: Event)
    requires HandoverInv(w) && Enabled(w, e)
    ensures RowsHandedOver(After(w, e))
  {
    hide Inv, After, Handed, Keeps, AcksOk, Extends;
    var w' := After(w, e);
    StepKeeps(w, e);
    forall d, row | row in Db(w', d).messages && ShownAsSent(row) ensures Handed(w', row.message.msgId, d) {
      StepRows(w, e, d);
      assert Handed(w, row.message.msgId, d);
      HandedStays(w, w', row.message.msgId, d);
    }
  }

  lemma StepGrows(w: World, e: Event)
    requires Inv(w) && Enabled(w, e)
    ensures Grows(w, After(w, e))
  {
    hide Inv, After, Extends;
    StepKeeps(w, e);
    forall d ensures Extends(Db(w, d), Db(After(w, e), d)) {
      StepRows(w, e, d);
    }
  }

  lemma AckOkGrows(w: World, w': World, m: MsgId)
    requires Grows(w, w') && AckOk(w, m)
    ensures AckOk(w', m)
  {
    if w.emitted[m].payload.Chat? {
      ReceivedGrows(w, w', m, w.emitted[m].sender, w.emitted[m].recipient);
    }
  }

  /** Only a node's dial that the recipient acknowledges adds an acknowledgement. */
  lemma AcksFrom(w: World, e: Event)
    ensures After(w, e).acks == w.acks
         || (e.NodeDial? && e.m in NodeOf(w, e.owner).queue.entries
             && var entry := NodeOf(w, e.owner).queue.entries[e.m];
                var (w1, ok) := Receive(w, entry.recipient, entry.envelope, e.opening);
                ok && w1.acks == w.acks && After(w, e) == w1.(acks := w1.acks + {(e.owner, e.m)}))
  {
    hide Attributed, Prepared, NodeHandler.Handled, Inserted, AllFailed;
  }

  /** A new acknowledgement comes from the recipient, which has just stored the message. */
  lemma NewAckIsOk(w: World, e: Event)
    requires Inv(w) && After(w, e).acks != w.acks && e.NodeDial?
    ensures AckOk(After(w, e), e.m)
  {
    AcksFrom(w, e);
    hide Inv, Receive, Grows, After;
    var entry := NodeOf(w, e.owner).queue.entries[e.m];
    NodeIsOk(w, e.owner);
    EnvelopeIsOk(w, e.m);
    ReceiveKeepsInv(w, entry.recipient, entry.envelope, e.opening);
    ReceiveKeepsCalls(w, entry.recipient, entry.envelope, e.opening);
    var w1 := Receive(w, entry.recipient, entry.envelope, e.opening).0;
    assert forall d :: Db(After(w, e), d) == Db(w1, d);
  }

  lemma StepAcksOk(w: World, e: Event)
    requires HandoverInv(w) && Enabled(w, e)
    ensures AcksOk(After(w, e))
  {
    hide Inv, After, CallsHandOver, RowsHandedOver, Grows, AckOk, Receive;
    var w' := After(w, e);
    StepGrows(w, e);
    AcksFrom(w, e);
    forall owner, m | (owner, m) in w'.acks ensures AckOk(w', m) {
      if (owner, m) in w.acks {
        assert AckOk(w, m);
        AckOkGrows(w, w', m);
      } else {
        NewAckIsOk(w, e);
      }
    }
  }

  lemma StepKeepsHandover(w: World, e: Event)
    requires HandoverInv(w) && Enabled(w, e)
    ensures HandoverInv(After(w, e))
  {
    StepCallsHandOver(w, e);
    StepRowsHandedOver(w, e);
    StepAcksOk(w, e);
    hide Inv, After, Enabled, CallsHandOver, RowsHandedOver, AcksOk;
    StepKeepsInv(w, e);
  }

  lemma {:induction false} RunKeepsHandover(w: World, events: seq<Event>)
    requires HandoverInv(w) && ValidRun(w, events)
    ensures HandoverInv(Final(w, events))
    decreases events
  {
    hide HandoverInv;
    if events != [] {
      StepKeepsHandover(w, events[0]);
      RunKeepsHandover(After(w, events[0]), events[1..]);
    }
  }

  // ---------- Main results ----------

  /** Device `d`'s own node is still trying to deliver exactly this envelope. */
  predicate Retrying(w: World, m: MsgId, d: DeviceId) {
    m in w.emitted && m in NodeOf(w, d).queue.entries && NodeOf(w, d).queue.entries[m].envelope == w.emitted[m]
  }

  /** Device `d`'s own node has given up on `m`, and the device has been told or will be. */
  predicate GivenUp(w: World, m: MsgId, d: DeviceId) {
    m in NodeOf(w, d).queue.failed || (d, m) in w.reported
  }

  /** The message of `row` was sent as it stands, and is stored, being retried, received, or given up on. */
  ghost predicate TakenOver(w: World, d: DeviceId, row: Row) {
    && 1 <= row.contact <= |Db(w, d).contacts|
    && var m, peer := row.message.msgId, Db(w, d).contacts[row.contact - 1].identityKey;
       && ChatSent(w, m, d, peer, row.message.plaintext)
       && (|| Deposited(w, w.emitted[m])
           || Retrying(w, m, d)
           || HasIncoming(w, peer, d, m, row.message.plaintext)
           || GivenUp(w, m, d))
  }

  /**
   In every run: an outgoing message shown as sent is stored, unaltered, in some node's mailbox; or the
   sender's own node is still retrying it; or the recipient holds it; or the sender's own node has given up
   and says so when polled. No message shown as sent has simply been dropped.
   */
  lemma SentIsTruthful(w: World, events: seq<Event>, d: DeviceId, row: Row)
    requires Start(w) && ValidRun(w, events) && row in Db(Final(w, events), d).messages && ShownAsSent(row)
    ensures TakenOver(Final(w, events), d, row)
  {
    hide HandoverInv, TakenOver, Inv;
    StartIsHandover(w);
    RunKeepsHandover(w, events);
    SentRowMeaning(Final(w, events), d, row);
  }

  lemma StartIsHandover(w: World)
    requires Start(w)
    ensures HandoverInv(w)
  {
  }

  lemma SentRowMeaning(w: World, d: DeviceId, row: Row)
    requires HandoverInv(w) && row in Db(w, d).messages && ShownAsSent(row)
    ensures TakenOver(w, d, row)
  {
    RowIsOk(w, d, row);
    NodeIsOk(w, d);
    hide Inv, HasIncoming, Deposited, CallsHandOver, RowOk;
    assert Handed(w, row.message.msgId, d);
    assert (d, row.message.msgId) in w.acks ==> AckOk(w, row.message.msgId);
  }

  lemma RowIsOk(w: World, d: DeviceId, row: Row)
    requires Inv(w) && row in Db(w, d).messages && row.message.direction.Outgoing?
    ensures 1 <= row.contact <= |Db(w, d).contacts|
    ensures ChatSent(w, row.message.msgId, d, Db(w, d).contacts[row.contact - 1].identityKey, row.message.plaintext)
  {
    assert DbOk(w, d);
    var k :| 0 <= k < |Db(w, d).messages| && Db(w, d).messages[k] == row;
    assert RowOk(w, d, Db(w, d).messages[k]);
  }
}

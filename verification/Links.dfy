/**
 How the runs of `Delivery` drive the smaller models: a server-path send draws a number as `Slots` and
 `Counters` say, its write arrives as `Slots` says, and requests to the owner's node move the retry queue as
 `RetryRun` says.
 */
module Links {
  import opened Wrappers
  import opened Crypto
  import opened Store
  import opened Client
  import opened Delivery
  import Counters
  import Mailbox
  import NodeHandler
  import NodeRun
  import Pairing
  import RetryQueue
  import RetryRun
  import Slots

  /** The envelope and route of a send, as prepared on the device. */
  function Preparing(w: World, e: Event): Preparation
    requires e.Begin?
  {
    Prepared(Db(w, e.d), e.d, e.contact, e.payload, e.m, e.now, e.sealing)
  }

  /** `e` begins a delivery that goes over the contact's Server. */
  predicate ServerSend(w: World, e: Event) {
    e.Begin? && Preparing(w, e).Ready? && Preparing(w, e).route.ViaServer?
  }

  /**
   Beginning a server-path delivery is a `Send` of the slot model: the same number is drawn and put into the
   envelope and the authorisation, and afterwards the counters agree, so that the rest of what the device
   does is an `Elsewhere` of that model.
   */
  lemma ServerSendIsSlotSend(w: World, e: Event, sw: Slots.World<Envelope>)
    requires Inv(w) && ServerSend(w, e) && sw.sender == Db(w, e.d)
    ensures 1 <= e.contact <= |Db(w, e.d).contacts| && Db(w, e.d).contacts[e.contact - 1].pairSecret.Some?
    ensures var secret := Db(w, e.d).contacts[e.contact - 1].pairSecret.value;
      var env, sw' := Preparing(w, e).env, Slots.After(secret, e.contact, sw, Slots.Send(Preparing(w, e).env));
      && sw'.sent == sw.sent + [Slots.Numbered(env.n, env)]
      && e.m in After(w, e).calls && e.m in After(w, e).emitted && After(w, e).emitted[e.m] == env
      && After(w, e).calls[e.m].stage == ToServer(e.owner, Pairing.DeriveAuth(secret, env.n))
      && Slots.Enabled(secret, e.contact, sw', Slots.Elsewhere(Db(After(w, e), e.d)))
  {
    hide Prepared, After, Inv, NodeHandler.Handled;
    var db := Db(w, e.d);
    DbIsOk(w, e.d);
    BeginStep(w, e);
    RouteIsRight(db, e.d, e.contact, e.payload, e.m, e.now, e.sealing);
    PreparationCases(db, e.d, e.contact, e.payload, e.m, e.now, e.sealing);
    SamePeopleIsValid(db, Db(After(w, e), e.d));
  }

  lemma SamePeopleIsValid(db: Database, db': Database)
    requires Valid(db) && SamePeople(db, db')
    ensures Valid(db')
  {
  }

  /** The write reaching the node is an `Arrive` of the slot model: same node, same answer. */
  lemma WriteIsArrival(w: World, m: MsgId, at: int, sw: Slots.World<Envelope>, secret: Secret, k: nat)
    requires m in w.calls && m in w.emitted && w.calls[m].stage.ToServer? && k < |sw.sent|
    requires sw.node == NodeOf(w, w.calls[m].stage.owner) && sw.sent[k].blob == w.emitted[m]
    requires w.calls[m].stage.auth == Pairing.DeriveAuth(secret, sw.sent[k].n)
    ensures var w', sw' := After(w, WriteReaches(m, at)), Slots.After(secret, 0, sw, Slots.Arrive(k, at));
      && NodeOf(w', w.calls[m].stage.owner) == sw'.node && m in w'.calls
      && w'.calls[m].stage == ServerAnswered(sw'.arrivals[|sw.arrivals|].accepted)
  {
    hide NodeHandler.Handled;
  }

  /**
   The same send is a `ServerSend` of the counter model: it records the use of the number in the envelope, and
   whatever else it changes keeps all counters.
   */
  lemma ServerSendIsCounted(w: World, e: Event, l: Counters.Life)
    requires Inv(w) && ServerSend(w, e) && l.db == Db(w, e.d) && l.db.account.Some?
    ensures Counters.Enabled(l, Counters.ServerSend(e.contact))
    ensures var l' := Counters.After(l, Counters.ServerSend(e.contact));
      && l'.writes == l.writes + [Counters.Use(Preparing(w, e).env.recipient, Preparing(w, e).env.n)]
      && Counters.KeepsCounters(l'.db, Db(After(w, e), e.d))
  {
    hide Prepared, After, Inv, Valid, Counters.KeepsCounters;
    var db := Db(w, e.d);
    DbIsOk(w, e.d);
    BeginStep(w, e);
    var p := Preparing(w, e);
    RouteIsRight(db, e.d, e.contact, e.payload, e.m, e.now, e.sealing);
    NumberIsUsedUp(db, e.d, e.contact, e.payload, e.m, e.now, e.sealing);
    PreparationCases(db, e.d, e.contact, e.payload, e.m, e.now, e.sealing);
    SamePeopleIsValid(db, p.db);
    var l' := Counters.After(l, Counters.ServerSend(e.contact));
    SameCounters(db, e.contact, l'.db, p.db);
  }

  /** Two databases that both advanced the one contact's counter by one agree on all counters. */
  lemma SameCounters(db: Database, contact: ContactId, a: Database, b: Database)
    requires Valid(db) && 1 <= contact <= |db.contacts| && a == WithWrites(db, contact, 1)
    requires Valid(b) && b.account == db.account && db.account.Some? && |b.contacts| == |db.contacts|
    requires forall i :: 0 <= i < |db.contacts| ==>
      && b.contacts[i].identityKey == db.contacts[i].identityKey
      && b.contacts[i].nextWriteN == db.contacts[i].nextWriteN + if i == contact - 1 then 1 else 0
    ensures Counters.KeepsCounters(a, b)
  {
    forall i | 0 <= i < |db.contacts|
      ensures Counters.HasCounter(b.contacts, a.contacts[i]) && Counters.HasCounter(a.contacts, b.contacts[i])
    {
      assert a.contacts[i].identityKey == b.contacts[i].identityKey;
      assert a.contacts[i].nextWriteN == b.contacts[i].nextWriteN;
    }
  }

  // ---------- Nodes ----------

  /** What an event of a run is for a node, and which node it is for. */
  function AtNode(w: World, e: Event): Option<(DeviceId, NodeRun.Event<Envelope>)> {
    match e
    case WriteReaches(m, at) =>
      if m !in w.calls || m !in w.emitted || !w.calls[m].stage.ToServer? then None
      else
        var request := NodeHandler.Write(w.calls[m].stage.auth, w.emitted[m]);
        Some((w.calls[m].stage.owner, NodeRun.Asked(request, at)))
    case ScheduleReaches(m, at) =>
      if m !in w.calls || m !in w.emitted || !w.calls[m].stage.Scheduling? then None
      else
        var d := w.calls[m].device;
        var request := NodeHandler.ScheduleRetry(d, m, w.calls[m].stage.peer, w.emitted[m]);
        Some((d, NodeRun.Asked(request, at)))
    case StrayWrite(m, owner, auth, at) =>
      if m in w.emitted then Some((owner, NodeRun.Asked(NodeHandler.Write(auth, w.emitted[m]), at))) else None
    case StraySchedule(m, peer, at) =>
      if m !in w.emitted then None
      else
        var d := w.emitted[m].sender;
        Some((d, NodeRun.Asked(NodeHandler.ScheduleRetry(d, m, peer, w.emitted[m]), at)))
    case Sweep(owner, at) => Some((owner, NodeRun.Swept(at)))
    case NodeReport(owner, m, acked, at) => Some((owner, NodeRun.Reported(m, acked, at)))
    case Poll(d, _) => Some((d, NodeRun.Asked(NodeHandler.PollFailedDeliveries(d), 0)))
    case Housekeeping(owner, request, at) => Some((owner, NodeRun.Asked(request, at)))
    case _ => None
  }

  predicate IsDeviceEvent(e: Event) {
    || e.Begin? || e.DialReaches? || e.AnswerArrives? || e.NoAnswer? || e.Return? || e.NodeDial?
    || e.SyncReceives? || e.Stray?
  }

  lemma DeviceEventsLeaveNodes(w: World, e: Event)
    requires IsDeviceEvent(e)
    ensures After(w, e).nodes == w.nodes
  {
    hide Prepared, Attributed, Inserted, Db, AccountOf;
  }

  lemma NodeEventsRun(w: World, e: Event, owner: DeviceId)
    requires !IsDeviceEvent(e)
    ensures NodeOf(After(w, e), owner)
         == match AtNode(w, e)
            case Some((d, event)) =>
              if d == owner then NodeRun.After(NodeOf(w, owner), event) else NodeOf(w, owner)
            case None => NodeOf(w, owner)
  {
    hide Db, AllFailed, NodeHandler.Handled;
    hide RetryQueue.Taken, RetryQueue.MarkedDelivered, RetryQueue.MarkedFailed;
  }

  /** Nodes in a run do nothing but what `NodeRun` says, so that its results hold of them. */
  lemma NodesRunAsNodeRun(w: World, e: Event, owner: DeviceId)
    ensures NodeOf(After(w, e), owner)
         == match AtNode(w, e)
            case Some((d, event)) =>
              if d == owner then NodeRun.After(NodeOf(w, owner), event) else NodeOf(w, owner)
            case None => NodeOf(w, owner)
  {
    hide After, NodeRun.After;
    if IsDeviceEvent(e) {
      DeviceEventsLeaveNodes(w, e);
    } else {
      NodeEventsRun(w, e, owner);
    }
  }

  // ---------- The retry queue behind the handler ----------

  /** The owner's requests move the queue as the timed runs do, and a poll's answer is what they report. */
  lemma OwnerDrivesQueue(
      node: NodeHandler.Node<RetryRun.Envelope>, rw: RetryRun.World, m: RetryQueue.MsgId, recipient: nat,
      envelope: RetryRun.Envelope, at: int)
    requires node.queue == rw.queue
    ensures NodeHandler.Handled(node, NodeHandler.ScheduleRetry(node.key, m, recipient, envelope), at)
         == (node.(queue := RetryRun.After(rw, RetryRun.Event(at, RetryRun.Schedule(m, recipient, envelope))).queue),
             NodeHandler.Ok)
    ensures var (node', response) := NodeHandler.Handled(node, NodeHandler.PollFailedDeliveries(node.key), at);
      var rw' := RetryRun.After(rw, RetryRun.Event(at, RetryRun.Poll(true)));
      && response.FailedDeliveries? && node' == node.(queue := rw'.queue)
      && rw'.reported == rw.reported + response.ids
      && rw'.rows == RetryRun.MarkRowsFailed(rw.rows, response.ids)
  {
  }
}

/**
 Message order in real runs: every run of `Delivery` in which no clock reaches its maximum is also a run of
 the `Lamport` model, so that what holds there holds of what devices actually store.
 */
module Causality {
  import opened Wrappers
  import opened Bytes
  import opened Store
  import opened Client
  import opened Delivery
  import Handover
  import Lamport
  import NodeHandler

  // ---------- The two models side by side ----------

  /** The same databases, and the same envelopes as far as clocks go. */
  ghost predicate Mirrors(w: World, lw: Lamport.World) {
    && (forall d :: Lamport.Db(lw, d) == Db(w, d))
    && (forall m :: m in lw.envelopes <==> m in w.emitted)
    && (forall m :: m in w.emitted ==> SameEnvelope(w.emitted[m], lw.envelopes[m]))
    && (forall m :: m in w.calls ==> m in lw.envelopes && lw.envelopes[m].contact == w.calls[m].contact)
  }

  predicate SameEnvelope(env: Envelope, lenv: Lamport.Envelope) {
    lenv.sender == env.sender && lenv.lamport == env.lamport && lenv.chat == env.payload.Chat?
  }

  /** No clock, and no envelope's clock value, is at the maximum. */
  ghost predicate Bounded(w: World) {
    && (forall d :: Db(w, d).lamport < I64_MAX)
    && (forall m :: m in w.emitted ==> w.emitted[m].lamport < I64_MAX)
  }

  /** The Lamport model can get from `lw` to some state that mirrors `w'`. */
  ghost predicate CanFollow(lw: Lamport.World, w': World) {
    exists events :: Lamport.ValidRun(lw, events) && Mirrors(w', Lamport.Final(lw, events))
  }

  lemma FollowStep(lw: Lamport.World, e: Lamport.Event, w': World)
    requires Lamport.Enabled(lw, e) && CanFollow(Lamport.After(lw, e), w')
    ensures CanFollow(lw, w')
  {
    hide Lamport.After, Lamport.Enabled, Mirrors;
    var lw' := Lamport.After(lw, e);
    var events :| Lamport.ValidRun(lw', events) && Mirrors(w', Lamport.Final(lw', events));
    assert ([e] + events)[1..] == events;
    assert Lamport.ValidRun(lw, [e] + events) && Lamport.Final(lw, [e] + events) == Lamport.Final(lw', events);
  }

  lemma FollowNow(lw: Lamport.World, w': World)
    requires Mirrors(w', lw)
    ensures CanFollow(lw, w')
  {
    hide Mirrors;
    assert Lamport.ValidRun(lw, []) && Lamport.Final(lw, []) == lw;
  }

  /** `w'` differs from `w` in the database of `d`, which keeps clock and rows. */
  lemma OtherMirrors(w: World, lw: Lamport.World, d: DeviceId, w': World)
    requires Mirrors(w, lw)
    requires forall x :: x != d ==> Db(w', x) == Db(w, x)
    requires Db(w, d).lamport <= Db(w', d).lamport && Lamport.SameValues(Db(w, d).messages, Db(w', d).messages)
    requires w'.emitted == w.emitted
    requires forall m :: m in w'.calls ==> m in w.calls && w'.calls[m].contact == w.calls[m].contact
    ensures Lamport.Enabled(lw, Lamport.Other(d, Db(w', d)))
    ensures Mirrors(w', Lamport.After(lw, Lamport.Other(d, Db(w', d))))
    ensures Lamport.After(lw, Lamport.Other(d, Db(w', d))).envelopes == lw.envelopes
  {
    var lw' := Lamport.After(lw, Lamport.Other(d, Db(w', d)));
    forall x ensures Lamport.Db(lw', x) == Db(w', x) {
      assert x != d ==> Lamport.Db(lw', x) == Lamport.Db(lw, x);
    }
  }

  lemma FollowOther(w: World, lw: Lamport.World, d: DeviceId, w': World)
    requires Mirrors(w, lw)
    requires forall x :: x != d ==> Db(w', x) == Db(w, x)
    requires Db(w, d).lamport <= Db(w', d).lamport && Lamport.SameValues(Db(w, d).messages, Db(w', d).messages)
    requires w'.emitted == w.emitted
    requires forall m :: m in w'.calls ==> m in w.calls && w'.calls[m].contact == w.calls[m].contact
    ensures CanFollow(lw, w')
  {
    hide Mirrors, Lamport.After, Lamport.Enabled, CanFollow;
    OtherMirrors(w, lw, d, w');
    var e := Lamport.Other(d, Db(w', d));
    FollowNow(Lamport.After(lw, e), w');
    FollowStep(lw, e, w');
  }

  /** Worlds that differ in stages, nodes and the like are mirrored alike. */
  lemma FollowAlike(lw: Lamport.World, w1: World, w2: World)
    requires CanFollow(lw, w1) && w2.dbs == w1.dbs && w2.emitted == w1.emitted
    requires forall m :: m in w2.calls ==> m in w1.calls && w2.calls[m].contact == w1.calls[m].contact
    ensures CanFollow(lw, w2)
  {
    var events :| Lamport.ValidRun(lw, events) && Mirrors(w1, Lamport.Final(lw, events));
    assert forall d :: Db(w2, d) == Db(w1, d);
    hide Lamport.ValidRun, Lamport.Final;
    assert Mirrors(w2, Lamport.Final(lw, events));
  }

  // ---------- What is stored is the same ----------

  /** Receiving a chat in the Lamport model stores exactly what handling it on a device stores. */
  lemma ReceiveStoresTheSame(lw: Lamport.World, d: DeviceId, contact: ContactId, env: Envelope, text: seq<byte>)
    requires env.msgId in lw.envelopes && lw.envelopes[env.msgId].lamport == env.lamport && env.payload == Chat(text)
    ensures var lw' := Lamport.After(lw, Lamport.Receive(d, contact, env.msgId, env.sentAt, text));
      && Lamport.Db(lw', d) == Handled(Lamport.Db(lw, d), contact, env).0
      && (forall x :: x != d ==> Lamport.Db(lw', x) == Lamport.Db(lw, x))
      && lw'.envelopes == lw.envelopes
  {
  }

  /** Keeping a sent chat in the Lamport model adds exactly the row that a returning send adds. */
  lemma KeepStoresTheSame(lw: Lamport.World, m: MsgId, env: Envelope, text: seq<byte>, status: Status)
    requires m in lw.envelopes && lw.envelopes[m].lamport == env.lamport
    ensures var lw', lenv := Lamport.After(lw, Lamport.Keep(m, env.sentAt, text, status)), lw.envelopes[m];
      && (match Inserted(Lamport.Db(lw, lenv.sender), lenv.contact, SentMessage(m, env, text, status))
          case Failure(_) => lw' == lw
          case Success(db) => Lamport.Db(lw', lenv.sender) == db)
      && (forall x :: x != lenv.sender ==> Lamport.Db(lw', x) == Lamport.Db(lw, x))
      && lw'.envelopes == lw.envelopes
  {
  }

  // ---------- Every event is followed ----------

  lemma BeginFollows(w: World, lw: Lamport.World, e: Event)
    requires Inv(w) && Enabled(w, e) && e.Begin? && Mirrors(w, lw) && Bounded(w)
    ensures CanFollow(lw, After(w, e))
  {
    hide Inv, Prepared, Valid, After, Mirrors, CanFollow, Lamport.After, Lamport.Enabled;
    var db, w' := Db(w, e.d), After(w, e);
    var p := Prepared(db, e.d, e.contact, e.payload, e.m, e.now, e.sealing);
    DbIsOk(w, e.d);
    NumberIsUsedUp(db, e.d, e.contact, e.payload, e.m, e.now, e.sealing);
    PreparationCases(db, e.d, e.contact, e.payload, e.m, e.now, e.sealing);
    BeginStep(w, e);
    if p.Ready? {
      ReadyTicks(db, e, p);
      var w1 := w'.(dbs := w.dbs[e.d := Ticked(db)]);
      var send := Lamport.Send(e.d, e.contact, e.m, e.payload.Chat?);
      SendMirrors(w, lw, e, w1);
      assert Db(w1, e.d) == Ticked(db);
      assert forall x :: x != e.d ==> Db(w', x) == Db(w1, x);
      FollowOther(w1, Lamport.After(lw, send), e.d, w');
      FollowStep(lw, send, w');
    } else {
      FollowOther(w, lw, e.d, w');
    }
  }

  lemma ReadyTicks(db: Database, e: Event, p: Preparation)
    requires Valid(db) && e.Begin? && p == Prepared(db, e.d, e.contact, e.payload, e.m, e.now, e.sealing) && p.Ready?
    ensures p.db.lamport == db.lamport + 1
  {
    ReadyExactlyWhen(db, e.d, e.contact, e.payload, e.m, e.now, e.sealing);
    NumberIsUsedUp(db, e.d, e.contact, e.payload, e.m, e.now, e.sealing);
  }

  /** The tick and the new envelope, without the other changes a send makes. */
  lemma SendMirrors(w: World, lw: Lamport.World, e: Event, w1: World)
    requires e.Begin? && Mirrors(w, lw) && e.m !in w.emitted && e.m in w1.emitted
    requires w1.emitted == w.emitted[e.m := w1.emitted[e.m]]
    requires w1.emitted[e.m].sender == e.d && w1.emitted[e.m].payload == e.payload
    requires w1.emitted[e.m].lamport == Db(w, e.d).lamport + 1
    requires w1.dbs == w.dbs[e.d := Ticked(Db(w, e.d))]
    requires forall m :: m in w1.calls ==>
      if m == e.m then w1.calls[m].contact == e.contact else m in w.calls && w1.calls[m] == w.calls[m]
    requires Db(w, e.d).lamport < I64_MAX
    ensures Lamport.Enabled(lw, Lamport.Send(e.d, e.contact, e.m, e.payload.Chat?))
    ensures Mirrors(w1, Lamport.After(lw, Lamport.Send(e.d, e.contact, e.m, e.payload.Chat?)))
  {
    var lw1 := Lamport.After(lw, Lamport.Send(e.d, e.contact, e.m, e.payload.Chat?));
    forall x ensures Lamport.Db(lw1, x) == Db(w1, x) {
      assert x != e.d ==> Lamport.Db(lw1, x) == Lamport.Db(lw, x) && Db(w1, x) == Db(w, x);
    }
  }

  /** What a device is handed and cannot open, or is not a chat, is no event of its clock. */
  lemma OtherPayloadFollows(w: World, lw: Lamport.World, d: DeviceId, env: Envelope, opening: Opening)
    requires Inv(w) && Mirrors(w, lw)
    requires !env.payload.Chat? || Attributed(Db(w, d), d, env, opening).0 == Db(w, d)
    ensures CanFollow(lw, Receive(w, d, env, opening).0)
  {
    DbIsOk(w, d);
    OtherPayloadKeepsValues(Db(w, d), d, env, opening);
    hide Inv, Valid, Attributed, Mirrors;
    FollowOther(w, lw, d, Receive(w, d, env, opening).0);
  }

  lemma OtherPayloadKeepsValues(db: Database, d: DeviceId, env: Envelope, opening: Opening)
    requires !env.payload.Chat? || Attributed(db, d, env, opening).0 == db
    ensures var db' := Attributed(db, d, env, opening).0;
      db.lamport == db'.lamport && Lamport.SameValues(db.messages, db'.messages)
  {
  }

  lemma ChatFollows(w: World, lw: Lamport.World, d: DeviceId, env: Envelope, opening: Opening)
    requires Inv(w) && Mirrors(w, lw) && Bounded(w) && WasSent(w, env) && env.payload.Chat?
    requires opening.Opens? && env.recipient == d && IndexOfCurve(Db(w, d).contacts, env.sender) < |Db(w, d).contacts|
    ensures CanFollow(lw, Receive(w, d, env, opening).0)
  {
    hide Inv, Handled, Opened, Lamport.After, Lamport.Enabled, Bounded, Mirrors, CanFollow, Receive;
    var db, i := Db(w, d), IndexOfCurve(Db(w, d).contacts, env.sender);
    IdOfContact(w, d, i);
    var held := Opened(db, i + 1, opening);
    OpeningSaves(db, i + 1, opening);
    ReceiveStep(w, d, env, opening);
    var w1, w' := w.(dbs := w.dbs[d := held]), Receive(w, d, env, opening).0;
    assert Db(w1, d) == held;
    assert forall x :: x != d ==> Db(w1, x) == Db(w, x);
    OtherMirrors(w, lw, d, w1);
    BoundedAlike(w, w1, d);
    OpenedChatFollows(w1, Lamport.After(lw, Lamport.Other(d, held)), d, i + 1, env, w');
    FollowStep(lw, Lamport.Other(d, held), w');
  }

  lemma ReceiveStep(w: World, d: DeviceId, env: Envelope, opening: Opening)
    requires opening.Opens? && env.recipient == d && IndexOfCurve(Db(w, d).contacts, env.sender) < |Db(w, d).contacts|
    ensures var w', c := Receive(w, d, env, opening).0, Db(w, d).contacts[IndexOfCurve(Db(w, d).contacts, env.sender)];
      && Db(w', d) == Handled(Opened(Db(w, d), c.id, opening), c.id, env).0
      && (forall x :: x != d ==> Db(w', x) == Db(w, x))
      && w'.emitted == w.emitted && w'.calls == w.calls
  {
    hide Handled, Opened;
  }

  lemma BoundedAlike(w: World, w': World, d: DeviceId)
    requires Bounded(w) && w'.emitted == w.emitted && Db(w', d).lamport == Db(w, d).lamport
    requires forall x :: x != d ==> Db(w', x) == Db(w, x)
    ensures Bounded(w')
  {
    forall x ensures Db(w', x).lamport < I64_MAX {
      assert x != d ==> Db(w', x) == Db(w, x);
    }
  }

  lemma OpenedChatFollows(w: World, lw: Lamport.World, d: DeviceId, contact: ContactId, env: Envelope, w': World)
    requires Mirrors(w, lw) && Bounded(w) && WasSent(w, env) && env.payload.Chat? && env.sender != d
    requires Db(w', d) == Handled(Db(w, d), contact, env).0 && (forall x :: x != d ==> Db(w', x) == Db(w, x))
    requires w'.emitted == w.emitted && w'.calls == w.calls
    ensures CanFollow(lw, w')
  {
    var receive := Lamport.Receive(d, contact, env.msgId, env.sentAt, env.payload.text);
    ReceiveStoresTheSame(lw, d, contact, env, env.payload.text);
    assert Lamport.Enabled(lw, receive);
    hide Handled, Lamport.After, Lamport.Enabled;
    var lw' := Lamport.After(lw, receive);
    forall x ensures Lamport.Db(lw', x) == Db(w', x) {
      assert x != d ==> Lamport.Db(lw', x) == Lamport.Db(lw, x);
    }
    FollowNow(lw', w');
    FollowStep(lw, receive, w');
  }

  lemma ReceiveFollows(w: World, lw: Lamport.World, d: DeviceId, env: Envelope, opening: Opening)
    requires Inv(w) && Mirrors(w, lw) && Bounded(w) && WasSent(w, env)
    ensures CanFollow(lw, Receive(w, d, env, opening).0)
  {
    hide Inv, Mirrors, Bounded, Handled, Opened;
    var i := IndexOfCurve(Db(w, d).contacts, env.sender);
    if env.payload.Chat? && opening.Opens? && env.recipient == d && i < |Db(w, d).contacts| {
      ChatFollows(w, lw, d, env, opening);
    } else {
      OtherPayloadFollows(w, lw, d, env, opening);
    }
  }

  lemma DialFollows(w: World, lw: Lamport.World, m: MsgId, opening: Opening)
    requires Inv(w) && Mirrors(w, lw) && Bounded(w)
    ensures CanFollow(lw, After(w, DialReaches(m, opening)))
  {
    hide Inv, Mirrors, Bounded, Receive, CanFollow;
    FollowNow(lw, w);
    if m in w.calls && m in w.emitted && w.calls[m].stage.Dialing? {
      var peer := w.calls[m].stage.peer;
      EnvelopeIsOk(w, m);
      ReceiveFollows(w, lw, peer, w.emitted[m], opening);
      ReceiveKeepsCalls(w, peer, w.emitted[m], opening);
      FollowAlike(lw, Receive(w, peer, w.emitted[m], opening).0, After(w, DialReaches(m, opening)));
    }
  }

  lemma NodeDialFollows(w: World, lw: Lamport.World, owner: DeviceId, m: MsgId, opening: Opening)
    requires Inv(w) && Mirrors(w, lw) && Bounded(w)
    ensures CanFollow(lw, After(w, NodeDial(owner, m, opening)))
  {
    hide Inv, Mirrors, Bounded, Receive, CanFollow;
    FollowNow(lw, w);
    if m in NodeOf(w, owner).queue.entries {
      var entry := NodeOf(w, owner).queue.entries[m];
      NodeIsOk(w, owner);
      EnvelopeIsOk(w, m);
      ReceiveFollows(w, lw, entry.recipient, entry.envelope, opening);
      FollowAlike(lw, Receive(w, entry.recipient, entry.envelope, opening).0, After(w, NodeDial(owner, m, opening)));
    }
  }

  lemma SyncFollows(w: World, lw: Lamport.World, d: DeviceId, k: nat, opening: Opening)
    requires Inv(w) && Mirrors(w, lw) && Bounded(w)
    ensures CanFollow(lw, After(w, SyncReceives(d, k, opening)))
  {
    hide Inv, Mirrors, Bounded, Receive, CanFollow;
    FollowNow(lw, w);
    NodeIsOk(w, d);
    if k < |NodeOf(w, d).mailbox.blobs| {
      ReceiveFollows(w, lw, d, NodeOf(w, d).mailbox.blobs[k].data, opening);
    }
  }

  lemma StrayFollows(w: World, lw: Lamport.World, m: MsgId, d: DeviceId, opening: Opening)
    requires Inv(w) && Mirrors(w, lw) && Bounded(w)
    ensures CanFollow(lw, After(w, Stray(m, d, opening)))
  {
    hide Inv, Mirrors, Bounded, Receive, CanFollow;
    FollowNow(lw, w);
    if m in w.emitted {
      EnvelopeIsOk(w, m);
      ReceiveFollows(w, lw, d, w.emitted[m], opening);
    }
  }

  lemma ReturnFollows(w: World, lw: Lamport.World, m: MsgId)
    requires Inv(w) && Mirrors(w, lw)
    ensures CanFollow(lw, Returned(w, m))
  {
    hide Inv, Mirrors, CanFollow, Lamport.After, Lamport.Enabled;
    var w' := Returned(w, m);
    if m !in w.calls || !w.calls[m].stage.Done? || m !in w.emitted {
      FollowNow(lw, w);
    } else {
      CallIsOk(w, m);
      MirroredCall(w, lw, m);
      var call, env := w.calls[m], w.emitted[m];
      var db := WithSession(Db(w, call.device), call.contact, call.session);
      var w1 := Abandoned(w, m).(dbs := w.dbs[call.device := db]);
      var other := Lamport.Other(call.device, db);
      var lw1 := Lamport.After(lw, other);
      assert Db(w1, call.device) == db;
      OtherMirrors(w, lw, call.device, w1);
      if env.payload.Chat? {
        KeptFollows(w1, lw1, m, env, call, w');
      } else {
        FollowNow(lw1, w1);
      }
      FollowStep(lw, other, w');
    }
  }

  lemma MirroredCall(w: World, lw: Lamport.World, m: MsgId)
    requires Mirrors(w, lw) && m in w.calls && m in w.emitted
    ensures m in lw.envelopes && SameEnvelope(w.emitted[m], lw.envelopes[m])
    ensures lw.envelopes[m].contact == w.calls[m].contact
  {
  }

  lemma KeptFollows(w: World, lw: Lamport.World, m: MsgId, env: Envelope, call: Call, w': World)
    requires Mirrors(w, lw) && m in lw.envelopes && SameEnvelope(env, lw.envelopes[m]) && env.payload.Chat?
    requires lw.envelopes[m].contact == call.contact && env.sender == call.device && call.stage.Done?
    requires match Inserted(Db(w, call.device), call.contact, SentMessage(m, env, env.payload.text, call.stage.status))
             case Failure(_) => w' == w
             case Success(db) => w' == w.(dbs := w.dbs[call.device := db])
    ensures CanFollow(lw, w')
  {
    var keep := Lamport.Keep(m, env.sentAt, env.payload.text, call.stage.status);
    KeepStoresTheSame(lw, m, env, env.payload.text, call.stage.status);
    var lw' := Lamport.After(lw, keep);
    assert Lamport.Enabled(lw, keep);
    hide Lamport.After, Lamport.Enabled;
    assert Mirrors(w', lw') by {
      forall x ensures Lamport.Db(lw', x) == Db(w', x) {
        assert x != call.device ==> Db(w', x) == Db(w, x);
      }
    }
    FollowNow(lw', w');
    FollowStep(lw, keep, w');
  }

  lemma PollFollows(w: World, lw: Lamport.World, e: Event)
    requires Mirrors(w, lw) && e.Poll?
    ensures CanFollow(lw, After(w, e))
  {
    var response := NodeHandler.Handled(NodeOf(w, e.d), NodeHandler.PollFailedDeliveries(e.d), 0).1;
    var ids := if response.FailedDeliveries? then response.ids else [];
    AllFailedRows(Db(w, e.d), ids);
    PollStep(w, e);
    hide AllFailed, Mirrors, NodeHandler.Handled, After;
    FollowOther(w, lw, e.d, After(w, e));
  }

  lemma NodeEventsMoveNoRows(w: World, e: Event)
    requires Handover.IsRequest(e) || e.Sweep? || e.NodeReport?
    ensures var w' := After(w, e);
      && w'.dbs == w.dbs && w'.emitted == w.emitted
      && forall m :: m in w'.calls ==> m in w.calls && w'.calls[m].contact == w.calls[m].contact
  {
    hide NodeHandler.Handled, Db, AllFailed;
  }

  lemma AnswersMoveNoRows(w: World, m: MsgId)
    requires m in w.calls
    ensures forall w' :: w' in {Answered(w, m), Unanswered(w, m)} ==>
      && w'.dbs == w.dbs && w'.emitted == w.emitted
      && forall n :: n in w'.calls ==> n in w.calls && w'.calls[n].contact == w.calls[n].contact
  {
    hide Db, AccountOf;
  }

  lemma AnswerFollows(w: World, lw: Lamport.World, e: Event)
    requires Mirrors(w, lw) && (e.AnswerArrives? || e.NoAnswer?)
    ensures CanFollow(lw, After(w, e))
  {
    hide Mirrors, CanFollow, Answered, Unanswered;
    FollowNow(lw, w);
    if e.m in w.calls {
      AnswersMoveNoRows(w, e.m);
      FollowAlike(lw, w, After(w, e));
    }
  }

  lemma NodeEventFollows(w: World, lw: Lamport.World, e: Event)
    requires Mirrors(w, lw) && (Handover.IsRequest(e) || e.Sweep? || e.NodeReport?)
    ensures CanFollow(lw, After(w, e))
  {
    hide Mirrors, CanFollow, After;
    FollowNow(lw, w);
    NodeEventsMoveNoRows(w, e);
    FollowAlike(lw, w, After(w, e));
  }

  lemma StepFollows(w: World, lw: Lamport.World, e: Event)
    requires Inv(w) && Enabled(w, e) && Mirrors(w, lw) && Bounded(w)
    ensures CanFollow(lw, After(w, e))
  {
    hide Inv, Mirrors, Bounded, CanFollow, Returned, Receive;
    match e
    case Begin(_, _, _, _, _, _, _) => BeginFollows(w, lw, e);
    case Return(m) => ReturnFollows(w, lw, m);
    case Poll(_, _) => PollFollows(w, lw, e);
    case DialReaches(m, opening) => DialFollows(w, lw, m, opening);
    case NodeDial(owner, m, opening) => NodeDialFollows(w, lw, owner, m, opening);
    case SyncReceives(d, k, opening) => SyncFollows(w, lw, d, k, opening);
    case Stray(m, d, opening) => StrayFollows(w, lw, m, d, opening);
    case AnswerArrives(_) => AnswerFollows(w, lw, e);
    case NoAnswer(_) => AnswerFollows(w, lw, e);
    case _ => NodeEventFollows(w, lw, e);
  }

  // ---------- Whole runs ----------

  ghost predicate BoundedRun(w: World, events: seq<Event>)
    decreases events
  {
    Bounded(w) && (events != [] ==> BoundedRun(After(w, events[0]), events[1..]))
  }

  lemma {:induction false} RunsCompose(lw: Lamport.World, a: seq<Lamport.Event>, b: seq<Lamport.Event>)
    requires Lamport.ValidRun(lw, a) && Lamport.ValidRun(Lamport.Final(lw, a), b)
    ensures Lamport.ValidRun(lw, a + b) && Lamport.Final(lw, a + b) == Lamport.Final(Lamport.Final(lw, a), b)
    decreases a
  {
    hide Lamport.After, Lamport.Enabled;
    if a == [] {
      assert a + b == b;
    } else {
      assert (a + b)[1..] == a[1..] + b;
      RunsCompose(Lamport.After(lw, a[0]), a[1..], b);
    }
  }

  lemma {:induction false} RunFollows(w: World, lw: Lamport.World, events: seq<Event>)
    requires Inv(w) && ValidRun(w, events) && BoundedRun(w, events) && Mirrors(w, lw)
    ensures CanFollow(lw, Final(w, events))
    decreases events
  {
    hide Inv, Mirrors, Bounded, After, Enabled, Lamport.ValidRun, Lamport.Final;
    if events == [] {
      FollowNow(lw, w);
    } else {
      StepFollows(w, lw, events[0]);
      StepKeepsInv(w, events[0]);
      var w' := After(w, events[0]);
      var a :| Lamport.ValidRun(lw, a) && Mirrors(w', Lamport.Final(lw, a));
      RunFollows(w', Lamport.Final(lw, a), events[1..]);
      var b :| Lamport.ValidRun(Lamport.Final(lw, a), b)
               && Mirrors(Final(w', events[1..]), Lamport.Final(Lamport.Final(lw, a), b));
      RunsCompose(lw, a, b);
    }
  }

  /** The Lamport world in which the devices of `w` start. */
  function Beginning(w: World): Lamport.World {
    Lamport.World(w.dbs, map[], [], map[])
  }

  lemma StartMirrors(w: World)
    requires Start(w)
    ensures Inv(w) && Lamport.Fresh(Beginning(w)) && Mirrors(w, Beginning(w))
  {
    assert forall d :: Lamport.Db(Beginning(w), d) == Db(w, d);
  }

  /** Every run of `Delivery` within the bounds is a run of the Lamport model. */
  lemma RunsAreLamportRuns(w: World, events: seq<Event>) returns (lw: Lamport.World)
    requires Start(w) && ValidRun(w, events) && BoundedRun(w, events)
    ensures Lamport.Reachable(lw) && Mirrors(Final(w, events), lw)
  {
    hide Inv, Mirrors, Start, BoundedRun, Lamport.Fresh;
    StartMirrors(w);
    RunFollows(w, Beginning(w), events);
    var a :| Lamport.ValidRun(Beginning(w), a) && Mirrors(Final(w, events), Lamport.Final(Beginning(w), a));
    lw := Lamport.Final(Beginning(w), a);
  }

  // ---------- Main results ----------

  /** In every such run, no two messages a device stores carry the same clock value. */
  lemma StoredValuesAreDistinct(w: World, events: seq<Event>, d: DeviceId, k: nat, l: nat)
    requires Start(w) && ValidRun(w, events) && BoundedRun(w, events)
    requires k < l < |Db(Final(w, events), d).messages|
    ensures Db(Final(w, events), d).messages[k].message.lamport != Db(Final(w, events), d).messages[l].message.lamport
  {
    hide Start, ValidRun, BoundedRun, Lamport.Reachable;
    var lw := RunsAreLamportRuns(w, events);
    Lamport.MessageValuesAreDistinct(lw, d, k, l);
  }

  lemma {:induction false} StampsStay(lw: Lamport.World, events: seq<Lamport.Event>)
    ensures |lw.stamps| <= |Lamport.Final(lw, events).stamps|
    ensures Lamport.Final(lw, events).stamps[..|lw.stamps|] == lw.stamps
    decreases events
  {
    if events != [] {
      var lw' := Lamport.After(lw, events[0]);
      StampsStay(lw', events[1..]);
      var final := Lamport.Final(lw', events[1..]).stamps;
      assert |lw.stamps| <= |lw'.stamps| && lw'.stamps[..|lw.stamps|] == lw.stamps;
      assert final[..|lw.stamps|] == final[..|lw'.stamps|][..|lw.stamps|];
    }
  }

  /** A message held before another was sent has the earlier event. */
  lemma HeardBeforeSent(
      lw1: Lamport.World, lw2: Lamport.World, bob: DeviceId, heard: Row, reply: Row)
    requires Lamport.Inv(lw1) && Lamport.Inv(lw2)
    requires |lw1.stamps| <= |lw2.stamps| && lw2.stamps[..|lw1.stamps|] == lw1.stamps
    requires heard in Lamport.Db(lw1, bob).messages && heard.message.direction.Incoming?
    requires reply in Lamport.Db(lw2, bob).messages && reply.message.direction.Outgoing?
    requires reply.message.msgId !in lw1.envelopes
    ensures exists i, j ::
      0 <= i < j < |lw2.stamps| && Lamport.RowFrom(lw2, bob, heard, i) && Lamport.RowFrom(lw2, bob, reply, j)
  {
    var i := Lamport.RowHasStamp(lw1, bob, heard);
    var j := Lamport.RowHasStamp(lw2, bob, reply);
    forall x | 0 <= x < |lw1.stamps| ensures lw2.stamps[x] == lw1.stamps[x] {
      assert lw2.stamps[x] == lw2.stamps[..|lw1.stamps|][x];
    }
    assert |lw1.stamps| <= j by {
      assert j < |lw1.stamps| ==> Lamport.StampOk(lw1, j);
    }
    assert Lamport.RowFrom(lw2, bob, heard, i);
  }

  lemma FollowsOn(w: World, lw: Lamport.World, events: seq<Event>) returns (lw': Lamport.World)
    requires Inv(w) && ValidRun(w, events) && BoundedRun(w, events) && Mirrors(w, lw) && Lamport.Reachable(lw)
    ensures Lamport.Reachable(lw') && Mirrors(Final(w, events), lw')
    ensures |lw.stamps| <= |lw'.stamps| && lw'.stamps[..|lw.stamps|] == lw.stamps
  {
    hide Inv, Mirrors, ValidRun, BoundedRun, Lamport.Fresh;
    RunFollows(w, lw, events);
    var more :| Lamport.ValidRun(lw, more) && Mirrors(Final(w, events), Lamport.Final(lw, more));
    lw' := Lamport.Final(lw, more);
    StampsStay(lw, more);
    var start, before :| Lamport.Fresh(start) && Lamport.ValidRun(start, before) && lw == Lamport.Final(start, before);
    RunsCompose(start, before, more);
    assert Lamport.Fresh(start) && Lamport.ValidRun(start, before + more) && lw' == Lamport.Final(start, before + more);
  }

  /**
   In every such run: if `bob` already held `alice`'s message when his reply was sent, both devices list both
   messages, the reply after what it answers, whatever else happened on whatever path.
   */
  lemma RepliesAreShownAfter(
      w: World, first: seq<Event>, second: seq<Event>, alice: DeviceId, bob: DeviceId,
      asked: Row, heard: Row, reply: Row, answer: Row)
    requires Start(w) && ValidRun(w, first) && BoundedRun(w, first)
    requires ValidRun(Final(w, first), second) && BoundedRun(Final(w, first), second)
    requires heard in Db(Final(w, first), bob).messages && reply.message.msgId !in Final(w, first).emitted
    requires var w' := Final(Final(w, first), second);
      && asked in Db(w', alice).messages && answer in Db(w', alice).messages && asked.contact == answer.contact
      && heard in Db(w', bob).messages && reply in Db(w', bob).messages && heard.contact == reply.contact
    requires asked.message.direction.Outgoing? && heard.message.direction.Incoming?
    requires reply.message.direction.Outgoing? && answer.message.direction.Incoming?
    requires asked.message.msgId == heard.message.msgId && reply.message.msgId == answer.message.msgId
    ensures var w' := Final(Final(w, first), second);
      && Lamport.ShownBefore(MessagesFor(Db(w', alice), asked.contact), asked.message, answer.message)
      && Lamport.ShownBefore(MessagesFor(Db(w', bob), heard.contact), heard.message, reply.message)
  {
    hide Start, ValidRun, BoundedRun, Lamport.Reachable, Lamport.ShownBefore, MessagesFor, Inv, Lamport.Inv, Final;
    var lw1 := RunsAreLamportRuns(w, first);
    StartMirrors(w);
    RunKeepsInv(w, first);
    var lw2 := FollowsOn(Final(w, first), lw1, second);
    Lamport.ReachableInv(lw1);
    Lamport.ReachableInv(lw2);
    HeardBeforeSent(lw1, lw2, bob, heard, reply);
    Lamport.RepliesSortAfter(lw2, alice, bob, asked, heard, reply, answer);
  }
}

/**
 Lamport ordering over runs of many devices: every send ticks the sender's clock, every chat message
 received merges the sender's value, and stored messages carry the value of their own event. Runs have no
 restores, and clocks stay below the signed 64-bit maximum.
 */
module Lamport {
  import opened Wrappers
  import opened Bytes
  import opened Store

  type DeviceId = nat

  /**
   A message on the wire, sent by clock event number `event`. Receipts and pointer updates carry a clock
   value too, but nobody merges it.
   */
  datatype Envelope = Envelope(sender: DeviceId, contact: ContactId, lamport: nat, chat: bool, event: nat)

  /** A clock event: device `device`'s clock took value `value` on sending or receiving `msgId`. */
  datatype Stamp = Stamp(device: DeviceId, sent: bool, msgId: MsgId, value: nat)

  /** `origins[d][k]` is the clock event whose value the k-th message row of `d` carries. */
  datatype World = World(
    dbs: map<DeviceId, Database>, envelopes: map<MsgId, Envelope>,
    stamps: seq<Stamp>, origins: map<DeviceId, seq<nat>>)

  datatype Event =
    | Send(device: DeviceId, contact: ContactId, msgId: MsgId, chat: bool)
    | Keep(msgId: MsgId, sentAt: nat, text: seq<byte>, status: Status)
    | Receive(device: DeviceId, contact: ContactId, msgId: MsgId, sentAt: nat, text: seq<byte>)
    | Other(device: DeviceId, db: Database)

  function Db(w: World, d: DeviceId): Database {
    if d in w.dbs then w.dbs[d] else EMPTY
  }

  function Origins(w: World, d: DeviceId): seq<nat> {
    if d in w.origins then w.origins[d] else []
  }

  /** The same rows, but for their statuses. */
  predicate SameValues(rows: seq<Row>, rows': seq<Row>) {
    && |rows'| == |rows|
    && forall k :: 0 <= k < |rows| ==>
        && rows'[k].contact == rows[k].contact
        && rows'[k].message == rows[k].message.(status := rows'[k].message.status)
  }

  /**
   Message ids are fresh, only sent messages are received, and no clock is at its maximum. Whatever else a
   device does, it never sets its clock back, and at most changes the status of a row.
   */
  predicate Enabled(w: World, e: Event) {
    match e
    case Send(device, _, msgId, _) => msgId !in w.envelopes && Db(w, device).lamport < I64_MAX
    case Keep(msgId, _, _, _) => msgId in w.envelopes && w.envelopes[msgId].chat
    case Receive(device, _, msgId, _, _) =>
      && msgId in w.envelopes && w.envelopes[msgId].chat && w.envelopes[msgId].sender != device
      && Db(w, device).lamport < I64_MAX && w.envelopes[msgId].lamport < I64_MAX
    case Other(device, db) => Db(w, device).lamport <= db.lamport && SameValues(Db(w, device).messages, db.messages)
  }

  /** Stores a row, remembering which clock event it came from; a duplicate is refused. */
  function Stored(w: World, d: DeviceId, contact: ContactId, m: Message, origin: nat): World {
    match Inserted(Db(w, d), contact, m)
    case Failure(_) => w
    case Success(db) => w.(dbs := w.dbs[d := db], origins := w.origins[d := Origins(w, d) + [origin]])
  }

  function After(w: World, e: Event): World {
    match e
    case Send(device, contact, msgId, chat) =>
      var db := Ticked(Db(w, device));
      w.(dbs := w.dbs[device := db],
         envelopes := w.envelopes[msgId := Envelope(device, contact, db.lamport, chat, |w.stamps|)],
         stamps := w.stamps + [Stamp(device, true, msgId, db.lamport)])
    case Keep(msgId, sentAt, text, status) =>
      if msgId !in w.envelopes then w
      else
        var env := w.envelopes[msgId];
        Stored(w, env.sender, env.contact, Message(msgId, Outgoing, env.lamport, sentAt, text, Some(status)), env.event)
    case Receive(device, contact, msgId, sentAt, text) =>
      if msgId !in w.envelopes then w
      else
        var db := Observed(Db(w, device), w.envelopes[msgId].lamport);
        var w' := w.(dbs := w.dbs[device := db], stamps := w.stamps + [Stamp(device, false, msgId, db.lamport)]);
        Stored(w', device, contact, Message(msgId, Incoming, db.lamport, sentAt, text, None), |w.stamps|)
    case Other(device, db) => w.(dbs := w.dbs[device := db])
  }

  predicate ValidRun(w: World, events: seq<Event>)
    decreases events
  {
    events != [] ==> Enabled(w, events[0]) && ValidRun(After(w, events[0]), events[1..])
  }

  function Final(w: World, events: seq<Event>): World
    decreases events
  {
    if events == [] then w else Final(After(w, events[0]), events[1..])
  }

  /** Nothing has been sent or received yet. */
  ghost predicate Fresh(w: World) {
    w.envelopes == map[] && w.stamps == [] && w.origins == map[] && forall d :: Db(w, d).messages == []
  }

  // ---------- Happens before ----------

  /** Local order, or a chat message sent and received. */
  predicate Edge(stamps: seq<Stamp>, i: nat, j: nat)
    requires i < |stamps| && j < |stamps|
  {
    || (i < j && stamps[i].device == stamps[j].device)
    || (stamps[i].sent && !stamps[j].sent && stamps[i].msgId == stamps[j].msgId)
  }

  predicate InRange(path: seq<nat>, n: nat) {
    forall k :: 0 <= k < |path| ==> path[k] < n
  }

  /** A chain of edges: its first event happened before its last. */
  predicate Causes(stamps: seq<Stamp>, path: seq<nat>) {
    && InRange(path, |stamps|)
    && |path| >= 2
    && Edge(stamps, path[0], path[1])
    && (|path| > 2 ==> Causes(stamps, path[1..]))
  }

  // ---------- The invariant ----------

  /** Each device's values strictly increase and end at its clock. */
  ghost predicate LocalOrder(w: World) {
    && (forall i, j :: 0 <= i < j < |w.stamps| && w.stamps[i].device == w.stamps[j].device ==>
          w.stamps[i].value < w.stamps[j].value)
    && (forall i :: 0 <= i < |w.stamps| ==> w.stamps[i].value <= Db(w, w.stamps[i].device).lamport)
  }

  /** A sent message carries its own event's value. */
  ghost predicate EnvelopeOk(w: World, m: MsgId)
    requires m in w.envelopes
  {
    var env := w.envelopes[m];
    env.event < |w.stamps| && w.stamps[env.event] == Stamp(env.sender, true, m, env.lamport)
  }

  /** A message is sent once; a received one was sent by another device, with a smaller value. */
  ghost predicate StampOk(w: World, i: nat)
    requires i < |w.stamps|
  {
    var st := w.stamps[i];
    && st.msgId in w.envelopes
    && var env := w.envelopes[st.msgId];
       if st.sent then env.event == i else env.lamport < st.value && env.sender != st.device
  }

  ghost predicate WireOrder(w: World) {
    && (forall m :: m in w.envelopes ==> EnvelopeOk(w, m))
    && (forall i :: 0 <= i < |w.stamps| ==> StampOk(w, i))
  }

  /** Row `k` of device `d` comes from event `i`. */
  ghost predicate RowFrom(w: World, d: DeviceId, row: Row, i: nat) {
    && i < |w.stamps|
    && w.stamps[i] == Stamp(d, row.message.direction.Outgoing?, row.message.msgId, row.message.lamport)
    && (row.message.direction.Outgoing? ==>
          row.message.msgId in w.envelopes && row.contact == w.envelopes[row.message.msgId].contact)
  }

  ghost predicate RowsOk(w: World, d: DeviceId) {
    var rows, from := Db(w, d).messages, Origins(w, d);
    && |from| == |rows|
    && (forall k :: 0 <= k < |rows| ==> RowFrom(w, d, rows[k], from[k]))
    && (forall k, l :: 0 <= k < l < |rows| ==> from[k] != from[l])
  }

  ghost predicate Inv(w: World) {
    LocalOrder(w) && WireOrder(w) && forall d :: RowsOk(w, d)
  }

  // ---------- Steps ----------

  /** The world after one more clock event on `d`, which moved its clock to `value`. */
  function Stamped(w: World, d: DeviceId, sent: bool, m: MsgId, value: nat): World {
    w.(dbs := w.dbs[d := Db(w, d).(lamport := value)], stamps := w.stamps + [Stamp(d, sent, m, value)])
  }

  lemma StampKeepsLocalOrder(w: World, d: DeviceId, sent: bool, m: MsgId, value: nat)
    requires LocalOrder(w) && Db(w, d).lamport < value
    ensures LocalOrder(Stamped(w, d, sent, m, value))
  {
    var w' := Stamped(w, d, sent, m, value);
    forall i | 0 <= i < |w'.stamps| ensures w'.stamps[i].value <= Db(w', w'.stamps[i].device).lamport {
      assert i < |w.stamps| ==> w.stamps[i].value <= Db(w, w.stamps[i].device).lamport;
    }
  }

  lemma SendKeepsWireOrder(w: World, d: DeviceId, m: MsgId, value: nat, env: Envelope)
    requires WireOrder(w) && m !in w.envelopes
    requires env.sender == d && env.lamport == value && env.event == |w.stamps|
    ensures WireOrder(Stamped(w, d, true, m, value).(envelopes := w.envelopes[m := env]))
  {
    var w' := Stamped(w, d, true, m, value).(envelopes := w.envelopes[m := env]);
    forall k | k in w'.envelopes ensures EnvelopeOk(w', k) {
      assert k != m ==> EnvelopeOk(w, k);
    }
    forall i | 0 <= i < |w'.stamps| ensures StampOk(w', i) {
      assert i < |w.stamps| ==> StampOk(w, i);
    }
  }

  lemma ReceiveKeepsWireOrder(w: World, d: DeviceId, m: MsgId, value: nat)
    requires WireOrder(w) && m in w.envelopes
    requires w.envelopes[m].lamport < value && w.envelopes[m].sender != d
    ensures WireOrder(Stamped(w, d, false, m, value))
  {
    var w' := Stamped(w, d, false, m, value);
    forall k | k in w'.envelopes ensures EnvelopeOk(w', k) {
      assert EnvelopeOk(w, k);
    }
    forall i | 0 <= i < |w'.stamps| ensures StampOk(w', i) {
      assert i < |w.stamps| ==> StampOk(w, i);
    }
  }

  /** Storing rows touches neither clocks nor events. */
  lemma StoredKeepsOrder(w: World, d: DeviceId, contact: ContactId, m: Message, origin: nat)
    requires LocalOrder(w) && WireOrder(w)
    ensures LocalOrder(Stored(w, d, contact, m, origin)) && WireOrder(Stored(w, d, contact, m, origin))
  {
    var w' := Stored(w, d, contact, m, origin);
    forall i | 0 <= i < |w.stamps| ensures w'.stamps[i].value <= Db(w', w'.stamps[i].device).lamport && StampOk(w', i) {
      assert Db(w', w.stamps[i].device).lamport == Db(w, w.stamps[i].device).lamport && StampOk(w, i);
    }
    forall k | k in w'.envelopes ensures EnvelopeOk(w', k) {
      assert EnvelopeOk(w, k);
    }
  }

  /** New clock events and envelopes leave the rows and their origins as they were. */
  lemma RowsSurvive(w: World, w': World, d: DeviceId)
    requires RowsOk(w, d)
    requires Db(w', d).messages == Db(w, d).messages && Origins(w', d) == Origins(w, d)
    requires |w.stamps| <= |w'.stamps| && w'.stamps[..|w.stamps|] == w.stamps
    requires forall m :: m in w.envelopes ==> m in w'.envelopes && w'.envelopes[m] == w.envelopes[m]
    ensures RowsOk(w', d)
  {
    forall k | 0 <= k < |Db(w, d).messages| ensures RowFrom(w', d, Db(w, d).messages[k], Origins(w, d)[k]) {
      assert RowFrom(w, d, Db(w, d).messages[k], Origins(w, d)[k]);
      assert w'.stamps[Origins(w, d)[k]] == w'.stamps[..|w.stamps|][Origins(w, d)[k]];
    }
  }

  /** Storing a row whose event no other row of the device came from. */
  lemma StoredKeepsRows(w: World, d: DeviceId, contact: ContactId, m: Message, origin: nat)
    requires forall k :: RowsOk(w, k)
    requires RowFrom(w, d, Row(contact, m), origin)
    requires Inserted(Db(w, d), contact, m).Success? ==> origin !in Origins(w, d)
    ensures forall k :: RowsOk(Stored(w, d, contact, m, origin), k)
  {
    var w' := Stored(w, d, contact, m, origin);
    forall k ensures RowsOk(w', k) {
      assert RowsOk(w, k) && RowsOk(w, d);
      if k != d || w' == w {
        RowsSurvive(w, w', k);
      } else {
        var rows, from := Db(w', d).messages, Origins(w', d);
        forall x | 0 <= x < |rows| ensures RowFrom(w', d, rows[x], from[x]) {
          assert x < |rows| - 1 ==> RowFrom(w, d, Db(w, d).messages[x], Origins(w, d)[x]);
        }
      }
    }
  }

  lemma OtherKeepsInv(w: World, e: Event)
    requires Inv(w) && Enabled(w, e) && e.Other?
    ensures Inv(After(w, e))
  {
    var w' := After(w, e);
    forall i | 0 <= i < |w.stamps| ensures w'.stamps[i].value <= Db(w', w'.stamps[i].device).lamport {
      assert w.stamps[i].value <= Db(w, w.stamps[i].device).lamport;
    }
    forall i | 0 <= i < |w.stamps| ensures StampOk(w', i) {
      assert StampOk(w, i);
    }
    forall m | m in w.envelopes ensures EnvelopeOk(w', m) {
      assert EnvelopeOk(w, m);
    }
    forall d ensures RowsOk(w', d) {
      assert RowsOk(w, d);
      if d == e.device {
        StatusesDoNotMatter(w, w', d);
      } else {
        RowsSurvive(w, w', d);
      }
    }
  }

  lemma StatusesDoNotMatter(w: World, w': World, d: DeviceId)
    requires RowsOk(w, d) && SameValues(Db(w, d).messages, Db(w', d).messages)
    requires w'.stamps == w.stamps && w'.envelopes == w.envelopes && Origins(w', d) == Origins(w, d)
    ensures RowsOk(w', d)
  {
    forall k | 0 <= k < |Db(w, d).messages| ensures RowFrom(w', d, Db(w', d).messages[k], Origins(w, d)[k]) {
      assert RowFrom(w, d, Db(w, d).messages[k], Origins(w, d)[k]);
    }
  }

  lemma KeepKeepsInv(w: World, e: Event)
    requires Inv(w) && Enabled(w, e) && e.Keep?
    ensures Inv(After(w, e))
  {
    var env := w.envelopes[e.msgId];
    var m := Message(e.msgId, Outgoing, env.lamport, e.sentAt, e.text, Some(e.status));
    assert EnvelopeOk(w, e.msgId);
    if Inserted(Db(w, env.sender), env.contact, m).Success? {
      KeptOnce(w, e.msgId, m);
    }
    StoredKeepsRows(w, env.sender, env.contact, m, env.event);
    StoredKeepsOrder(w, env.sender, env.contact, m, env.event);
  }

  /** A second row from the same send would have the same contact and id, and is refused. */
  lemma KeptOnce(w: World, msgId: MsgId, m: Message)
    requires msgId in w.envelopes && EnvelopeOk(w, msgId) && m.msgId == msgId && RowsOk(w, w.envelopes[msgId].sender)
    requires Inserted(Db(w, w.envelopes[msgId].sender), w.envelopes[msgId].contact, m).Success?
    ensures w.envelopes[msgId].event !in Origins(w, w.envelopes[msgId].sender)
  {
    var env := w.envelopes[msgId];
    var rows, from := Db(w, env.sender).messages, Origins(w, env.sender);
    forall k | 0 <= k < |from| ensures from[k] != env.event {
      assert RowFrom(w, env.sender, rows[k], from[k]);
    }
  }

  lemma ReceiveKeepsInv(w: World, e: Event)
    requires Inv(w) && Enabled(w, e) && e.Receive?
    ensures Inv(After(w, e))
  {
    var db := Observed(Db(w, e.device), w.envelopes[e.msgId].lamport);
    var w1 := Stamped(w, e.device, false, e.msgId, db.lamport);
    StampKeepsLocalOrder(w, e.device, false, e.msgId, db.lamport);
    ReceiveKeepsWireOrder(w, e.device, e.msgId, db.lamport);
    forall d ensures RowsOk(w1, d) {
      assert RowsOk(w, d);
      RowsSurvive(w, w1, d);
    }
    NewEventIsUnused(w, e.device);
    var m := Message(e.msgId, Incoming, db.lamport, e.sentAt, e.text, None);
    StoredKeepsRows(w1, e.device, e.contact, m, |w.stamps|);
    StoredKeepsOrder(w1, e.device, e.contact, m, |w.stamps|);
    assert After(w, e) == Stored(w1, e.device, e.contact, m, |w.stamps|);
  }

  lemma NewEventIsUnused(w: World, d: DeviceId)
    requires RowsOk(w, d)
    ensures |w.stamps| !in Origins(w, d)
  {
    forall k | 0 <= k < |Origins(w, d)| ensures Origins(w, d)[k] != |w.stamps| {
      assert RowFrom(w, d, Db(w, d).messages[k], Origins(w, d)[k]);
    }
  }

  /** What a send does, as a clock event and a new envelope. */
  lemma SendIsStamp(w: World, e: Event)
    requires e.Send?
    ensures var value := Db(w, e.device).lamport + 1;
      After(w, e) == Stamped(w, e.device, true, e.msgId, value)
                     .(envelopes := w.envelopes[e.msgId := Envelope(e.device, e.contact, value, e.chat, |w.stamps|)])
  {
  }

  lemma NewEnvelopeKeepsLocalOrder(w: World, envelopes: map<MsgId, Envelope>)
    requires LocalOrder(w)
    ensures LocalOrder(w.(envelopes := envelopes))
  {
    var w' := w.(envelopes := envelopes);
    assert forall d :: Db(w', d) == Db(w, d);
  }

  lemma SendKeepsRows(w: World, e: Event)
    requires (forall d :: RowsOk(w, d)) && Enabled(w, e) && e.Send?
    ensures forall d :: RowsOk(After(w, e), d)
  {
    forall d ensures RowsOk(After(w, e), d) {
      assert RowsOk(w, d);
      RowsSurvive(w, After(w, e), d);
    }
  }

  lemma SendKeepsInv(w: World, e: Event)
    requires Inv(w) && Enabled(w, e) && e.Send?
    ensures Inv(After(w, e))
  {
    var value := Db(w, e.device).lamport + 1;
    var env := Envelope(e.device, e.contact, value, e.chat, |w.stamps|);
    SendIsStamp(w, e);
    StampKeepsLocalOrder(w, e.device, true, e.msgId, value);
    NewEnvelopeKeepsLocalOrder(Stamped(w, e.device, true, e.msgId, value), w.envelopes[e.msgId := env]);
    SendKeepsWireOrder(w, e.device, e.msgId, value, env);
    SendKeepsRows(w, e);
  }

  lemma {:induction false} RunKeepsInv(w: World, events: seq<Event>)
    requires Inv(w) && ValidRun(w, events)
    ensures Inv(Final(w, events))
    decreases events
  {
    if events != [] {
      match events[0] {
        case Send(_, _, _, _) => SendKeepsInv(w, events[0]);
        case Keep(_, _, _, _) => KeepKeepsInv(w, events[0]);
        case Receive(_, _, _, _, _) => ReceiveKeepsInv(w, events[0]);
        case Other(_, _) => OtherKeepsInv(w, events[0]);
      }
      RunKeepsInv(After(w, events[0]), events[1..]);
    }
  }

  // ---------- Main results ----------

  ghost predicate Reachable(w: World) {
    exists start, events :: Fresh(start) && ValidRun(start, events) && w == Final(start, events)
  }

  lemma FreshIsOk(w: World)
    requires Fresh(w)
    ensures Inv(w)
  {
  }

  lemma ReachableInv(w: World)
    requires Reachable(w)
    ensures Inv(w)
  {
    var start, events :| Fresh(start) && ValidRun(start, events) && w == Final(start, events);
    FreshIsOk(start);
    RunKeepsInv(start, events);
  }

  lemma EdgeIncreases(w: World, i: nat, j: nat)
    requires Inv(w) && i < |w.stamps| && j < |w.stamps| && Edge(w.stamps, i, j)
    ensures w.stamps[i].value < w.stamps[j].value
  {
    assert StampOk(w, i) && StampOk(w, j);
    assert w.stamps[i].sent ==> EnvelopeOk(w, w.stamps[i].msgId);
  }

  lemma {:induction false} PathIncreases(w: World, path: seq<nat>)
    requires Inv(w) && Causes(w.stamps, path)
    ensures w.stamps[path[0]].value < w.stamps[path[|path| - 1]].value
    decreases |path|
  {
    EdgeIncreases(w, path[0], path[1]);
    if |path| > 2 {
      PathIncreases(w, path[1..]);
    }
  }

  /** If one event happened before another, through any chain of local steps and messages, its value is smaller. */
  lemma ClockCondition(w: World, path: seq<nat>)
    requires Reachable(w) && Causes(w.stamps, path)
    ensures w.stamps[path[0]].value < w.stamps[path[|path| - 1]].value
  {
    ReachableInv(w);
    PathIncreases(w, path);
  }

  /** No two messages of one device, with whatever contacts, carry the same value. */
  lemma MessageValuesAreDistinct(w: World, d: DeviceId, k: nat, l: nat)
    requires Reachable(w) && k < l < |Db(w, d).messages|
    ensures Db(w, d).messages[k].message.lamport != Db(w, d).messages[l].message.lamport
  {
    ReachableInv(w);
    assert RowsOk(w, d);
    var rows, from := Db(w, d).messages, Origins(w, d);
    assert RowFrom(w, d, rows[k], from[k]) && RowFrom(w, d, rows[l], from[l]);
  }

  /** Both messages are shown, and `x` comes first. */
  ghost predicate ShownBefore(shown: seq<Message>, x: Message, y: Message) {
    && x in shown && y in shown
    && forall i, j :: 0 <= i < |shown| && 0 <= j < |shown| && shown[i] == x && shown[j] == y ==> i < j
  }

  /** Of two rows of one contact, the one with the smaller value is listed first. */
  lemma EarlierIsShownBefore(db: Database, x: Row, y: Row)
    requires x in db.messages && y in db.messages && x.contact == y.contact
    requires x.message.lamport < y.message.lamport
    ensures ShownBefore(MessagesFor(db, x.contact), x.message, y.message)
  {
    QueryIsCorrect(db, x.contact, x.message);
    QueryIsCorrect(db, x.contact, y.message);
  }

  lemma RowHasStamp(w: World, d: DeviceId, row: Row)
    returns (i: nat)
    requires Inv(w) && row in Db(w, d).messages
    ensures RowFrom(w, d, row, i)
  {
    assert RowsOk(w, d);
    var k :| 0 <= k < |Db(w, d).messages| && Db(w, d).messages[k] == row;
    assert RowFrom(w, d, Db(w, d).messages[k], Origins(w, d)[k]);
    i := Origins(w, d)[k];
  }

  /**
   `bob` received `asked` from `alice` and later sent `reply`, which `alice` received: both devices show both
   messages, in the conversation they belong to, with the reply after what it answers.
   */
  lemma RepliesSortAfter(
      w: World, alice: DeviceId, bob: DeviceId, asked: Row, heard: Row, reply: Row, answer: Row)
    requires Reachable(w)
    requires asked in Db(w, alice).messages && answer in Db(w, alice).messages && asked.contact == answer.contact
    requires heard in Db(w, bob).messages && reply in Db(w, bob).messages && heard.contact == reply.contact
    requires asked.message.direction.Outgoing? && heard.message.direction.Incoming?
    requires reply.message.direction.Outgoing? && answer.message.direction.Incoming?
    requires asked.message.msgId == heard.message.msgId && reply.message.msgId == answer.message.msgId
    requires exists i, j :: 0 <= i < j < |w.stamps| && RowFrom(w, bob, heard, i) && RowFrom(w, bob, reply, j)
    ensures ShownBefore(MessagesFor(Db(w, alice), asked.contact), asked.message, answer.message)
    ensures ShownBefore(MessagesFor(Db(w, bob), heard.contact), heard.message, reply.message)
  {
    ReachableInv(w);
    var h, r :| 0 <= h < r < |w.stamps| && RowFrom(w, bob, heard, h) && RowFrom(w, bob, reply, r);
    var a := RowHasStamp(w, alice, asked);
    var n := RowHasStamp(w, alice, answer);
    EdgeIncreases(w, a, h);
    EdgeIncreases(w, h, r);
    EdgeIncreases(w, r, n);
    hide Inv, MessagesFor;
    EarlierIsShownBefore(Db(w, alice), asked, answer);
    EarlierIsShownBefore(Db(w, bob), heard, reply);
  }
}

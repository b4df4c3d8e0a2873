/**
 The device-side steps of delivery (`pm-core`): preparing an envelope, attributing a received one to a
 contact, and acting on its payload. Encryption is ideal: an envelope names its real sender, only its
 recipient can open it, and opening may fail for reasons of session state.
 */
module Client {
  import opened Wrappers
  import opened Bytes
  import opened Crypto
  import opened Store
  import EnvelopeCodec
  import Pairing
  import Pointer

  /** A device; its number stands for its identity key, session key and transport key. */
  type DeviceId = nat

  /** What an envelope carries once decrypted; `Unknown` is what this version cannot parse. */
  datatype Payload =
    | Chat(text: seq<byte>)
    | Receipt(msgId: MsgId)
    | MailboxPointerUpdate(update: Pointer.Update)
    | Unknown(bytes: seq<byte>)

  datatype Envelope = Envelope(
    sender: DeviceId, recipient: DeviceId, payload: Payload,
    n: nat, lamport: nat, sentAt: nat, msgId: MsgId)

  // ---------- Sending ----------

  /** Where `deliver` sends: the contact's Server, with a write authorisation, or the contact directly. */
  datatype Route = ViaServer(addr: seq<byte>, auth: Secret) | Direct(transportKey: Key32)

  /** `session` is the advanced session, which is saved if the delivery succeeds. */
  datatype Preparation =
    | Ready(db: Database, env: Envelope, route: Route, session: seq<byte>)
    | Unsendable(db: Database)

  /**
   How encrypting and encoding go, as far as the model cannot see: the session may be unusable, encrypting
   may fail, or the result may fit no padding bucket.
   */
  datatype Sealing = NoUsableSession | NotEncrypted | TooLarge | Sealed(session: seq<byte>)

  /** Without a session the contact's one-time key makes one, and is used up. */
  function SessionTaken(db: Database, c: Contact): Database {
    if c.id in db.sessions then db else WithPendingOtk(db, c.id, None)
  }

  /** Picks the path and, on the server path, uses up a write number. */
  function Routed(
      db: Database, me: DeviceId, c: Contact, payload: Payload, msgId: MsgId, now: nat, sealing: Sealing)
    : Preparation
  {
    if c.serverAddr.Some? then
      if c.pairSecret.None? then Unsendable(db)
      else
        var n, db' := c.nextWriteN, WithWrites(db, c.id, 1);
        if !sealing.Sealed? then Unsendable(db')
        else Ready(db', Envelope(me, c.identityKey, payload, n, db.lamport, now, msgId),
                   ViaServer(c.serverAddr.value, Pairing.DeriveAuth(c.pairSecret.value, n)), sealing.session)
    else if c.transportKey.None? || !sealing.Sealed? then Unsendable(db)
    else
      Ready(db, Envelope(me, c.identityKey, payload, 0, db.lamport, now, msgId),
            Direct(c.transportKey.value), sealing.session)
  }

  /** Takes a session, ticks the clock and picks the path. */
  function Prepared(
      db: Database, me: DeviceId, contact: ContactId, payload: Payload, msgId: MsgId, now: nat, sealing: Sealing)
    : Preparation
  {
    match FindContact(db, contact)
    case None => Unsendable(db)
    case Some(c) =>
      if (c.id !in db.sessions && c.pendingOtk.None?) || sealing.NoUsableSession? then Unsendable(db)
      else if sealing.NotEncrypted? then Unsendable(SessionTaken(db, c))
      else Routed(Ticked(SessionTaken(db, c)), me, c, payload, msgId, now, sealing)
  }

  /** The same people, messages, sessions and account. */
  ghost predicate SamePeople(db: Database, db': Database) {
    && db'.messages == db.messages && db'.sessions == db.sessions && db'.account == db.account
    && |db'.contacts| == |db.contacts|
    && (forall i :: 0 <= i < |db.contacts| ==>
          && db'.contacts[i].id == db.contacts[i].id
          && db'.contacts[i].identityKey == db.contacts[i].identityKey
          && db'.contacts[i].curveKey == db.contacts[i].curveKey)
  }

  lemma SessionTakenKeepsPeople(db: Database, c: Contact)
    ensures SamePeople(db, SessionTaken(db, c)) && SessionTaken(db, c).lamport == db.lamport
  {
  }

  lemma RoutingKeepsPeople(
      db: Database, me: DeviceId, c: Contact, payload: Payload, msgId: MsgId, now: nat, sealing: Sealing)
    ensures var p := Routed(db, me, c, payload, msgId, now, sealing);
      && SamePeople(db, p.db)
      && (p.Ready? ==>
            p.env.(n := 0) == Envelope(me, c.identityKey, payload, 0, db.lamport, now, msgId))
  {
  }

  /** What a prepared envelope says, and what preparing never touches. */
  lemma PreparationCases(
      db: Database, me: DeviceId, contact: ContactId, payload: Payload, msgId: MsgId, now: nat, sealing: Sealing)
    requires Valid(db)
    ensures var p := Prepared(db, me, contact, payload, msgId, now, sealing);
      && SamePeople(db, p.db)
      && (p.Ready? ==>
            && 1 <= contact <= |db.contacts|
            && p.env.(n := 0)
               == Envelope(me, db.contacts[contact - 1].identityKey, payload, 0, db.lamport + 1, now, msgId))
  {
    hide Routed, SessionTaken;
    if 1 <= contact <= |db.contacts| {
      var c := db.contacts[contact - 1];
      SessionTakenKeepsPeople(db, c);
      RoutingKeepsPeople(Ticked(SessionTaken(db, c)), me, c, payload, msgId, now, sealing);
    }
  }

  /** Whether there is a session, or a one-time key to make one with. */
  predicate HasSession(db: Database, contact: ContactId) {
    contact in db.sessions || (1 <= contact <= |db.contacts| && db.contacts[contact - 1].pendingOtk.Some?)
  }

  /** An envelope is ready exactly when contact, session, encryption, encoding and route are all there. */
  lemma ReadyExactlyWhen(
      db: Database, me: DeviceId, contact: ContactId, payload: Payload, msgId: MsgId, now: nat, sealing: Sealing)
    requires Valid(db)
    ensures Prepared(db, me, contact, payload, msgId, now, sealing).Ready?
       <==> && 1 <= contact <= |db.contacts| && HasSession(db, contact) && sealing.Sealed?
            && var c := db.contacts[contact - 1];
               if c.serverAddr.Some? then c.pairSecret.Some? else c.transportKey.Some?
  {
  }

  /** The write number goes up by one, for this contact only, once a server-path write gets as far as encoding. */
  lemma NumberIsUsedUp(
      db: Database, me: DeviceId, contact: ContactId, payload: Payload, msgId: MsgId, now: nat, sealing: Sealing)
    requires Valid(db)
    ensures var p := Prepared(db, me, contact, payload, msgId, now, sealing);
      && |p.db.contacts| == |db.contacts|
      && (forall i :: 0 <= i < |db.contacts| && i != contact - 1 ==> p.db.contacts[i] == db.contacts[i])
      && (1 <= contact <= |db.contacts| ==>
            var c, c' := db.contacts[contact - 1], p.db.contacts[contact - 1];
            && c'.nextWriteN == c.nextWriteN
                 + (if && HasSession(db, contact) && (sealing.TooLarge? || sealing.Sealed?)
                       && c.serverAddr.Some? && c.pairSecret.Some? then 1 else 0)
            && c'.pendingOtk == (if && contact !in db.sessions && !sealing.NoUsableSession? then None else c.pendingOtk)
            && c' == c.(nextWriteN := c'.nextWriteN, pendingOtk := c'.pendingOtk))
      && p.db.lamport == db.lamport
           + (if && 1 <= contact <= |db.contacts| && HasSession(db, contact)
                 && (sealing.TooLarge? || sealing.Sealed?) then 1 else 0)
  {
    hide Routed, SessionTaken;
    if 1 <= contact <= |db.contacts| {
      var c := db.contacts[contact - 1];
      SessionTakenColumns(db, c);
      RoutedColumns(Ticked(SessionTaken(db, c)), me, c, payload, msgId, now, sealing);
    }
  }

  lemma SessionTakenColumns(db: Database, c: Contact)
    requires Valid(db) && 1 <= c.id <= |db.contacts| && db.contacts[c.id - 1] == c
    ensures var db' := SessionTaken(db, c);
      && db'.lamport == db.lamport && |db'.contacts| == |db.contacts|
      && (forall i :: 0 <= i < |db.contacts| && i != c.id - 1 ==> db'.contacts[i] == db.contacts[i])
      && (forall i :: 0 <= i < |db.contacts| ==> db'.contacts[i].id == i + 1)
      && db'.contacts[c.id - 1] == (if c.id in db.sessions then c else c.(pendingOtk := None))
  {
  }

  lemma RoutedColumns(
      db: Database, me: DeviceId, c: Contact, payload: Payload, msgId: MsgId, now: nat, sealing: Sealing)
    requires forall i :: 0 <= i < |db.contacts| ==> db.contacts[i].id == i + 1
    requires 1 <= c.id <= |db.contacts|
    ensures var p := Routed(db, me, c, payload, msgId, now, sealing);
      && p.db.lamport == db.lamport && |p.db.contacts| == |db.contacts|
      && (forall i :: 0 <= i < |db.contacts| && i != c.id - 1 ==> p.db.contacts[i] == db.contacts[i])
      && var was := db.contacts[c.id - 1];
         p.db.contacts[c.id - 1] == (if c.serverAddr.Some? && c.pairSecret.Some?
                                     then was.(nextWriteN := was.nextWriteN + 1) else was)
  {
  }

  /**
   A server-path envelope carries the contact's next number, under the authorisation made from it, to the
   contact's Server; a direct one carries none and goes to the contact's transport key.
   */
  lemma RouteIsRight(
      db: Database, me: DeviceId, contact: ContactId, payload: Payload, msgId: MsgId, now: nat, sealing: Sealing)
    requires Valid(db) && Prepared(db, me, contact, payload, msgId, now, sealing).Ready?
    ensures 1 <= contact <= |db.contacts|
    ensures var p, c := Prepared(db, me, contact, payload, msgId, now, sealing), db.contacts[contact - 1];
      && p.session == sealing.session
      && match p.route
         case ViaServer(addr, auth) =>
           && c.serverAddr == Some(addr) && c.pairSecret.Some?
           && p.env.n == c.nextWriteN && auth == Pairing.DeriveAuth(c.pairSecret.value, p.env.n)
           && p.db.contacts[contact - 1].nextWriteN == p.env.n + 1
         case Direct(key) =>
           && c.serverAddr.None? && c.transportKey == Some(key)
           && p.env.n == 0 && p.db.contacts[contact - 1].nextWriteN == c.nextWriteN
  {
    NumberIsUsedUp(db, me, contact, payload, msgId, now, sealing);
  }

  /** Two server-path writes to one contact, with the counter not set back in between, never share an authorisation. */
  lemma WritesAreAuthorisedOnce(
      db: Database, db': Database, me: DeviceId, contact: ContactId, a: Payload, b: Payload, m: MsgId, n: MsgId,
      now: nat, later: nat, sealing: Sealing, sealing': Sealing)
    requires Valid(db) && Valid(db') && 1 <= contact <= |db.contacts| && contact <= |db'.contacts|
    requires var p := Prepared(db, me, contact, a, m, now, sealing);
      && p.Ready? && p.route.ViaServer? && contact <= |p.db.contacts|
      && p.db.contacts[contact - 1].nextWriteN <= db'.contacts[contact - 1].nextWriteN
    requires var q := Prepared(db', me, contact, b, n, later, sealing'); q.Ready? && q.route.ViaServer?
    ensures Prepared(db, me, contact, a, m, now, sealing).route.auth
         != Prepared(db', me, contact, b, n, later, sealing').route.auth
  {
    hide Prepared, Valid;
    RouteIsRight(db, me, contact, a, m, now, sealing);
    RouteIsRight(db', me, contact, b, n, later, sealing');
  }

  /** The second half of `Prepare`, from the clock on; `c` is the contact as first read. */
  method PickRoute(
      store: Store, me: DeviceId, c: Contact, payload: Payload, msgId: MsgId, now: nat, sealing: Sealing)
    returns (r: Option<(Envelope, Route, seq<byte>)>)
    requires Valid(store.db) && store.db.lamport < I64_MAX
    requires 1 <= c.id <= |store.db.contacts| && store.db.contacts[c.id - 1].nextWriteN == c.nextWriteN
    modifies store
    ensures Valid(store.db)
    ensures store.db == Routed(Ticked(old(store.db)), me, c, payload, msgId, now, sealing).db
    ensures r == match Routed(Ticked(old(store.db)), me, c, payload, msgId, now, sealing)
                 case Ready(_, env, route, session) => Some((env, route, session))
                 case Unsendable(_) => None
  {
    var lamport := store.TickLamport();
    if c.serverAddr.Some? {
      if c.pairSecret.None? {
        return None;
      }
      var n := store.IncrementAndGetNextWriteN(c.id);
      var auth := Pairing.DeriveAuth(c.pairSecret.value, n.value);
      if !sealing.Sealed? {
        return None;
      }
      var env := Envelope(me, c.identityKey, payload, n.value, lamport, now, msgId);
      return Some((env, ViaServer(c.serverAddr.value, auth), sealing.session));
    }
    if c.transportKey.None? || !sealing.Sealed? {
      return None;
    }
    var env := Envelope(me, c.identityKey, payload, 0, lamport, now, msgId);
    return Some((env, Direct(c.transportKey.value), sealing.session));
  }

  lemma PreparedSummary(
      db: Database, me: DeviceId, contact: ContactId, payload: Payload, msgId: MsgId, now: nat, sealing: Sealing)
    requires Valid(db)
    ensures var p := Prepared(db, me, contact, payload, msgId, now, sealing);
      p.Ready? ==>
        && 1 <= contact <= |db.contacts| == |p.db.contacts|
        && var was, c, env := db.contacts[contact - 1], p.db.contacts[contact - 1], p.env;
           && env.sender == me && env.recipient == was.identityKey && env.payload == payload && env.msgId == msgId
           && env.lamport == p.db.lamport == db.lamport + 1 && env.sentAt == now
           && (if p.route.ViaServer? then env.n == was.nextWriteN && c.nextWriteN == was.nextWriteN + 1
               else env.n == 0 && c.nextWriteN == was.nextWriteN)
  {
    hide Prepared, Valid;
    ReadyExactlyWhen(db, me, contact, payload, msgId, now, sealing);
    PreparationCases(db, me, contact, payload, msgId, now, sealing);
    NumberIsUsedUp(db, me, contact, payload, msgId, now, sealing);
    if Prepared(db, me, contact, payload, msgId, now, sealing).Ready? {
      RouteIsRight(db, me, contact, payload, msgId, now, sealing);
    }
  }

  method Prepare(
      store: Store, me: DeviceId, contact: ContactId, payload: Payload, msgId: MsgId, now: nat, sealing: Sealing)
    returns (r: Option<(Envelope, Route, seq<byte>)>)
    requires Valid(store.db) && store.db.lamport < I64_MAX
    modifies store
    ensures Valid(store.db)
    ensures store.db == Prepared(old(store.db), me, contact, payload, msgId, now, sealing).db
    ensures r == match Prepared(old(store.db), me, contact, payload, msgId, now, sealing)
                 case Ready(_, env, route, session) => Some((env, route, session))
                 case Unsendable(_) => None
    ensures r.Some? ==>
      && 1 <= contact <= |old(store.db).contacts| == |store.db.contacts|
      && var was, c, env := old(store.db.contacts[contact - 1]), store.db.contacts[contact - 1], r.value.0;
         && env.sender == me && env.recipient == was.identityKey && env.payload == payload && env.msgId == msgId
         && env.lamport == store.db.lamport == old(store.db.lamport) + 1 && env.sentAt == now
         && (if r.value.1.ViaServer? then env.n == was.nextWriteN && c.nextWriteN == was.nextWriteN + 1
             else env.n == 0 && c.nextWriteN == was.nextWriteN)
  {
    PreparedSummary(store.db, me, contact, payload, msgId, now, sealing);
    hide Routed;
    var found := FindContact(store.db, contact);
    if found.None? {
      return None;
    }
    var c := found.value;
    if (c.id !in store.db.sessions && c.pendingOtk.None?) || sealing.NoUsableSession? {
      return None;
    }
    if c.id !in store.db.sessions {
      store.SetContactPendingOtk(c.id, None);
    }
    if sealing.NotEncrypted? {
      return None;
    }
    r := PickRoute(store, me, c, payload, msgId, now, sealing);
  }

  /** Which of the calls `deliver` may make would be answered with success. */
  datatype Network = Network(writeOk: bool, dialOk: bool, retryOk: bool)

  /** What a delivery that takes this route comes to; `None` is an error. */
  function Outcome(route: Route, ownServer: bool, net: Network): Option<Status> {
    match route
    case ViaServer(_, _) => if net.writeOk then Some(Sent) else None
    case Direct(_) => if net.dialOk then Some(Delivered) else if ownServer && net.retryOk then Some(Sent) else None
  }

  /** A delivery fails exactly when no call on its route succeeds, and is confirmed exactly by a direct answer. */
  lemma OutcomeTable(route: Route, own: bool, net: Network)
    ensures Outcome(route, own, net).None?
       <==> (route.ViaServer? && !net.writeOk) || (route.Direct? && !net.dialOk && !(own && net.retryOk))
    ensures Outcome(route, own, net) == Some(Delivered) <==> route.Direct? && net.dialOk
    ensures Outcome(route, own, net) != Some(Failed)
  {
  }

  /** The whole of `deliver`, with the network's answers given; the session is saved only on success. */
  method Deliver(
      store: Store, me: DeviceId, contact: ContactId, payload: Payload, msgId: MsgId, now: nat,
      sealing: Sealing, net: Network)
    returns (r: Option<(Envelope, Status)>)
    requires Valid(store.db) && store.db.lamport < I64_MAX
    modifies store
    ensures Valid(store.db)
    ensures var p := Prepared(old(store.db), me, contact, payload, msgId, now, sealing);
      var own := AccountOf(old(store.db)).ownServerAddr.Some?;
      && (r.Some? <==> p.Ready? && Outcome(p.route, own, net).Some?)
      && (r.Some? ==> r.value.0 == p.env && Some(r.value.1) == Outcome(p.route, own, net))
      && store.db == if r.Some? then WithSession(p.db, contact, p.session) else p.db
  {
    var prepared := Prepare(store, me, contact, payload, msgId, now, sealing);
    if prepared.None? {
      return None;
    }
    var (env, route, session) := prepared.value;
    var status: Status;
    if route.ViaServer? {
      if !net.writeOk {
        return None;
      }
      status := Sent;
    } else if net.dialOk {
      status := Delivered;
    } else {
      var queued := AccountOf(store.db).ownServerAddr.Some? && net.retryOk;
      if !queued {
        return None;
      }
      status := Sent;
    }
    store.SaveSessionPickle(contact, session);
    return Some((env, status));
  }

  /** Delivers a chat message and, if that succeeds, adds exactly one outgoing row; a failure leaves no row. */
  method Send(
      store: Store, me: DeviceId, contact: ContactId, text: seq<byte>, msgId: MsgId, now: nat,
      sealing: Sealing, net: Network)
    returns (ok: bool)
    requires Valid(store.db) && store.db.lamport < I64_MAX
    modifies store
    ensures Valid(store.db)
    ensures var p := Prepared(old(store.db), me, contact, Chat(text), msgId, now, sealing);
      var own := AccountOf(old(store.db)).ownServerAddr.Some?;
      if ok then
        && p.Ready? && Outcome(p.route, own, net).Some?
        && var m := Message(msgId, Outgoing, old(store.db.lamport) + 1, now, text, Outcome(p.route, own, net));
           store.db == WithSession(p.db, contact, p.session).(messages := old(store.db.messages) + [Row(contact, m)])
      else
        && store.db.messages == old(store.db.messages)
        && (HasMessage(old(store.db.messages), contact, msgId) || p.Unsendable? || Outcome(p.route, own, net).None?)
  {
    hide Prepared, Outcome;
    PreparationCases(store.db, me, contact, Chat(text), msgId, now, sealing);
    var r := Deliver(store, me, contact, Chat(text), msgId, now, sealing, net);
    if r.None? {
      return false;
    }
    var (env, status) := r.value;
    ok := store.InsertMessage(contact, Message(msgId, Outgoing, env.lamport, env.sentAt, text, Some(status)));
  }

  // ---------- Broadcasting ----------

  /** Whether a delivery to this contact succeeds, read off the contact's own columns and the answers. */
  predicate Deliverable(db: Database, contact: ContactId, sealing: Sealing, net: Network)
    requires 1 <= contact <= |db.contacts|
  {
    && HasSession(db, contact) && sealing.Sealed?
    && var c, own := db.contacts[contact - 1], AccountOf(db).ownServerAddr.Some?;
       if c.serverAddr.Some? then c.pairSecret.Some? && net.writeOk
       else c.transportKey.Some? && (net.dialOk || (own && net.retryOk))
  }

  lemma DeliverableExactlyWhen(
      db: Database, me: DeviceId, contact: ContactId, payload: Payload, msgId: MsgId, now: nat,
      sealing: Sealing, net: Network)
    requires Valid(db) && 1 <= contact <= |db.contacts|
    ensures var p := Prepared(db, me, contact, payload, msgId, now, sealing);
      Deliverable(db, contact, sealing, net)
      <==> p.Ready? && Outcome(p.route, AccountOf(db).ownServerAddr.Some?, net).Some?
  {
    ReadyExactlyWhen(db, me, contact, payload, msgId, now, sealing);
    var p := Prepared(db, me, contact, payload, msgId, now, sealing);
    if p.Ready? {
      RouteIsRight(db, me, contact, payload, msgId, now, sealing);
      hide Prepared, Valid;
      OutcomeTable(p.route, AccountOf(db).ownServerAddr.Some?, net);
    }
  }

  /** Contacts from number `k` on, their sessions, and the account are as they were. */
  ghost predicate RestUntouched(db: Database, db': Database, k: nat) {
    && |db'.contacts| == |db.contacts| && db'.account == db.account
    && (forall i :: k <= i < |db.contacts| ==> db'.contacts[i] == db.contacts[i])
    && (forall id :: k < id <= |db.contacts| ==> (id in db'.sessions <==> id in db.sessions))
  }

  /** One delivery of a broadcast: it concerns its own contact only. */
  method DeliverNext(
      store: Store, me: DeviceId, contact: ContactId, payload: Payload, msgId: MsgId, now: nat,
      sealing: Sealing, net: Network)
    returns (r: Option<(Envelope, Status)>)
    requires Valid(store.db) && store.db.lamport < I64_MAX && 1 <= contact <= |store.db.contacts|
    modifies store
    ensures Valid(store.db) && store.db.lamport <= old(store.db.lamport) + 1
    ensures RestUntouched(old(store.db), store.db, contact)
    ensures r.Some? <==> Deliverable(old(store.db), contact, sealing, net)
    ensures r.Some? ==>
      && r.value.0.sender == me && r.value.0.recipient == old(store.db.contacts[contact - 1].identityKey)
      && r.value.0.payload == payload
  {
    DeliverableExactlyWhen(store.db, me, contact, payload, msgId, now, sealing, net);
    NumberIsUsedUp(store.db, me, contact, payload, msgId, now, sealing);
    PreparationCases(store.db, me, contact, payload, msgId, now, sealing);
    hide Prepared, Outcome, Deliverable, HasSession;
    r := Deliver(store, me, contact, payload, msgId, now, sealing, net);
  }

  /** The result for contact number `i`, counted from zero: a success exactly if deliverable, and then to it. */
  ghost predicate IsResult(
      db: Database, me: DeviceId, payload: Payload, i: nat, sealing: Sealing, net: Network,
      r: Option<(Envelope, Status)>) {
    && i < |db.contacts|
    && (r.Some? <==> Deliverable(db, i + 1, sealing, net))
    && (r.Some? ==>
          r.value.0.sender == me && r.value.0.payload == payload && r.value.0.recipient == db.contacts[i].identityKey)
  }

  /** Delivers to one contact after the other. A contact that cannot be reached does not affect the others. */
  method DeliverToAll(
      store: Store, me: DeviceId, payload: Payload, now: nat,
      ids: nat -> MsgId, sealings: nat -> Sealing, nets: nat -> Network)
    returns (results: seq<Option<(Envelope, Status)>>)
    requires Valid(store.db) && store.db.lamport + |store.db.contacts| <= I64_MAX
    modifies store
    ensures Valid(store.db) && store.db.account == old(store.db.account)
    ensures |results| == |old(store.db).contacts|
    ensures forall i :: 0 <= i < |results| ==>
      IsResult(old(store.db), me, payload, i, sealings(i), nets(i), results[i])
  {
    hide Valid, Deliverable;
    ghost var start := store.db;
    var count := |store.db.contacts|;
    results := [];
    for k := 0 to count
      invariant Valid(store.db) && |results| == k && store.db.lamport <= start.lamport + k
      invariant RestUntouched(start, store.db, k)
      invariant forall i :: 0 <= i < k ==> IsResult(start, me, payload, i, sealings(i), nets(i), results[i])
    {
      SameDeliverable(start, store.db, k, sealings(k), nets(k));
      var r := DeliverNext(store, me, k + 1, payload, ids(k), now, sealings(k), nets(k));
      assert IsResult(start, me, payload, k, sealings(k), nets(k), r);
      results := results + [r];
    }
  }

  /**
   Signs one update, with a new sequence number and the current own address, and delivers it to every
   contact.
   */
  method BroadcastPointerUpdate(
      store: Store, me: DeviceId, key: IdentityKey, now: EnvelopeCodec.u64,
      ids: nat -> MsgId, sealings: nat -> Sealing, nets: nat -> Network)
    returns (u: Pointer.Update, results: seq<Option<(Envelope, Status)>>)
    requires Valid(store.db) && store.db.lamport + |store.db.contacts| <= I64_MAX
    requires AccountOf(store.db).pointerBroadcastSeq < I64_MAX
    requires var own := AccountOf(store.db).ownServerAddr; own.Some? ==> |own.value| <= I64_MAX
    modifies store
    ensures Valid(store.db)
    ensures Pointer.Authentic(key, u) && u.news.updatedAt == now
    ensures u.news.addr == AccountOf(old(store.db)).ownServerAddr
    ensures u.news.seqNo == AccountOf(store.db).pointerBroadcastSeq == AccountOf(old(store.db)).pointerBroadcastSeq + 1
    ensures |results| == |old(store.db).contacts|
    ensures forall i :: 0 <= i < |results| ==>
      IsResult(old(store.db), me, MailboxPointerUpdate(u), i, sealings(i), nets(i), results[i])
  {
    ghost var start := store.db;
    var own := AccountOf(store.db).ownServerAddr;
    var addr: Option<Pointer.Addr> := if own.Some? then Some(own.value) else None;
    var seqNo := store.IncrementAndGetPointerBroadcastSeq();
    u := Pointer.Sign(key, Pointer.Announcement(addr, now, seqNo));
    SignedIsAuthentic(key, u.news);
    hide Pointer.Authentic, Deliverable;
    ghost var counted := store.db;
    results := DeliverToAll(store, me, MailboxPointerUpdate(u), now, ids, sealings, nets);
    forall i | 0 <= i < |results|
      ensures IsResult(start, me, MailboxPointerUpdate(u), i, sealings(i), nets(i), results[i])
    {
      SameDeliverable(start, counted, i, sealings(i), nets(i));
      assert IsResult(counted, me, MailboxPointerUpdate(u), i, sealings(i), nets(i), results[i]);
    }
  }

  lemma SignedIsAuthentic(key: IdentityKey, news: Pointer.Announcement)
    ensures Pointer.Authentic(key, Pointer.Sign(key, news))
  {
  }

  lemma SameDeliverable(db: Database, db': Database, k: nat, sealing: Sealing, net: Network)
    requires k < |db.contacts| == |db'.contacts| && db'.contacts[k] == db.contacts[k]
    requires (k + 1 in db'.sessions <==> k + 1 in db.sessions)
    requires AccountOf(db').ownServerAddr == AccountOf(db).ownServerAddr
    ensures Deliverable(db, k + 1, sealing, net) <==> Deliverable(db', k + 1, sealing, net)
  {
  }

  // ---------- Receiving ----------

  /** What became of a received envelope; `Broken` is a storage error. */
  datatype Attribution = ChatStored | ReceiptApplied | PointerSeen | Unattributed | Broken

  /** The position of the first contact with this session key, or the length. */
  function IndexOfCurve(contacts: seq<Contact>, key: Key32): (i: nat)
    ensures i <= |contacts|
    ensures i < |contacts| ==> contacts[i].curveKey == key
    ensures forall j :: 0 <= j < i ==> contacts[j].curveKey != key
  {
    if contacts == [] then 0
    else if contacts[0].curveKey == key then 0
    else 1 + IndexOfCurve(contacts[1..], key)
  }

  function IncomingMessage(env: Envelope, lamport: nat, text: seq<byte>): Message {
    Message(env.msgId, Incoming, lamport, env.sentAt, text, None)
  }

  function ChatHandled(db: Database, contact: ContactId, env: Envelope, text: seq<byte>): (Database, Attribution) {
    var db := Observed(db, env.lamport);
    match Inserted(db, contact, IncomingMessage(env, db.lamport, text))
    case Failure(_) => (db, Broken)
    case Success(db') => (db', ChatStored)
  }

  function PointerHandled(db: Database, contact: ContactId, u: Pointer.Update): Database {
    match FindContact(db, contact)
    case None => db
    case Some(c) =>
      if Pointer.IsValid(c.identityKey, c.pointerSeq, u)
      then WithPointerUpdate(db, contact, u.news.addr, u.news.updatedAt, u.news.seqNo)
      else db
  }

  function Handled(db: Database, contact: ContactId, env: Envelope): (Database, Attribution) {
    match env.payload
    case Chat(text) => ChatHandled(db, contact, env, text)
    case Receipt(msgId) => (WithStatus(db, contact, msgId, Delivered), ReceiptApplied)
    case MailboxPointerUpdate(u) => (PointerHandled(db, contact, u), PointerSeen)
    case Unknown(_) => (db, Unattributed)
  }

  /**
   Whether the session state lets the envelope open, and if so what is saved then: the advanced session and,
   when the envelope started it, the account that accepted it.
   */
  datatype Opening = Stuck | Opens(session: seq<byte>, account: seq<byte>)

  /** Whether the session with this contact decrypts the envelope. */
  predicate Decrypts(me: DeviceId, c: Contact, env: Envelope, opening: Opening) {
    opening.Opens? && env.recipient == me && env.sender == c.curveKey
  }

  function Opened(db: Database, id: ContactId, opening: Opening): Database
    requires opening.Opens?
  {
    WithSession(if id in db.sessions then db else WithPickle(db, opening.account), id, opening.session)
  }

  function Attributed(db: Database, me: DeviceId, env: Envelope, opening: Opening): (Database, Attribution) {
    var i := IndexOfCurve(db.contacts, env.sender);
    if opening.Opens? && env.recipient == me && i < |db.contacts|
    then Handled(Opened(db, db.contacts[i].id, opening), db.contacts[i].id, env)
    else (db, Unattributed)
  }

  /** The acknowledgement a direct delivery gets. */
  predicate Acknowledges(a: Attribution) {
    a.ChatStored? || a.ReceiptApplied? || a.PointerSeen?
  }

  /** What a first or later opening saves: the session always, the account only when it made the session. */
  lemma OpeningSaves(db: Database, id: ContactId, opening: Opening)
    requires opening.Opens?
    ensures var db' := Opened(db, id, opening);
      && id in db'.sessions && db'.sessions[id] == opening.session
      && (forall other :: other != id ==>
            (other in db'.sessions <==> other in db.sessions)
            && (other in db.sessions ==> db'.sessions[other] == db.sessions[other]))
      && (id in db.sessions ==> db'.account == db.account)
      && (id !in db.sessions ==>
            && db'.account.Some? && db'.account.value.pickle == opening.account
            && db'.account.value.lastSyncedBlobId == AccountOf(db).lastSyncedBlobId
            && db'.account.value.ownServerAddr == AccountOf(db).ownServerAddr
            && db'.account.value.pointerBroadcastSeq == AccountOf(db).pointerBroadcastSeq)
      && db'.contacts == db.contacts && db'.messages == db.messages && db'.lamport == db.lamport
  {
  }

  /**
   A received chat moves the clock past its old value and the sender's, and is stored, unless the contact has
   a message with that id, as one incoming row with the sender's id, time and text, no status, and the new
   clock value. Nothing else changes.
   */
  lemma ChatIsStored(db: Database, contact: ContactId, env: Envelope)
    requires env.payload.Chat?
    ensures var (db', a) := Handled(db, contact, env);
      && db'.lamport > db.lamport && (env.lamport <= I64_MAX ==> db'.lamport > env.lamport)
      && (db'.lamport == db.lamport + 1 || db'.lamport == AsI64(env.lamport) + 1)
      && db'.contacts == db.contacts && db'.sessions == db.sessions && db'.account == db.account
      && (if HasMessage(db.messages, contact, env.msgId) then
            a == Broken && db'.messages == db.messages
          else
            && a == ChatStored && |db'.messages| == |db.messages| + 1
            && db'.messages[..|db.messages|] == db.messages
            && var row := db'.messages[|db.messages|];
               && row.contact == contact && row.message.direction == Incoming && row.message.msgId == env.msgId
               && row.message.lamport == db'.lamport && row.message.sentAt == env.sentAt
               && row.message.plaintext == env.payload.text && row.message.status == None)
  {
  }

  /** A receipt, a pointer update or an unknown payload never touches the clock or adds a row. */
  lemma OtherPayloadsStoreNothing(db: Database, contact: ContactId, env: Envelope)
    requires !env.payload.Chat?
    ensures var (db', a) := Handled(db, contact, env);
      && db'.lamport == db.lamport && |db'.messages| == |db.messages|
      && db'.sessions == db.sessions && db'.account == db.account
      && (a.Unattributed? <==> env.payload.Unknown?) && !a.Broken? && !a.ChatStored?
  {
  }

  /** The sender of a direct delivery hears yes exactly when the envelope opens, parses and is no repeated chat. */
  lemma AcknowledgedExactlyWhen(db: Database, me: DeviceId, env: Envelope, opening: Opening)
    ensures var i := IndexOfCurve(db.contacts, env.sender);
      Acknowledges(Attributed(db, me, env, opening).1)
      <==> && opening.Opens? && env.recipient == me && i < |db.contacts| && !env.payload.Unknown?
           && (env.payload.Chat? ==> !HasMessage(db.messages, db.contacts[i].id, env.msgId))
  {
  }

  /** `receipt` names the message whose receipt is then sent in the background. */
  method HandleDecrypted(store: Store, contact: ContactId, env: Envelope)
    returns (a: Attribution, receipt: Option<MsgId>)
    requires Valid(store.db) && 1 <= contact <= |store.db.contacts|
    requires store.db.lamport < I64_MAX && AsI64(env.lamport) < I64_MAX
    modifies store
    ensures Valid(store.db)
    ensures (store.db, a) == Handled(old(store.db), contact, env)
    ensures receipt == if a.ChatStored? then Some(env.msgId) else None
    ensures a.ChatStored? ==>
      && env.payload.Chat? && |store.db.messages| == |old(store.db).messages| + 1
      && var row := store.db.messages[|old(store.db).messages|];
         && row.contact == contact && row.message.direction == Incoming && row.message.msgId == env.msgId
         && row.message.plaintext == env.payload.text && row.message.sentAt == env.sentAt && row.message.status == None
         && old(store.db.lamport) < row.message.lamport == store.db.lamport
  {
    match env.payload
    case Chat(text) =>
      var lamport := store.ObserveLamport(env.lamport);
      var ok := store.InsertMessage(contact, IncomingMessage(env, lamport, text));
      if !ok {
        return Broken, None;
      }
      return ChatStored, Some(env.msgId);
    case Receipt(msgId) =>
      store.SetMessageStatus(contact, msgId, Delivered);
      return ReceiptApplied, None;
    case MailboxPointerUpdate(u) =>
      var c := FindContact(store.db, contact);
      if Pointer.IsValid(c.value.identityKey, c.value.pointerSeq, u) {
        store.SetContactPointerUpdate(contact, u.news.addr, u.news.updatedAt, u.news.seqNo);
      }
      return PointerSeen, None;
    case Unknown(_) =>
      return Unattributed, None;
  }

  /** Tries each contact's session in turn until one decrypts. */
  method AttributeAndStore(store: Store, me: DeviceId, env: Envelope, opening: Opening)
    returns (a: Attribution, receipt: Option<MsgId>)
    requires Valid(store.db)
    requires store.db.lamport < I64_MAX && AsI64(env.lamport) < I64_MAX
    modifies store
    ensures Valid(store.db)
    ensures (store.db, a) == Attributed(old(store.db), me, env, opening)
    ensures receipt == if a.ChatStored? then Some(env.msgId) else None
  {
    var contacts := store.db.contacts;
    for k := 0 to |contacts|
      invariant store.db == old(store.db)
      invariant forall j :: 0 <= j < k ==> !Decrypts(me, contacts[j], env, opening)
    {
      if Decrypts(me, contacts[k], env, opening) {
        assert IndexOfCurve(contacts, env.sender) == k;
        var id := contacts[k].id;
        if id !in store.db.sessions {
          store.SaveAccountPickle(opening.account);
        }
        store.SaveSessionPickle(id, opening.session);
        assert store.db == Opened(old(store.db), id, opening);
        a, receipt := HandleDecrypted(store, id, env);
        return;
      }
    }
    a, receipt := Unattributed, None;
  }

  // ---------- Pointer updates, on the database ----------

  /** Handling an update applies it to this contact's record and leaves every other record as it was. */
  lemma PointerHandledIsApplied(db: Database, contact: ContactId, u: Pointer.Update)
    requires Valid(db) && 1 <= contact <= |db.contacts|
    ensures PointerHandled(db, contact, u)
      == db.(contacts := db.contacts[contact - 1 := Pointer.Applied(db.contacts[contact - 1], u)])
    ensures Valid(PointerHandled(db, contact, u))
  {
    var c := Pointer.Applied(db.contacts[contact - 1], u);
    assert PointerHandled(db, contact, u).contacts == db.contacts[contact - 1 := c];
  }

  function PointersHandled(db: Database, contact: ContactId, updates: seq<Pointer.Update>): Database
    decreases updates
  {
    if updates == [] then db else PointersHandled(PointerHandled(db, contact, updates[0]), contact, updates[1..])
  }

  lemma {:induction false} PointersHandledIsAppliedAll(db: Database, contact: ContactId, updates: seq<Pointer.Update>)
    requires Valid(db) && 1 <= contact <= |db.contacts|
    ensures PointersHandled(db, contact, updates)
      == db.(contacts := db.contacts[contact - 1 := Pointer.AppliedAll(db.contacts[contact - 1], updates)])
    decreases updates
  {
    if updates == [] {
      assert db.contacts[contact - 1 := db.contacts[contact - 1]] == db.contacts;
    } else {
      PointerHandledIsApplied(db, contact, updates[0]);
      var db' := PointerHandled(db, contact, updates[0]);
      PointersHandledIsAppliedAll(db', contact, updates[1..]);
    }
  }

  /**
   The last writer wins in the database: whatever updates a contact's envelopes carried, in whatever order,
   the row ends at the issued announcement of highest sequence number, and nothing else has changed.
   */
  lemma LastWriterWinsInDatabase(
      db: Database, contact: ContactId, issued: set<Pointer.Announcement>, updates: seq<Pointer.Update>,
      top: Pointer.Announcement)
    requires Valid(db) && 1 <= contact <= |db.contacts|
    requires var c := db.contacts[contact - 1];
      && Pointer.OnlyIssuedAreSigned(c.identityKey, issued, updates) && Pointer.DistinctSeqs(issued)
      && Pointer.Delivered(c.identityKey, updates, top) && c.pointerSeq < top.seqNo
      && forall a :: Pointer.Delivered(c.identityKey, updates, a) ==> a.seqNo <= top.seqNo
    ensures var c := db.contacts[contact - 1];
      PointersHandled(db, contact, updates)
      == db.(contacts := db.contacts[contact - 1 :=
               c.(serverAddr := top.addr, pointerUpdatedAt := top.updatedAt, pointerSeq := top.seqNo)])
  {
    PointersHandledIsAppliedAll(db, contact, updates);
    Pointer.LastWriterWins(db.contacts[contact - 1], issued, updates, top);
  }

  // ---------- Status reports ----------

  function AllFailed(db: Database, ids: seq<MsgId>): Database
    decreases ids
  {
    if ids == [] then db else AllFailed(WithStatusByMsgId(db, ids[0], Failed), ids[1..])
  }

  /** Exactly the rows with a listed id change, and only in their status. */
  lemma {:induction false} AllFailedRows(db: Database, ids: seq<MsgId>)
    ensures AllFailed(db, ids) == db.(messages := AllFailed(db, ids).messages)
    ensures |AllFailed(db, ids).messages| == |db.messages|
    ensures forall k :: 0 <= k < |db.messages| ==>
      (AllFailed(db, ids).messages[k]
       == if db.messages[k].message.msgId in ids then StatusSet(db.messages[k], Failed) else db.messages[k])
    decreases ids
  {
    if ids != [] {
      var db' := WithStatusByMsgId(db, ids[0], Failed);
      AllFailedRows(db', ids[1..]);
      forall k | 0 <= k < |db.messages|
        ensures AllFailed(db, ids).messages[k]
          == if db.messages[k].message.msgId in ids then StatusSet(db.messages[k], Failed) else db.messages[k]
      {
        assert db.messages[k].message.msgId in ids
          <==> db.messages[k].message.msgId == ids[0] || db.messages[k].message.msgId in ids[1..];
      }
    }
  }

  /** The tail of `sync`: marks what the node gave up on. */
  method ApplyFailures(store: Store, ids: seq<MsgId>)
    modifies store
    ensures store.db == AllFailed(old(store.db), ids)
  {
    for k := 0 to |ids|
      invariant AllFailed(old(store.db), ids) == AllFailed(store.db, ids[k..])
    {
      assert ids[k..][1..] == ids[k + 1..];
      store.SetMessageStatusByMsgId(ids[k], Failed);
    }
  }
}

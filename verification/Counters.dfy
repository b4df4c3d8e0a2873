/**
 The counters a device must never reuse, over the life of one identity on successive devices: broadcast
 sequence numbers and per-contact write numbers. Bundles are made at any time and kept; a restore may use
 any bundle ever made, however old.
 */
module Counters {
  import opened Crypto
  import opened Store
  import opened Backup
  import Bytes
  import Pointer

  datatype Use = Use(key: IdentityKey, n: nat)

  /** Which broadcasts and server-path sends, by position in the history, a database has itself been through. */
  datatype Past = Past(broadcasts: set<nat>, writes: set<nat>)

  /** A bundle, the past of the database it was made from, and how long the history was then. */
  datatype Saved = Saved(bundle: Bundle, past: Past, broadcasts: nat, writes: nat)

  /** The current device, every bundle ever made, and every number ever used, in order. */
  datatype Life = Life(db: Database, past: Past, saved: seq<Saved>, broadcasts: seq<nat>, writes: seq<Use>)

  datatype Event =
    | Broadcast
    | ServerSend(contact: ContactId)
    | BackUp
    | Restore(k: nat)
    | Change(db: Database)

  /** Everything else a device does: known contacts keep their counters, and added ones start at zero. */
  ghost predicate KeepsCounters(db: Database, db': Database) {
    && Valid(db') && db'.account.Some?
    && AccountOf(db').pointerBroadcastSeq == AccountOf(db).pointerBroadcastSeq
    && (forall i :: 0 <= i < |db.contacts| ==> HasCounter(db'.contacts, db.contacts[i]))
    && (forall j :: 0 <= j < |db'.contacts| && db'.contacts[j].nextWriteN > 0 ==>
          HasCounter(db.contacts, db'.contacts[j]))
  }

  ghost predicate HasCounter(contacts: seq<Contact>, c: Contact) {
    exists i :: 0 <= i < |contacts| && contacts[i].identityKey == c.identityKey
                && contacts[i].nextWriteN == c.nextWriteN
  }

  ghost predicate Enabled(l: Life, e: Event) {
    match e
    case ServerSend(contact) => 1 <= contact <= |l.db.contacts|
    case Restore(k) => k < |l.saved|
    case Change(db) => KeepsCounters(l.db, db)
    case _ => true
  }

  function NextBroadcast(db: Database): nat {
    AccountOf(db).pointerBroadcastSeq + 1
  }

  function After(l: Life, e: Event): Life {
    match e
    case Broadcast =>
      l.(db := WithBroadcastSeq(l.db, NextBroadcast(l.db)),
         past := l.past.(broadcasts := l.past.broadcasts + {|l.broadcasts|}),
         broadcasts := l.broadcasts + [NextBroadcast(l.db)])
    case ServerSend(contact) =>
      if 1 <= contact <= |l.db.contacts| then
        var c := l.db.contacts[contact - 1];
        l.(db := WithWrites(l.db, contact, 1),
           past := l.past.(writes := l.past.writes + {|l.writes|}),
           writes := l.writes + [Use(c.identityKey, c.nextWriteN)])
      else l
    case BackUp =>
      if Assembled(l.db).Success?
      then l.(saved := l.saved + [Saved(Assembled(l.db).value, l.past, |l.broadcasts|, |l.writes|)]) else l
    case Restore(k) =>
      if k < |l.saved| then l.(db := RestoredInto(EMPTY, l.saved[k].bundle).0, past := l.saved[k].past) else l
    case Change(db) => l.(db := db)
  }

  ghost predicate ValidRun(l: Life, events: seq<Event>)
    decreases events
  {
    events != [] ==> Enabled(l, events[0]) && ValidRun(After(l, events[0]), events[1..])
  }

  function Final(l: Life, events: seq<Event>): Life
    decreases events
  {
    if events == [] then l else Final(After(l, events[0]), events[1..])
  }

  /** A new identity's first device. */
  function Start(pickle: seq<Bytes.byte>): Life {
    Life(WithPickle(EMPTY, pickle), Past({}, {}), [], [], [])
  }

  // ---------- What the counters say about a database's past ----------

  ghost predicate WriteCovered(contacts: seq<Contact>, u: Use) {
    exists i :: 0 <= i < |contacts| && contacts[i].identityKey == u.key && u.n < contacts[i].nextWriteN
  }

  ghost predicate BroadcastIn(past: set<nat>, broadcasts: seq<nat>, v: nat) {
    exists i :: i in past && i < |broadcasts| && broadcasts[i] == v
  }

  ghost predicate WriteIn(past: set<nat>, writes: seq<Use>, u: Use) {
    exists i :: i in past && i < |writes| && writes[i] == u
  }

  /** The broadcast counter is the last of the numbers 1, 2, … used in the database's own past. */
  ghost predicate TracksBroadcasts(db: Database, past: set<nat>, broadcasts: seq<nat>) {
    && (forall i :: i in past ==> i < |broadcasts| && broadcasts[i] <= AccountOf(db).pointerBroadcastSeq)
    && (forall v :: 1 <= v <= AccountOf(db).pointerBroadcastSeq ==> BroadcastIn(past, broadcasts, v))
  }

  /** Each contact's write counter is past the numbers 0, 1, … used for that contact in the database's own past. */
  ghost predicate TracksWrites(contacts: seq<Contact>, past: set<nat>, writes: seq<Use>) {
    && (forall i :: i in past ==> i < |writes| && WriteCovered(contacts, writes[i]))
    && (forall c, v: nat :: 0 <= c < |contacts| && v < contacts[c].nextWriteN ==>
          WriteIn(past, writes, Use(contacts[c].identityKey, v)))
  }

  /** Whatever number was used, the smaller ones were too. */
  ghost predicate Gapless(broadcasts: seq<nat>, writes: seq<Use>) {
    && (forall i :: 0 <= i < |broadcasts| ==> 1 <= broadcasts[i])
    && (forall i, v :: 0 <= i < |broadcasts| && 1 <= v < broadcasts[i] ==> v in broadcasts)
    && (forall i, v :: 0 <= i < |writes| && 0 <= v < writes[i].n ==> Use(writes[i].key, v) in writes)
  }

  ghost predicate SavedOk(l: Life, s: Saved) {
    && WellFormed(s.bundle.contacts)
    && TracksBroadcasts(Restored(s.bundle), s.past.broadcasts, l.broadcasts)
    && TracksWrites(Restored(s.bundle).contacts, s.past.writes, l.writes)
  }

  ghost predicate Inv(l: Life) {
    && Valid(l.db) && l.db.account.Some?
    && TracksBroadcasts(l.db, l.past.broadcasts, l.broadcasts)
    && TracksWrites(l.db.contacts, l.past.writes, l.writes)
    && Gapless(l.broadcasts, l.writes)
    && (forall k :: 0 <= k < |l.saved| ==> SavedOk(l, l.saved[k]))
  }

  // ---------- Every event keeps the invariant, whatever is restored ----------

  lemma {:induction false} AllRowsDistinct(contacts: seq<BackupContact>)
    requires forall i :: 0 <= i < |contacts| ==> DistinctIds(contacts[i].messages)
    ensures DistinctMessages(AllRows(contacts))
  {
    if contacts != [] {
      AllRowsDistinct(contacts[..|contacts| - 1]);
      assert DistinctIds(contacts[|contacts| - 1].messages);
    }
  }

  lemma RestoredIsValid(b: Bundle)
    requires WellFormed(b.contacts)
    ensures Valid(Restored(b))
  {
    AllRowsDistinct(b.contacts);
  }

  lemma TracksBroadcastsLater(db: Database, past: set<nat>, broadcasts: seq<nat>, v: nat)
    requires TracksBroadcasts(db, past, broadcasts)
    ensures TracksBroadcasts(db, past, broadcasts + [v])
  {
    forall u | 1 <= u <= AccountOf(db).pointerBroadcastSeq ensures BroadcastIn(past, broadcasts + [v], u) {
      assert BroadcastIn(past, broadcasts, u);
      var i :| i in past && i < |broadcasts| && broadcasts[i] == u;
      assert (broadcasts + [v])[i] == u;
    }
  }

  lemma TracksWritesLater(contacts: seq<Contact>, past: set<nat>, writes: seq<Use>, u: Use)
    requires TracksWrites(contacts, past, writes)
    ensures TracksWrites(contacts, past, writes + [u])
  {
    forall c, v: nat | 0 <= c < |contacts| && v < contacts[c].nextWriteN
      ensures WriteIn(past, writes + [u], Use(contacts[c].identityKey, v))
    {
      WriteInLater(past, writes, Use(contacts[c].identityKey, v), u);
    }
  }

  lemma WriteInLater(past: set<nat>, writes: seq<Use>, x: Use, u: Use)
    requires WriteIn(past, writes, x)
    ensures WriteIn(past, writes + [u], x)
  {
    var i :| i in past && i < |writes| && writes[i] == x;
    assert (writes + [u])[i] == x;
  }

  lemma BroadcastKeepsTrack(l: Life)
    requires Inv(l)
    ensures var l' := After(l, Broadcast); TracksBroadcasts(l'.db, l'.past.broadcasts, l'.broadcasts)
  {
    var l' := After(l, Broadcast);
    forall v | 1 <= v <= NextBroadcast(l.db) ensures BroadcastIn(l'.past.broadcasts, l'.broadcasts, v) {
      if v == NextBroadcast(l.db) {
        assert l'.broadcasts[|l.broadcasts|] == v;
      } else {
        assert BroadcastIn(l.past.broadcasts, l.broadcasts, v);
        var i :| i in l.past.broadcasts && i < |l.broadcasts| && l.broadcasts[i] == v;
        assert i in l'.past.broadcasts && l'.broadcasts[i] == v;
      }
    }
  }

  lemma BroadcastKeepsInv(l: Life)
    requires Inv(l)
    ensures Inv(After(l, Broadcast))
  {
    var l' := After(l, Broadcast);
    BroadcastKeepsTrack(l);
    forall v | 1 <= v < NextBroadcast(l.db) ensures v in l'.broadcasts {
      assert BroadcastIn(l.past.broadcasts, l.broadcasts, v);
    }
    hide TracksBroadcasts, TracksWrites, WellFormed, Restored;
    forall k | 0 <= k < |l'.saved| ensures SavedOk(l', l'.saved[k]) {
      assert SavedOk(l, l.saved[k]);
      TracksBroadcastsLater(
        Restored(l.saved[k].bundle), l.saved[k].past.broadcasts, l.broadcasts, NextBroadcast(l.db));
    }
  }

  lemma SendKeepsTrack(l: Life, contact: ContactId)
    requires Inv(l) && 1 <= contact <= |l.db.contacts|
    ensures var l' := After(l, ServerSend(contact)); TracksWrites(l'.db.contacts, l'.past.writes, l'.writes)
  {
    var l' := After(l, ServerSend(contact));
    var used := Use(l.db.contacts[contact - 1].identityKey, l.db.contacts[contact - 1].nextWriteN);
    var before, after := l.db.contacts, l'.db.contacts;
    forall i | i in l'.past.writes ensures i < |l'.writes| && WriteCovered(after, l'.writes[i]) {
      if i == |l.writes| {
        assert after[contact - 1].nextWriteN == used.n + 1;
      } else {
        assert i in l.past.writes && WriteCovered(before, l.writes[i]);
        var k :| 0 <= k < |before| && before[k].identityKey == l.writes[i].key && l.writes[i].n < before[k].nextWriteN;
        assert after[k].identityKey == before[k].identityKey && before[k].nextWriteN <= after[k].nextWriteN;
      }
    }
    forall c, v: nat | 0 <= c < |after| && v < after[c].nextWriteN
      ensures WriteIn(l'.past.writes, l'.writes, Use(after[c].identityKey, v))
    {
      if c == contact - 1 && v == used.n {
        assert l'.writes[|l.writes|] == used;
      } else {
        assert WriteIn(l.past.writes, l.writes, Use(before[c].identityKey, v));
        WriteInLater(l.past.writes, l.writes, Use(before[c].identityKey, v), used);
      }
    }
  }

  lemma SendKeepsInv(l: Life, contact: ContactId)
    requires Inv(l) && 1 <= contact <= |l.db.contacts|
    ensures Inv(After(l, ServerSend(contact)))
  {
    var l' := After(l, ServerSend(contact));
    var used := Use(l.db.contacts[contact - 1].identityKey, l.db.contacts[contact - 1].nextWriteN);
    SendKeepsTrack(l, contact);
    forall v: nat | v < used.n ensures Use(used.key, v) in l'.writes {
      assert WriteIn(l.past.writes, l.writes, Use(used.key, v));
    }
    hide TracksBroadcasts, TracksWrites, WellFormed, Restored;
    assert TracksBroadcasts(l'.db, l'.past.broadcasts, l'.broadcasts) by { SameAccountTracks(l, l'); }
    forall k | 0 <= k < |l'.saved| ensures SavedOk(l', l'.saved[k]) {
      assert SavedOk(l, l.saved[k]);
      TracksWritesLater(Restored(l.saved[k].bundle).contacts, l.saved[k].past.writes, l.writes, used);
    }
  }

  lemma SameAccountTracks(l: Life, l': Life)
    requires TracksBroadcasts(l.db, l.past.broadcasts, l.broadcasts)
    requires AccountOf(l'.db).pointerBroadcastSeq == AccountOf(l.db).pointerBroadcastSeq
    requires l'.past.broadcasts == l.past.broadcasts && l'.broadcasts == l.broadcasts
    ensures TracksBroadcasts(l'.db, l'.past.broadcasts, l'.broadcasts)
  {
  }

  /** The counters that matter are the same in two lists of contacts. */
  lemma SameCountersTrack(contacts: seq<Contact>, contacts': seq<Contact>, past: set<nat>, writes: seq<Use>)
    requires TracksWrites(contacts, past, writes)
    requires forall i :: 0 <= i < |contacts| ==> HasCounter(contacts', contacts[i])
    requires forall j :: 0 <= j < |contacts'| && contacts'[j].nextWriteN > 0 ==> HasCounter(contacts, contacts'[j])
    ensures TracksWrites(contacts', past, writes)
  {
    forall i | i in past ensures i < |writes| && WriteCovered(contacts', writes[i]) {
      assert WriteCovered(contacts, writes[i]);
      var k :| 0 <= k < |contacts| && contacts[k].identityKey == writes[i].key && writes[i].n < contacts[k].nextWriteN;
      assert HasCounter(contacts', contacts[k]);
    }
    forall c, v: nat | 0 <= c < |contacts'| && v < contacts'[c].nextWriteN
      ensures WriteIn(past, writes, Use(contacts'[c].identityKey, v))
    {
      assert HasCounter(contacts, contacts'[c]);
      var k :| 0 <= k < |contacts| && contacts[k].identityKey == contacts'[c].identityKey
               && contacts[k].nextWriteN == contacts'[c].nextWriteN;
      assert WriteIn(past, writes, Use(contacts[k].identityKey, v));
    }
  }

  /** A bundle carries the counters of the database it was made from. */
  lemma BundleKeepsCounters(db: Database)
    requires Valid(db) && db.account.Some?
    ensures var b := Assembled(db).value;
      && WellFormed(b.contacts)
      && AccountOf(Restored(b)).pointerBroadcastSeq == AccountOf(db).pointerBroadcastSeq
      && Restored(b).contacts == ResetPointers(db.contacts)
  {
    AssembledIsWellFormed(db);
    RestoredContactsAreReset(db);
  }

  lemma ResetKeepsCounters(contacts: seq<Contact>, past: set<nat>, writes: seq<Use>)
    requires TracksWrites(contacts, past, writes)
    ensures TracksWrites(ResetPointers(contacts), past, writes)
  {
    var contacts' := ResetPointers(contacts);
    forall i | 0 <= i < |contacts| ensures HasCounter(contacts', contacts[i]) && HasCounter(contacts, contacts'[i]) {
      assert contacts'[i].identityKey == contacts[i].identityKey && contacts'[i].nextWriteN == contacts[i].nextWriteN;
    }
    SameCountersTrack(contacts, contacts', past, writes);
  }

  lemma BackUpKeepsInv(l: Life)
    requires Inv(l)
    ensures Inv(After(l, BackUp))
  {
    var l' := After(l, BackUp);
    var b := Assembled(l.db).value;
    BundleKeepsCounters(l.db);
    ResetKeepsCounters(l.db.contacts, l.past.writes, l.writes);
    assert TracksBroadcasts(Restored(b), l.past.broadcasts, l.broadcasts);
    hide TracksBroadcasts, TracksWrites, WellFormed, Restored, Assembled;
    forall k | 0 <= k < |l'.saved| ensures SavedOk(l', l'.saved[k]) {
      assert k < |l.saved| ==> SavedOk(l, l.saved[k]);
    }
  }

  lemma RestoreKeepsInv(l: Life, k: nat)
    requires Inv(l) && k < |l.saved|
    ensures Inv(After(l, Restore(k)))
    ensures After(l, Restore(k)).db == Restored(l.saved[k].bundle)
  {
    assert SavedOk(l, l.saved[k]);
    RestoreIntoEmpty(l.saved[k].bundle);
    RestoredIsValid(l.saved[k].bundle);
    hide TracksBroadcasts, TracksWrites, WellFormed, RestoredInto, Valid;
    var l' := After(l, Restore(k));
    forall i | 0 <= i < |l'.saved| ensures SavedOk(l', l'.saved[i]) {
      assert SavedOk(l, l.saved[i]);
    }
  }

  lemma ChangeKeepsInv(l: Life, db: Database)
    requires Inv(l) && KeepsCounters(l.db, db)
    ensures Inv(After(l, Change(db)))
  {
    var l' := After(l, Change(db));
    SameCountersTrack(l.db.contacts, db.contacts, l.past.writes, l.writes);
    SameAccountTracks(l, l');
    hide TracksBroadcasts, TracksWrites, WellFormed;
    forall k | 0 <= k < |l'.saved| ensures SavedOk(l', l'.saved[k]) {
      assert SavedOk(l, l.saved[k]);
    }
  }

  lemma StepKeepsInv(l: Life, e: Event)
    requires Inv(l) && Enabled(l, e)
    ensures Inv(After(l, e))
  {
    hide Inv, After;
    match e
    case Broadcast => BroadcastKeepsInv(l);
    case ServerSend(contact) => SendKeepsInv(l, contact);
    case BackUp => BackUpKeepsInv(l);
    case Restore(k) => RestoreKeepsInv(l, k);
    case Change(db) => ChangeKeepsInv(l, db);
  }

  lemma {:induction false} RunKeepsInv(l: Life, events: seq<Event>)
    requires Inv(l) && ValidRun(l, events)
    ensures Inv(Final(l, events))
    decreases events
  {
    if events != [] {
      StepKeepsInv(l, events[0]);
      RunKeepsInv(After(l, events[0]), events[1..]);
    }
  }

  lemma StartIsOk(pickle: seq<Bytes.byte>)
    ensures Inv(Start(pickle))
  {
  }

  // ---------- When the next number is new, in runs with any restores ----------

  ghost predicate Distinct<T>(s: seq<T>) {
    forall i, j :: 0 <= i < j < |s| ==> s[i] != s[j]
  }

  /** Every broadcast ever made belongs to the current database's own past. */
  ghost predicate HeardAllBroadcasts(l: Life) {
    forall i :: 0 <= i < |l.broadcasts| ==> i in l.past.broadcasts
  }

  /** So does every server-path send ever made to this contact. */
  ghost predicate HeardAllWrites(l: Life, key: IdentityKey) {
    forall i :: 0 <= i < |l.writes| && l.writes[i].key == key ==> i in l.past.writes
  }

  /** A broadcast outside the database's past, if it repeated nothing, is past the database's counter. */
  lemma MissingBroadcastIsAhead(l: Life, i: nat)
    requires Inv(l) && Distinct(l.broadcasts) && i < |l.broadcasts| && i !in l.past.broadcasts
    ensures NextBroadcast(l.db) <= l.broadcasts[i]
  {
    assert l.broadcasts[i] < NextBroadcast(l.db) ==> BroadcastIn(l.past.broadcasts, l.broadcasts, l.broadcasts[i]);
  }

  /** In any run that has not repeated a number yet, the next broadcast is new exactly when none is missing. */
  lemma BroadcastIsNewExactlyWhen(l: Life)
    requires Inv(l) && Distinct(l.broadcasts)
    ensures NextBroadcast(l.db) !in l.broadcasts <==> HeardAllBroadcasts(l)
  {
    if !HeardAllBroadcasts(l) {
      var i :| 0 <= i < |l.broadcasts| && i !in l.past.broadcasts;
      MissingBroadcastIsAhead(l, i);
    }
  }

  lemma MissingWriteIsAhead(l: Life, contact: ContactId, i: nat)
    requires Inv(l) && Distinct(l.writes) && 1 <= contact <= |l.db.contacts|
    requires i < |l.writes| && l.writes[i].key == l.db.contacts[contact - 1].identityKey && i !in l.past.writes
    ensures l.db.contacts[contact - 1].nextWriteN <= l.writes[i].n
  {
    hide TracksBroadcasts, SavedOk, Gapless;
    assert l.writes[i].n < l.db.contacts[contact - 1].nextWriteN ==> WriteIn(l.past.writes, l.writes, l.writes[i]);
  }

  /** The same for the next server-path send to a contact. */
  lemma WriteIsNewExactlyWhen(l: Life, contact: ContactId)
    requires Inv(l) && Distinct(l.writes) && 1 <= contact <= |l.db.contacts|
    ensures var c := l.db.contacts[contact - 1];
      Use(c.identityKey, c.nextWriteN) !in l.writes <==> HeardAllWrites(l, c.identityKey)
  {
    hide TracksBroadcasts, SavedOk;
    var c := l.db.contacts[contact - 1];
    if HeardAllWrites(l, c.identityKey) {
      HeardWritesAreBehind(l, contact);
    } else {
      var i :| 0 <= i < |l.writes| && l.writes[i].key == c.identityKey && i !in l.past.writes;
      MissingWriteIsAhead(l, contact, i);
      assert l.writes[i] == Use(c.identityKey, l.writes[i].n);
    }
  }

  lemma HeardWritesAreBehind(l: Life, contact: ContactId)
    requires Inv(l) && 1 <= contact <= |l.db.contacts|
    requires HeardAllWrites(l, l.db.contacts[contact - 1].identityKey)
    ensures forall i :: 0 <= i < |l.writes| && l.writes[i].key == l.db.contacts[contact - 1].identityKey ==>
      l.writes[i].n < l.db.contacts[contact - 1].nextWriteN
  {
    hide TracksBroadcasts, SavedOk, Gapless;
    var c := l.db.contacts[contact - 1];
    forall i | 0 <= i < |l.writes| && l.writes[i].key == c.identityKey ensures l.writes[i].n < c.nextWriteN {
      assert WriteCovered(l.db.contacts, l.writes[i]);
    }
  }

  /** Every broadcast of the run is made by a database that has been through all earlier ones. */
  ghost predicate EachBroadcastHeardAll(l: Life, events: seq<Event>)
    decreases events
  {
    events != [] ==>
      && (events[0].Broadcast? ==> HeardAllBroadcasts(l))
      && EachBroadcastHeardAll(After(l, events[0]), events[1..])
  }

  ghost predicate EachWriteHeardAll(l: Life, events: seq<Event>)
    decreases events
  {
    events != [] ==>
      && (events[0].ServerSend? && 1 <= events[0].contact <= |l.db.contacts| ==>
            HeardAllWrites(l, l.db.contacts[events[0].contact - 1].identityKey))
      && EachWriteHeardAll(After(l, events[0]), events[1..])
  }

  lemma {:induction false} RepeatsStay(l: Life, events: seq<Event>)
    ensures Distinct(Final(l, events).broadcasts) ==> Distinct(l.broadcasts)
    ensures Distinct(Final(l, events).writes) ==> Distinct(l.writes)
    decreases events
  {
    if events != [] {
      var l' := After(l, events[0]);
      RepeatsStay(l', events[1..]);
      assert forall i :: 0 <= i < |l.broadcasts| ==> l'.broadcasts[i] == l.broadcasts[i];
      assert forall i :: 0 <= i < |l.writes| ==> l'.writes[i] == l.writes[i];
    }
  }

  lemma {:induction false} BroadcastsRepeatExactlyWhen(l: Life, events: seq<Event>)
    requires Inv(l) && Distinct(l.broadcasts) && ValidRun(l, events)
    ensures Distinct(Final(l, events).broadcasts) <==> EachBroadcastHeardAll(l, events)
    decreases events
  {
    if events != [] {
      var l' := After(l, events[0]);
      StepKeepsInv(l, events[0]);
      if events[0].Broadcast? {
        BroadcastIsNewExactlyWhen(l);
        hide Inv;
        assert Distinct(l'.broadcasts) <==> NextBroadcast(l.db) !in l.broadcasts by {
          AppendDistinct(l.broadcasts, NextBroadcast(l.db));
        }
      }
      if Distinct(l'.broadcasts) {
        BroadcastsRepeatExactlyWhen(l', events[1..]);
      } else {
        RepeatsStay(l', events[1..]);
      }
    }
  }

  lemma AppendDistinct<T>(s: seq<T>, x: T)
    requires Distinct(s)
    ensures Distinct(s + [x]) <==> x !in s
  {
    if x in s {
      var i :| 0 <= i < |s| && s[i] == x;
      assert (s + [x])[i] == (s + [x])[|s|];
    }
  }

  lemma {:induction false} WritesRepeatExactlyWhen(l: Life, events: seq<Event>)
    requires Inv(l) && Distinct(l.writes) && ValidRun(l, events)
    ensures Distinct(Final(l, events).writes) <==> EachWriteHeardAll(l, events)
    decreases events
  {
    if events != [] {
      var l' := After(l, events[0]);
      StepKeepsInv(l, events[0]);
      if events[0].ServerSend? {
        var c := l.db.contacts[events[0].contact - 1];
        WriteIsNewExactlyWhen(l, events[0].contact);
        AppendDistinct(l.writes, Use(c.identityKey, c.nextWriteN));
      }
      hide Inv;
      if Distinct(l'.writes) {
        WritesRepeatExactlyWhen(l', events[1..]);
      } else {
        RepeatsStay(l', events[1..]);
      }
    }
  }

  /**
   In any run, whatever bundles are restored and when: no broadcast number is used twice exactly when every
   broadcast was made by a database that had been through all earlier ones; and no write number is used
   twice for a contact exactly when every server-path send was made by one that had been through all earlier
   sends to that contact.
   */
  lemma NumbersRepeatExactlyWhen(pickle: seq<Bytes.byte>, events: seq<Event>)
    requires ValidRun(Start(pickle), events)
    ensures Distinct(Final(Start(pickle), events).broadcasts) <==> EachBroadcastHeardAll(Start(pickle), events)
    ensures Distinct(Final(Start(pickle), events).writes) <==> EachWriteHeardAll(Start(pickle), events)
  {
    StartIsOk(pickle);
    BroadcastsRepeatExactlyWhen(Start(pickle), events);
    WritesRepeatExactlyWhen(Start(pickle), events);
  }

  // ---------- Careful runs: only current bundles are restored ----------

  /** Nothing was broadcast or sent over a server since the bundle was made. There may be many such bundles. */
  predicate Current(l: Life, k: nat)
    requires k < |l.saved|
  {
    l.saved[k].broadcasts == |l.broadcasts| && l.saved[k].writes == |l.writes|
  }

  ghost predicate CarefulRun(l: Life, events: seq<Event>)
    decreases events
  {
    events != [] ==>
      && Enabled(l, events[0])
      && (events[0].Restore? ==> Current(l, events[0].k))
      && CarefulRun(After(l, events[0]), events[1..])
  }

  ghost predicate FullPast(past: Past, broadcasts: nat, writes: nat) {
    && (forall i :: i in past.broadcasts <==> 0 <= i < broadcasts)
    && (forall i :: i in past.writes <==> 0 <= i < writes)
  }

  ghost predicate StrictlyIncreasing(s: seq<nat>) {
    forall i, j :: 0 <= i < j < |s| ==> s[i] < s[j]
  }

  /** No contact's write number is used twice; later uses have larger numbers. */
  ghost predicate NeverRepeats(writes: seq<Use>) {
    forall i, j :: 0 <= i < j < |writes| && writes[i].key == writes[j].key ==> writes[i].n < writes[j].n
  }

  /** The current database has been through everything, and each bundle through everything before it. */
  ghost predicate Careful(l: Life) {
    && StrictlyIncreasing(l.broadcasts) && NeverRepeats(l.writes)
    && FullPast(l.past, |l.broadcasts|, |l.writes|)
    && forall k :: 0 <= k < |l.saved| ==>
        && l.saved[k].broadcasts <= |l.broadcasts| && l.saved[k].writes <= |l.writes|
        && FullPast(l.saved[k].past, l.saved[k].broadcasts, l.saved[k].writes)
  }

  lemma StepStaysCareful(l: Life, e: Event)
    requires Inv(l) && Careful(l) && Enabled(l, e) && (e.Restore? ==> Current(l, e.k))
    ensures Careful(After(l, e))
  {
    hide SavedOk, Gapless, Valid, Assembled, RestoredInto;
    if e.ServerSend? {
      HeardWritesAreBehind(l, e.contact);
    }
  }

  lemma {:induction false} CarefulRunKeepsInv(l: Life, events: seq<Event>)
    requires Inv(l) && Careful(l) && CarefulRun(l, events)
    ensures Inv(Final(l, events)) && Careful(Final(l, events))
    decreases events
  {
    if events != [] {
      StepKeepsInv(l, events[0]);
      StepStaysCareful(l, events[0]);
      hide Inv, Careful;
      CarefulRunKeepsInv(After(l, events[0]), events[1..]);
    }
  }

  lemma CarefulFromStart(pickle: seq<Bytes.byte>, events: seq<Event>)
    requires CarefulRun(Start(pickle), events)
    ensures Inv(Final(Start(pickle), events)) && Careful(Final(Start(pickle), events))
  {
    StartIsOk(pickle);
    CarefulRunKeepsInv(Start(pickle), events);
  }

  /**
   As long as every restore uses a bundle, any bundle, made after the last broadcast and server-path send,
   broadcast numbers strictly increase and write numbers never repeat; the next broadcast and the next write
   are past everything used before.
   */
  lemma CountersSurviveRestores(pickle: seq<Bytes.byte>, events: seq<Event>, contact: ContactId)
    requires CarefulRun(Start(pickle), events)
    ensures var l := Final(Start(pickle), events);
      && StrictlyIncreasing(l.broadcasts)
      && NeverRepeats(l.writes)
      && (forall i :: 0 <= i < |l.broadcasts| ==> l.broadcasts[i] < NextBroadcast(l.db))
      && (1 <= contact <= |l.db.contacts| ==>
            forall i :: 0 <= i < |l.writes| && l.writes[i].key == l.db.contacts[contact - 1].identityKey ==>
              l.writes[i].n < l.db.contacts[contact - 1].nextWriteN)
  {
    CarefulFromStart(pickle, events);
    var l := Final(Start(pickle), events);
    if 1 <= contact <= |l.db.contacts| {
      HeardWritesAreBehind(l, contact);
    }
  }

  /** A contact who has applied any of the earlier broadcasts accepts the next one. */
  lemma NextBroadcastIsAccepted(
      pickle: seq<Bytes.byte>, events: seq<Event>, key: IdentityKey, heard: nat, news: Pointer.Announcement)
    requires CarefulRun(Start(pickle), events)
    requires heard == 0 || heard in Final(Start(pickle), events).broadcasts
    requires news.seqNo == NextBroadcast(Final(Start(pickle), events).db)
    ensures Pointer.IsValid(key, heard, Pointer.Sign(key, news))
  {
    CountersSurviveRestores(pickle, events, 0);
  }

  /**
   After a careful run, restore any bundle ever made: the next broadcast is new exactly when there was none
   since the bundle was made, and a contact's next write number exactly when there was no server-path send
   to that contact since.
   */
  lemma RestoreIsSafeExactlyWhenNothingHappenedSince(
      pickle: seq<Bytes.byte>, events: seq<Event>, k: nat, contact: ContactId)
    requires CarefulRun(Start(pickle), events) && k < |Final(Start(pickle), events).saved|
    ensures var l := Final(Start(pickle), events);
      var db := After(l, Restore(k)).db;
      && (NextBroadcast(db) !in l.broadcasts <==> l.saved[k].broadcasts == |l.broadcasts|)
      && (1 <= contact <= |db.contacts| ==>
            var c := db.contacts[contact - 1];
            Use(c.identityKey, c.nextWriteN) !in l.writes
            <==> forall i :: l.saved[k].writes <= i < |l.writes| ==> l.writes[i].key != c.identityKey)
  {
    CarefulFromStart(pickle, events);
    var l := Final(Start(pickle), events);
    var l' := After(l, Restore(k));
    RestoreKeepsInv(l, k);
    hide Inv, RestoredInto;
    BroadcastIsNewExactlyWhen(l');
    assert HeardAllBroadcasts(l') <==> l.saved[k].broadcasts == |l.broadcasts| by {
      assert l.saved[k].broadcasts < |l.broadcasts| ==> l.saved[k].broadcasts !in l'.past.broadcasts;
    }
    if 1 <= contact <= |l'.db.contacts| {
      WriteIsNewExactlyWhen(l', contact);
    }
  }
}

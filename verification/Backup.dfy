/** Assembling a backup bundle from a database, and restoring it into a fresh one. */
module Backup {
  import opened Wrappers
  import opened Bytes
  import opened Crypto
  import opened Store
  import Sorting

  datatype BackupContact = BackupContact(
    identityKey: IdentityKey, curveKey: Key32, name: Option<string>, serverAddr: Option<seq<byte>>,
    pairSecret: Option<Secret>, nextWriteN: nat, sessionPickle: Option<seq<byte>>,
    pendingOtk: Option<Key32>, transportKey: Option<Key32>, messages: seq<Message>)

  datatype Bundle = Bundle(
    accountPickle: seq<byte>, contacts: seq<BackupContact>,
    ownServerAddr: Option<seq<byte>>, pointerBroadcastSeq: nat)

  // ---------- Assembling ----------

  function SessionOf(db: Database, id: ContactId): Option<seq<byte>> {
    if id in db.sessions then Some(db.sessions[id]) else None
  }

  function BackupOf(db: Database, c: Contact): BackupContact {
    BackupContact(c.identityKey, c.curveKey, c.name, c.serverAddr, c.pairSecret, c.nextWriteN,
                  SessionOf(db, c.id), c.pendingOtk, c.transportKey, MessagesFor(db, c.id))
  }

  /** Fails when there is no account row. */
  function Assembled(db: Database): Result<Bundle, string> {
    if db.account.None? then Failure("no account pickle to back up")
    else
      var a := db.account.value;
      Success(Bundle(a.pickle, seq(|db.contacts|, i requires 0 <= i < |db.contacts| => BackupOf(db, db.contacts[i])),
                     a.ownServerAddr, a.pointerBroadcastSeq))
  }

  method Assemble(store: Store) returns (r: Result<Bundle, string>)
    ensures r == Assembled(store.db) && (r.Success? <==> store.db.account.Some?)
  {
    var db := store.db;
    if db.account.None? {
      return Failure("no account pickle to back up");
    }
    var contacts := [];
    for k := 0 to |db.contacts|
      invariant |contacts| == k
      invariant forall i :: 0 <= i < k ==> contacts[i] == BackupOf(db, db.contacts[i])
    {
      contacts := contacts + [BackupOf(db, db.contacts[k])];
    }
    assert contacts == Assembled(db).value.contacts;
    var a := db.account.value;
    r := Success(Bundle(a.pickle, contacts, a.ownServerAddr, a.pointerBroadcastSeq));
  }

  // ---------- Restoring, statement by statement ----------

  /** The database as far as the restore got, and whether it got to the end. */
  function RestoreMessages(db: Database, id: ContactId, messages: seq<Message>): (Database, bool)
    decreases messages
  {
    if messages == [] then (db, true)
    else match Inserted(db, id, messages[0])
      case Failure(_) => (db, false)
      case Success(db') => RestoreMessages(db', id, messages[1..])
  }

  function RestoreColumns(db: Database, id: ContactId, c: BackupContact): Database {
    var db := if c.serverAddr.Some? then WithServerAddr(db, id, c.serverAddr) else db;
    var db := if c.pairSecret.Some? then WithPairSecret(db, id, c.pairSecret.value) else db;
    var db := WithWrites(db, id, c.nextWriteN);
    var db := if c.sessionPickle.Some? then WithSession(db, id, c.sessionPickle.value) else db;
    var db := if c.transportKey.Some? then WithTransportKey(db, id, c.transportKey.value) else db;
    if c.pendingOtk.Some? then WithPendingOtk(db, id, c.pendingOtk) else db
  }

  function RestoreContact(db: Database, c: BackupContact): (Database, bool) {
    var (db, id) := Upserted(db, c.identityKey, c.curveKey, c.name);
    RestoreMessages(RestoreColumns(db, id, c), id, c.messages)
  }

  function RestoreContacts(db: Database, contacts: seq<BackupContact>): (Database, bool)
    decreases contacts
  {
    if contacts == [] then (db, true)
    else
      var (db', ok) := RestoreContact(db, contacts[0]);
      if ok then RestoreContacts(db', contacts[1..]) else (db', false)
  }

  function WithAccount(db: Database, b: Bundle): Database {
    WithBroadcastSeq(WithOwnServerAddr(WithPickle(db, b.accountPickle), b.ownServerAddr), b.pointerBroadcastSeq)
  }

  function RestoredInto(db: Database, b: Bundle): (Database, bool) {
    RestoreContacts(WithAccount(db, b), b.contacts)
  }

  /** The write counter is rebuilt by single increments. */
  method RebuildWriteCounter(store: Store, id: ContactId, n: nat)
    requires Valid(store.db)
    modifies store
    ensures Valid(store.db) && store.db == WithWrites(old(store.db), id, n)
  {
    ghost var before := store.db;
    assert store.db == WithWrites(before, id, 0);
    for k := 0 to n
      invariant Valid(store.db) && store.db == WithWrites(before, id, k)
    {
      var _ := store.IncrementAndGetNextWriteN(id);
    }
  }

  method RestoreInto(store: Store, b: Bundle) returns (ok: bool)
    requires Valid(store.db)
    modifies store
    ensures Valid(store.db)
    ensures (store.db, ok) == RestoredInto(old(store.db), b)
  {
    store.SaveAccountPickle(b.accountPickle);
    store.SetOwnServerAddr(b.ownServerAddr);
    store.SetPointerBroadcastSeq(b.pointerBroadcastSeq);
    ghost var start := store.db;
    for k := 0 to |b.contacts|
      invariant Valid(store.db)
      invariant RestoreContacts(start, b.contacts) == RestoreContacts(store.db, b.contacts[k..])
    {
      assert b.contacts[k..][1..] == b.contacts[k + 1..];
      ok := RestoreContactRow(store, b.contacts[k]);
      if !ok {
        return;
      }
    }
    ok := true;
  }

  method RestoreContactRow(store: Store, c: BackupContact) returns (ok: bool)
    requires Valid(store.db)
    modifies store
    ensures Valid(store.db)
    ensures (store.db, ok) == RestoreContact(old(store.db), c)
  {
    var id := store.UpsertContact(c.identityKey, c.curveKey, c.name);
    RestoreContactColumns(store, id, c);
    ok := RestoreContactMessages(store, id, c.messages);
  }

  method RestoreContactColumns(store: Store, id: ContactId, c: BackupContact)
    requires Valid(store.db) && 1 <= id <= |store.db.contacts|
    modifies store
    ensures Valid(store.db) && |store.db.contacts| == |old(store.db).contacts|
    ensures store.db == RestoreColumns(old(store.db), id, c)
  {
    if c.serverAddr.Some? {
      store.SetContactServerAddr(id, c.serverAddr);
    }
    if c.pairSecret.Some? {
      store.SetContactPairSecret(id, c.pairSecret.value);
    }
    RebuildWriteCounter(store, id, c.nextWriteN);
    if c.sessionPickle.Some? {
      store.SaveSessionPickle(id, c.sessionPickle.value);
    }
    if c.transportKey.Some? {
      store.SetContactTransportKey(id, c.transportKey.value);
    }
    if c.pendingOtk.Some? {
      store.SetContactPendingOtk(id, c.pendingOtk);
    }
  }

  method RestoreContactMessages(store: Store, id: ContactId, messages: seq<Message>) returns (ok: bool)
    requires Valid(store.db) && 1 <= id <= |store.db.contacts|
    modifies store
    ensures Valid(store.db)
    ensures (store.db, ok) == RestoreMessages(old(store.db), id, messages)
  {
    ghost var start := store.db;
    for k := 0 to |messages|
      invariant Valid(store.db) && store.db.contacts == start.contacts
      invariant RestoreMessages(start, id, messages) == RestoreMessages(store.db, id, messages[k..])
    {
      assert messages[k..][1..] == messages[k + 1..];
      ok := store.InsertMessage(id, messages[k]);
      if !ok {
        return;
      }
    }
    ok := true;
  }

  // ---------- What a restore into an empty store produces ----------

  function ContactFrom(c: BackupContact, id: ContactId): Contact {
    Contact(id, c.identityKey, c.curveKey, c.name, c.serverAddr, c.pairSecret, c.nextWriteN,
            c.pendingOtk, c.transportKey, 0, 0)
  }

  function RowsOf(id: ContactId, messages: seq<Message>): (rows: seq<Row>)
    ensures |rows| == |messages|
  {
    seq(|messages|, i requires 0 <= i < |messages| => Row(id, messages[i]))
  }

  function AllRows(contacts: seq<BackupContact>): (rows: seq<Row>)
    ensures forall i :: 0 <= i < |rows| ==> 1 <= rows[i].contact <= |contacts|
  {
    if contacts == [] then []
    else AllRows(contacts[..|contacts| - 1]) + RowsOf(|contacts|, contacts[|contacts| - 1].messages)
  }

  function SessionIn(contacts: seq<BackupContact>, id: ContactId): Option<seq<byte>> {
    if 1 <= id <= |contacts| then contacts[id - 1].sessionPickle else None
  }

  /** The database with these contacts, in closed form. */
  function RestoredContacts(account: Account, contacts: seq<BackupContact>): Database {
    Database(
      seq(|contacts|, i requires 0 <= i < |contacts| => ContactFrom(contacts[i], i + 1)),
      map id | 1 <= id <= |contacts| && SessionIn(contacts, id).Some? :: SessionIn(contacts, id).value,
      AllRows(contacts),
      0,
      Some(account))
  }

  function Restored(b: Bundle): Database {
    RestoredContacts(Account(b.accountPickle, 0, b.ownServerAddr, b.pointerBroadcastSeq), b.contacts)
  }

  ghost predicate DistinctIds(messages: seq<Message>) {
    forall i, j :: 0 <= i < j < |messages| ==> messages[i].msgId != messages[j].msgId
  }

  /** Contacts are distinct people and no contact has two messages with one id. */
  ghost predicate WellFormed(contacts: seq<BackupContact>) {
    && (forall i, j :: 0 <= i < j < |contacts| ==> contacts[i].identityKey != contacts[j].identityKey)
    && (forall i :: 0 <= i < |contacts| ==> DistinctIds(contacts[i].messages))
  }

  lemma {:induction false} RestoreMessagesAppends(db: Database, id: ContactId, messages: seq<Message>)
    requires DistinctIds(messages)
    requires forall m :: m in messages ==> !HasMessage(db.messages, id, m.msgId)
    ensures RestoreMessages(db, id, messages) == (db.(messages := db.messages + RowsOf(id, messages)), true)
    decreases messages
  {
    if messages == [] {
      assert db.messages + RowsOf(id, messages) == db.messages;
    } else {
      assert messages[0] in messages;
      var db' := db.(messages := db.messages + [Row(id, messages[0])]);
      forall m | m in messages[1..] ensures !HasMessage(db'.messages, id, m.msgId) {
        assert m in messages && !HasMessage(db.messages, id, m.msgId);
      }
      RestoreMessagesAppends(db', id, messages[1..]);
      assert db'.messages + RowsOf(id, messages[1..]) == db.messages + RowsOf(id, messages);
    }
  }

  /** The columns of a freshly inserted last contact end up as in the bundle; the others are untouched. */
  lemma RestoreColumnsOfLast(db: Database, c: BackupContact)
    requires forall i :: 0 <= i < |db.contacts| ==> db.contacts[i].id == i + 1
    ensures var id := |db.contacts| + 1;
      var added := db.(contacts := db.contacts + [NewContact(id, c.identityKey, c.curveKey, c.name)]);
      RestoreColumns(added, id, c)
      == db.(contacts := db.contacts + [ContactFrom(c, id)],
             sessions := if c.sessionPickle.Some? then db.sessions[id := c.sessionPickle.value] else db.sessions)
  {
    var id := |db.contacts| + 1;
    var added := db.(contacts := db.contacts + [NewContact(id, c.identityKey, c.curveKey, c.name)]);
    var r := RestoreColumns(added, id, c);
    assert r.contacts == db.contacts + [ContactFrom(c, id)];
  }

  lemma RestoredContactsSnoc(account: Account, contacts: seq<BackupContact>, c: BackupContact)
    ensures var db, id := RestoredContacts(account, contacts), |contacts| + 1;
      RestoredContacts(account, contacts + [c])
      == db.(contacts := db.contacts + [ContactFrom(c, id)],
             sessions := if c.sessionPickle.Some? then db.sessions[id := c.sessionPickle.value] else db.sessions,
             messages := db.messages + RowsOf(id, c.messages))
  {
    var db, all, id := RestoredContacts(account, contacts), contacts + [c], |contacts| + 1;
    var target := RestoredContacts(account, all);
    assert all[|all| - 1] == c && all[..|all| - 1] == contacts;
    assert forall k :: 1 <= k <= |contacts| ==> SessionIn(all, k) == SessionIn(contacts, k);
    assert SessionIn(all, id) == c.sessionPickle;
    assert target.contacts == db.contacts + [ContactFrom(c, id)];
    assert target.sessions == if c.sessionPickle.Some? then db.sessions[id := c.sessionPickle.value] else db.sessions;
  }

  lemma RestoreNextContact(account: Account, contacts: seq<BackupContact>, c: BackupContact)
    requires WellFormed(contacts + [c])
    ensures RestoreContact(RestoredContacts(account, contacts), c) == (RestoredContacts(account, contacts + [c]), true)
  {
    var db, all := RestoredContacts(account, contacts), contacts + [c];
    assert all[|contacts|] == c && DistinctIds(all[|contacts|].messages);
    forall i | 0 <= i < |contacts| ensures db.contacts[i].identityKey != c.identityKey {
      assert all[i].identityKey != all[|contacts|].identityKey;
    }
    RestoreColumnsOfLast(db, c);
    RestoredContactsSnoc(account, contacts, c);
    var added := Upserted(db, c.identityKey, c.curveKey, c.name).0;
    RestoreMessagesAppends(RestoreColumns(added, |contacts| + 1, c), |contacts| + 1, c.messages);
  }

  lemma {:induction false} RestoreContactsIsClosedForm(
      account: Account, done: seq<BackupContact>, todo: seq<BackupContact>)
    requires WellFormed(done + todo)
    ensures RestoreContacts(RestoredContacts(account, done), todo) == (RestoredContacts(account, done + todo), true)
    decreases todo
  {
    if todo == [] {
      assert done + todo == done;
    } else {
      var done' := done + [todo[0]];
      assert done' + todo[1..] == done + todo;
      assert forall i :: 0 <= i < |done'| ==> done'[i] == (done + todo)[i];
      RestoreNextContact(account, done, todo[0]);
      RestoreContactsIsClosedForm(account, done', todo[1..]);
    }
  }

  /** Restoring a well-formed bundle into an empty store always succeeds, with exactly this database. */
  lemma RestoreIntoEmpty(b: Bundle)
    requires WellFormed(b.contacts)
    ensures RestoredInto(EMPTY, b) == (Restored(b), true)
  {
    var account := Account(b.accountPickle, 0, b.ownServerAddr, b.pointerBroadcastSeq);
    var start := RestoredContacts(account, []);
    assert start.sessions == map[];
    assert WithAccount(EMPTY, b) == start;
    assert [] + b.contacts == b.contacts;
    RestoreContactsIsClosedForm(account, [], b.contacts);
  }

  // ---------- Round trip ----------

  lemma {:induction false} MessagesOfRows(id: ContactId, messages: seq<Message>, other: ContactId)
    ensures MessagesOf(RowsOf(id, messages), other) == if other == id then messages else []
  {
    if messages != [] {
      assert RowsOf(id, messages)[1..] == RowsOf(id, messages[1..]);
      MessagesOfRows(id, messages[1..], other);
    }
  }

  lemma {:induction false} MessagesOfAllRows(contacts: seq<BackupContact>, id: ContactId)
    ensures MessagesOf(AllRows(contacts), id) == if 1 <= id <= |contacts| then contacts[id - 1].messages else []
  {
    if contacts != [] {
      var init, last := contacts[..|contacts| - 1], contacts[|contacts| - 1];
      MessagesOfAllRows(init, id);
      MessagesOfRows(|contacts|, last.messages, id);
      MessagesOfAppend(AllRows(init), RowsOf(|contacts|, last.messages), id);
    }
  }

  lemma RestoredMessages(b: Bundle, i: nat)
    requires i < |b.contacts| && InLamportOrder(b.contacts[i].messages)
    ensures MessagesFor(Restored(b), i + 1) == b.contacts[i].messages
  {
    hide MessagesOf, AllRows;
    MessagesOfAllRows(b.contacts, i + 1);
    Sorting.SortingKeepsSorted(b.contacts[i].messages, LamportOf);
  }

  lemma RestoredSession(b: Bundle, i: nat)
    requires i < |b.contacts|
    ensures SessionOf(Restored(b), i + 1) == b.contacts[i].sessionPickle
  {
    hide AllRows;
    assert SessionIn(b.contacts, i + 1) == b.contacts[i].sessionPickle;
  }

  lemma BackupOfRestored(b: Bundle, i: nat)
    requires i < |b.contacts| && InLamportOrder(b.contacts[i].messages)
    ensures BackupOf(Restored(b), Restored(b).contacts[i]) == b.contacts[i]
  {
    hide MessagesFor, SessionOf, AllRows;
    RestoredMessages(b, i);
    RestoredSession(b, i);
    assert Restored(b).contacts[i] == ContactFrom(b.contacts[i], i + 1);
  }

  /** A bundle whose messages are in Lamport order is recovered exactly by restoring and assembling. */
  lemma AssembleUndoesRestore(b: Bundle)
    requires forall i :: 0 <= i < |b.contacts| ==> InLamportOrder(b.contacts[i].messages)
    ensures Assembled(Restored(b)) == Success(b)
  {
    var db := Restored(b);
    forall i | 0 <= i < |b.contacts| ensures BackupOf(db, db.contacts[i]) == b.contacts[i] {
      BackupOfRestored(b, i);
    }
    assert Assembled(db).value.contacts == b.contacts;
  }

  lemma {:induction false} MessagesOfDistinct(rows: seq<Row>, contact: ContactId)
    requires DistinctMessages(rows)
    ensures DistinctIds(MessagesOf(rows, contact))
  {
    if rows != [] {
      MessagesOfDistinct(rows[1..], contact);
      forall m | m in MessagesOf(rows[1..], contact) && rows[0].contact == contact
        ensures m.msgId != rows[0].message.msgId
      {
        MessagesOfAreRows(rows[1..], contact, m);
        assert Row(contact, m) in rows[1..];
      }
    }
  }

  function IdOf(m: Message): int {
    m.msgId
  }

  lemma QueryKeepsDistinct(db: Database, contact: ContactId)
    requires DistinctMessages(db.messages)
    ensures DistinctIds(MessagesFor(db, contact))
  {
    var ms := MessagesOf(db.messages, contact);
    MessagesOfDistinct(db.messages, contact);
    Sorting.SortingKeepsDistinct(ms, LamportOf, IdOf);
    var sorted := Sorting.Sorted(ms, LamportOf);
    forall i, j | 0 <= i < j < |sorted| ensures sorted[i].msgId != sorted[j].msgId {
      assert IdOf(sorted[i]) != IdOf(sorted[j]);
    }
  }

  /** Every consistent database yields a well-formed bundle with ordered messages. */
  lemma AssembledIsWellFormed(db: Database)
    requires Valid(db) && db.account.Some?
    ensures WellFormed(Assembled(db).value.contacts)
    ensures forall i :: 0 <= i < |db.contacts| ==> InLamportOrder(Assembled(db).value.contacts[i].messages)
  {
    var contacts := Assembled(db).value.contacts;
    forall i | 0 <= i < |contacts|
      ensures DistinctIds(contacts[i].messages) && InLamportOrder(contacts[i].messages)
    {
      QueryKeepsDistinct(db, db.contacts[i].id);
      var first := MessagesFor(db, db.contacts[i].id);
      if first != [] {
        QueryIsCorrect(db, db.contacts[i].id, first[0]);
      }
    }
  }

  function ResetPointers(contacts: seq<Contact>): seq<Contact> {
    seq(|contacts|, i requires 0 <= i < |contacts| => contacts[i].(pointerUpdatedAt := 0, pointerSeq := 0))
  }

  lemma RestoredContactsAreReset(db: Database)
    requires Valid(db) && db.account.Some?
    ensures Restored(Assembled(db).value).contacts == ResetPointers(db.contacts)
  {
    hide MessagesFor, SessionOf, AllRows, DistinctKeys, DistinctMessages;
    var b := Assembled(db).value;
    forall i | 0 <= i < |db.contacts| ensures Restored(b).contacts[i] == ResetPointers(db.contacts)[i] {
      assert b.contacts[i] == BackupOf(db, db.contacts[i]);
    }
  }

  lemma RestoredSessionsAreTheSame(db: Database)
    requires Valid(db) && db.account.Some?
    ensures Restored(Assembled(db).value).sessions == db.sessions
  {
    hide MessagesFor, AllRows, DistinctKeys, DistinctMessages;
    var b := Assembled(db).value;
    forall id: nat ensures SessionIn(b.contacts, id) == SessionOf(db, id) {
      if 1 <= id <= |db.contacts| {
        assert b.contacts[id - 1] == BackupOf(db, db.contacts[id - 1]);
      }
    }
    assert Restored(b).sessions == db.sessions;
  }

  lemma RestoredConversation(db: Database, id: ContactId)
    requires Valid(db) && db.account.Some?
    ensures MessagesFor(Restored(Assembled(db).value), id) == MessagesFor(db, id)
  {
    var b := Assembled(db).value;
    AssembledIsWellFormed(db);
    if 1 <= id <= |db.contacts| {
      RestoredMessages(b, id - 1);
    } else {
      MessagesOfAllRows(b.contacts, id);
      NoStrangersMessages(db.messages, |db.contacts|, id);
    }
  }

  lemma {:induction false} NoStrangersMessages(rows: seq<Row>, contacts: nat, id: ContactId)
    requires forall i :: 0 <= i < |rows| ==> 1 <= rows[i].contact <= contacts
    requires !(1 <= id <= contacts)
    ensures MessagesOf(rows, id) == []
  {
    if rows != [] {
      assert rows[0].contact != id;
      NoStrangersMessages(rows[1..], contacts, id);
    }
  }

  /**
   Backing up and restoring onto a new device loses nothing that the bundle covers: the restore succeeds,
   assembling again gives the same bundle, and contacts, sessions, conversations and account are those of the
   original. Only the clock, the watermark and the contacts' pointer marks start over.
   */
  lemma BackupRoundTrip(db: Database)
    requires Valid(db) && db.account.Some?
    ensures var b := Assembled(db).value;
      var (db', ok) := RestoredInto(EMPTY, b);
      && ok
      && Assembled(db') == Success(b)
      && db'.contacts == ResetPointers(db.contacts)
      && db'.sessions == db.sessions
      && (forall id :: MessagesFor(db', id) == MessagesFor(db, id))
      && db'.lamport == 0
      && db'.account == Some(AccountOf(db).(lastSyncedBlobId := 0))
  {
    var b := Assembled(db).value;
    assert b.accountPickle == AccountOf(db).pickle && b.ownServerAddr == AccountOf(db).ownServerAddr
      && b.pointerBroadcastSeq == AccountOf(db).pointerBroadcastSeq;
    hide BackupOf, WellFormed, RestoredInto, Valid, ResetPointers, AllRows, InLamportOrder, MessagesFor, Assembled;
    AssembledIsWellFormed(db);
    RestoreIntoEmpty(b);
    AssembleUndoesRestore(b);
    RestoredContactsAreReset(db);
    RestoredSessionsAreTheSame(db);
    forall id ensures MessagesFor(Restored(b), id) == MessagesFor(db, id) {
      RestoredConversation(db, id);
    }
  }
}

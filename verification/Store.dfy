/**
 A device's local database (`pm-store`): contacts, sessions, messages, the Lamport clock and the account
 row. Tables are sequences in row order or maps; each operation is one SQL statement or transaction.
 */
module Store {
  import opened Wrappers
  import opened Bytes
  import opened Crypto
  import Sorting

  type ContactId = nat
  type MsgId = nat
  type Key32 = nat

  datatype Direction = Outgoing | Incoming

  datatype Status = Sent | Delivered | Failed

  datatype Message = Message(
    msgId: MsgId, direction: Direction, lamport: nat, sentAt: nat, plaintext: seq<byte>, status: Option<Status>)

  datatype Row = Row(contact: ContactId, message: Message)

  datatype Contact = Contact(
    id: ContactId, identityKey: IdentityKey, curveKey: Key32, name: Option<string>,
    serverAddr: Option<seq<byte>>, pairSecret: Option<Secret>, nextWriteN: nat,
    pendingOtk: Option<Key32>, transportKey: Option<Key32>, pointerUpdatedAt: nat, pointerSeq: nat)

  datatype Account = Account(
    pickle: seq<byte>, lastSyncedBlobId: nat, ownServerAddr: Option<seq<byte>>, pointerBroadcastSeq: nat)

  datatype Database = Database(
    contacts: seq<Contact>, sessions: map<ContactId, seq<byte>>, messages: seq<Row>,
    lamport: nat, account: Option<Account>)

  const EMPTY := Database([], map[], [], 0, None)

  /** A contact row as `INSERT` creates it. */
  function NewContact(id: ContactId, identityKey: IdentityKey, curveKey: Key32, name: Option<string>): Contact {
    Contact(id, identityKey, curveKey, name, None, None, 0, None, None, 0, 0)
  }

  // ---------- Consistency ----------

  ghost predicate DistinctKeys(contacts: seq<Contact>) {
    forall i, j :: 0 <= i < j < |contacts| ==> contacts[i].identityKey != contacts[j].identityKey
  }

  /** `UNIQUE (contact_id, msg_id)`. */
  ghost predicate DistinctMessages(rows: seq<Row>) {
    forall i, j :: 0 <= i < j < |rows| && rows[i].contact == rows[j].contact ==>
      rows[i].message.msgId != rows[j].message.msgId
  }

  /** Contact ids count up from one, keys and message ids are unique, and every row has its contact. */
  ghost predicate Valid(db: Database) {
    && (forall i :: 0 <= i < |db.contacts| ==> db.contacts[i].id == i + 1)
    && DistinctKeys(db.contacts)
    && DistinctMessages(db.messages)
    && (forall i :: 0 <= i < |db.messages| ==> 1 <= db.messages[i].contact <= |db.contacts|)
    && (forall id :: id in db.sessions ==> 1 <= id <= |db.contacts|)
  }

  // ---------- Contacts ----------

  /** The position of the first contact with this key, or the length. */
  function IndexOfKey(contacts: seq<Contact>, key: IdentityKey): (i: nat)
    ensures i <= |contacts|
    ensures i < |contacts| ==> contacts[i].identityKey == key
    ensures forall j :: 0 <= j < i ==> contacts[j].identityKey != key
  {
    if contacts == [] then 0
    else if contacts[0].identityKey == key then 0
    else 1 + IndexOfKey(contacts[1..], key)
  }

  function Upserted(db: Database, key: IdentityKey, curveKey: Key32, name: Option<string>): (Database, ContactId) {
    var i := IndexOfKey(db.contacts, key);
    if i < |db.contacts| then
      (db.(contacts := db.contacts[i := db.contacts[i].(curveKey := curveKey, name := name)]), db.contacts[i].id)
    else
      var id := |db.contacts| + 1;
      (db.(contacts := db.contacts + [NewContact(id, key, curveKey, name)]), id)
  }

  /** Everything but the contacts is as it was. */
  predicate SameTables(db: Database, db': Database) {
    db' == db.(contacts := db'.contacts)
  }

  /**
   After an upsert the contact at `id` has the given keys and name. A known contact keeps its id and every
   other column; a new one is appended with the next id and initial columns. Nothing else changes.
   */
  ghost predicate IsUpsert(
      db: Database, db': Database, id: ContactId, key: IdentityKey, curveKey: Key32, name: Option<string>) {
    && SameTables(db, db')
    && 1 <= id <= |db'.contacts| && |db.contacts| <= |db'.contacts|
    && (forall i :: 0 <= i < |db.contacts| && i != id - 1 ==> db'.contacts[i] == db.contacts[i])
    && var c := db'.contacts[id - 1];
       && c.id == id && c.identityKey == key && c.curveKey == curveKey && c.name == name
       && (if exists i :: 0 <= i < |db.contacts| && db.contacts[i].identityKey == key then
             && id <= |db.contacts| == |db'.contacts|
             && var was := db.contacts[id - 1];
                && was.identityKey == key && c.serverAddr == was.serverAddr && c.pairSecret == was.pairSecret
                && c.nextWriteN == was.nextWriteN && c.pendingOtk == was.pendingOtk
                && c.transportKey == was.transportKey && c.pointerUpdatedAt == was.pointerUpdatedAt
                && c.pointerSeq == was.pointerSeq
           else
             && id == |db.contacts| + 1 == |db'.contacts|
             && c.serverAddr == None && c.pairSecret == None && c.nextWriteN == 0 && c.pendingOtk == None
             && c.transportKey == None && c.pointerUpdatedAt == 0 && c.pointerSeq == 0)
  }

  lemma UpsertIsUpsert(db: Database, key: IdentityKey, curveKey: Key32, name: Option<string>)
    requires Valid(db)
    ensures var (db', id) := Upserted(db, key, curveKey, name);
      IsUpsert(db, db', id, key, curveKey, name) && Valid(db')
  {
    var i := IndexOfKey(db.contacts, key);
    assert i < |db.contacts| ==> db.contacts[i].identityKey == key;
  }

  /** `UPDATE contacts SET … WHERE id = …`. */
  function Updated(db: Database, id: ContactId, f: Contact -> Contact): Database {
    db.(contacts := seq(|db.contacts|, i requires 0 <= i < |db.contacts| =>
      if db.contacts[i].id == id then f(db.contacts[i]) else db.contacts[i]))
  }

  function FindContact(db: Database, id: ContactId): Option<Contact> {
    if 1 <= id <= |db.contacts| then Some(db.contacts[id - 1]) else None
  }

  function WithServerAddr(db: Database, id: ContactId, addr: Option<seq<byte>>): Database {
    Updated(db, id, (c: Contact) => c.(serverAddr := addr))
  }

  function WithPointerUpdate(db: Database, id: ContactId, addr: Option<seq<byte>>, updatedAt: nat, seqNo: nat)
    : Database
  {
    Updated(db, id, (c: Contact) => c.(serverAddr := addr, pointerUpdatedAt := updatedAt, pointerSeq := seqNo))
  }

  function WithPairSecret(db: Database, id: ContactId, secret: Secret): Database {
    Updated(db, id, (c: Contact) => c.(pairSecret := Some(secret)))
  }

  function WithTransportKey(db: Database, id: ContactId, key: Key32): Database {
    Updated(db, id, (c: Contact) => c.(transportKey := Some(key)))
  }

  function WithPendingOtk(db: Database, id: ContactId, otk: Option<Key32>): Database {
    Updated(db, id, (c: Contact) => c.(pendingOtk := otk))
  }

  /** Advances the write counter by `k` single increments' worth. */
  function WithWrites(db: Database, id: ContactId, k: nat): Database {
    Updated(db, id, (c: Contact) => c.(nextWriteN := c.nextWriteN + k))
  }

  function WithSession(db: Database, id: ContactId, pickle: seq<byte>): Database {
    db.(sessions := db.sessions[id := pickle])
  }

  /** One contact changed, to `c`; all else as it was. */
  ghost predicate OnlyContact(db: Database, db': Database, id: ContactId, c: Contact) {
    && SameTables(db, db') && |db'.contacts| == |db.contacts|
    && 1 <= id <= |db.contacts| && db'.contacts[id - 1] == c
    && forall i :: 0 <= i < |db.contacts| && i != id - 1 ==> db'.contacts[i] == db.contacts[i]
  }

  /** Each setter writes its own columns of the one contact it names, and nothing else. */
  lemma SettersTouchOneContact(
      db: Database, id: ContactId, addr: Option<seq<byte>>, secret: Secret, key: Key32, otk: Option<Key32>, n: nat)
    requires Valid(db) && 1 <= id <= |db.contacts|
    ensures var c := db.contacts[id - 1];
      && OnlyContact(db, WithServerAddr(db, id, addr), id, c.(serverAddr := addr))
      && OnlyContact(db, WithPairSecret(db, id, secret), id, c.(pairSecret := Some(secret)))
      && OnlyContact(db, WithTransportKey(db, id, key), id, c.(transportKey := Some(key)))
      && OnlyContact(db, WithPendingOtk(db, id, otk), id, c.(pendingOtk := otk))
      && OnlyContact(db, WithWrites(db, id, n), id, c.(nextWriteN := c.nextWriteN + n))
  {
  }

  // ---------- Messages ----------

  predicate HasMessage(rows: seq<Row>, contact: ContactId, msgId: MsgId) {
    exists i :: 0 <= i < |rows| && rows[i].contact == contact && rows[i].message.msgId == msgId
  }

  /** Fails, changing nothing, when the contact already has a message with this id. */
  function Inserted(db: Database, contact: ContactId, m: Message): Result<Database, string> {
    if HasMessage(db.messages, contact, m.msgId) then Failure("UNIQUE constraint failed")
    else Success(db.(messages := db.messages + [Row(contact, m)]))
  }

  function StatusSet(row: Row, status: Status): Row {
    row.(message := row.message.(status := Some(status)))
  }

  function WithStatus(db: Database, contact: ContactId, msgId: MsgId, status: Status): Database {
    db.(messages := seq(|db.messages|, i requires 0 <= i < |db.messages| =>
      if db.messages[i].contact == contact && db.messages[i].message.msgId == msgId
      then StatusSet(db.messages[i], status) else db.messages[i]))
  }

  function WithStatusByMsgId(db: Database, msgId: MsgId, status: Status): Database {
    db.(messages := seq(|db.messages|, i requires 0 <= i < |db.messages| =>
      if db.messages[i].message.msgId == msgId then StatusSet(db.messages[i], status) else db.messages[i]))
  }

  /** A contact's messages in insertion order. */
  function MessagesOf(rows: seq<Row>, contact: ContactId): seq<Message> {
    if rows == [] then []
    else (if rows[0].contact == contact then [rows[0].message] else []) + MessagesOf(rows[1..], contact)
  }

  function LamportOf(m: Message): int {
    m.lamport
  }

  /** `ORDER BY lamport`, equal values in insertion order. */
  function MessagesFor(db: Database, contact: ContactId): seq<Message> {
    Sorting.Sorted(MessagesOf(db.messages, contact), LamportOf)
  }

  ghost predicate InLamportOrder(messages: seq<Message>) {
    forall i, j :: 0 <= i < j < |messages| ==> messages[i].lamport <= messages[j].lamport
  }

  lemma {:induction false} MessagesOfAreRows(rows: seq<Row>, contact: ContactId, m: Message)
    ensures m in MessagesOf(rows, contact) <==> Row(contact, m) in rows
  {
    if rows != [] {
      MessagesOfAreRows(rows[1..], contact, m);
      assert rows == [rows[0]] + rows[1..];
    }
  }

  /** The query returns the contact's messages and no others, in Lamport order. */
  lemma QueryIsCorrect(db: Database, contact: ContactId, m: Message)
    ensures InLamportOrder(MessagesFor(db, contact))
    ensures multiset(MessagesFor(db, contact)) == multiset(MessagesOf(db.messages, contact))
    ensures m in MessagesFor(db, contact) <==> Row(contact, m) in db.messages
  {
    var ms := MessagesOf(db.messages, contact);
    Sorting.SortingIsCorrect(ms, LamportOf);
    var sorted := Sorting.Sorted(ms, LamportOf);
    forall i, j | 0 <= i < j < |sorted| ensures sorted[i].lamport <= sorted[j].lamport {
      assert LamportOf(sorted[i]) <= LamportOf(sorted[j]);
    }
    MessagesOfAreRows(db.messages, contact, m);
    assert m in multiset(sorted) <==> m in multiset(ms);
  }

  lemma {:induction false} MessagesOfAppend(rows: seq<Row>, more: seq<Row>, contact: ContactId)
    ensures MessagesOf(rows + more, contact) == MessagesOf(rows, contact) + MessagesOf(more, contact)
  {
    if rows == [] {
      assert rows + more == more;
    } else {
      assert (rows + more)[1..] == rows[1..] + more;
      MessagesOfAppend(rows[1..], more, contact);
      var first := if rows[0].contact == contact then [rows[0].message] else [];
      assert MessagesOf(rows + more, contact) == first + (MessagesOf(rows[1..], contact) + MessagesOf(more, contact));
    }
  }

  // ---------- The account row and its counters ----------

  /** The account row, created on first use. */
  function AccountOf(db: Database): Account {
    if db.account.Some? then db.account.value else Account([], 0, None, 0)
  }

  function WithPickle(db: Database, pickle: seq<byte>): Database {
    db.(account := Some(AccountOf(db).(pickle := pickle)))
  }

  function WithOwnServerAddr(db: Database, addr: Option<seq<byte>>): Database {
    db.(account := Some(AccountOf(db).(ownServerAddr := addr)))
  }

  function WithBroadcastSeq(db: Database, value: nat): Database {
    db.(account := Some(AccountOf(db).(pointerBroadcastSeq := value)))
  }

  /** Each account column is written alone: the others, and every other table, stay as they were. */
  lemma AccountColumnsAreSeparate(db: Database, pickle: seq<byte>, addr: Option<seq<byte>>, value: nat)
    ensures var a := AccountOf(WithPickle(db, pickle));
      && a.pickle == pickle && a.lastSyncedBlobId == AccountOf(db).lastSyncedBlobId
      && a.ownServerAddr == AccountOf(db).ownServerAddr && a.pointerBroadcastSeq == AccountOf(db).pointerBroadcastSeq
    ensures var a := AccountOf(WithOwnServerAddr(db, addr));
      && a.ownServerAddr == addr && a.lastSyncedBlobId == AccountOf(db).lastSyncedBlobId
      && a.pickle == AccountOf(db).pickle && a.pointerBroadcastSeq == AccountOf(db).pointerBroadcastSeq
    ensures var a := AccountOf(WithBroadcastSeq(db, value));
      && a.pointerBroadcastSeq == value && a.lastSyncedBlobId == AccountOf(db).lastSyncedBlobId
      && a.pickle == AccountOf(db).pickle && a.ownServerAddr == AccountOf(db).ownServerAddr
    ensures forall db' :: db' in {WithPickle(db, pickle), WithOwnServerAddr(db, addr), WithBroadcastSeq(db, value)} ==>
      && db'.contacts == db.contacts && db'.sessions == db.sessions
      && db'.messages == db.messages && db'.lamport == db.lamport
  {
  }

  // ---------- The Lamport clock ----------

  /** SQLite keeps the clock as a signed 64-bit integer. */
  const I64_MAX: nat := 0x7FFF_FFFF_FFFF_FFFF

  /** `remote as i64`: the low 64 bits read as a signed word. */
  function AsI64(remote: nat): (r: int)
    ensures remote <= I64_MAX ==> r == remote
    ensures -0x8000_0000_0000_0000 <= r <= I64_MAX && (remote - r) % 0x1_0000_0000_0000_0000 == 0
  {
    var word := remote % (2 * (I64_MAX + 1));
    if word <= I64_MAX then word else word - 2 * (I64_MAX + 1)
  }

  function Ticked(db: Database): Database {
    db.(lamport := db.lamport + 1)
  }

  function Observed(db: Database, remote: nat): Database {
    var r := AsI64(remote);
    db.(lamport := (if db.lamport >= r then db.lamport else r) + 1)
  }

  // ---------- The store object ----------

  class Store {
    var db: Database

    constructor ()
      ensures db == EMPTY
    {
      db := EMPTY;
    }

    method UpsertContact(key: IdentityKey, curveKey: Key32, name: Option<string>) returns (id: ContactId)
      modifies this
      ensures (db, id) == Upserted(old(db), key, curveKey, name)
      ensures old(Valid(db)) ==> Valid(db) && IsUpsert(old(db), db, id, key, curveKey, name)
    {
      if Valid(db) {
        UpsertIsUpsert(db, key, curveKey, name);
      }
      var (next, contact) := Upserted(db, key, curveKey, name);
      db, id := next, contact;
    }

    method SetContactServerAddr(id: ContactId, addr: Option<seq<byte>>)
      modifies this
      ensures db == WithServerAddr(old(db), id, addr)
      ensures old(Valid(db)) ==> Valid(db)
    {
      db := WithServerAddr(db, id, addr);
    }

    method SetContactPairSecret(id: ContactId, secret: Secret)
      modifies this
      ensures db == WithPairSecret(old(db), id, secret)
      ensures old(Valid(db)) ==> Valid(db)
    {
      db := WithPairSecret(db, id, secret);
    }

    method SetContactTransportKey(id: ContactId, key: Key32)
      modifies this
      ensures db == WithTransportKey(old(db), id, key)
      ensures old(Valid(db)) ==> Valid(db)
    {
      db := WithTransportKey(db, id, key);
    }

    method SetContactPendingOtk(id: ContactId, otk: Option<Key32>)
      modifies this
      ensures db == WithPendingOtk(old(db), id, otk)
      ensures old(Valid(db)) ==> Valid(db)
    {
      db := WithPendingOtk(db, id, otk);
    }

    /** One increment; returns the value used for this write, or fails when there is no such contact. */
    method IncrementAndGetNextWriteN(id: ContactId) returns (n: Option<nat>)
      requires Valid(db)
      modifies this
      ensures Valid(db) && db == WithWrites(old(db), id, 1)
      ensures n == match FindContact(old(db), id) case None => None case Some(c) => Some(c.nextWriteN)
    {
      db := WithWrites(db, id, 1);
      var c := FindContact(db, id);
      n := if c.None? then None else Some(c.value.nextWriteN - 1);
    }

    method SaveSessionPickle(id: ContactId, pickle: seq<byte>)
      modifies this
      ensures db == WithSession(old(db), id, pickle)
      ensures old(Valid(db)) && 1 <= id <= |old(db).contacts| ==> Valid(db)
    {
      db := WithSession(db, id, pickle);
    }

    method InsertMessage(contact: ContactId, m: Message) returns (ok: bool)
      modifies this
      ensures ok == Inserted(old(db), contact, m).Success?
      ensures db == if ok then Inserted(old(db), contact, m).value else old(db)
      ensures old(Valid(db)) && 1 <= contact <= |old(db).contacts| ==> Valid(db)
    {
      var r := Inserted(db, contact, m);
      ok := r.Success?;
      if ok {
        db := r.value;
      }
    }

    method SetMessageStatus(contact: ContactId, msgId: MsgId, status: Status)
      modifies this
      ensures db == WithStatus(old(db), contact, msgId, status)
      ensures old(Valid(db)) ==> Valid(db)
    {
      db := WithStatus(db, contact, msgId, status);
    }

    method SetMessageStatusByMsgId(msgId: MsgId, status: Status)
      modifies this
      ensures db == WithStatusByMsgId(old(db), msgId, status)
      ensures old(Valid(db)) ==> Valid(db)
    {
      db := WithStatusByMsgId(db, msgId, status);
    }

    method SetContactPointerUpdate(id: ContactId, addr: Option<seq<byte>>, updatedAt: nat, seqNo: nat)
      modifies this
      ensures db == WithPointerUpdate(old(db), id, addr, updatedAt, seqNo)
      ensures old(Valid(db)) ==> Valid(db)
    {
      db := WithPointerUpdate(db, id, addr, updatedAt, seqNo);
    }

    method SaveAccountPickle(pickle: seq<byte>)
      modifies this
      ensures db == WithPickle(old(db), pickle)
    {
      db := WithPickle(db, pickle);
    }

    method SetOwnServerAddr(addr: Option<seq<byte>>)
      modifies this
      ensures db == WithOwnServerAddr(old(db), addr)
    {
      db := WithOwnServerAddr(db, addr);
    }

    method SetPointerBroadcastSeq(value: nat)
      modifies this
      ensures db == WithBroadcastSeq(old(db), value)
    {
      db := WithBroadcastSeq(db, value);
    }

    /** One tick; the first broadcast ever gets 1. */
    method IncrementAndGetPointerBroadcastSeq() returns (seqNo: nat)
      modifies this
      ensures db == WithBroadcastSeq(old(db), seqNo)
      ensures seqNo == AccountOf(old(db)).pointerBroadcastSeq + 1
    {
      seqNo := AccountOf(db).pointerBroadcastSeq + 1;
      db := WithBroadcastSeq(db, seqNo);
    }

    method TickLamport() returns (value: nat)
      requires db.lamport < I64_MAX
      modifies this
      ensures db == Ticked(old(db)) && value == db.lamport
      ensures old(db.lamport) + 1 == value <= I64_MAX
    {
      db := db.(lamport := db.lamport + 1);
      value := db.lamport;
    }

    /** Merges a remote value; honest ones are below the signed maximum. */
    method ObserveLamport(remote: nat) returns (value: nat)
      requires db.lamport < I64_MAX && AsI64(remote) < I64_MAX
      modifies this
      ensures db == Observed(old(db), remote) && value == db.lamport
      ensures old(db.lamport) < value <= I64_MAX
      ensures remote < I64_MAX ==> remote < value
      ensures value - 1 in {old(db.lamport), AsI64(remote)}
    {
      var r := AsI64(remote);
      db := db.(lamport := (if db.lamport >= r then db.lamport else r) + 1);
      value := db.lamport;
    }
  }
}

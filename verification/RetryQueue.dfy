/**
 The retry-delivery queue of `pm-node`: pending jobs keyed by message id, and the list of message ids
 whose schedule is exhausted. Clock readings are parameters. The order in which the SQL `SELECT`s
 return rows is left open, as the queries have no `ORDER BY`.
 */
module RetryQueue {
  import opened Wrappers

  /** A message id: 128 random bits. */
  type MsgId = nat

  const MAX_RETRY_ATTEMPTS: nat := 3
  const IN_FLIGHT_GRACE: nat := 12000

  /** The pause after the n-th failed attempt, n = 1, 2. */
  function Backoff(failures: nat): nat
    requires 1 <= failures < MAX_RETRY_ATTEMPTS
  {
    if failures == 1 then 5000 else 15000
  }

  /** One row of `retry_entries`. */
  datatype Entry<+E> = Entry(recipient: nat, envelope: E, attempts: nat, nextAttemptAt: int)

  /** Both tables. `failed` has no duplicates: its column is a primary key. */
  datatype Queue<E> = Queue(entries: map<MsgId, Entry<E>>, failed: seq<MsgId>)

  datatype DueDelivery<+E> = DueDelivery(msgId: MsgId, recipient: nat, envelope: E)

  // ---------- The queue as a value ----------

  function Scheduled<E>(q: Queue<E>, m: MsgId, recipient: nat, envelope: E, now: int): Queue<E> {
    q.(entries := q.entries[m := Entry(recipient, envelope, 0, now)])
  }

  function DueIds<E>(q: Queue<E>, now: int): set<MsgId> {
    set m | m in q.entries && q.entries[m].nextAttemptAt <= now
  }

  function Taken<E>(q: Queue<E>, now: int): Queue<E> {
    q.(entries := map m | m in q.entries ::
        if q.entries[m].nextAttemptAt <= now
        then q.entries[m].(nextAttemptAt := now + IN_FLIGHT_GRACE)
        else q.entries[m])
  }

  function MarkedDelivered<E>(q: Queue<E>, m: MsgId): Queue<E> {
    q.(entries := q.entries - {m})
  }

  function MarkedFailed<E>(q: Queue<E>, m: MsgId, now: int): Queue<E> {
    if m !in q.entries then q
    else
      var attempts := q.entries[m].attempts + 1;
      if attempts >= MAX_RETRY_ATTEMPTS then
        Queue(q.entries - {m}, if m in q.failed then q.failed else q.failed + [m])
      else
        q.(entries := q.entries[m := q.entries[m].(attempts := attempts, nextAttemptAt := now + Backoff(attempts))])
  }

  function Drained<E>(q: Queue<E>): Queue<E> {
    q.(failed := [])
  }

  /** `due` lists every due entry once, with its own recipient and envelope, and nothing else. */
  ghost predicate ListsDue<E>(q: Queue<E>, now: int, due: seq<DueDelivery<E>>) {
    && (forall i :: 0 <= i < |due| ==>
          && due[i].msgId in DueIds(q, now)
          && due[i].recipient == q.entries[due[i].msgId].recipient
          && due[i].envelope == q.entries[due[i].msgId].envelope)
    && (forall i, j :: 0 <= i < j < |due| ==> due[i].msgId != due[j].msgId)
    && (forall m :: m in DueIds(q, now) ==> exists i :: 0 <= i < |due| && due[i].msgId == m)
  }

  // ---------- The queue object ----------

  class RetryQueue<E> {
    var entries: map<MsgId, Entry<E>>
    var failed: seq<MsgId>

    ghost function Contents(): Queue<E>
      reads this
    {
      Queue(entries, failed)
    }

    constructor ()
      ensures Contents() == Queue(map[], [])
    {
      entries, failed := map[], [];
    }

    method Schedule(m: MsgId, recipient: nat, envelope: E, now: int)
      modifies this
      ensures Contents() == Scheduled(old(Contents()), m, recipient, envelope, now)
    {
      entries := entries[m := Entry(recipient, envelope, 0, now)];
    }

    /** Collects the due rows, then pushes each one's due time out by the in-flight grace. */
    method TakeDue(now: int) returns (due: seq<DueDelivery<E>>)
      modifies this
      ensures Contents() == Taken(old(Contents()), now)
      ensures ListsDue(old(Contents()), now, due)
    {
      due := SelectDue(now);
      var graceUntil := now + IN_FLIGHT_GRACE;
      ghost var before := Contents();
      for k := 0 to |due|
        invariant failed == before.failed && entries.Keys == before.entries.Keys
        invariant forall m :: m in entries ==>
            (if exists i :: 0 <= i < k && due[i].msgId == m
             then entries[m] == before.entries[m].(nextAttemptAt := graceUntil)
             else entries[m] == before.entries[m])
      {
        var m := due[k].msgId;
        entries := entries[m := entries[m].(nextAttemptAt := graceUntil)];
      }
      forall m | m in entries
        ensures entries[m] == Taken(before, now).entries[m]
      {
        assert before.entries[m].nextAttemptAt <= now <==> m in DueIds(before, now);
      }
    }

    method SelectDue(now: int) returns (due: seq<DueDelivery<E>>)
      ensures ListsDue(Contents(), now, due)
    {
      due := [];
      var rest := DueIds(Queue(entries, failed), now);
      ghost var all := rest;
      while rest != {}
        invariant rest <= all
        invariant forall i :: 0 <= i < |due| ==>
            && due[i].msgId in all && due[i].msgId !in rest
            && due[i].recipient == entries[due[i].msgId].recipient
            && due[i].envelope == entries[due[i].msgId].envelope
        invariant forall i, j :: 0 <= i < j < |due| ==> due[i].msgId != due[j].msgId
        invariant forall m :: m in all && m !in rest ==> exists i :: 0 <= i < |due| && due[i].msgId == m
        decreases rest
      {
        var m :| m in rest;
        ghost var done := due;
        due := due + [DueDelivery(m, entries[m].recipient, entries[m].envelope)];
        rest := rest - {m};
        forall k | k in all && k !in rest
          ensures exists i :: 0 <= i < |due| && due[i].msgId == k
        {
          if k == m {
            assert due[|due| - 1].msgId == k;
          } else {
            var i :| 0 <= i < |done| && done[i].msgId == k;
            assert due[i].msgId == k;
          }
        }
      }
    }

    method MarkDelivered(m: MsgId)
      modifies this
      ensures Contents() == MarkedDelivered(old(Contents()), m)
    {
      entries := entries - {m};
    }

    method MarkFailed(m: MsgId, now: int)
      modifies this
      ensures Contents() == MarkedFailed(old(Contents()), m, now)
    {
      if m !in entries {
        return;
      }
      var attempts := entries[m].attempts + 1;
      if attempts >= MAX_RETRY_ATTEMPTS {
        entries := entries - {m};
        if m !in failed {
          failed := failed + [m];
        }
      } else {
        entries := entries[m := entries[m].(attempts := attempts, nextAttemptAt := now + Backoff(attempts))];
      }
    }

    method TakeFailed() returns (ids: seq<MsgId>)
      modifies this
      ensures Contents() == Drained(old(Contents()))
      ensures ids == old(failed)
    {
      ids := failed;
      failed := [];
    }
  }
}

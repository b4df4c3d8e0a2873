/**
 Whole runs of the retry queue under the sweep loop, with explicit time, and the device that polls it.

 A run is crash-free and uses each message id for one job. Its clock advances only while no deadline is
 overdue: sweeps come at most `sweepGap` apart and every attempt reports within `attemptLimit`, which is
 shorter than the in-flight grace.
 */
module RetryRun {
  import opened Wrappers
  import opened RetryQueue
  import Bytes
  import Store
  import Client

  /** An encrypted, padded envelope: opaque to the node. */
  type Envelope = seq<Bytes.byte>

  datatype Timing = Timing(sweepGap: nat, attemptLimit: nat)

  datatype Outcome = Outcome(at: int, acked: bool)

  /** One dial of the recipient, made by one sweep. */
  datatype Attempt = Attempt(startedAt: int, outcome: Option<Outcome>)

  type Status = Store.Status

  /** The node's queue, the polling device's outgoing rows, and the history of the run. */
  datatype World = World(
    queue: Queue<Envelope>,
    rows: map<MsgId, Status>,
    now: int,
    lastSweep: int,
    scheduledAt: map<MsgId, int>,
    attempts: map<MsgId, seq<Attempt>>,
    delivered: set<MsgId>,
    reported: seq<MsgId>)

  function Start(t: int): World {
    World(Queue(map[], []), map[], t, t, map[], map[], {}, [])
  }

  datatype Action =
    | Schedule(m: MsgId, recipient: nat, envelope: Envelope)
    | Sweep
    | Report(m: MsgId, index: nat, acked: bool)
    | Poll(answered: bool)
    | InsertRow(m: MsgId, delivered: bool)
    | Receipt(m: MsgId)
    | Pass

  datatype Event = Event(at: int, action: Action)

  /** Attempt `index` for `m` has been made and has not reported. */
  predicate InFlight(w: World, m: MsgId, index: nat) {
    m in w.attempts && index < |w.attempts[m]| && w.attempts[m][index].outcome.None?
  }

  ghost predicate Timely(tm: Timing, w: World, at: int) {
    && w.now <= at <= w.lastSweep + tm.sweepGap
    && forall m, i: nat :: InFlight(w, m, i) ==> at <= w.attempts[m][i].startedAt + tm.attemptLimit
  }

  ghost predicate Enabled(tm: Timing, w: World, e: Event) {
    && Timely(tm, w, e.at)
    && match e.action
       case Schedule(m, _, _) => m !in w.scheduledAt
       case Report(m, index, _) => InFlight(w, m, index)
       case _ => true
  }

  function MarkRowsFailed(rows: map<MsgId, Status>, ids: seq<MsgId>): map<MsgId, Status> {
    map m | m in rows :: if m in ids then Store.Failed else rows[m]
  }

  function After(w: World, e: Event): World {
    var w := w.(now := e.at);
    match e.action
    case Schedule(m, recipient, envelope) =>
      w.(queue := Scheduled(w.queue, m, recipient, envelope, e.at),
         scheduledAt := w.scheduledAt[m := e.at],
         attempts := w.attempts[m := []])
    case Sweep =>
      var due := DueIds(w.queue, e.at);
      w.(queue := Taken(w.queue, e.at),
         lastSweep := e.at,
         attempts := map m | m in w.attempts ::
           if m in due then w.attempts[m] + [Attempt(e.at, None)] else w.attempts[m])
    case Report(m, index, acked) =>
      if !InFlight(w, m, index) then w
      else
        var ended := w.attempts[m][index].(outcome := Some(Outcome(e.at, acked)));
        w.(queue := if acked then MarkedDelivered(w.queue, m) else MarkedFailed(w.queue, m, e.at),
           attempts := w.attempts[m := w.attempts[m][index := ended]],
           delivered := if acked then w.delivered + {m} else w.delivered)
    case Poll(answered) =>
      w.(queue := Drained(w.queue),
         reported := w.reported + w.queue.failed,
         rows := if answered then MarkRowsFailed(w.rows, w.queue.failed) else w.rows)
    case InsertRow(m, delivered) =>
      if m in w.rows then w else w.(rows := w.rows[m := if delivered then Store.Delivered else Store.Sent])
    case Receipt(m) =>
      if m in w.rows then w.(rows := w.rows[m := Store.Delivered]) else w
    case Pass => w
  }

  ghost predicate ValidRun(tm: Timing, w: World, events: seq<Event>)
    decreases events
  {
    events != [] ==> Enabled(tm, w, events[0]) && ValidRun(tm, After(w, events[0]), events[1..])
  }

  function Final(w: World, events: seq<Event>): World
    decreases events
  {
    if events == [] then w else Final(After(w, events[0]), events[1..])
  }

  // ---------- The invariant, job by job ----------

  /** What the tables and the history say about one message id. */
  datatype Job = Job(pending: Option<(nat, int)>, delivered: bool, failed: nat, reported: nat, attempts: seq<Attempt>)

  function JobOf(w: World, m: MsgId): Job {
    Job(if m in w.queue.entries then Some((w.queue.entries[m].attempts, w.queue.entries[m].nextAttemptAt)) else None,
        m in w.delivered,
        multiset(w.queue.failed)[m],
        multiset(w.reported)[m],
        if m in w.attempts then w.attempts[m] else [])
  }

  /** Pending, delivered, failed and not yet polled, reported: how many of these hold, with multiplicity. */
  function Fates(j: Job): nat {
    (if j.pending.Some? then 1 else 0) + (if j.delivered then 1 else 0) + j.failed + j.reported
  }

  function TotalBackoff(failures: nat): nat
    requires failures < MAX_RETRY_ATTEMPTS
  {
    if failures == 0 then 0 else TotalBackoff(failures - 1) + Backoff(failures)
  }

  predicate Refused(a: Attempt) {
    a.outcome.Some? && !a.outcome.value.acked
  }

  /** The attempt before `i` was refused, and attempt `i` kept its distance. */
  predicate RetriesAfter(attempts: seq<Attempt>, i: nat)
    requires 1 <= i < |attempts| <= MAX_RETRY_ATTEMPTS
  {
    && Refused(attempts[i - 1])
    && attempts[i - 1].outcome.value.at + Backoff(i) <= attempts[i].startedAt
  }

  predicate Orderly(attempts: seq<Attempt>) {
    && |attempts| <= MAX_RETRY_ATTEMPTS
    && (forall i :: 0 <= i < |attempts| && attempts[i].outcome.Some? ==>
          attempts[i].startedAt <= attempts[i].outcome.value.at)
    && forall i :: 1 <= i < |attempts| ==> RetriesAfter(attempts, i)
  }

  /** When the attempt that follows `failures` failures of a job scheduled at `t` can start at the latest. */
  function LatestDue(tm: Timing, t: int, failures: nat): int
    requires failures < MAX_RETRY_ATTEMPTS
  {
    t + failures * (tm.sweepGap + tm.attemptLimit) + TotalBackoff(failures)
  }

  predicate PendingOk(tm: Timing, t: int, now: int, lastSweep: int, failures: nat, next: int, attempts: seq<Attempt>) {
    && failures < MAX_RETRY_ATTEMPTS
    && |attempts| <= failures + 1
    && if |attempts| == failures then
         && lastSweep <= next <= LatestDue(tm, t, failures)
         && (failures > 0 ==>
               && Refused(attempts[failures - 1])
               && next == attempts[failures - 1].outcome.value.at + Backoff(failures))
       else
         && |attempts| == failures + 1
         && attempts[failures].outcome.None?
         && attempts[failures].startedAt <= now
         && attempts[failures].startedAt <= LatestDue(tm, t, failures) + tm.sweepGap
         && next == attempts[failures].startedAt + IN_FLIGHT_GRACE
  }

  predicate Acked(a: Attempt) {
    a.outcome.Some? && a.outcome.value.acked
  }

  predicate JobOk(tm: Timing, t: int, now: int, lastSweep: int, j: Job) {
    && Fates(j) == 1
    && Orderly(j.attempts)
    && (j.pending.Some? ==> PendingOk(tm, t, now, lastSweep, j.pending.value.0, j.pending.value.1, j.attempts))
    && (j.delivered ==> j.attempts != [] && Acked(j.attempts[|j.attempts| - 1]))
    && (j.failed + j.reported > 0 ==> |j.attempts| == MAX_RETRY_ATTEMPTS && Refused(j.attempts[MAX_RETRY_ATTEMPTS - 1]))
  }

  ghost predicate Inv(tm: Timing, w: World) {
    && tm.attemptLimit < IN_FLIGHT_GRACE
    && w.lastSweep <= w.now
    && (forall m {:trigger JobOf(w, m)} :: m !in w.scheduledAt ==> JobOf(w, m) == Job(None, false, 0, 0, []))
    && (forall m {:trigger JobOf(w, m)} :: m in w.scheduledAt ==>
          m in w.attempts && JobOk(tm, w.scheduledAt[m], w.now, w.lastSweep, JobOf(w, m)))
    && (forall m :: m in w.rows && w.rows[m] == Store.Failed ==> m in w.reported)
  }

  // ---------- One job under one event ----------

  function JobSwept(j: Job, at: int): Job {
    if j.pending.Some? && j.pending.value.1 <= at
    then j.(pending := Some((j.pending.value.0, at + IN_FLIGHT_GRACE)), attempts := j.attempts + [Attempt(at, None)])
    else j
  }

  lemma SweptJobOk(tm: Timing, t: int, now: int, lastSweep: int, j: Job, at: int)
    requires tm.attemptLimit < IN_FLIGHT_GRACE
    requires JobOk(tm, t, now, lastSweep, j)
    requires lastSweep <= now <= at <= lastSweep + tm.sweepGap
    requires forall i :: 0 <= i < |j.attempts| && j.attempts[i].outcome.None? ==>
               at <= j.attempts[i].startedAt + tm.attemptLimit
    ensures JobOk(tm, t, at, at, JobSwept(j, at))
  {
    var j' := JobSwept(j, at);
    if j'.attempts != j.attempts {
      var failures := j.pending.value.0;
      assert |j.attempts| == failures;
      forall i | 1 <= i < |j'.attempts| ensures RetriesAfter(j'.attempts, i) {
        assert i < |j.attempts| ==> RetriesAfter(j.attempts, i);
      }
    }
  }

  function JobReported(j: Job, acked: bool, at: int): Job
    requires j.attempts != [] && j.pending.Some?
  {
    var last := |j.attempts| - 1;
    var failures := j.pending.value.0 + 1;
    var j := j.(attempts := j.attempts[last := j.attempts[last].(outcome := Some(Outcome(at, acked)))]);
    if acked then j.(pending := None, delivered := true)
    else if failures >= MAX_RETRY_ATTEMPTS then j.(pending := None, failed := j.failed + 1)
    else j.(pending := Some((failures, at + Backoff(failures))))
  }

  /** Only the last attempt can be in flight, and then the job is pending. */
  lemma OnlyLastInFlight(tm: Timing, t: int, now: int, lastSweep: int, j: Job, index: nat)
    requires JobOk(tm, t, now, lastSweep, j)
    requires index < |j.attempts| && j.attempts[index].outcome.None?
    ensures index == |j.attempts| - 1 && j.pending.Some? && j.pending.value.0 == index
  {
    forall i | 0 <= i < |j.attempts| - 1 ensures j.attempts[i].outcome.Some? {
      assert RetriesAfter(j.attempts, i + 1);
    }
  }

  lemma ReportedJobOk(tm: Timing, t: int, now: int, lastSweep: int, j: Job, acked: bool, at: int)
    requires JobOk(tm, t, now, lastSweep, j) && lastSweep <= now <= at
    requires j.attempts != [] && j.attempts[|j.attempts| - 1].outcome.None? && j.pending.Some?
    requires at <= j.attempts[|j.attempts| - 1].startedAt + tm.attemptLimit
    ensures JobOk(tm, t, at, lastSweep, JobReported(j, acked, at))
  {
    var j' := JobReported(j, acked, at);
    var failures := j.pending.value.0;
    OnlyLastInFlight(tm, t, now, lastSweep, j, |j.attempts| - 1);
    forall i | 1 <= i < |j'.attempts| ensures RetriesAfter(j'.attempts, i) {
      assert RetriesAfter(j.attempts, i);
    }
    if failures + 1 < MAX_RETRY_ATTEMPTS {
      NextDue(tm, t, failures);
    }
  }

  lemma NextDue(tm: Timing, t: int, failures: nat)
    requires failures + 1 < MAX_RETRY_ATTEMPTS
    ensures LatestDue(tm, t, failures + 1)
         == LatestDue(tm, t, failures) + tm.sweepGap + tm.attemptLimit + Backoff(failures + 1)
  {
    var d := tm.sweepGap + tm.attemptLimit;
    assert (failures + 1) * d == failures * d + d;
  }

  lemma SweepOnJob(w: World, m: MsgId, at: int)
    requires m in w.queue.entries ==> m in w.attempts
    ensures JobOf(After(w, Event(at, Sweep)), m) == JobSwept(JobOf(w, m), at)
  {
  }

  lemma ReportOnJob(w: World, m: MsgId, index: nat, acked: bool, at: int)
    requires InFlight(w, m, index) && m in w.queue.entries && m !in w.queue.failed && index == |w.attempts[m]| - 1
    ensures JobOf(After(w, Event(at, Report(m, index, acked))), m) == JobReported(JobOf(w, m), acked, at)
  {
  }

  /** A report about one message leaves the rows of every other alone. */
  lemma ReportOnOtherRow(q: Queue<Envelope>, m: MsgId, acked: bool, at: int, k: MsgId)
    requires k != m
    ensures var q' := if acked then MarkedDelivered(q, m) else MarkedFailed(q, m, at);
      && (k in q'.entries <==> k in q.entries)
      && (k in q.entries ==> q'.entries[k] == q.entries[k])
      && multiset(q'.failed)[k] == multiset(q.failed)[k]
  {
  }

  lemma ReportOnOtherJob(w: World, m: MsgId, index: nat, acked: bool, at: int, k: MsgId)
    requires k != m
    ensures JobOf(After(w, Event(at, Report(m, index, acked))), k) == JobOf(w, k)
  {
    hide MarkedDelivered, MarkedFailed;
    ReportOnOtherRow(w.queue, m, acked, at, k);
  }

  lemma PollOnJob(w: World, m: MsgId, at: int, answered: bool)
    ensures var j := JobOf(w, m);
            JobOf(After(w, Event(at, Poll(answered))), m) == j.(failed := 0, reported := j.reported + j.failed)
  {
  }

  /** Time alone changes no job. */
  lemma JobOkLater(tm: Timing, t: int, now: int, later: int, lastSweep: int, j: Job)
    requires JobOk(tm, t, now, lastSweep, j) && now <= later
    ensures JobOk(tm, t, later, lastSweep, j)
  {
  }

  lemma SweepKeepsInv(tm: Timing, w: World, at: int)
    requires Inv(tm, w) && Enabled(tm, w, Event(at, Sweep))
    ensures Inv(tm, After(w, Event(at, Sweep)))
  {
    var w' := After(w, Event(at, Sweep));
    forall k ensures JobOf(w', k) == JobSwept(JobOf(w, k), at) {
      assert JobOf(w, k).pending.Some? ==> k in w.scheduledAt;
      SweepOnJob(w, k, at);
    }
    forall k | k in w.scheduledAt ensures JobOk(tm, w.scheduledAt[k], at, at, JobOf(w', k)) {
      assert JobOk(tm, w.scheduledAt[k], w.now, w.lastSweep, JobOf(w, k));
      assert forall i: nat :: i < |w.attempts[k]| && w.attempts[k][i].outcome.None? ==> InFlight(w, k, i);
      SweptJobOk(tm, w.scheduledAt[k], w.now, w.lastSweep, JobOf(w, k), at);
    }
  }

  lemma ReportKeepsInv(tm: Timing, w: World, m: MsgId, index: nat, acked: bool, at: int)
    requires Inv(tm, w) && Enabled(tm, w, Event(at, Report(m, index, acked)))
    ensures Inv(tm, After(w, Event(at, Report(m, index, acked))))
  {
    hide JobOf, JobOk, MarkedDelivered, MarkedFailed;
    var w' := After(w, Event(at, Report(m, index, acked)));
    ReportedOnce(tm, w, m, index, acked, at);
    forall k ensures k != m ==> JobOf(w', k) == JobOf(w, k) {
      if k != m {
        ReportOnOtherJob(w, m, index, acked, at, k);
      }
    }
    forall k | k in w.scheduledAt ensures JobOk(tm, w.scheduledAt[k], at, w.lastSweep, JobOf(w', k)) {
      if k != m {
        JobOkLater(tm, w.scheduledAt[k], w.now, at, w.lastSweep, JobOf(w, k));
      }
    }
  }

  lemma ReportedOnce(tm: Timing, w: World, m: MsgId, index: nat, acked: bool, at: int)
    requires Inv(tm, w) && Enabled(tm, w, Event(at, Report(m, index, acked)))
    ensures m in w.scheduledAt
    ensures JobOk(tm, w.scheduledAt[m], at, w.lastSweep, JobOf(After(w, Event(at, Report(m, index, acked))), m))
  {
    hide MarkedDelivered, MarkedFailed, After;
    var j := JobOf(w, m);
    assert j.attempts != [];
    OnlyLastInFlight(tm, w.scheduledAt[m], w.now, w.lastSweep, j, index);
    ReportedJobOk(tm, w.scheduledAt[m], w.now, w.lastSweep, j, acked, at);
    ReportOnJob(w, m, index, acked, at);
  }

  lemma PollKeepsInv(tm: Timing, w: World, answered: bool, at: int)
    requires Inv(tm, w) && Enabled(tm, w, Event(at, Poll(answered)))
    ensures Inv(tm, After(w, Event(at, Poll(answered))))
  {
    var w' := After(w, Event(at, Poll(answered)));
    forall k ensures JobOf(w', k) == JobOf(w, k).(failed := 0, reported := JobOf(w, k).reported + JobOf(w, k).failed) {
      PollOnJob(w, k, at, answered);
    }
    forall k | k in w.scheduledAt ensures JobOk(tm, w.scheduledAt[k], at, w.lastSweep, JobOf(w', k)) {
      assert JobOk(tm, w.scheduledAt[k], w.now, w.lastSweep, JobOf(w, k));
    }
  }

  lemma ScheduleKeepsInv(tm: Timing, w: World, m: MsgId, recipient: nat, envelope: Envelope, at: int)
    requires Inv(tm, w) && Enabled(tm, w, Event(at, Schedule(m, recipient, envelope)))
    ensures Inv(tm, After(w, Event(at, Schedule(m, recipient, envelope))))
  {
    var w' := After(w, Event(at, Schedule(m, recipient, envelope)));
    assert JobOf(w, m) == Job(None, false, 0, 0, []);
    forall k ensures JobOf(w', k) == if k == m then Job(Some((0, at)), false, 0, 0, []) else JobOf(w, k) {
      assert k != m ==> JobOf(w', k) == JobOf(w, k);
    }
    forall k | k in w'.scheduledAt ensures JobOk(tm, w'.scheduledAt[k], at, w.lastSweep, JobOf(w', k)) {
      if k != m {
        assert JobOk(tm, w.scheduledAt[k], w.now, w.lastSweep, JobOf(w, k));
      }
    }
  }

  /** The device's own row updates, and the passing of time, leave the jobs alone. */
  lemma DeviceStepOnJob(w: World, e: Event, m: MsgId)
    requires e.action.InsertRow? || e.action.Receipt? || e.action.Pass?
    ensures JobOf(After(w, e), m) == JobOf(w, m)
  {
  }

  lemma DeviceStepKeepsInv(tm: Timing, w: World, e: Event)
    requires Inv(tm, w) && Enabled(tm, w, e)
    requires e.action.InsertRow? || e.action.Receipt? || e.action.Pass?
    ensures Inv(tm, After(w, e))
  {
    hide JobOf, JobOk, Scheduled, Taken, DueIds, MarkedDelivered, MarkedFailed, Drained, MarkRowsFailed;
    var w' := After(w, e);
    assert w'.scheduledAt == w.scheduledAt && w'.attempts == w.attempts && w'.reported == w.reported;
    forall k ensures JobOf(w', k) == JobOf(w, k) {
      DeviceStepOnJob(w, e, k);
    }
    forall k | k in w.scheduledAt ensures JobOk(tm, w.scheduledAt[k], e.at, w.lastSweep, JobOf(w', k)) {
      JobOkLater(tm, w.scheduledAt[k], w.now, e.at, w.lastSweep, JobOf(w, k));
    }
  }

  /** Every event keeps the invariant. */
  lemma StepKeepsInv(tm: Timing, w: World, e: Event)
    requires Inv(tm, w) && Enabled(tm, w, e)
    ensures Inv(tm, After(w, e))
  {
    match e.action
    case Schedule(m, recipient, envelope) => ScheduleKeepsInv(tm, w, m, recipient, envelope, e.at);
    case Sweep => SweepKeepsInv(tm, w, e.at);
    case Report(m, index, acked) => ReportKeepsInv(tm, w, m, index, acked, e.at);
    case Poll(answered) => PollKeepsInv(tm, w, answered, e.at);
    case _ => DeviceStepKeepsInv(tm, w, e);
  }

  /** After an event no deadline is overdue. */
  lemma StaysTimely(tm: Timing, w: World, e: Event)
    requires Enabled(tm, w, e)
    ensures Timely(tm, After(w, e), e.at)
  {
    var w' := After(w, e);
    forall m, i: nat | InFlight(w', m, i)
      ensures e.at <= w'.attempts[m][i].startedAt + tm.attemptLimit
    {
      assert InFlight(w, m, i) || w'.attempts[m][i].startedAt == e.at;
    }
  }

  lemma {:induction false} RunKeepsInv(tm: Timing, w: World, events: seq<Event>)
    requires Inv(tm, w) && Timely(tm, w, w.now) && ValidRun(tm, w, events)
    ensures Inv(tm, Final(w, events)) && Timely(tm, Final(w, events), Final(w, events).now)
    decreases events
  {
    if events != [] {
      StepKeepsInv(tm, w, events[0]);
      StaysTimely(tm, w, events[0]);
      RunKeepsInv(tm, After(w, events[0]), events[1..]);
    }
  }

  // ---------- Main results, over every run ----------

  /** `w` is reached by a run that keeps the timing assumptions. */
  ghost predicate Reachable(tm: Timing, w: World) {
    && tm.attemptLimit < 12000
    && exists t, events :: ValidRun(tm, Start(t), events) && w == Final(Start(t), events)
  }

  lemma ReachableInv(tm: Timing, w: World)
    requires Reachable(tm, w)
    ensures Inv(tm, w) && Timely(tm, w, w.now)
  {
    var t, events :| ValidRun(tm, Start(t), events) && w == Final(Start(t), events);
    RunKeepsInv(tm, Start(t), events);
  }

  /** A job is over, one way or the other, within the bound. */
  lemma RetryCompletesInBoundedTime(tm: Timing, w: World, m: MsgId)
    requires Reachable(tm, w) && m in w.scheduledAt
    ensures w.now > w.scheduledAt[m] + 3 * tm.sweepGap + 3 * tm.attemptLimit + 20000 ==>
      m !in w.queue.entries && (m in w.delivered || m in w.queue.failed || m in w.reported)
  {
    ReachableInv(tm, w);
    var j, t := JobOf(w, m), w.scheduledAt[m];
    assert JobOk(tm, t, w.now, w.lastSweep, j);
    if j.pending.Some? {
      var failures := j.pending.value.0;
      assert |j.attempts| == failures + 1 ==> InFlight(w, m, failures);
      assert TotalBackoff(1) == 5000 && TotalBackoff(2) == 20000;
      assert LatestDue(tm, t, failures) <= t + 2 * tm.sweepGap + 2 * tm.attemptLimit + 20000;
    }
  }

  /** No two attempts for one message overlap; at most three are made; each retry waits out its backoff. */
  lemma AttemptsAreExclusiveAndSpaced(tm: Timing, w: World, m: MsgId, i: nat, j: nat)
    requires Reachable(tm, w) && m in w.attempts
    ensures |w.attempts[m]| <= MAX_RETRY_ATTEMPTS
    ensures InFlight(w, m, i) && InFlight(w, m, j) ==> i == j
    ensures i + 1 == j < |w.attempts[m]| ==>
      && Refused(w.attempts[m][i])
      && w.attempts[m][i].startedAt <= w.attempts[m][i].outcome.value.at
      && w.attempts[m][i].outcome.value.at + Backoff(j) <= w.attempts[m][j].startedAt
  {
    ReachableInv(tm, w);
    var job := JobOf(w, m);
    assert m in w.scheduledAt ==> JobOk(tm, w.scheduledAt[m], w.now, w.lastSweep, job);
    if m in w.scheduledAt {
      if InFlight(w, m, i) {
        OnlyLastInFlight(tm, w.scheduledAt[m], w.now, w.lastSweep, job, i);
      }
      if InFlight(w, m, j) {
        OnlyLastInFlight(tm, w.scheduledAt[m], w.now, w.lastSweep, job, j);
      }
      assert i + 1 == j < |job.attempts| ==> RetriesAfter(job.attempts, j);
    }
  }

  /** Three attempts were made for `m`, and all were refused. */
  predicate ThreeRefusals(w: World, m: MsgId) {
    && m in w.attempts && |w.attempts[m]| == MAX_RETRY_ATTEMPTS
    && forall i :: 0 <= i < MAX_RETRY_ATTEMPTS ==> Refused(w.attempts[m][i])
  }

  /**
   A scheduled message has exactly one fate, reported at most once. It is delivered exactly when some
   attempt was acked, and failed exactly when three attempts were made and all were refused.
   */
  lemma ExactlyOneFate(tm: Timing, w: World, m: MsgId)
    requires Reachable(tm, w) && m in w.scheduledAt
    ensures Fates(JobOf(w, m)) == 1 && m in w.attempts
    ensures m in w.delivered <==> exists i :: 0 <= i < |w.attempts[m]| && Acked(w.attempts[m][i])
    ensures m in w.queue.failed || m in w.reported
       <==> ThreeRefusals(w, m)
  {
    ReachableInv(tm, w);
    var j := JobOf(w, m);
    assert JobOk(tm, w.scheduledAt[m], w.now, w.lastSweep, j);
    forall i | 0 <= i < |j.attempts| - 1 ensures Refused(j.attempts[i]) {
      assert RetriesAfter(j.attempts, i + 1);
    }
  }

  /**
   The device shows a message as failed only if it handed that message to its node and all three of the
   node's attempts ended without an acknowledgement; no attempt is left that could still succeed.
   */
  lemma FailedIsTruthful(tm: Timing, w: World, m: MsgId)
    requires Reachable(tm, w) && m in w.rows && w.rows[m] == Store.Failed
    ensures m in w.scheduledAt && m in w.attempts && |w.attempts[m]| == MAX_RETRY_ATTEMPTS
    ensures forall i :: 0 <= i < MAX_RETRY_ATTEMPTS ==> Refused(w.attempts[m][i])
    ensures m !in w.queue.entries && m !in w.delivered
  {
    ReachableInv(tm, w);
    assert JobOf(w, m).reported > 0;
    ExactlyOneFate(tm, w, m);
  }

  // ---------- When a row is shown as failed ----------

  predicate ShowsFailed(w: World, m: MsgId) {
    m in w.rows && w.rows[m] == Store.Failed
  }

  /** The event is a poll whose answer arrives and lists `m`, and the row for `m` is already there. */
  predicate Marks(w: World, e: Event, m: MsgId) {
    e.action == Poll(true) && m in w.queue.failed && m in w.rows
  }

  ghost predicate NoReceiptFrom(events: seq<Event>, i: nat, m: MsgId) {
    forall j :: i <= j < |events| ==> events[j].action != Receipt(m)
  }

  ghost predicate MarkedAt(w: World, events: seq<Event>, i: nat, m: MsgId) {
    i < |events| && Marks(Final(w, events[..i]), events[i], m) && NoReceiptFrom(events, i + 1, m)
  }

  lemma {:induction false} FinalSnoc(w: World, events: seq<Event>, e: Event)
    ensures Final(w, events + [e]) == After(Final(w, events), e)
    decreases events
  {
    if events == [] {
      assert [e][1..] == [];
      assert Final(w, [e]) == Final(After(w, e), []);
      assert events + [e] == [e];
    } else {
      assert (events + [e])[1..] == events[1..] + [e];
      FinalSnoc(After(w, events[0]), events[1..], e);
    }
  }

  lemma FailedAfter(w: World, e: Event, m: MsgId)
    ensures ShowsFailed(After(w, e), m) <==> Marks(w, e, m) || (ShowsFailed(w, m) && e.action != Receipt(m))
  {
  }

  lemma MarkedAtSnoc(w: World, events: seq<Event>, e: Event, m: MsgId)
    ensures (exists i: nat :: MarkedAt(w, events + [e], i, m))
       <==> Marks(Final(w, events), e, m) || (e.action != Receipt(m) && exists i: nat :: MarkedAt(w, events, i, m))
  {
    var all := events + [e];
    assert all[..|events|] == events && all[|events|] == e;
    forall i | 0 <= i < |events|
      ensures MarkedAt(w, all, i, m) <==> e.action != Receipt(m) && MarkedAt(w, events, i, m)
    {
      assert all[..i] == events[..i] && all[i] == events[i];
      assert NoReceiptFrom(all, i + 1, m) <==> NoReceiptFrom(events, i + 1, m) && e.action != Receipt(m) by {
        assert all[|events|] == e;
        assert forall j :: 0 <= j < |events| ==> all[j] == events[j];
      }
    }
    assert MarkedAt(w, all, |events|, m) <==> Marks(Final(w, events), e, m);
    assert forall i: nat :: MarkedAt(w, all, i, m) ==> i <= |events|;
  }

  lemma {:induction false} FailedMeansMarked(t: int, events: seq<Event>, m: MsgId)
    ensures ShowsFailed(Final(Start(t), events), m) <==> exists i: nat :: MarkedAt(Start(t), events, i, m)
    decreases |events|
  {
    if events != [] {
      var init, e := events[..|events| - 1], events[|events| - 1];
      assert events == init + [e];
      FailedMeansMarked(t, init, m);
      FinalSnoc(Start(t), init, e);
      FailedAfter(Final(Start(t), init), e, m);
      MarkedAtSnoc(Start(t), init, e, m);
    }
  }

  lemma {:induction false} PrefixIsValid(tm: Timing, w: World, events: seq<Event>, i: nat)
    requires ValidRun(tm, w, events) && i <= |events|
    ensures ValidRun(tm, w, events[..i])
    decreases events
  {
    if i > 0 {
      assert events[..i][0] == events[0] && events[..i][1..] == events[1..][..i - 1];
      PrefixIsValid(tm, After(w, events[0]), events[1..], i - 1);
    }
  }

  /** The failed list holds exactly the messages refused three times and not reported yet. */
  lemma OnFailedList(tm: Timing, w: World, m: MsgId)
    requires Reachable(tm, w)
    ensures m in w.queue.failed <==> ThreeRefusals(w, m) && m !in w.reported
  {
    ReachableInv(tm, w);
    var j := JobOf(w, m);
    if m in w.scheduledAt {
      ExactlyOneFate(tm, w, m);
    } else {
      assert j == Job(None, false, 0, 0, []);
    }
    assert m in w.queue.failed <==> j.failed > 0;
    assert m in w.reported <==> j.reported > 0;
  }

  /**
   A row is shown as failed exactly when, at some moment of the run, the message had been refused three
   times and not been reported, its row was there, a poll came whose answer arrived, and no receipt for the
   message came after that.
   */
  lemma FailedExactlyWhen(tm: Timing, t: int, events: seq<Event>, m: MsgId)
    requires tm.attemptLimit < 12000 && ValidRun(tm, Start(t), events)
    ensures ShowsFailed(Final(Start(t), events), m) <==>
      exists i: nat :: i < |events| && events[i].action == Poll(true) && NoReceiptFrom(events, i + 1, m)
        && var w := Final(Start(t), events[..i]); ThreeRefusals(w, m) && m !in w.reported && m in w.rows
  {
    FailedMeansMarked(t, events, m);
    forall i | 0 <= i < |events|
      ensures var w := Final(Start(t), events[..i]); m in w.queue.failed <==> ThreeRefusals(w, m) && m !in w.reported
    {
      PrefixIsValid(tm, Start(t), events, i);
      OnFailedList(tm, Final(Start(t), events[..i]), m);
    }
    hide Final, ThreeRefusals, NoReceiptFrom;
    assert forall i: nat :: MarkedAt(Start(t), events, i, m) <==>
      i < |events| && events[i].action == Poll(true) && NoReceiptFrom(events, i + 1, m)
      && var w := Final(Start(t), events[..i]); ThreeRefusals(w, m) && m !in w.reported && m in w.rows;
  }

  // ---------- Three refusals and a poll are not enough ----------

  /** Refused three times and reported, but still shown as sent. */
  predicate Lost(w: World, m: MsgId) {
    ThreeRefusals(w, m) && m in w.reported && m in w.rows && w.rows[m] == Store.Sent
  }

  ghost predicate CanLose(tm: Timing, w: World, m: MsgId) {
    exists events :: ValidRun(tm, w, events) && Lost(Final(w, events), m)
  }

  lemma StepBefore(tm: Timing, w: World, e: Event, m: MsgId)
    requires Enabled(tm, w, e) && CanLose(tm, After(w, e), m)
    ensures CanLose(tm, w, m)
  {
    hide Enabled, After, Lost;
    var events :| ValidRun(tm, After(w, e), events) && Lost(Final(After(w, e), events), m);
    RunCons(tm, w, e, events);
  }

  /** A world with the one job 7, shown as sent. */
  function OneJob(at: int, queue: Queue<Envelope>, attempts: seq<Attempt>, reported: seq<MsgId>): World {
    World(queue, map[7 := Store.Sent], at, at, map[7 := 0], map[7 := attempts], {}, reported)
  }

  function Waiting(failures: nat, next: int): Queue<Envelope> {
    Queue(map[7 := Entry(1, [], failures, next)], [])
  }

  /** The queue once job 7 has been refused again. */
  function AfterRefusal(failures: nat, at: int): Queue<Envelope> {
    if failures >= 2 then Queue(map[], [7]) else Waiting(failures + 1, at + Backoff(failures + 1))
  }

  /** A sweep at the due time, and a refusal at once. */
  lemma RefusedRound(tm: Timing, last: int, failures: nat, at: int, attempts: seq<Attempt>)
    requires |attempts| == failures <= 2 && last <= at <= last + tm.sweepGap
    requires forall i :: 0 <= i < failures ==> attempts[i].outcome.Some?
    requires var queue := AfterRefusal(failures, at);
      CanLose(tm, OneJob(at, queue, attempts + [Attempt(at, Some(Outcome(at, false)))], []), 7)
    ensures CanLose(tm, OneJob(last, Waiting(failures, at), attempts, []), 7)
  {
    hide CanLose;
    var w := OneJob(last, Waiting(failures, at), attempts, []);
    var e1, e2 := Event(at, Sweep), Event(at, Report(7, failures, false));
    var w1 := OneJob(at, Waiting(failures, at + IN_FLIGHT_GRACE), attempts + [Attempt(at, None)], []);
    assert After(w, e1) == w1 by {
      assert 7 in DueIds(w.queue, at);
      assert After(w, e1).queue.entries == w1.queue.entries;
      assert After(w, e1).attempts == w1.attempts;
    }
    var ended := (attempts + [Attempt(at, None)])[failures := Attempt(at, Some(Outcome(at, false)))];
    assert ended == attempts + [Attempt(at, Some(Outcome(at, false)))];
    var queue := AfterRefusal(failures, at);
    assert MarkedFailed(w1.queue, 7, at) == queue;
    assert w1.attempts[7 := ended] == map[7 := ended];
    assert After(w1, e2) == OneJob(at, queue, ended, []);
    StepBefore(tm, w1, e2, 7);
    StepBefore(tm, w, e1, 7);
  }

  /** A poll whose answer is lost reports the message to nobody. */
  lemma LostAnswer(tm: Timing, at: int, attempts: seq<Attempt>)
    requires |attempts| == 3 && forall i :: 0 <= i < 3 ==> Refused(attempts[i])
    ensures CanLose(tm, OneJob(at, Queue(map[], [7]), attempts, []), 7)
  {
    var w, e := OneJob(at, Queue(map[], [7]), attempts, []), Event(at, Poll(false));
    var w' := After(w, e);
    assert w'.reported == [7];
    assert Lost(w', 7);
    assert ValidRun(tm, w', []) && Final(w', []) == w';
    StepBefore(tm, w, e, 7);
  }

  /**
   The converse of `FailedIsTruthful` does not hold: some run refuses a message three times and reports it,
   and the row is still shown as sent, because the answer to the poll was lost.
   */
  lemma FailureCanGoUnnoticed()
    ensures CanLose(Timing(15000, 0), Start(0), 7)
  {
    hide CanLose;
    var tm := Timing(15000, 0);
    var a0 := Attempt(0, Some(Outcome(0, false)));
    var a1 := Attempt(5000, Some(Outcome(5000, false)));
    var a2 := Attempt(20000, Some(Outcome(20000, false)));
    assert [] + [a0] == [a0] && [a0] + [a1] == [a0, a1] && [a0, a1] + [a2] == [a0, a1, a2];
    LostAnswer(tm, 20000, [a0, a1, a2]);
    RefusedRound(tm, 5000, 2, 20000, [a0, a1]);
    RefusedRound(tm, 0, 1, 5000, [a0]);
    RefusedRound(tm, 0, 0, 0, []);
    var e0, e1 := Event(0, Schedule(7, 1, [])), Event(0, InsertRow(7, false));
    var w0 := After(Start(0), e0);
    assert After(w0, e1) == OneJob(0, Waiting(0, 0), [], []);
    StepBefore(tm, w0, e1, 7);
    StepBefore(tm, Start(0), e0, 7);
  }

  // ---------- The rows of a real database ----------

  /** `rows` is what `db` shows of its outgoing messages. */
  ghost predicate Shows(db: Store.Database, rows: map<MsgId, Status>) {
    && (forall k :: 0 <= k < |db.messages| && db.messages[k].message.direction.Outgoing? ==>
          && db.messages[k].message.msgId in rows
          && db.messages[k].message.status == Some(rows[db.messages[k].message.msgId]))
    && (forall m :: m in rows ==>
          exists k :: 0 <= k < |db.messages| && db.messages[k].message.direction.Outgoing?
                      && db.messages[k].message.msgId == m)
  }

  /** Marking rows in a run is what the device does to its database with the same list. */
  lemma MarkingIsWhatTheDeviceDoes(db: Store.Database, rows: map<MsgId, Status>, ids: seq<MsgId>)
    requires Shows(db, rows)
    ensures Shows(Client.AllFailed(db, ids), MarkRowsFailed(rows, ids))
  {
    Client.AllFailedRows(db, ids);
    var db' := Client.AllFailed(db, ids);
    forall m | m in MarkRowsFailed(rows, ids)
      ensures exists k :: 0 <= k < |db'.messages| && db'.messages[k].message.direction.Outgoing?
                          && db'.messages[k].message.msgId == m
    {
      var k :| 0 <= k < |db.messages| && db.messages[k].message.direction.Outgoing?
               && db.messages[k].message.msgId == m;
      assert db'.messages[k].message.msgId == m;
    }
  }

  /** The grace period is what keeps attempts apart: with a limit as long as the grace they overlap. */
  lemma SlowAttemptsOverlap(envelope: Envelope)
    ensures exists events ::
      && ValidRun(Timing(12000, 12000), Start(0), events)
      && InFlight(Final(Start(0), events), 7, 0) && InFlight(Final(Start(0), events), 7, 1)
  {
    var tm := Timing(IN_FLIGHT_GRACE, IN_FLIGHT_GRACE);
    var e0, e1, e2 := Event(0, Schedule(7, 1, envelope)), Event(0, Sweep), Event(IN_FLIGHT_GRACE, Sweep);
    var w1 := After(Start(0), e0);
    var w2 := After(w1, e1);
    var w3 := After(w2, e2);
    SlowSteps(envelope);
    hide After, Enabled;
    RunCons(tm, w2, e2, []);
    RunCons(tm, w1, e1, [e2] + []);
    RunCons(tm, Start(0), e0, [e1] + ([e2] + []));
    var events := [e0] + ([e1] + ([e2] + []));
    assert Final(Start(0), events) == Final(w3, []) == w3;
  }

  /** A sweep starts an attempt for a due message, and makes it due again when the grace is over. */
  lemma SweepStartsAttempt(w: World, m: MsgId, at: int)
    requires m in w.queue.entries && w.queue.entries[m].nextAttemptAt <= at && m in w.attempts
    ensures var w' := After(w, Event(at, Sweep));
      && m in w'.queue.entries && w'.queue.entries[m].nextAttemptAt == at + IN_FLIGHT_GRACE
      && w'.attempts.Keys == w.attempts.Keys && w'.attempts[m] == w.attempts[m] + [Attempt(at, None)]
      && w'.now == at && w'.lastSweep == at
  {
  }

  /** Scheduled at 0, first tried at 0, and tried again when the grace is over. */
  lemma SlowSteps(envelope: Envelope)
    ensures var tm := Timing(IN_FLIGHT_GRACE, IN_FLIGHT_GRACE);
      var e0, e1, e2 := Event(0, Schedule(7, 1, envelope)), Event(0, Sweep), Event(IN_FLIGHT_GRACE, Sweep);
      var w1 := After(Start(0), e0);
      var w2 := After(w1, e1);
      && Enabled(tm, Start(0), e0) && Enabled(tm, w1, e1) && Enabled(tm, w2, e2)
      && InFlight(After(w2, e2), 7, 0) && InFlight(After(w2, e2), 7, 1)
  {
    var w1 := After(Start(0), Event(0, Schedule(7, 1, envelope)));
    assert w1.attempts == map[7 := []] && w1.now == 0 && w1.lastSweep == 0;
    assert 7 in w1.queue.entries && w1.queue.entries[7].nextAttemptAt == 0;
    hide After, Scheduled, Taken, DueIds;
    SweepStartsAttempt(w1, 7, 0);
    SweepStartsAttempt(After(w1, Event(0, Sweep)), 7, IN_FLIGHT_GRACE);
  }

  lemma RunCons(tm: Timing, w: World, e: Event, events: seq<Event>)
    requires Enabled(tm, w, e) && ValidRun(tm, After(w, e), events)
    ensures ValidRun(tm, w, [e] + events) && Final(w, [e] + events) == Final(After(w, e), events)
  {
    assert ([e] + events)[1..] == events;
  }
}

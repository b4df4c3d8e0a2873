/**
 One turn of the node's sweep loop: prune the limiter, take what is due, and dial each recipient in a task
 of its own, which reports back to the queue when it is done.
 */
module SweepLoop {
  import opened Wrappers
  import opened RetryQueue
  import RetryRun
  import RateLimit

  /** Milliseconds between turns, and the longest a dial may take. */
  const SWEEP_INTERVAL: nat := 2000
  const RETRY_DIAL_TIMEOUT: nat := 10000

  /**
   The due deliveries are the attempts that a run of the queue starts at this moment: one for each due
   message, none for any other. The sweep changes no answer of the limiter.
   */
  method Turn(
      queue: RetryQueue<RetryRun.Envelope>, limiter: RateLimit.RateLimiter, now: nat, ghost w: RetryRun.World)
    returns (due: seq<DueDelivery<RetryRun.Envelope>>)
    requires w.queue == queue.Contents()
    modifies queue, limiter
    ensures queue.Contents() == RetryRun.After(w, RetryRun.Event(now, RetryRun.Sweep)).queue
    ensures ListsDue(w.queue, now, due)
    ensures forall m :: m in w.attempts ==>
      RetryRun.After(w, RetryRun.Event(now, RetryRun.Sweep)).attempts[m]
      == w.attempts[m] + if exists i :: 0 <= i < |due| && due[i].msgId == m then [RetryRun.Attempt(now, None)] else []
    ensures forall id, at: nat :: now <= at ==>
      RateLimit.AllowStep(limiter.lim, limiter.windows, id, at).1
      == RateLimit.AllowStep(limiter.lim, old(limiter.windows), id, at).1
  {
    limiter.PruneExpired(now);
    due := queue.TakeDue(now);
  }

  /** What a dialling task does when its attempt has ended, as an event of the run. */
  method ReportBack(
      queue: RetryQueue<RetryRun.Envelope>, m: MsgId, acked: bool, now: nat, ghost w: RetryRun.World, ghost index: nat)
    requires w.queue == queue.Contents() && RetryRun.InFlight(w, m, index)
    modifies queue
    ensures queue.Contents() == RetryRun.After(w, RetryRun.Event(now, RetryRun.Report(m, index, acked))).queue
  {
    if acked {
      queue.MarkDelivered(m);
    } else {
      queue.MarkFailed(m, now);
    }
  }

  /** With the node's own constants a retried message has met its fate 56 seconds after it was scheduled. */
  lemma RetriesEndWithinAMinute(w: RetryRun.World, m: MsgId)
    requires RetryRun.Reachable(RetryRun.Timing(SWEEP_INTERVAL, RETRY_DIAL_TIMEOUT), w) && m in w.scheduledAt
    ensures w.now > w.scheduledAt[m] + 56000 ==>
      m !in w.queue.entries && (m in w.delivered || m in w.queue.failed || m in w.reported)
  {
    RetryRun.RetryCompletesInBoundedTime(RetryRun.Timing(SWEEP_INTERVAL, RETRY_DIAL_TIMEOUT), w, m);
  }
}

/**
 Runs of a whole node: requests from anybody, sweeps, and reports of finished dials, in any order. The
 results say what the owner is told, in terms of what has happened to the node before.
 */
module NodeRun {
  import opened Wrappers
  import opened Crypto
  import opened Mailbox
  import opened NodeHandler
  import RetryQueue

  datatype Event<B> =
    | Asked(request: Request<B>, at: int)
    | Swept(at: int)
    | Reported(m: MsgId, acked: bool, at: int)

  function After<B>(node: Node<B>, e: Event<B>): Node<B> {
    match e
    case Asked(request, at) => Handled(node, request, at).0
    case Swept(at) => node.(queue := RetryQueue.Taken(node.queue, at))
    case Reported(m, acked, at) =>
      node.(queue := if acked then RetryQueue.MarkedDelivered(node.queue, m)
                     else RetryQueue.MarkedFailed(node.queue, m, at))
  }

  /** The node after the events; `Run(node, events[..i])` is how event `i` finds it. */
  function Run<B>(node: Node<B>, events: seq<Event<B>>): Node<B> {
    if events == [] then node else After(Run(node, events[..|events| - 1]), events[|events| - 1])
  }

  function Answer<B>(node: Node<B>, events: seq<Event<B>>, i: nat): Response<B>
    requires i < |events| && events[i].Asked?
  {
    Handled(Run(node, events[..i]), events[i].request, events[i].at).1
  }

  lemma {:induction false} KeyStays<B>(node: Node<B>, events: seq<Event<B>>)
    ensures Run(node, events).key == node.key
  {
    if events != [] {
      KeyStays(node, events[..|events| - 1]);
    }
  }

  // ---------- Fetching ----------

  /** Event `j` is a write that the node accepts. */
  predicate Accepts<B>(node: Node<B>, events: seq<Event<B>>, j: nat) {
    && j < |events| && events[j].Asked? && events[j].request.Write?
    && Sha256(events[j].request.auth) in Run(node, events[..j]).mailbox.slots
  }

  /** The data of the accepted writes, in order. */
  function Deposits<B>(node: Node<B>, events: seq<Event<B>>): seq<B> {
    if events == [] then []
    else
      Deposits(node, events[..|events| - 1])
      + if Accepts(node, events, |events| - 1) then [events[|events| - 1].request.blob] else []
  }

  /** Event `j` is an acknowledgement by the owner that names blob number `k`, counted from zero, which exists. */
  predicate Acks<B>(node: Node<B>, events: seq<Event<B>>, j: nat, k: nat) {
    && j < |events| && events[j].Asked? && events[j].request.Ack? && events[j].request.key == node.key
    && k + 1 in events[j].request.ids
    && k < |node.mailbox.blobs| + |Deposits(node, events[..j])|
  }

  ghost predicate WasAcked<B>(node: Node<B>, events: seq<Event<B>>, k: nat) {
    exists j: nat :: Acks(node, events, j, k)
  }

  /**
   `blobs` is what the mailbox should hold after the events: the blobs there were at first, then the accepted
   writes in order, numbered from one, each marked delivered if it was at first or the owner has acked it.
   */
  ghost predicate IsInbox<B(!new)>(node: Node<B>, events: seq<Event<B>>, blobs: seq<Blob<B>>) {
    var before, deposits := node.mailbox.blobs, Deposits(node, events);
    && |blobs| == |before| + |deposits|
    && forall k :: 0 <= k < |blobs| ==>
        && blobs[k].id == k + 1
        && blobs[k].data == (if k < |before| then before[k].data else deposits[k - |before|])
        && (blobs[k].delivered <==> (k < |before| && before[k].delivered) || WasAcked(node, events, k))
  }

  lemma WasAckedSnoc<B>(node: Node<B>, events: seq<Event<B>>, e: Event<B>, k: nat)
    ensures WasAcked(node, events + [e], k) <==> WasAcked(node, events, k) || Acks(node, events + [e], |events|, k)
  {
    var all := events + [e];
    forall j: nat | j < |events| ensures Acks(node, all, j, k) <==> Acks(node, events, j, k) {
      assert all[j] == events[j] && all[..j] == events[..j];
    }
  }

  /** Whether a blob that does not exist yet has been acked makes no difference. */
  lemma NotAckedYet<B>(node: Node<B>, events: seq<Event<B>>, k: nat)
    requires |node.mailbox.blobs| + |Deposits(node, events)| <= k
    ensures !WasAcked(node, events, k)
  {
    forall j: nat | j < |events| ensures |Deposits(node, events[..j])| <= |Deposits(node, events)| {
      DepositsGrow(node, events, j);
    }
  }

  lemma {:induction false} DepositsGrow<B>(node: Node<B>, events: seq<Event<B>>, j: nat)
    requires j <= |events|
    ensures |Deposits(node, events[..j])| <= |Deposits(node, events)|
    decreases |events|
  {
    if j < |events| {
      var init := events[..|events| - 1];
      assert events[..j] == init[..j];
      DepositsGrow(node, init, j);
    } else {
      assert events[..j] == events;
    }
  }

  lemma DepositsSnoc<B>(node: Node<B>, events: seq<Event<B>>, e: Event<B>)
    ensures Run(node, events + [e]) == After(Run(node, events), e)
    ensures Deposits(node, events + [e])
         == Deposits(node, events) + if Accepts(node, events + [e], |events|) then [e.request.blob] else []
    ensures Accepts(node, events + [e], |events|)
       <==> e.Asked? && e.request.Write? && Sha256(e.request.auth) in Run(node, events).mailbox.slots
  {
    var all := events + [e];
    assert all[..|all| - 1] == events && all[|events|] == e && all[..|events|] == events;
  }

  lemma InboxSnoc<B(!new)>(node: Node<B>, events: seq<Event<B>>, e: Event<B>)
    requires IsInbox(node, events, Run(node, events).mailbox.blobs)
    requires Run(node, events).mailbox.lastId == |Run(node, events).mailbox.blobs|
    ensures IsInbox(node, events + [e], Run(node, events + [e]).mailbox.blobs)
    ensures Run(node, events + [e]).mailbox.lastId == |Run(node, events + [e]).mailbox.blobs|
  {
    KeyStays(node, events);
    DepositsSnoc(node, events, e);
    var all := events + [e];
    var blobs, blobs' := Run(node, events).mailbox.blobs, Run(node, all).mailbox.blobs;
    assert all[|events|] == e && all[..|events|] == events;
    hide Run, Deposits, WasAcked;
    forall k | 0 <= k < |blobs'|
      ensures blobs'[k].delivered
        <==> (k < |node.mailbox.blobs| && node.mailbox.blobs[k].delivered) || WasAcked(node, all, k)
    {
      WasAckedSnoc(node, events, e, k);
      if |blobs| <= k {
        NotAckedYet(node, events, k);
      }
    }
  }

  lemma {:induction false} InboxIsRight<B(!new)>(node: Node<B>, events: seq<Event<B>>)
    requires Valid(node.mailbox)
    ensures IsInbox(node, events, Run(node, events).mailbox.blobs)
    ensures Run(node, events).mailbox.lastId == |Run(node, events).mailbox.blobs|
    decreases |events|
  {
    if events != [] {
      var init := events[..|events| - 1];
      InboxIsRight(node, init);
      InboxSnoc(node, init, events[|events| - 1]);
      assert init + [events[|events| - 1]] == events;
    }
  }

  /** The owner's fetch is answered with everything, as it should be by then, and nothing else. */
  lemma FetchListsEverything<B(!new)>(node: Node<B>, events: seq<Event<B>>, i: nat)
    requires Valid(node.mailbox) && i < |events| && events[i].Asked? && events[i].request == Fetch(node.key)
    ensures Answer(node, events, i).Blobs? && IsInbox(node, events[..i], Answer(node, events, i).blobs)
  {
    InboxIsRight(node, events[..i]);
    KeyStays(node, events[..i]);
  }

  // ---------- The backup cell ----------

  /** The last backup the owner put, or what was there at first. */
  function LastPut<B>(node: Node<B>, events: seq<Event<B>>): Option<B> {
    if events == [] then node.mailbox.backup
    else
      var e := events[|events| - 1];
      if e.Asked? && e.request.PutBackup? && e.request.key == node.key then Some(e.request.blob)
      else LastPut(node, events[..|events| - 1])
  }

  lemma {:induction false} BackupIsLastPut<B>(node: Node<B>, events: seq<Event<B>>)
    ensures Run(node, events).mailbox.backup == LastPut(node, events)
    decreases |events|
  {
    if events != [] {
      BackupIsLastPut(node, events[..|events| - 1]);
      KeyStays(node, events[..|events| - 1]);
    }
  }

  /** The owner gets back the last backup put, whatever else came in between. */
  lemma BackupComesBack<B>(node: Node<B>, events: seq<Event<B>>, i: nat)
    requires i < |events| && events[i].Asked? && events[i].request == GetBackup(node.key)
    ensures Answer(node, events, i) == Backup(LastPut(node, events[..i]))
  {
    BackupIsLastPut(node, events[..i]);
    KeyStays(node, events[..i]);
  }

  // ---------- Retry jobs ----------

  /** Who the owner last asked `m` to be delivered to, and what. */
  function LastScheduled<B>(node: Node<B>, events: seq<Event<B>>, m: MsgId): Option<(nat, B)> {
    if events == [] then
      if m in node.queue.entries then Some((node.queue.entries[m].recipient, node.queue.entries[m].envelope)) else None
    else
      var e := events[|events| - 1];
      if e.Asked? && e.request.ScheduleRetry? && e.request.key == node.key && e.request.msgId == m
      then Some((e.request.recipient, e.request.envelope))
      else LastScheduled(node, events[..|events| - 1], m)
  }

  /** However often it has failed, a pending job dials the recipient, with the envelope, it was scheduled with. */
  lemma {:induction false} JobsAreAsScheduled<B>(node: Node<B>, events: seq<Event<B>>, m: MsgId)
    requires m in Run(node, events).queue.entries
    ensures var entry := Run(node, events).queue.entries[m];
      LastScheduled(node, events, m) == Some((entry.recipient, entry.envelope))
    decreases |events|
  {
    if events != [] {
      var init := events[..|events| - 1];
      KeyStays(node, init);
      if m in Run(node, init).queue.entries {
        JobsAreAsScheduled(node, init, m);
      }
    }
  }

  /** Event `j` is the failure after which the node gives up on `m`. */
  predicate GivesUp<B>(node: Node<B>, events: seq<Event<B>>, j: nat, m: MsgId) {
    && j < |events| && events[j].Reported? && events[j].m == m && !events[j].acked
    && m in Run(node, events[..j]).queue.entries
    && Run(node, events[..j]).queue.entries[m].attempts == RetryQueue.MAX_RETRY_ATTEMPTS - 1
  }

  predicate IsPoll<B>(node: Node<B>, e: Event<B>) {
    e.Asked? && e.request.PollFailedDeliveries? && e.request.key == node.key
  }

  ghost predicate NoPollFrom<B(!new)>(node: Node<B>, events: seq<Event<B>>, j: nat) {
    forall k :: j <= k < |events| ==> !IsPoll(node, events[k])
  }

  /** The node has given up on `m` and the owner has not polled since. */
  ghost predicate GivenUpSincePoll<B(!new)>(node: Node<B>, events: seq<Event<B>>, m: MsgId) {
    || (m in node.queue.failed && NoPollFrom(node, events, 0))
    || exists j: nat :: GivesUp(node, events, j, m) && NoPollFrom(node, events, j + 1)
  }

  ghost predicate SoundQueue<B>(node: Node<B>) {
    && (forall m :: m in node.queue.entries ==> node.queue.entries[m].attempts < RetryQueue.MAX_RETRY_ATTEMPTS)
    && (forall i, j :: 0 <= i < j < |node.queue.failed| ==> node.queue.failed[i] != node.queue.failed[j])
  }

  lemma GivenUpSnoc<B(!new)>(node: Node<B>, events: seq<Event<B>>, e: Event<B>, m: MsgId)
    ensures GivenUpSincePoll(node, events + [e], m)
       <==> GivesUp(node, events + [e], |events|, m) || (GivenUpSincePoll(node, events, m) && !IsPoll(node, e))
  {
    var all := events + [e];
    assert all[|events|] == e;
    forall j: nat | j <= |events|
      ensures NoPollFrom(node, all, j) <==> NoPollFrom(node, events, j) && !IsPoll(node, e)
    {
      assert forall k :: 0 <= k < |events| ==> all[k] == events[k];
      assert IsPoll(node, all[|events|]) <==> IsPoll(node, e);
    }
    forall j: nat | j < |events| ensures GivesUp(node, all, j, m) <==> GivesUp(node, events, j, m) {
      assert all[j] == events[j] && all[..j] == events[..j];
    }
    assert NoPollFrom(node, all, |events| + 1);
    assert forall j: nat :: GivesUp(node, all, j, m) ==> j <= |events|;
    assert forall j: nat :: GivesUp(node, events, j, m) ==> j < |events|;
  }

  /** A report can only add the message it is about, and only on its third failure. */
  lemma FailedAfterReport<B>(node: Node<B>, n: MsgId, acked: bool, at: int, m: MsgId)
    requires SoundQueue(node)
    ensures var node' := After(node, Reported(n, acked, at));
      && SoundQueue(node')
      && (m in node'.queue.failed
          <==> m in node.queue.failed
               || (n == m && !acked && m in node.queue.entries
                   && node.queue.entries[m].attempts == RetryQueue.MAX_RETRY_ATTEMPTS - 1))
  {
  }

  lemma FailedAfterOther<B>(node: Node<B>, e: Event<B>, m: MsgId)
    requires SoundQueue(node) && !e.Reported?
    ensures SoundQueue(After(node, e))
    ensures m in After(node, e).queue.failed <==> m in node.queue.failed && !IsPoll(node, e)
  {
  }

  lemma FailedSnoc<B(!new)>(node: Node<B>, events: seq<Event<B>>, e: Event<B>, m: MsgId)
    requires SoundQueue(Run(node, events))
    ensures m in Run(node, events + [e]).queue.failed
       <==> GivesUp(node, events + [e], |events|, m) || (m in Run(node, events).queue.failed && !IsPoll(node, e))
    ensures SoundQueue(Run(node, events + [e]))
  {
    KeyStays(node, events);
    DepositsSnoc(node, events, e);
    var all := events + [e];
    assert all[|events|] == e && all[..|events|] == events;
    hide Run, Deposits, After, SoundQueue;
    if e.Reported? {
      FailedAfterReport(Run(node, events), e.m, e.acked, e.at, m);
    } else {
      FailedAfterOther(Run(node, events), e, m);
    }
  }

  lemma {:induction false} FailedListIsRight<B(!new)>(node: Node<B>, events: seq<Event<B>>, m: MsgId)
    requires SoundQueue(node)
    ensures m in Run(node, events).queue.failed <==> GivenUpSincePoll(node, events, m)
    ensures SoundQueue(Run(node, events))
    decreases |events|
  {
    if events != [] {
      var init, e := events[..|events| - 1], events[|events| - 1];
      FailedListIsRight(node, init, m);
      FailedSnoc(node, init, e, m);
      GivenUpSnoc(node, init, e, m);
      assert init + [e] == events;
    } else {
      assert NoPollFrom(node, events, 0);
    }
  }

  /** The owner's poll is answered with exactly the messages given up on since the last poll, each once. */
  lemma PollListsWhatWasGivenUp<B(!new)>(node: Node<B>, events: seq<Event<B>>, i: nat, m: MsgId)
    requires SoundQueue(node)
    requires i < |events| && events[i].Asked? && events[i].request == PollFailedDeliveries(node.key)
    ensures Answer(node, events, i).FailedDeliveries?
    ensures var ids := Answer(node, events, i).ids;
      && (m in ids <==> GivenUpSincePoll(node, events[..i], m))
      && forall j, k :: 0 <= j < k < |ids| ==> ids[j] != ids[k]
  {
    FailedListIsRight(node, events[..i], m);
    KeyStays(node, events[..i]);
  }
}

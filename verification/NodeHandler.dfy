/**
 `pm-node`'s request handler: the owner check, the dispatch to mailbox and retry queue, and the rate
 limiter in front of the two request kinds anyone may send.
 */
module NodeHandler {
  import opened Wrappers
  import opened Crypto
  import opened Mailbox
  import RetryQueue
  import RateLimit

  type MailboxKey = nat
  type MsgId = RetryQueue.MsgId

  datatype Request<B> =
    | RegisterSlot(key: MailboxKey, slotHash: Digest)
    | Write(auth: Secret, blob: B)
    | Fetch(key: MailboxKey)
    | Ack(key: MailboxKey, ids: seq<nat>)
    | PutBackup(key: MailboxKey, blob: B)
    | GetBackup(key: MailboxKey)
    | ScheduleRetry(key: MailboxKey, msgId: MsgId, recipient: nat, envelope: B)
    | PollFailedDeliveries(key: MailboxKey)

  datatype Response<B> =
    | Ok
    | Blobs(blobs: seq<Blob<B>>)
    | Backup(blob: Option<B>)
    | FailedDeliveries(ids: seq<MsgId>)
    | Error(message: string)

  /** One owner's node. */
  datatype Node<B> = Node(key: MailboxKey, mailbox: Mailbox<B>, queue: RetryQueue.Queue<B>)

  const NOT_OWNER := "not the mailbox owner"
  const NO_SLOT := "no matching registered slot for this write"
  const RATE_LIMITED := "rate limit exceeded, try again shortly"

  function Denied<B>(node: Node<B>): (Node<B>, Response<B>) {
    (node, Error(NOT_OWNER))
  }

  function Handled<B>(node: Node<B>, request: Request<B>, now: int): (Node<B>, Response<B>) {
    match request
    case RegisterSlot(k, slotHash) =>
      if k != node.key then Denied(node) else (node.(mailbox := Registered(node.mailbox, slotHash)), Ok)
    case Write(auth, blob) =>
      var (mailbox, id) := Written(node.mailbox, auth, blob);
      (node.(mailbox := mailbox), if id.Some? then Ok else Error(NO_SLOT))
    case Fetch(k) =>
      if k != node.key then Denied(node) else (node, Blobs(node.mailbox.blobs))
    case Ack(k, ids) =>
      if k != node.key then Denied(node) else (node.(mailbox := AckedAll(node.mailbox, ids)), Ok)
    case PutBackup(k, blob) =>
      if k != node.key then Denied(node) else (node.(mailbox := node.mailbox.(backup := Some(blob))), Ok)
    case GetBackup(k) =>
      if k != node.key then Denied(node) else (node, Backup(node.mailbox.backup))
    case ScheduleRetry(k, m, recipient, envelope) =>
      if k != node.key then Denied(node)
      else (node.(queue := RetryQueue.Scheduled(node.queue, m, recipient, envelope, now)), Ok)
    case PollFailedDeliveries(k) =>
      if k != node.key then Denied(node)
      else (node.(queue := RetryQueue.Drained(node.queue)), FailedDeliveries(node.queue.failed))
  }

  class MailboxHandler<B> {
    const store: MailboxStore<B>
    const queue: RetryQueue.RetryQueue<B>
    const key: MailboxKey

    ghost function Contents(): Node<B>
      reads store, queue
    {
      Node(key, store.Contents(), queue.Contents())
    }

    constructor (store: MailboxStore<B>, queue: RetryQueue.RetryQueue<B>, key: MailboxKey)
      ensures this.store == store && this.queue == queue && this.key == key
    {
      this.store, this.queue, this.key := store, queue, key;
    }

    method Handle(request: Request<B>, now: int) returns (response: Response<B>)
      requires Valid(store.Contents())
      modifies store, queue
      ensures Valid(store.Contents())
      ensures (Contents(), response) == Handled(old(Contents()), request, now)
    {
      match request
      case RegisterSlot(k, slotHash) =>
        if k != key { return Error(NOT_OWNER); }
        store.RegisterSlot(slotHash);
        return Ok;
      case Write(auth, blob) =>
        var id := store.Write(auth, blob);
        return if id.Some? then Ok else Error(NO_SLOT);
      case Fetch(k) =>
        if k != key { return Error(NOT_OWNER); }
        var all := store.FetchAll();
        return Blobs(all);
      case Ack(k, ids) =>
        if k != key { return Error(NOT_OWNER); }
        store.Ack(ids);
        return Ok;
      case PutBackup(k, blob) =>
        if k != key { return Error(NOT_OWNER); }
        store.PutBackup(blob);
        return Ok;
      case GetBackup(k) =>
        if k != key { return Error(NOT_OWNER); }
        var blob := store.GetBackup();
        return Backup(blob);
      case ScheduleRetry(k, m, recipient, envelope) =>
        if k != key { return Error(NOT_OWNER); }
        queue.Schedule(m, recipient, envelope, now);
        return Ok;
      case PollFailedDeliveries(k) =>
        if k != key { return Error(NOT_OWNER); }
        var ids := queue.TakeFailed();
        return FailedDeliveries(ids);
    }
  }

  // ---------- Runs of the handler ----------

  datatype Call<B> = Call(request: Request<B>, at: int)

  function Final<B>(node: Node<B>, calls: seq<Call<B>>): Node<B>
    decreases calls
  {
    if calls == [] then node else Final(Handled(node, calls[0].request, calls[0].at).0, calls[1..])
  }

  function Answers<B>(node: Node<B>, calls: seq<Call<B>>): (answers: seq<Response<B>>)
    ensures |answers| == |calls|
    decreases calls
  {
    if calls == [] then []
    else
      var (next, answer) := Handled(node, calls[0].request, calls[0].at);
      [answer] + Answers(next, calls[1..])
  }

  /** A request the node owes nothing to: an owner request with the wrong key, or a write without a slot. */
  predicate Illegitimate<B>(node: Node<B>, request: Request<B>) {
    if request.Write? then Sha256(request.auth) !in node.mailbox.slots else request.key != node.key
  }

  /** Refusals are exactly the illegitimate requests, and leave no trace. */
  lemma RefusedExactlyWhenIllegitimate<B>(node: Node<B>, request: Request<B>, now: int)
    ensures Handled(node, request, now).1.Error? <==> Illegitimate(node, request)
    ensures Illegitimate(node, request) ==>
      Handled(node, request, now) == (node, Error(if request.Write? then NO_SLOT else NOT_OWNER))
    ensures Handled(node, request, now).0.key == node.key
    ensures !Illegitimate(node, request) ==>
      match Handled(node, request, now).1
      case Ok => !request.Fetch? && !request.GetBackup? && !request.PollFailedDeliveries?
      case Blobs(_) => request.Fetch?
      case Backup(_) => request.GetBackup?
      case FailedDeliveries(_) => request.PollFailedDeliveries?
      case Error(_) => false
  {
  }

  /** The calls of a run that were legitimate when they came. */
  function Legitimate<B>(node: Node<B>, calls: seq<Call<B>>): seq<Call<B>>
    decreases calls
  {
    if calls == [] then []
    else (if Illegitimate(node, calls[0].request) then [] else [calls[0]])
         + Legitimate(Handled(node, calls[0].request, calls[0].at).0, calls[1..])
  }

  function WithoutErrors<B>(answers: seq<Response<B>>): seq<Response<B>> {
    if answers == [] then []
    else (if answers[0].Error? then [] else [answers[0]]) + WithoutErrors(answers[1..])
  }

  /** Strangers cannot interfere: striking out every refused call leaves the same state and the same answers. */
  lemma {:induction false} RefusedCallsDoNotInterfere<B>(node: Node<B>, calls: seq<Call<B>>)
    ensures Final(node, Legitimate(node, calls)) == Final(node, calls)
    ensures Answers(node, Legitimate(node, calls)) == WithoutErrors(Answers(node, calls))
    decreases calls
  {
    if calls != [] {
      var next := Handled(node, calls[0].request, calls[0].at).0;
      var kept := Legitimate(next, calls[1..]);
      RefusedExactlyWhenIllegitimate(node, calls[0].request, calls[0].at);
      RefusedCallsDoNotInterfere(next, calls[1..]);
      assert Answers(node, calls)[1..] == Answers(next, calls[1..]);
      if Illegitimate(node, calls[0].request) {
        assert Legitimate(node, calls) == kept;
      } else {
        assert Legitimate(node, calls)[1..] == kept;
      }
    }
  }

  // ---------- Conservation ----------

  /** The data of the accepted writes of a run, in order. */
  function Deposits<B>(node: Node<B>, calls: seq<Call<B>>): seq<B>
    decreases calls
  {
    if calls == [] then []
    else
      (if calls[0].request.Write? && !Illegitimate(node, calls[0].request) then [calls[0].request.blob] else [])
      + Deposits(Handled(node, calls[0].request, calls[0].at).0, calls[1..])
  }

  /** `later` still holds every row of `earlier`, unaltered but for delivered flags being set. */
  ghost predicate Retains<B>(earlier: seq<Blob<B>>, later: seq<Blob<B>>) {
    && |earlier| <= |later|
    && forall i :: 0 <= i < |earlier| ==>
        && later[i].id == earlier[i].id
        && later[i].data == earlier[i].data
        && (earlier[i].delivered ==> later[i].delivered)
  }

  /** The stored blobs are the old ones followed by the accepted writes; ids strictly grow; flags never clear. */
  lemma {:induction false} BlobsAreConserved<B>(node: Node<B>, calls: seq<Call<B>>)
    requires Valid(node.mailbox)
    ensures var before, after, deposits := node.mailbox.blobs, Final(node, calls).mailbox.blobs, Deposits(node, calls);
      && Valid(Final(node, calls).mailbox)
      && Retains(before, after)
      && |after| == |before| + |deposits|
      && forall i :: 0 <= i < |deposits| ==> after[|before| + i].data == deposits[i]
    decreases calls
  {
    if calls != [] {
      var next := Handled(node, calls[0].request, calls[0].at).0;
      assert Retains(node.mailbox.blobs, next.mailbox.blobs);
      BlobsAreConserved(next, calls[1..]);
    }
  }

  function Registrations<B>(node: Node<B>, calls: seq<Call<B>>, slotHash: Digest): nat {
    if calls == [] then 0
    else
      (if calls[0].request == RegisterSlot(node.key, slotHash) then 1 else 0)
      + Registrations(node, calls[1..], slotHash)
  }

  function AcceptedWrites<B>(node: Node<B>, calls: seq<Call<B>>, auth: Secret): nat
    decreases calls
  {
    if calls == [] then 0
    else
      var request := calls[0].request;
      (if request.Write? && request.auth == auth && !Illegitimate(node, request) then 1 else 0)
      + AcceptedWrites(Handled(node, calls[0].request, calls[0].at).0, calls[1..], auth)
  }

  lemma {:induction false} RegistrationsIgnoreState<B>(
      node: Node<B>, next: Node<B>, calls: seq<Call<B>>, slotHash: Digest)
    requires node.key == next.key
    ensures Registrations(node, calls, slotHash) == Registrations(next, calls, slotHash)
  {
    if calls != [] {
      RegistrationsIgnoreState(node, next, calls[1..], slotHash);
    }
  }

  function OpenSlots<B>(node: Node<B>, slotHash: Digest): nat {
    if slotHash in node.mailbox.slots then 1 else 0
  }

  /** No authorisation is accepted more often than the owner registered its hash. */
  lemma {:induction false} WritesNeedRegistrations<B>(node: Node<B>, calls: seq<Call<B>>, auth: Secret)
    ensures AcceptedWrites(node, calls, auth) + OpenSlots(Final(node, calls), Sha256(auth))
         <= Registrations(node, calls, Sha256(auth)) + OpenSlots(node, Sha256(auth))
    decreases calls
  {
    if calls != [] {
      var next := Handled(node, calls[0].request, calls[0].at).0;
      WritesNeedRegistrations(next, calls[1..], auth);
      RegistrationsIgnoreState(node, next, calls[1..], Sha256(auth));
    }
  }

  // ---------- The limiter in front ----------

  const RATE_LIMIT := RateLimit.Limits(60, 60000)

  /** Only these two request kinds are throttled. */
  predicate Throttled<B>(request: Request<B>) {
    request.RegisterSlot? || request.Write?
  }

  /** A node with the limiter that guards it. */
  datatype Server<B> = Server(node: Node<B>, windows: RateLimit.Windows)

  /** What reaches a server: a connection carrying a request, or a tick of the sweep loop. */
  datatype Arrival<B> = Connection(remote: RateLimit.EndpointId, request: Request<B>, at: nat) | Tick(at: nat)

  function Accepted<B>(server: Server<B>, remote: RateLimit.EndpointId, request: Request<B>, now: nat)
    : (Server<B>, Response<B>)
  {
    if Throttled(request) then
      var (windows, ok) := RateLimit.AllowStep(RATE_LIMIT, server.windows, remote, now);
      if !ok then (server.(windows := windows), Error(RATE_LIMITED))
      else
        var (node, response) := Handled(server.node, request, now);
        (Server(node, windows), response)
    else
      var (node, response) := Handled(server.node, request, now);
      (server.(node := node), response)
  }

  function AfterArrival<B>(server: Server<B>, a: Arrival<B>): Server<B> {
    match a
    case Connection(remote, request, at) => Accepted(server, remote, request, at).0
    case Tick(at) => server.(windows := RateLimit.PruneStep(RATE_LIMIT, server.windows, at))
  }

  /**
   The gate turns away registrations and writes only, exactly when the limiter says so, and then the node is
   as it was; every other request passes and is not counted.
   */
  lemma GateAnswers<B>(server: Server<B>, remote: RateLimit.EndpointId, request: Request<B>, now: nat)
    ensures var (server', response) := Accepted(server, remote, request, now);
      var (windows, ok) := RateLimit.AllowStep(RATE_LIMIT, server.windows, remote, now);
      && (response == Error(RATE_LIMITED) <==> (request.RegisterSlot? || request.Write?) && !ok)
      && (response == Error(RATE_LIMITED) ==> server'.node == server.node)
      && (response != Error(RATE_LIMITED) ==> (server'.node, response) == Handled(server.node, request, now))
      && server'.windows == (if request.RegisterSlot? || request.Write? then windows else server.windows)
  {
    HandlerAnswersDiffer(server.node, request, now);
  }

  /** The request of an arrival that gets past the gate, as a call of the handler. */
  function PassedCall<B>(server: Server<B>, a: Arrival<B>): seq<Call<B>> {
    match a
    case Tick(_) => []
    case Connection(remote, request, at) =>
      if Throttled(request) && !RateLimit.AllowStep(RATE_LIMIT, server.windows, remote, at).1 then []
      else [Call(request, at)]
  }

  function PassedCalls<B>(server: Server<B>, arrivals: seq<Arrival<B>>): seq<Call<B>>
    decreases arrivals
  {
    if arrivals == [] then []
    else PassedCall(server, arrivals[0]) + PassedCalls(AfterArrival(server, arrivals[0]), arrivals[1..])
  }

  function FinalServer<B>(server: Server<B>, arrivals: seq<Arrival<B>>): Server<B>
    decreases arrivals
  {
    if arrivals == [] then server else FinalServer(AfterArrival(server, arrivals[0]), arrivals[1..])
  }

  /** The answers given, leaving out those of the gate itself. */
  function HandlerAnswers<B>(server: Server<B>, arrivals: seq<Arrival<B>>): seq<Response<B>>
    decreases arrivals
  {
    if arrivals == [] then []
    else
      var a := arrivals[0];
      (if a.Connection? && Accepted(server, a.remote, a.request, a.at).1 != Error(RATE_LIMITED)
       then [Accepted(server, a.remote, a.request, a.at).1] else [])
      + HandlerAnswers(AfterArrival(server, a), arrivals[1..])
  }

  /** The handler never gives the gate's answer. */
  lemma HandlerAnswersDiffer<B>(node: Node<B>, request: Request<B>, now: int)
    ensures Handled(node, request, now).1 != Error(RATE_LIMITED)
  {
    RefusedExactlyWhenIllegitimate(node, request, now);
    assert NOT_OWNER[0] == 'n' && NO_SLOT[0] == 'n' && RATE_LIMITED[0] == 'r';
  }

  /** Behind the gate there is nothing but the handler: same node, same answers, for the requests let through. */
  lemma {:induction false} ServerIsHandlerBehindGate<B>(server: Server<B>, arrivals: seq<Arrival<B>>)
    ensures FinalServer(server, arrivals).node == Final(server.node, PassedCalls(server, arrivals))
    ensures HandlerAnswers(server, arrivals) == Answers(server.node, PassedCalls(server, arrivals))
    decreases arrivals
  {
    if arrivals != [] {
      var a, rest := arrivals[0], arrivals[1..];
      var next := AfterArrival(server, a);
      ServerIsHandlerBehindGate(next, rest);
      var first, later := PassedCall(server, a), PassedCalls(next, rest);
      if a.Connection? {
        HandlerAnswersDiffer(server.node, a.request, a.at);
      }
      if first == [] {
        assert first + later == later;
      } else {
        assert (first + later)[1..] == later;
      }
    }
  }

  /** How many throttled requests of `id` in the span got past the limiter. */
  function PassedIn<B>(
      server: Server<B>, arrivals: seq<Arrival<B>>, id: RateLimit.EndpointId, from: nat, length: nat)
    : nat
    decreases arrivals
  {
    if arrivals == [] then 0
    else
      var a := arrivals[0];
      (if && a.Connection? && a.remote == id && Throttled(a.request) && from <= a.at < from + length
          && Accepted(server, a.remote, a.request, a.at).1 != Error(RATE_LIMITED) then 1 else 0)
      + PassedIn(AfterArrival(server, a), arrivals[1..], id, from, length)
  }

  /** The part of the run the limiter sees. */
  function LimiterEvents<B>(arrivals: seq<Arrival<B>>): seq<RateLimit.Event> {
    if arrivals == [] then []
    else
      (match arrivals[0]
       case Connection(remote, request, at) => if Throttled(request) then [RateLimit.Request(remote, at)] else []
       case Tick(at) => [RateLimit.Prune(at)])
      + LimiterEvents(arrivals[1..])
  }

  ghost predicate InOrder<B>(arrivals: seq<Arrival<B>>) {
    forall i, j :: 0 <= i < j < |arrivals| ==> arrivals[i].at <= arrivals[j].at
  }

  lemma {:induction false} LimiterEventsInOrder<B>(arrivals: seq<Arrival<B>>)
    requires InOrder(arrivals)
    ensures RateLimit.Monotone(LimiterEvents(arrivals))
    ensures arrivals != [] ==> forall e :: e in LimiterEvents(arrivals) ==> arrivals[0].at <= e.at
  {
    if arrivals != [] {
      LimiterEventsInOrder(arrivals[1..]);
    }
  }

  lemma {:induction false} PassedAsTheLimiterSaid<B>(
      server: Server<B>, arrivals: seq<Arrival<B>>, id: RateLimit.EndpointId, from: nat, length: nat)
    ensures var events := LimiterEvents(arrivals);
      var answers := RateLimit.AnswersTo(RATE_LIMIT, server.windows, events, id);
      && |answers| == |RateLimit.TimesOf(events, id)|
      && PassedIn(server, arrivals, id, from, length)
         == RateLimit.AcceptedIn(answers, RateLimit.TimesOf(events, id), from, length)
    decreases arrivals
  {
    if arrivals != [] {
      var events := LimiterEvents(arrivals);
      PassedAsTheLimiterSaid(AfterArrival(server, arrivals[0]), arrivals[1..], id, from, length);
      if arrivals[0].Connection? && !Throttled(arrivals[0].request) {
        assert events == LimiterEvents(arrivals[1..]);
      } else {
        assert events[1..] == LimiterEvents(arrivals[1..]);
        var answers := RateLimit.AnswersTo(RATE_LIMIT, server.windows, events, id);
        var times := RateLimit.TimesOf(events, id);
        if arrivals[0].Connection? && arrivals[0].remote == id {
          var next := AfterArrival(server, arrivals[0]);
          assert answers[1..] == RateLimit.AnswersTo(RATE_LIMIT, next.windows, events[1..], id);
          assert times[1..] == RateLimit.TimesOf(events[1..], id);
        }
      }
    }
  }

  /** One peer gets at most 60 writes and registrations per window touched past a fresh server's limiter. */
  lemma ServerBurstBound<B>(node: Node<B>, arrivals: seq<Arrival<B>>, id: RateLimit.EndpointId, from: nat, length: nat)
    requires InOrder(arrivals)
    ensures PassedIn(Server(node, map[]), arrivals, id, from, length) <= 60 * (RateLimit.CeilDiv(length, 60000) + 1)
  {
    PassedAsTheLimiterSaid(Server(node, map[]), arrivals, id, from, length);
    LimiterEventsInOrder(arrivals);
    RateLimit.BurstBound(RATE_LIMIT, LimiterEvents(arrivals), id, from, length);
  }
}

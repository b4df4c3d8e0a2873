/**
 Draining a mailbox: `sync` fetches everything, examines the blobs past its watermark in id order, acks
 the well-formed ones and then moves the watermark. Syncs run one after the other and may be cut off at
 any step; deposits may come in at any moment. The node is the same throughout and keeps its store.
 */
module Sync {
  import opened Wrappers
  import opened Bytes
  import opened Crypto
  import opened Mailbox
  import EnvelopeCodec
  import NodeHandler
  import RetryQueue
  import Sorting

  type StoredBlob = Blob<seq<byte>>

  /** What `attribute_and_store` made of an envelope; `Broken` is a storage error, which ends the sync. */
  datatype Verdict = Chat | NotChat | Broken

  // ---------- One sync ----------

  function IdOf(b: StoredBlob): int {
    b.id
  }

  function Past(blobs: seq<StoredBlob>, watermark: nat): seq<StoredBlob> {
    if blobs == [] then []
    else (if blobs[0].id > watermark then [blobs[0]] else []) + Past(blobs[1..], watermark)
  }

  /** The blobs a sync examines, in the order it examines them. */
  function NewBlobs(blobs: seq<StoredBlob>, watermark: nat): seq<StoredBlob> {
    Sorting.Sorted(Past(blobs, watermark), IdOf)
  }

  datatype Progress = Progress(maxSeen: nat, processed: nat, examined: seq<nat>, acked: seq<nat>)

  predicate WellFormed(data: seq<byte>) {
    EnvelopeCodec.FromPaddedBytes(data).Success?
  }

  /** Looks at one blob; `None` when the sync fails on it. */
  function ExaminedOne(p: Progress, b: StoredBlob, v: Verdict): Option<Progress> {
    var p := p.(maxSeen := if b.id > p.maxSeen then b.id else p.maxSeen, examined := p.examined + [b.id]);
    if !WellFormed(b.data) then Some(p)
    else match v
      case Broken => None
      case Chat => Some(p.(processed := p.processed + 1, acked := p.acked + [b.id]))
      case NotChat => Some(p.(acked := p.acked + [b.id]))
  }

  function ExaminedAll(p: Progress, blobs: seq<StoredBlob>, verdicts: nat -> Verdict): Option<Progress>
    decreases blobs
  {
    if blobs == [] then Some(p)
    else match ExaminedOne(p, blobs[0], verdicts(blobs[0].id))
      case None => None
      case Some(p') => ExaminedAll(p', blobs[1..], verdicts)
  }

  // ---------- What examining comes to, in terms of the response alone ----------

  /** A blob past the watermark that parses. */
  predicate IsNew(b: StoredBlob, watermark: nat) {
    b.id > watermark && WellFormed(b.data)
  }

  /** How many of the blobs past the watermark are well-formed. */
  function CountNew(blobs: seq<StoredBlob>, watermark: nat): nat {
    Sorting.Count(blobs, NewTest(watermark))
  }

  /** How many of them turn out to be chats. */
  function CountChats(blobs: seq<StoredBlob>, watermark: nat, verdicts: nat -> Verdict): nat {
    Sorting.Count(blobs, ChatTest(watermark, verdicts))
  }

  function NewTest(watermark: nat): StoredBlob -> bool {
    (b: StoredBlob) => IsNew(b, watermark)
  }

  function ChatTest(watermark: nat, verdicts: nat -> Verdict): StoredBlob -> bool {
    (b: StoredBlob) => IsNew(b, watermark) && verdicts(b.id) == Chat
  }

  lemma {:induction false} CountPast(blobs: seq<StoredBlob>, watermark: nat, p: StoredBlob -> bool)
    requires forall b :: p(b) ==> b.id > watermark
    ensures Sorting.Count(Past(blobs, watermark), p) == Sorting.Count(blobs, p)
  {
    if blobs != [] {
      CountPast(blobs[1..], watermark, p);
      var rest := Past(blobs[1..], watermark);
      if blobs[0].id > watermark {
        assert Past(blobs, watermark)[1..] == rest;
      } else {
        assert Past(blobs, watermark) == rest;
      }
    }
  }

  /** The loop stops only on a storage error. */
  lemma {:induction false} LoopStopsExactlyWhen(
      p: Progress, todo: seq<StoredBlob>, watermark: nat, verdicts: nat -> Verdict)
    requires forall k :: 0 <= k < |todo| ==> todo[k].id > watermark
    ensures ExaminedAll(p, todo, verdicts).Some?
       <==> forall k :: 0 <= k < |todo| && IsNew(todo[k], watermark) ==> verdicts(todo[k].id) != Broken
    decreases todo
  {
    hide WellFormed;
    if todo != [] {
      var step := ExaminedOne(p, todo[0], verdicts(todo[0].id));
      assert step.None? <==> IsNew(todo[0], watermark) && verdicts(todo[0].id) == Broken;
      hide IsNew, ExaminedOne;
      if step.Some? {
        LoopStopsExactlyWhen(step.value, todo[1..], watermark, verdicts);
        assert forall k :: 0 < k < |todo| ==> todo[k] == todo[1..][k - 1];
      }
    }
  }

  /** It counts the chats and lists the well-formed blobs in order. */
  lemma {:induction false} LoopTallies(p: Progress, todo: seq<StoredBlob>, watermark: nat, verdicts: nat -> Verdict)
    requires forall k :: 0 <= k < |todo| ==> todo[k].id > watermark
    requires ExaminedAll(p, todo, verdicts).Some?
    ensures var r := ExaminedAll(p, todo, verdicts).value;
      && r.processed == p.processed + CountChats(todo, watermark, verdicts)
      && r.acked == p.acked + WellFormedIds(todo)
    decreases todo
  {
    hide WellFormed;
    if todo != [] {
      var b, rest := todo[0], todo[1..];
      var p' := ExaminedOne(p, b, verdicts(b.id)).value;
      var first := if WellFormed(b.data) then [b.id] else [];
      assert p'.processed == p.processed + if IsNew(b, watermark) && verdicts(b.id) == Chat then 1 else 0;
      assert p'.acked == p.acked + first;
      CountChatsCons(todo, watermark, verdicts);
      hide ExaminedOne, IsNew, CountChats;
      LoopTallies(p', rest, watermark, verdicts);
      assert p.acked + (first + WellFormedIds(rest)) == (p.acked + first) + WellFormedIds(rest);
    }
  }

  lemma CountChatsCons(blobs: seq<StoredBlob>, watermark: nat, verdicts: nat -> Verdict)
    requires blobs != []
    ensures CountChats(blobs, watermark, verdicts)
      == (if IsNew(blobs[0], watermark) && verdicts(blobs[0].id) == Chat then 1 else 0)
         + CountChats(blobs[1..], watermark, verdicts)
  {
  }

  function WellFormedIds(blobs: seq<StoredBlob>): seq<nat> {
    if blobs == [] then []
    else (if WellFormed(blobs[0].data) then [blobs[0].id] else []) + WellFormedIds(blobs[1..])
  }

  lemma {:induction false} WellFormedIdsAre(blobs: seq<StoredBlob>, watermark: nat)
    requires forall i, j :: 0 <= i < j < |blobs| ==> blobs[i].id <= blobs[j].id
    requires forall k :: 0 <= k < |blobs| ==> blobs[k].id > watermark
    ensures var ids := WellFormedIds(blobs);
      && (forall id :: id in ids <==> exists k :: 0 <= k < |blobs| && blobs[k].id == id && IsNew(blobs[k], watermark))
      && (forall i, j :: 0 <= i < j < |ids| ==> ids[i] <= ids[j])
      && |ids| == CountNew(blobs, watermark)
  {
    hide WellFormed;
    if blobs != [] {
      WellFormedIdsAre(blobs[1..], watermark);
      var ids, rest := WellFormedIds(blobs), WellFormedIds(blobs[1..]);
      forall id
        ensures id in ids <==> exists k :: 0 <= k < |blobs| && blobs[k].id == id && IsNew(blobs[k], watermark)
      {
        IdAmongRest(blobs, watermark, id);
      }
      forall k | 0 <= k < |rest| ensures blobs[0].id <= rest[k] {
        assert rest[k] in rest;
      }
    }
  }

  lemma IdAmongRest(blobs: seq<StoredBlob>, watermark: nat, id: nat)
    requires blobs != []
    ensures (exists k :: 0 <= k < |blobs| && blobs[k].id == id && IsNew(blobs[k], watermark))
       <==> (blobs[0].id == id && IsNew(blobs[0], watermark))
            || exists k :: 0 <= k < |blobs[1..]| && blobs[1..][k].id == id && IsNew(blobs[1..][k], watermark)
  {
    hide IsNew;
    assert forall k :: 0 < k < |blobs| ==> blobs[k] == blobs[1..][k - 1];
    assert forall k :: 0 <= k < |blobs[1..]| ==> blobs[1..][k] == blobs[k + 1];
  }

  lemma {:induction false} LoopSeesMaximum(p: Progress, todo: seq<StoredBlob>, verdicts: nat -> Verdict)
    requires ExaminedAll(p, todo, verdicts).Some?
    ensures var top := ExaminedAll(p, todo, verdicts).value.maxSeen;
      && p.maxSeen <= top
      && (forall k :: 0 <= k < |todo| ==> todo[k].id <= top)
      && (top == p.maxSeen || exists k :: 0 <= k < |todo| && todo[k].id == top)
    decreases todo
  {
    hide WellFormed;
    if todo != [] {
      var p' := ExaminedOne(p, todo[0], verdicts(todo[0].id)).value;
      LoopSeesMaximum(p', todo[1..], verdicts);
      assert forall k :: 0 < k < |todo| ==> todo[k] == todo[1..][k - 1];
    }
  }

  lemma {:induction false} PastIsFilter(blobs: seq<StoredBlob>, watermark: nat, b: StoredBlob)
    ensures b in Past(blobs, watermark) <==> b in blobs && b.id > watermark
  {
    if blobs != [] {
      PastIsFilter(blobs[1..], watermark, b);
    }
  }

  /** `news` holds the blobs of the response past the watermark, in ascending order. */
  ghost predicate ListsNew(blobs: seq<StoredBlob>, news: seq<StoredBlob>, watermark: nat) {
    && (forall b :: b in news <==> b in blobs && b.id > watermark)
    && (forall i, j :: 0 <= i < j < |news| ==> news[i].id <= news[j].id)
    && CountNew(news, watermark) == CountNew(blobs, watermark)
    && forall verdicts :: CountChats(news, watermark, verdicts) == CountChats(blobs, watermark, verdicts)
  }

  lemma NewBlobsAre(blobs: seq<StoredBlob>, watermark: nat)
    ensures ListsNew(blobs, NewBlobs(blobs, watermark), watermark)
  {
    NewBlobsAreFiltered(blobs, watermark);
    NewBlobsAreOrdered(blobs, watermark);
    hide WellFormed, NewBlobs;
    NewBlobsCount(blobs, watermark, NewTest(watermark));
    forall verdicts
      ensures CountChats(NewBlobs(blobs, watermark), watermark, verdicts) == CountChats(blobs, watermark, verdicts)
    {
      NewBlobsCount(blobs, watermark, ChatTest(watermark, verdicts));
    }
  }

  lemma NewBlobsAreFiltered(blobs: seq<StoredBlob>, watermark: nat)
    ensures forall b :: b in NewBlobs(blobs, watermark) <==> b in blobs && b.id > watermark
  {
    var past, news := Past(blobs, watermark), NewBlobs(blobs, watermark);
    Sorting.SortingIsCorrect(past, IdOf);
    hide Past, Sorting.Sorted, Sorting.InOrder;
    forall b ensures b in news <==> b in blobs && b.id > watermark {
      PastIsFilter(blobs, watermark, b);
      assert b in multiset(news) <==> b in multiset(past);
    }
  }

  lemma NewBlobsAreOrdered(blobs: seq<StoredBlob>, watermark: nat)
    ensures var news := NewBlobs(blobs, watermark); forall i, j :: 0 <= i < j < |news| ==> news[i].id <= news[j].id
  {
    var news := NewBlobs(blobs, watermark);
    Sorting.SortingIsCorrect(Past(blobs, watermark), IdOf);
    forall i, j | 0 <= i < j < |news| ensures news[i].id <= news[j].id {
      assert IdOf(news[i]) <= IdOf(news[j]);
    }
  }

  lemma NewBlobsCount(blobs: seq<StoredBlob>, watermark: nat, p: StoredBlob -> bool)
    requires forall b :: p(b) ==> b.id > watermark
    ensures Sorting.Count(NewBlobs(blobs, watermark), p) == Sorting.Count(blobs, p)
  {
    Sorting.SortingKeepsCount(Past(blobs, watermark), IdOf, p);
    CountPast(blobs, watermark, p);
  }

  /** The result of a sync's loop, stated over the response, the watermark and the verdicts. */
  ghost predicate IsTally(
      blobs: seq<StoredBlob>, watermark: nat, verdicts: nat -> Verdict,
      processed: nat, maxSeen: nat, acked: seq<nat>) {
    && processed == CountChats(blobs, watermark, verdicts)
    && watermark <= maxSeen && (forall b :: b in blobs ==> b.id <= maxSeen)
    && (maxSeen == watermark || exists b :: b in blobs && b.id == maxSeen)
    && (forall id :: id in acked <==> exists b :: b in blobs && b.id == id && IsNew(b, watermark))
    && (forall i, j :: 0 <= i < j < |acked| ==> acked[i] <= acked[j])
    && |acked| == CountNew(blobs, watermark)
  }

  /** A new, well-formed blob on which storing fails. */
  ghost predicate Breaks(blobs: seq<StoredBlob>, watermark: nat, verdicts: nat -> Verdict) {
    exists b :: b in blobs && IsNew(b, watermark) && verdicts(b.id) == Broken
  }

  lemma ExaminingTallies(blobs: seq<StoredBlob>, watermark: nat, verdicts: nat -> Verdict)
    ensures var r := ExaminedAll(Progress(watermark, 0, [], []), NewBlobs(blobs, watermark), verdicts);
      && (r.Some? <==> !Breaks(blobs, watermark, verdicts))
      && (r.Some? ==> IsTally(blobs, watermark, verdicts, r.value.processed, r.value.maxSeen, r.value.acked))
  {
    hide NewBlobs, ListsNew, Breaks, IsTally, ExaminedAll;
    NewBlobsAre(blobs, watermark);
    NewsBreakOrTally(blobs, NewBlobs(blobs, watermark), watermark, verdicts);
  }

  lemma NewsBreakOrTally(
      blobs: seq<StoredBlob>, news: seq<StoredBlob>, watermark: nat, verdicts: nat -> Verdict)
    requires ListsNew(blobs, news, watermark)
    ensures var r := ExaminedAll(Progress(watermark, 0, [], []), news, verdicts);
      && (r.Some? <==> !Breaks(blobs, watermark, verdicts))
      && (r.Some? ==> IsTally(blobs, watermark, verdicts, r.value.processed, r.value.maxSeen, r.value.acked))
  {
    hide WellFormed, CountNew, CountChats, IsNew, ExaminedAll, Breaks, IsTally;
    var start := Progress(watermark, 0, [], []);
    forall k | 0 <= k < |news| ensures news[k].id > watermark {
      assert news[k] in news;
    }
    LoopStopsExactlyWhen(start, news, watermark, verdicts);
    BreaksAmongNew(blobs, news, watermark, verdicts);
    var r := ExaminedAll(start, news, verdicts);
    if r.Some? {
      LoopTallies(start, news, watermark, verdicts);
      LoopSeesMaximum(start, news, verdicts);
      assert r.value.acked == WellFormedIds(news);
      NewsTally(blobs, news, watermark, verdicts, r.value.maxSeen);
    }
  }

  lemma NewsTally(
      blobs: seq<StoredBlob>, news: seq<StoredBlob>, watermark: nat, verdicts: nat -> Verdict, top: nat)
    requires ListsNew(blobs, news, watermark)
    requires watermark <= top && forall k :: 0 <= k < |news| ==> news[k].id <= top
    requires top == watermark || exists k :: 0 <= k < |news| && news[k].id == top
    ensures IsTally(blobs, watermark, verdicts, CountChats(news, watermark, verdicts), top, WellFormedIds(news))
  {
    hide WellFormed, CountNew, CountChats, IsNew;
    forall k | 0 <= k < |news| ensures news[k].id > watermark {
      assert news[k] in news;
    }
    WellFormedIdsAre(news, watermark);
    AckedAreNew(blobs, news, watermark, WellFormedIds(news));
    MaximumIsSeen(blobs, news, watermark, top);
  }

  lemma BreaksAmongNew(
      blobs: seq<StoredBlob>, news: seq<StoredBlob>, watermark: nat, verdicts: nat -> Verdict)
    requires forall b :: b in news <==> b in blobs && b.id > watermark
    ensures Breaks(blobs, watermark, verdicts)
       <==> exists k :: 0 <= k < |news| && IsNew(news[k], watermark) && verdicts(news[k].id) == Broken
  {
    NewIsPast();
    hide IsNew;
    if Breaks(blobs, watermark, verdicts) {
      var b :| b in blobs && IsNew(b, watermark) && verdicts(b.id) == Broken;
      assert b in news;
      var k :| 0 <= k < |news| && news[k] == b;
    }
    if exists k :: 0 <= k < |news| && IsNew(news[k], watermark) && verdicts(news[k].id) == Broken {
      var k :| 0 <= k < |news| && IsNew(news[k], watermark) && verdicts(news[k].id) == Broken;
      assert news[k] in news;
    }
  }

  lemma NewIsPast()
    ensures forall b, watermark: nat :: IsNew(b, watermark) ==> b.id > watermark
  {
  }

  lemma AckedAreNew(blobs: seq<StoredBlob>, news: seq<StoredBlob>, watermark: nat, acked: seq<nat>)
    requires forall b :: b in news <==> b in blobs && b.id > watermark
    requires forall id ::
      id in acked <==> exists k :: 0 <= k < |news| && news[k].id == id && IsNew(news[k], watermark)
    ensures forall id :: id in acked <==> exists b :: b in blobs && b.id == id && IsNew(b, watermark)
  {
    NewIsPast();
    hide IsNew;
    forall id ensures id in acked <==> exists b :: b in blobs && b.id == id && IsNew(b, watermark) {
      if id in acked {
        var k :| 0 <= k < |news| && news[k].id == id && IsNew(news[k], watermark);
        assert news[k] in news;
      }
      if exists b :: b in blobs && b.id == id && IsNew(b, watermark) {
        var b :| b in blobs && b.id == id && IsNew(b, watermark);
        assert b in news;
        var k :| 0 <= k < |news| && news[k] == b;
      }
    }
  }

  lemma MaximumIsSeen(blobs: seq<StoredBlob>, news: seq<StoredBlob>, watermark: nat, top: nat)
    requires forall b :: b in news <==> b in blobs && b.id > watermark
    requires watermark <= top && forall k :: 0 <= k < |news| ==> news[k].id <= top
    requires top == watermark || exists k :: 0 <= k < |news| && news[k].id == top
    ensures forall b :: b in blobs ==> b.id <= top
    ensures top == watermark || exists b :: b in blobs && b.id == top
  {
    forall b | b in blobs ensures b.id <= top {
      if b.id > watermark {
        assert b in news;
      }
    }
    if top != watermark {
      var k :| 0 <= k < |news| && news[k].id == top;
      assert news[k] in news;
    }
  }

  /** The examining loop of `sync` over a fetched response. */
  method Examine(blobs: seq<StoredBlob>, watermark: nat, verdicts: nat -> Verdict)
    returns (ok: bool, processed: nat, maxSeen: nat, acked: seq<nat>)
    ensures ok <==> !Breaks(blobs, watermark, verdicts)
    ensures ok ==> IsTally(blobs, watermark, verdicts, processed, maxSeen, acked)
    ensures ok ==>
      var r := ExaminedAll(Progress(watermark, 0, [], []), NewBlobs(blobs, watermark), verdicts);
      r.Some? && processed == r.value.processed && maxSeen == r.value.maxSeen && acked == r.value.acked
  {
    ExaminingTallies(blobs, watermark, verdicts);
    hide Breaks, IsTally, NewBlobs;
    hide WellFormed;
    var newBlobs := NewBlobs(blobs, watermark);
    ghost var examined := [];
    processed, maxSeen, acked := 0, watermark, [];
    for k := 0 to |newBlobs|
      invariant ExaminedAll(Progress(watermark, 0, [], []), newBlobs, verdicts)
             == ExaminedAll(Progress(maxSeen, processed, examined, acked), newBlobs[k..], verdicts)
    {
      assert newBlobs[k..][1..] == newBlobs[k + 1..];
      var b := newBlobs[k];
      maxSeen := if b.id > maxSeen then b.id else maxSeen;
      examined := examined + [b.id];
      if !WellFormed(b.data) {
        continue;
      }
      var v := verdicts(b.id);
      if v == Broken {
        ok := false;
        return;
      }
      if v == Chat {
        processed := processed + 1;
      }
      acked := acked + [b.id];
    }
    ok := true;
  }

  // ---------- Runs: syncs in steps, deposits in between ----------

  datatype Phase = Idle | Examining(todo: seq<StoredBlob>, p: Progress) | ReadyToCommit(p: Progress)

  /**
   `acksSent` holds the acknowledgements ever sent; `completed` lists, for each sync that moved the
   watermark, the ids it examined in order.
   */
  datatype World = World(
    mailbox: Mailbox<seq<byte>>, watermark: nat, phase: Phase, acksSent: seq<seq<nat>>, completed: seq<seq<nat>>)

  datatype Event =
    | Register(slotHash: Digest)
    | Deposit(auth: Secret, data: seq<byte>)
    | Fetch(response: seq<StoredBlob>)
    | ExamineNext(v: Verdict)
    | SendAck(reaches: bool, answered: bool)
    | AckReachesLate(k: nat)
    | Commit
    | CutOff

  /** What the node answers the owner's fetch with. */
  function Fetched(mb: Mailbox<seq<byte>>): seq<StoredBlob> {
    var node := NodeHandler.Node(0, mb, RetryQueue.Queue(map[], []));
    match NodeHandler.Handled(node, NodeHandler.Fetch(0), 0).1
    case Blobs(blobs) => blobs
    case _ => []
  }

  /** A response holds the fetched blobs, in any order. An acknowledgement sent may reach the node at any time. */
  function After(w: World, e: Event): World {
    match e
    case Register(slotHash) => w.(mailbox := Registered(w.mailbox, slotHash))
    case Deposit(auth, data) => w.(mailbox := Written(w.mailbox, auth, data).0)
    case Fetch(response) =>
      if !w.phase.Idle? || multiset(response) != multiset(Fetched(w.mailbox)) then w
      else w.(phase := Examining(NewBlobs(response, w.watermark), Progress(w.watermark, 0, [], [])))
    case ExamineNext(v) =>
      if !w.phase.Examining? || w.phase.todo == [] then w
      else
        (match ExaminedOne(w.phase.p, w.phase.todo[0], v)
         case None => w.(phase := Idle)
         case Some(p) => w.(phase := Examining(w.phase.todo[1..], p)))
    case SendAck(reaches, answered) =>
      if !w.phase.Examining? || w.phase.todo != [] then w
      else if w.phase.p.acked == [] then w.(phase := ReadyToCommit(w.phase.p))
      else
        var mailbox := if reaches then AckedAll(w.mailbox, w.phase.p.acked) else w.mailbox;
        w.(mailbox := mailbox, acksSent := w.acksSent + [w.phase.p.acked],
           phase := if reaches && answered then ReadyToCommit(w.phase.p) else Idle)
    case AckReachesLate(k) =>
      if k < |w.acksSent| then w.(mailbox := AckedAll(w.mailbox, w.acksSent[k])) else w
    case Commit =>
      if !w.phase.ReadyToCommit? then w
      else w.(watermark := w.phase.p.maxSeen, phase := Idle, completed := w.completed + [w.phase.p.examined])
    case CutOff => w.(phase := Idle)
  }

  function Final(w: World, events: seq<Event>): World
    decreases events
  {
    if events == [] then w else Final(After(w, events[0]), events[1..])
  }

  const START := World(Empty(), 0, Idle, [], [])

  function Flatten(lists: seq<seq<nat>>): seq<nat> {
    if lists == [] then [] else Flatten(lists[..|lists| - 1]) + lists[|lists| - 1]
  }

  /** `lo + 1, lo + 2, …, hi`. */
  function Ids(lo: nat, hi: nat): (ids: seq<nat>)
    requires lo <= hi
    ensures |ids| == hi - lo
  {
    seq(hi - lo, i requires 0 <= i < hi - lo => lo + 1 + i)
  }

  /** The examining loop as the single steps of a run. */
  function ExamineSteps(todo: seq<StoredBlob>, verdicts: nat -> Verdict): seq<Event> {
    if todo == [] then [] else [ExamineNext(verdicts(todo[0].id))] + ExamineSteps(todo[1..], verdicts)
  }

  lemma {:induction false} NothingToExamine(w: World, todo: seq<StoredBlob>, verdicts: nat -> Verdict)
    requires w.phase.Idle?
    ensures Final(w, ExamineSteps(todo, verdicts)) == w
    decreases todo
  {
    if todo != [] {
      assert ExamineSteps(todo, verdicts)[1..] == ExamineSteps(todo[1..], verdicts);
      NothingToExamine(w, todo[1..], verdicts);
    }
  }

  /** Step by step, the loop ends with the same progress as in one go, or gives up where it does. */
  lemma {:induction false} StepsAgreeWithLoop(w: World, verdicts: nat -> Verdict)
    requires w.phase.Examining?
    ensures Final(w, ExamineSteps(w.phase.todo, verdicts))
         == w.(phase := match ExaminedAll(w.phase.p, w.phase.todo, verdicts)
                        case None => Idle
                        case Some(p) => Examining([], p))
    decreases |w.phase.todo|
  {
    hide WellFormed;
    var todo := w.phase.todo;
    if todo != [] {
      var events := ExamineSteps(todo, verdicts);
      assert events[1..] == ExamineSteps(todo[1..], verdicts);
      var w' := After(w, events[0]);
      if w'.phase.Idle? {
        NothingToExamine(w', todo[1..], verdicts);
      } else {
        StepsAgreeWithLoop(w', verdicts);
      }
    }
  }

  // ---------- The invariant ----------

  /** Every well-formed blob with id up to `hi` has been marked delivered. */
  ghost predicate DeliveredThrough(mb: Mailbox<seq<byte>>, hi: nat) {
    forall i :: 0 <= i < |mb.blobs| && i < hi && WellFormed(mb.blobs[i].data) ==> mb.blobs[i].delivered
  }

  /** Nothing malformed is ever marked delivered. */
  ghost predicate OnlyWellFormedDelivered(mb: Mailbox<seq<byte>>) {
    forall i :: 0 <= i < |mb.blobs| && mb.blobs[i].delivered ==> WellFormed(mb.blobs[i].data)
  }

  /** The sync has examined exactly the ids after the watermark, up to `done`, and noted the well-formed ones. */
  ghost predicate ProgressOk(w: World, p: Progress, done: nat) {
    && w.watermark <= done <= |w.mailbox.blobs|
    && p.maxSeen == done
    && p.examined == Ids(w.watermark, done)
    && (forall i :: w.watermark <= i < done && WellFormed(w.mailbox.blobs[i].data) ==> i + 1 in p.acked)
    && NamesWellFormed(w.mailbox, p.acked)
  }

  /** Every id listed is that of a stored, well-formed blob. */
  ghost predicate NamesWellFormed(mb: Mailbox<seq<byte>>, ids: seq<nat>) {
    forall k :: 0 <= k < |ids| ==> 1 <= ids[k] <= |mb.blobs| && WellFormed(mb.blobs[ids[k] - 1].data)
  }

  /** What is left to examine are the mailbox's next blobs, as they were when fetched. */
  ghost predicate TodoOk(w: World, todo: seq<StoredBlob>, done: nat) {
    && done + |todo| <= |w.mailbox.blobs|
    && forall k :: 0 <= k < |todo| ==> todo[k].id == done + k + 1 && todo[k].data == w.mailbox.blobs[done + k].data
  }

  ghost predicate PhaseOk(w: World) {
    match w.phase
    case Idle => true
    case Examining(todo, p) => ProgressOk(w, p, p.maxSeen) && TodoOk(w, todo, p.maxSeen)
    case ReadyToCommit(p) => ProgressOk(w, p, p.maxSeen) && DeliveredThrough(w.mailbox, p.maxSeen)
  }

  ghost predicate Inv(w: World) {
    && Valid(w.mailbox)
    && w.watermark <= |w.mailbox.blobs|
    && Flatten(w.completed) == Ids(0, w.watermark)
    && DeliveredThrough(w.mailbox, w.watermark)
    && OnlyWellFormedDelivered(w.mailbox)
    && (forall k :: 0 <= k < |w.acksSent| ==> NamesWellFormed(w.mailbox, w.acksSent[k]))
    && PhaseOk(w)
  }

  lemma {:induction false} PastKeepsElements(blobs: seq<StoredBlob>, watermark: nat, b: StoredBlob)
    ensures multiset(Past(blobs, watermark))[b] == if b.id > watermark then multiset(blobs)[b] else 0
  {
    if blobs != [] {
      PastKeepsElements(blobs[1..], watermark, b);
      assert blobs == [blobs[0]] + blobs[1..];
    }
  }

  lemma {:induction false} PastIsSuffix(blobs: seq<StoredBlob>, first: nat, watermark: nat)
    requires forall i :: 0 <= i < |blobs| ==> blobs[i].id == first + i + 1
    ensures Past(blobs, watermark) ==
      if watermark <= first then blobs else if watermark <= first + |blobs| then blobs[watermark - first..] else []
  {
    if blobs != [] {
      PastIsSuffix(blobs[1..], first + 1, watermark);
    }
  }

  /** A fetched response, whatever its order, is examined as the mailbox's suffix past the watermark. */
  lemma NewBlobsIsSuffix(mb: Mailbox<seq<byte>>, response: seq<StoredBlob>, watermark: nat)
    requires Valid(mb) && watermark <= |mb.blobs| && multiset(response) == multiset(mb.blobs)
    ensures NewBlobs(response, watermark) == mb.blobs[watermark..]
  {
    var suffix := mb.blobs[watermark..];
    PastIsSuffix(mb.blobs, 0, watermark);
    forall b ensures multiset(Past(response, watermark))[b] == multiset(suffix)[b] {
      PastKeepsElements(response, watermark, b);
      PastKeepsElements(mb.blobs, watermark, b);
    }
    assert multiset(Past(response, watermark)) == multiset(suffix);
    Sorting.SortingIsCorrect(Past(response, watermark), IdOf);
    SuffixInOrder(mb, watermark);
    Sorting.OrderIsUnique(suffix, NewBlobs(response, watermark), IdOf);
  }

  lemma SuffixInOrder(mb: Mailbox<seq<byte>>, watermark: nat)
    requires Valid(mb) && watermark <= |mb.blobs|
    ensures Sorting.InOrder(mb.blobs[watermark..], IdOf) && Sorting.DistinctKeys(mb.blobs[watermark..], IdOf)
  {
  }

  /** Growing the mailbox and setting flags keeps everything a sync relies on. */
  lemma MailboxGrows(w: World, mailbox: Mailbox<seq<byte>>)
    requires Inv(w) && Valid(mailbox)
    requires |w.mailbox.blobs| <= |mailbox.blobs|
    requires forall i :: 0 <= i < |w.mailbox.blobs| ==>
      && mailbox.blobs[i].data == w.mailbox.blobs[i].data
      && (w.mailbox.blobs[i].delivered ==> mailbox.blobs[i].delivered)
    requires OnlyWellFormedDelivered(mailbox)
    ensures Inv(w.(mailbox := mailbox))
  {
  }

  lemma FetchKeepsInv(w: World, response: seq<StoredBlob>)
    requires Inv(w)
    ensures Inv(After(w, Fetch(response)))
  {
    hide WellFormed, NewBlobs, Past, Flatten, ExaminedOne;
    assert Fetched(w.mailbox) == w.mailbox.blobs;
    if multiset(response) == multiset(w.mailbox.blobs) {
      NewBlobsIsSuffix(w.mailbox, response, w.watermark);
    }
  }

  lemma ExamineKeepsInv(w: World, v: Verdict)
    requires Inv(w)
    ensures Inv(After(w, ExamineNext(v)))
  {
    hide WellFormed, NewBlobs, Flatten, Written, AckedAll, Registered;
    if w.phase.Examining? && w.phase.todo != [] {
      var p, b := w.phase.p, w.phase.todo[0];
      assert b.id == p.maxSeen + 1 && b.data == w.mailbox.blobs[p.maxSeen].data;
      assert p.examined + [b.id] == Ids(w.watermark, p.maxSeen + 1);
    }
  }

  lemma AckGrows(w: World, ids: seq<nat>)
    requires Inv(w) && NamesWellFormed(w.mailbox, ids)
    ensures Inv(w.(mailbox := AckedAll(w.mailbox, ids)))
  {
    hide WellFormed, Flatten, PhaseOk, DeliveredThrough;
    var mb := AckedAll(w.mailbox, ids);
    forall i | 0 <= i < |mb.blobs| && mb.blobs[i].delivered ensures WellFormed(mb.blobs[i].data) {
      if !w.mailbox.blobs[i].delivered {
        var k :| 0 <= k < |ids| && ids[k] == i + 1;
      }
    }
    MailboxGrows(w, mb);
  }

  lemma AckKeepsInv(w: World, reaches: bool, answered: bool)
    requires Inv(w)
    ensures Inv(After(w, SendAck(reaches, answered)))
  {
    hide WellFormed, Flatten;
    if w.phase.Examining? && w.phase.todo == [] && w.phase.p.acked != [] {
      AckGrows(w, w.phase.p.acked);
      assert DeliveredThrough(AckedAll(w.mailbox, w.phase.p.acked), w.phase.p.maxSeen);
    }
  }

  lemma CommitKeepsInv(w: World)
    requires Inv(w)
    ensures Inv(After(w, Commit))
  {
    if w.phase.ReadyToCommit? {
      var w' := After(w, Commit);
      assert w'.completed[..|w.completed|] == w.completed;
      assert Ids(0, w.watermark) + Ids(w.watermark, w'.watermark) == Ids(0, w'.watermark);
    }
  }

  lemma StepKeepsInv(w: World, e: Event)
    requires Inv(w)
    ensures Inv(After(w, e))
  {
    hide WellFormed, Flatten, NewBlobs, ExaminedOne;
    match e
    case Register(slotHash) => MailboxGrows(w, Registered(w.mailbox, slotHash));
    case Deposit(auth, data) => MailboxGrows(w, Written(w.mailbox, auth, data).0);
    case Fetch(response) => FetchKeepsInv(w, response);
    case ExamineNext(v) => ExamineKeepsInv(w, v);
    case SendAck(reaches, answered) => AckKeepsInv(w, reaches, answered);
    case AckReachesLate(k) =>
      if k < |w.acksSent| {
        AckGrows(w, w.acksSent[k]);
      }
    case Commit => CommitKeepsInv(w);
    case CutOff =>
  }

  lemma {:induction false} RunKeepsInv(w: World, events: seq<Event>)
    requires Inv(w)
    ensures Inv(Final(w, events))
    decreases events
  {
    if events != [] {
      StepKeepsInv(w, events[0]);
      RunKeepsInv(After(w, events[0]), events[1..]);
    }
  }

  // ---------- Main results ----------

  /**
   After any run: the completed syncs together examined exactly the ids 1, 2, …, watermark, each once and
   in ascending order; none was skipped; and exactly the well-formed blobs among them are marked delivered.
   */
  lemma MailboxAndWatermarkAgree(events: seq<Event>)
    ensures var w := Final(START, events);
      && Flatten(w.completed) == Ids(0, w.watermark)
      && w.watermark <= |w.mailbox.blobs|
      && forall i :: 0 <= i < w.watermark ==>
          w.mailbox.blobs[i].id == i + 1 && (w.mailbox.blobs[i].delivered <==> WellFormed(w.mailbox.blobs[i].data))
  {
    RunKeepsInv(START, events);
  }

  /** The watermark never moves back. */
  lemma {:induction false} WatermarkNeverMovesBack(w: World, events: seq<Event>)
    requires Inv(w)
    ensures w.watermark <= Final(w, events).watermark
    decreases events
  {
    hide WellFormed, Flatten, NewBlobs, ExaminedOne, Written, AckedAll;
    if events != [] {
      StepKeepsInv(w, events[0]);
      WatermarkNeverMovesBack(After(w, events[0]), events[1..]);
    }
  }

  lemma {:induction false} FinalAppend(w: World, first: seq<Event>, second: seq<Event>)
    ensures Final(w, first + second) == Final(Final(w, first), second)
    decreases first
  {
    if first == [] {
      assert first + second == second;
    } else {
      assert (first + second)[1..] == first[1..] + second;
      FinalAppend(After(w, first[0]), first[1..], second);
    }
  }

  /** Without storage errors the loop reaches the end of consecutive blobs, whatever they contain. */
  lemma {:induction false} LoopReachesEnd(p: Progress, todo: seq<StoredBlob>, verdicts: nat -> Verdict)
    requires forall id :: verdicts(id) != Broken
    requires forall k :: 0 <= k < |todo| ==> todo[k].id == p.maxSeen + k + 1
    ensures ExaminedAll(p, todo, verdicts).Some?
    ensures ExaminedAll(p, todo, verdicts).value.maxSeen == p.maxSeen + |todo|
    decreases todo
  {
    hide WellFormed;
    if todo != [] {
      LoopReachesEnd(ExaminedOne(p, todo[0], verdicts(todo[0].id)).value, todo[1..], verdicts);
    }
  }

  lemma FinalTwo(w: World, a: Event, b: Event)
    ensures Final(w, [a, b]) == After(After(w, a), b)
  {
    assert [a, b][1..] == [b] && [b][1..] == [];
    assert Final(After(w, a), [b]) == Final(After(After(w, a), b), []);
  }

  /** The events of one sync that nothing disturbs. */
  function WholeSync(response: seq<StoredBlob>, watermark: nat, verdicts: nat -> Verdict): seq<Event> {
    [Fetch(response)] + (ExamineSteps(NewBlobs(response, watermark), verdicts) + [SendAck(true, true), Commit])
  }

  /** From the fetched response on, an undisturbed sync ends with the watermark at the last blob fetched. */
  lemma ExaminingEnds(w: World, verdicts: nat -> Verdict)
    requires Inv(w) && w.phase.Examining? && forall id :: verdicts(id) != Broken
    ensures var w' := Final(w, ExamineSteps(w.phase.todo, verdicts) + [SendAck(true, true), Commit]);
      && w'.watermark == w.phase.p.maxSeen + |w.phase.todo|
      && w'.phase.Idle? && |w'.mailbox.blobs| == |w.mailbox.blobs|
      && Inv(w')
  {
    hide WellFormed, NewBlobs, Fetched, Written, Registered, Flatten;
    var steps := ExamineSteps(w.phase.todo, verdicts);
    LoopReachesEnd(w.phase.p, w.phase.todo, verdicts);
    StepsAgreeWithLoop(w, verdicts);
    var w1 := Final(w, steps);
    FinalAppend(w, steps, [SendAck(true, true), Commit]);
    FinalTwo(w1, SendAck(true, true), Commit);
    RunKeepsInv(w, steps + [SendAck(true, true), Commit]);
    hide Inv, ExaminedAll, ExamineSteps, Final;
    var w2 := After(w1, SendAck(true, true));
    assert w2.phase.ReadyToCommit? && w2.phase.p == w1.phase.p;
  }

  /**
   From any state a run can reach between syncs, one sync that meets no failure, whatever the blobs turn out
   to be, brings the watermark to the newest blob, and exactly the well-formed blobs are then delivered.
   */
  lemma UndisturbedSyncDrains(w: World, response: seq<StoredBlob>, verdicts: nat -> Verdict)
    requires Inv(w) && w.phase.Idle? && multiset(response) == multiset(w.mailbox.blobs)
    requires forall id :: verdicts(id) != Broken
    ensures var w' := Final(w, WholeSync(response, w.watermark, verdicts));
      && w'.watermark == |w.mailbox.blobs| == |w'.mailbox.blobs|
      && w'.phase.Idle?
      && forall i :: 0 <= i < |w'.mailbox.blobs| ==>
           (w'.mailbox.blobs[i].delivered <==> WellFormed(w'.mailbox.blobs[i].data))
  {
    hide WellFormed, NewBlobs, Past, Flatten, ExaminedOne, PhaseOk, ExamineSteps;
    var events := WholeSync(response, w.watermark, verdicts);
    var w1 := After(w, Fetch(response));
    assert events[0] == Fetch(response);
    assert events[1..] == ExamineSteps(NewBlobs(response, w.watermark), verdicts) + [SendAck(true, true), Commit];
    NewBlobsIsSuffix(w.mailbox, response, w.watermark);
    FetchKeepsInv(w, response);
    ExaminingEnds(w1, verdicts);
  }
}

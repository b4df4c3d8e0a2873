/**
 The fixed-window request limiter of `pm-node`: one window per remote identity, restarted when it has
 expired, with a periodic sweep that forgets expired windows.

 Clock readings are milliseconds since 1970, never negative, so the difference of two of them never
 saturates as an `i64`.
 */
module RateLimit {
  import opened Wrappers
  import Bytes

  /** A remote peer's authenticated endpoint id. */
  type EndpointId = nat

  datatype Window = Window(startedAt: nat, count: nat)

  /** `max` requests per `window` milliseconds. */
  datatype Limits = Limits(max: nat, window: nat)

  type Windows = map<EndpointId, Window>

  // ---------- One request, as a function of the peer's own window ----------

  /** The window still running at `now`, if any. */
  function Live(lim: Limits, w: Option<Window>, now: nat): Option<Window> {
    if w.Some? && now - w.value.startedAt < lim.window then w else None
  }

  /** The window a request at `now` is counted against. */
  function Current(lim: Limits, w: Option<Window>, now: nat): Window {
    match Live(lim, w, now)
    case Some(running) => running
    case None => Window(now, 0)
  }

  function Counted(lim: Limits, w: Window): Window {
    if w.count < lim.max then w.(count := w.count + 1) else w
  }

  function Lookup(ws: Windows, id: EndpointId): Option<Window> {
    if id in ws then Some(ws[id]) else None
  }

  function AllowStep(lim: Limits, ws: Windows, id: EndpointId, now: nat): (Windows, bool) {
    var w := Current(lim, Lookup(ws, id), now);
    (ws[id := Counted(lim, w)], w.count < lim.max)
  }

  function PruneStep(lim: Limits, ws: Windows, now: nat): Windows {
    map id | id in ws && now - ws[id].startedAt < lim.window :: ws[id]
  }

  // ---------- The limiter object ----------

  class RateLimiter {
    const lim: Limits
    var windows: Windows

    constructor (max: nat, window: nat)
      ensures lim == Limits(max, window) && windows == map[]
    {
      lim := Limits(max, window);
      windows := map[];
    }

    method Allow(id: EndpointId, now: nat) returns (ok: bool)
      modifies this`windows
      ensures (windows, ok) == AllowStep(lim, old(windows), id, now)
      ensures forall other :: other != id ==> Lookup(windows, other) == Lookup(old(windows), other)
    {
      if id !in windows {
        windows := windows[id := Window(now, 0)];
      }
      var entry := windows[id];
      if now - entry.startedAt >= lim.window {
        entry := Window(now, 0);
        windows := windows[id := entry];
      }
      if entry.count >= lim.max {
        assert windows == AllowStep(lim, old(windows), id, now).0;
        return false;
      }
      windows := windows[id := entry.(count := entry.count + 1)];
      assert windows == AllowStep(lim, old(windows), id, now).0;
      return true;
    }

    method PruneExpired(now: nat)
      modifies this`windows
      ensures windows == PruneStep(lim, old(windows), now)
      ensures forall id :: Lookup(windows, id) == Live(lim, Lookup(old(windows), id), now)
    {
      windows := map id | id in windows && now - windows[id].startedAt < lim.window :: windows[id];
    }
  }

  // ---------- Runs: requests of any peers interleaved with sweeps ----------

  datatype Event = Request(id: EndpointId, at: nat) | Prune(at: nat)

  ghost predicate Monotone(events: seq<Event>) {
    forall i, j :: 0 <= i < j < |events| ==> events[i].at <= events[j].at
  }

  function After(lim: Limits, ws: Windows, e: Event): Windows {
    match e
    case Request(id, at) => AllowStep(lim, ws, id, at).0
    case Prune(at) => PruneStep(lim, ws, at)
  }

  /** The answers `id` receives over a run that starts in `ws`. */
  function AnswersTo(lim: Limits, ws: Windows, events: seq<Event>, id: EndpointId): seq<bool>
    decreases events
  {
    if events == [] then []
    else
      var rest := AnswersTo(lim, After(lim, ws, events[0]), events[1..], id);
      if events[0].Request? && events[0].id == id
      then [AllowStep(lim, ws, id, events[0].at).1] + rest
      else rest
  }

  /** When `id` asked. */
  function TimesOf(events: seq<Event>, id: EndpointId): seq<nat> {
    if events == [] then []
    else if events[0].Request? && events[0].id == id then [events[0].at] + TimesOf(events[1..], id)
    else TimesOf(events[1..], id)
  }

  /** A limiter that serves one peer and is never swept: the reference the shared one is compared to. */
  function Solo(lim: Limits, w: Option<Window>, times: seq<nat>): (answers: seq<bool>)
    ensures |answers| == |times|
    decreases times
  {
    if times == [] then []
    else
      var cur := Current(lim, w, times[0]);
      [cur.count < lim.max] + Solo(lim, Some(Counted(lim, cur)), times[1..])
  }

  /** Sharing the limiter and sweeping it are invisible to each peer. */
  lemma {:induction false} SharedLimiterRefinesSolo(
      lim: Limits, ws: Windows, w: Option<Window>, events: seq<Event>, id: EndpointId)
    requires Monotone(events)
    requires events != [] ==> Live(lim, Lookup(ws, id), events[0].at) == Live(lim, w, events[0].at)
    ensures AnswersTo(lim, ws, events, id) == Solo(lim, w, TimesOf(events, id))
    decreases events
  {
    if events != [] {
      var e, rest := events[0], events[1..];
      var ws' := After(lim, ws, e);
      var own := e.Request? && e.id == id;
      var w' := if own then Some(Counted(lim, Current(lim, w, e.at))) else w;
      assert e.Prune? ==> Lookup(ws', id) == Live(lim, Lookup(ws, id), e.at);
      if rest != [] {
        assert e.at <= events[1].at == rest[0].at;
        assert Live(lim, Lookup(ws', id), rest[0].at) == Live(lim, w', rest[0].at);
      }
      SharedLimiterRefinesSolo(lim, ws', w', rest, id);
      if own {
        assert TimesOf(events, id)[1..] == TimesOf(rest, id);
      }
    }
  }

  /**
   Adding or removing other peers' requests and sweeps anywhere in the run changes no answer: two runs
   in which `id` asks at the same times give it the same answers.
   */
  lemma AnswersDependOnOwnRequestsOnly(
      lim: Limits, ws: Windows, events: seq<Event>, events': seq<Event>, id: EndpointId)
    requires Monotone(events) && Monotone(events')
    requires TimesOf(events, id) == TimesOf(events', id)
    ensures AnswersTo(lim, ws, events, id) == AnswersTo(lim, ws, events', id)
  {
    SharedLimiterRefinesSolo(lim, ws, Lookup(ws, id), events, id);
    SharedLimiterRefinesSolo(lim, ws, Lookup(ws, id), events', id);
  }

  function WithoutPrunes(events: seq<Event>): seq<Event> {
    if events == [] then []
    else (if events[0].Prune? then [] else [events[0]]) + WithoutPrunes(events[1..])
  }

  lemma {:induction false} WithoutPrunesKeepsRequests(events: seq<Event>, id: EndpointId)
    ensures TimesOf(WithoutPrunes(events), id) == TimesOf(events, id)
  {
    if events != [] {
      WithoutPrunesKeepsRequests(events[1..], id);
      var rest := WithoutPrunes(events[1..]);
      if !events[0].Prune? {
        assert WithoutPrunes(events)[1..] == rest;
      } else {
        assert WithoutPrunes(events) == rest;
      }
    }
  }

  lemma {:induction false} WithoutPrunesMonotone(events: seq<Event>)
    requires Monotone(events)
    ensures Monotone(WithoutPrunes(events))
    ensures events != [] ==>
      forall i :: 0 <= i < |WithoutPrunes(events)| ==> events[0].at <= WithoutPrunes(events)[i].at
  {
    if events != [] {
      WithoutPrunesMonotone(events[1..]);
      assert |events| > 1 ==> events[0].at <= events[1].at;
    }
  }

  /** The sweep is a pure memory optimisation. */
  lemma PruningChangesNoAnswer(lim: Limits, ws: Windows, events: seq<Event>, id: EndpointId)
    requires Monotone(events)
    ensures AnswersTo(lim, ws, WithoutPrunes(events), id) == AnswersTo(lim, ws, events, id)
  {
    WithoutPrunesKeepsRequests(events, id);
    WithoutPrunesMonotone(events);
    AnswersDependOnOwnRequestsOnly(lim, ws, WithoutPrunes(events), events, id);
  }

  // ---------- Burst bound ----------

  ghost predicate Sorted(times: seq<nat>) {
    forall i, j :: 0 <= i < j < |times| ==> times[i] <= times[j]
  }

  lemma {:induction false} TimesOfSorted(events: seq<Event>, id: EndpointId)
    requires Monotone(events)
    ensures Sorted(TimesOf(events, id))
    ensures events != [] ==> forall i :: 0 <= i < |TimesOf(events, id)| ==> events[0].at <= TimesOf(events, id)[i]
  {
    if events != [] {
      TimesOfSorted(events[1..], id);
    }
  }

  /** How many of the requests made in `[from, from + length)` were accepted. */
  function AcceptedIn(answers: seq<bool>, times: seq<nat>, from: nat, length: nat): nat
    requires |answers| == |times|
  {
    if times == [] then 0
    else (if answers[0] && from <= times[0] < from + length then 1 else 0)
         + AcceptedIn(answers[1..], times[1..], from, length)
  }

  /** How many windows can start between `x` and `end`, one after the other. */
  function WindowsBetween(window: nat, x: int, end: int): nat
    requires window > 0
    decreases end - x
  {
    if x >= end then 0 else 1 + WindowsBetween(window, x + window, end)
  }

  lemma {:induction false} FewerWindowsLater(window: nat, x: int, y: int, end: int)
    requires window > 0 && x <= y
    ensures WindowsBetween(window, y, end) <= WindowsBetween(window, x, end)
    decreases end - x
  {
    if x < end {
      if y < end {
        FewerWindowsLater(window, x + window, y + window, end);
      }
    }
  }

  function CeilDiv(a: nat, b: nat): nat
    requires b > 0
  {
    (a + b - 1) / b
  }

  lemma {:induction false} WindowsBetweenIsCeiling(window: nat, x: int, end: int)
    requires window > 0 && x <= end
    ensures WindowsBetween(window, x, end) == CeilDiv(end - x, window)
    decreases end - x
  {
    if x < end {
      DivStep(end - x - 1, window);
      if x + window <= end {
        WindowsBetweenIsCeiling(window, x + window, end);
      } else {
        Bytes.DivUnique(end - x - 1, window, 0, end - x - 1);
      }
    } else {
      Bytes.DivUnique(window - 1, window, 0, window - 1);
    }
  }

  lemma DivStep(a: nat, b: nat)
    requires b > 0
    ensures (a + b) / b == a / b + 1
  {
    assert b * (a / b + 1) == b * (a / b) + b;
    Bytes.DivUnique(a + b, b, a / b + 1, a % b);
  }

  lemma {:induction false} NothingAcceptedAfter(answers: seq<bool>, times: seq<nat>, from: nat, length: nat)
    requires |answers| == |times|
    requires forall i :: 0 <= i < |times| ==> from + length <= times[i]
    ensures AcceptedIn(answers, times, from, length) == 0
  {
    if times != [] {
      NothingAcceptedAfter(answers[1..], times[1..], from, length);
    }
  }

  /** A window opened at `t` uses up one of those that could start from `next` on. */
  lemma WindowOpens(lim: Limits, next: int, t: int, end: int)
    requires lim.window > 0 && next <= t < end
    ensures lim.max + lim.max * WindowsBetween(lim.window, t + lim.window, end)
         <= lim.max * WindowsBetween(lim.window, next, end)
  {
    FewerWindowsLater(lim.window, next, t, end);
    var later := WindowsBetween(lim.window, t + lim.window, end);
    assert WindowsBetween(lim.window, t, end) == 1 + later;
    MulMonotone(lim.max, 1 + later, WindowsBetween(lim.window, next, end));
    assert lim.max * (1 + later) == lim.max + lim.max * later;
  }

  /** From a running window on: what is left of it, and one full budget per window that can still start. */
  lemma {:induction false} BurstFromWindow(lim: Limits, w: Window, times: seq<nat>, from: nat, length: nat)
    requires lim.window > 0 && w.count <= lim.max
    requires Sorted(times) && forall i :: 0 <= i < |times| ==> from <= times[i]
    ensures AcceptedIn(Solo(lim, Some(w), times), times, from, length)
         <= lim.max - w.count
            + lim.max * WindowsBetween(
                lim.window, if from < w.startedAt + lim.window then w.startedAt + lim.window else from, from + length)
    decreases times
  {
    var end := from + length;
    var next := if from < w.startedAt + lim.window then w.startedAt + lim.window else from;
    if times != [] {
      var t, rest := times[0], times[1..];
      var cur := Current(lim, Some(w), t);
      var w' := Counted(lim, cur);
      assert Solo(lim, Some(w), times)[1..] == Solo(lim, Some(w'), rest);
      if end <= t {
        NothingAcceptedAfter(Solo(lim, Some(w), times), times, from, length);
        assert lim.max * WindowsBetween(lim.window, next, end) >= 0;
      } else {
        BurstFromWindow(lim, w', rest, from, length);
        if Live(lim, Some(w), t).None? {
          WindowOpens(lim, next, t, end);
        }
      }
    } else {
      assert lim.max * WindowsBetween(lim.window, next, end) >= 0;
    }
  }

  lemma MulMonotone(a: nat, b: nat, c: nat)
    requires b <= c
    ensures a * b <= a * c
  {
    assert a * c == a * b + a * (c - b);
  }

  lemma {:induction false} SoloBurst(lim: Limits, w: Option<Window>, times: seq<nat>, from: nat, length: nat)
    requires lim.window > 0 && (w.Some? ==> w.value.count <= lim.max)
    requires Sorted(times)
    ensures AcceptedIn(Solo(lim, w, times), times, from, length)
         <= lim.max * (CeilDiv(length, lim.window) + 1)
    decreases times
  {
    if times != [] {
      var cur := Current(lim, w, times[0]);
      var w' := Counted(lim, cur);
      assert Solo(lim, w, times)[1..] == Solo(lim, Some(w'), times[1..]);
      if times[0] < from {
        SoloBurst(lim, Some(w'), times[1..], from, length);
      } else {
        assert Solo(lim, w, times) == Solo(lim, Some(cur), times) by {
          assert Current(lim, Some(cur), times[0]) == cur;
        }
        BurstFromWindow(lim, cur, times, from, length);
        var next := if from < cur.startedAt + lim.window then cur.startedAt + lim.window else from;
        FewerWindowsLater(lim.window, from, next, from + length);
        WindowsBetweenIsCeiling(lim.window, from, from + length);
        MulMonotone(lim.max, WindowsBetween(lim.window, next, from + length), CeilDiv(length, lim.window));
        assert lim.max * (CeilDiv(length, lim.window) + 1) == lim.max * CeilDiv(length, lim.window) + lim.max;
      }
    } else {
      assert lim.max * (CeilDiv(length, lim.window) + 1) >= 0;
    }
  }

  /**
   However requests and sweeps interleave, a peer is let through at most `max` times the number of
   windows that can touch the span.
   */
  lemma BurstBound(lim: Limits, events: seq<Event>, id: EndpointId, from: nat, length: nat)
    requires lim.window > 0 && Monotone(events)
    ensures |AnswersTo(lim, map[], events, id)| == |TimesOf(events, id)|
    ensures AcceptedIn(AnswersTo(lim, map[], events, id), TimesOf(events, id), from, length)
         <= lim.max * (CeilDiv(length, lim.window) + 1)
  {
    SharedLimiterRefinesSolo(lim, map[], None, events, id);
    TimesOfSorted(events, id);
    SoloBurst(lim, None, TimesOf(events, id), from, length);
  }

  // ---------- Fairness ----------

  function RequestsIn(times: seq<nat>, from: nat, length: nat): nat {
    if times == [] then 0
    else (if from <= times[0] < from + length then 1 else 0) + RequestsIn(times[1..], from, length)
  }

  /** The peer stays within its budget in every span of one window's length. */
  ghost predicate Polite(lim: Limits, times: seq<nat>) {
    forall from: nat :: RequestsIn(times, from, lim.window) <= lim.max
  }

  lemma {:induction false} RunIsCounted(times: seq<nat>, from: nat, length: nat, lo: nat, hi: nat)
    requires lo <= hi <= |times|
    requires forall i :: lo <= i < hi ==> from <= times[i] < from + length
    ensures hi - lo <= RequestsIn(times, from, length)
    decreases hi
  {
    if lo < hi {
      if lo == 0 {
        RunIsCounted(times[1..], from, length, 0, hi - 1);
      } else {
        RunIsCounted(times[1..], from, length, lo - 1, hi - 1);
      }
    }
  }

  ghost predicate AllAccepted(answers: seq<bool>) {
    forall i :: 0 <= i < |answers| ==> answers[i]
  }

  /** Requests `first..k` were all let through in the window that `first` opened. */
  lemma {:induction false} PoliteFrom(lim: Limits, times: seq<nat>, first: nat, k: nat)
    requires lim.window > 0 && Sorted(times) && Polite(lim, times)
    requires first <= k <= |times| && first < |times|
    requires forall i :: first <= i < k ==> times[i] < times[first] + lim.window
    ensures AllAccepted(Solo(lim, Some(Window(times[first], k - first)), times[k..]))
    decreases |times| - k
  {
    if k < |times| {
      var w := Window(times[first], k - first);
      var rest := times[k..];
      var opener := if times[k] - times[first] < lim.window then first else k;
      assert times[first] <= times[k];
      assert Current(lim, Some(w), rest[0]) == Window(times[opener], k - opener);
      RunIsCounted(times, times[opener], lim.window, opener, k + 1);
      assert k + 1 - opener <= RequestsIn(times, times[opener], lim.window) <= lim.max;
      assert rest[1..] == times[k + 1..];
      PoliteFrom(lim, times, opener, k + 1);
    }
  }

  /** A peer that never exceeds its budget in any span of one window is never refused, whoever else asks. */
  lemma PolitePeerIsNeverRefused(lim: Limits, events: seq<Event>, id: EndpointId)
    requires lim.window > 0 && Monotone(events)
    requires Polite(lim, TimesOf(events, id))
    ensures AllAccepted(AnswersTo(lim, map[], events, id))
  {
    var times := TimesOf(events, id);
    SharedLimiterRefinesSolo(lim, map[], None, events, id);
    TimesOfSorted(events, id);
    if times != [] {
      PoliteFrom(lim, times, 0, 0);
      assert times[0..] == times;
      assert Current(lim, None, times[0]) == Current(lim, Some(Window(times[0], 0)), times[0]);
      assert Solo(lim, None, times) == Solo(lim, Some(Window(times[0], 0)), times);
    }
  }
}

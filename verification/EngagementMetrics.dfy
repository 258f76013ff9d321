/** Engagement metrics of a session: time spent waiting for a human, and response latencies. */
module EngagementMetrics {
  import opened Sorting
  import opened Wrappers

  datatype Kind = AgentStop | UserPrompt | Notification | Other

  /** A session event; timestamps are epoch milliseconds. */
  datatype Event = Event(kind: Kind, ts: int)

  datatype StopFailure = StopFailure(ts: int, isRateLimit: bool)

  /** A stretch of waiting, from an agent stop to the prompt that ended it. */
  datatype Wait = Wait(start: int, end: int)

  /** The query orders events by timestamp. */
  predicate Ordered(events: seq<Event>)
  {
    forall i, j :: 0 <= i < j < |events| ==> events[i].ts <= events[j].ts
  }

  // ---- Waiting for a human ----

  /** The scan runs backwards from an index to the most recent stop. */
  method FindLastAgentStopTime(events: seq<Event>, before: nat) returns (r: Option<int>)
    requires before <= |events|
    ensures r == LastStop(events[..before])
  {
    var j := before;
    while j > 0
      invariant 0 <= j <= before
      invariant LastStop(events[..before]) == LastStop(events[..j])
    {
      j := j - 1;
      assert events[..j + 1][..j] == events[..j];
      if events[j].kind.AgentStop? {
        return Some(events[j].ts);
      }
    }
    r := None;
  }

  function LastStop(events: seq<Event>): (r: Option<int>)
  {
    if events == [] then None
    else if events[|events| - 1].kind.AgentStop? then Some(events[|events| - 1].ts)
    else LastStop(events[..|events| - 1])
  }

  /** Reference: one pass that carries the current stop, cleared by each prompt. */
  function IdleSince(events: seq<Event>): (r: Option<int>)
  {
    if events == [] then None
    else
      var last := events[|events| - 1];
      match last.kind
      case AgentStop => Some(last.ts)
      case UserPrompt => None
      case _ => IdleSince(events[..|events| - 1])
  }

  /** Reference: the stretches of waiting. */
  function Waits(events: seq<Event>): (r: seq<Wait>)
  {
    if events == [] then []
    else
      var front, last := events[..|events| - 1], events[|events| - 1];
      if last.kind.UserPrompt? && IdleSince(front).Some? then Waits(front) + [Wait(IdleSince(front).value, last.ts)]
      else Waits(front)
  }

  function HumanIdleMs(w: Wait, failures: seq<StopFailure>): (r: int)
  {
    if exists k :: 0 <= k < |failures| && failures[k].isRateLimit && w.start <= failures[k].ts <= w.end then 0
    else w.end - w.start
  }

  function TotalIdleMs(waits: seq<Wait>, failures: seq<StopFailure>): (r: int)
  {
    if waits == [] then 0
    else TotalIdleMs(waits[..|waits| - 1], failures) + HumanIdleMs(waits[|waits| - 1], failures)
  }

  function Round(x: real): (r: int)
  {
    (x + 0.5).Floor
  }

  /** One decimal of a percentage, or None for a session without duration. */
  function IdlePercent(idleMs: int, totalMs: int): (r: Option<real>)
  {
    if totalMs > 0 then Some((Round(idleMs as real / totalMs as real * 1000.0) as real) / 10.0) else None
  }

  /** The backward scan agrees with the carried stop wherever the code consults it. */
  lemma {:induction false} CarriedStopAgrees(events: seq<Event>)
    ensures IdleSince(events).Some? ==> IdleSince(events) == LastStop(events)
  {
    if events != [] && !events[|events| - 1].kind.AgentStop? && !events[|events| - 1].kind.UserPrompt? {
      CarriedStopAgrees(events[..|events| - 1]);
    }
  }

  method ComputeAgentIdlePercent(events: seq<Event>, failures: seq<StopFailure>) returns (r: Option<real>)
    requires events != []
    ensures r == IdlePercent(TotalIdleMs(Waits(events), failures), events[|events| - 1].ts - events[0].ts)
  {
    var waitingForHumanMs, active := 0, true;
    for i := 0 to |events|
      invariant waitingForHumanMs == TotalIdleMs(Waits(events[..i]), failures)
      invariant active == IdleSince(events[..i]).None?
    {
      assert events[..i + 1][..i] == events[..i];
      var e := events[i];
      if e.kind.AgentStop? {
        active := false;
      } else if e.kind.UserPrompt? {
        if !active {
          CarriedStopAgrees(events[..i]);
          var idleStart := FindLastAgentStopTime(events, i);
          if idleStart.Some? {
            waitingForHumanMs := waitingForHumanMs + HumanIdleMs(Wait(idleStart.value, e.ts), failures);
          }
        }
        active := true;
      }
    }
    assert events[..|events|] == events;
    r := IdlePercent(waitingForHumanMs, events[|events| - 1].ts - events[0].ts);
  }

  /** Waits follow one another inside [lo, hi] without overlapping. */
  predicate Disjoint(waits: seq<Wait>, lo: int, hi: int)
  {
    && (forall k :: 0 <= k < |waits| ==> lo <= waits[k].start <= waits[k].end <= hi)
    && (forall k, l :: 0 <= k < l < |waits| ==> waits[k].end <= waits[l].start)
  }

  lemma {:induction false} WaitsAreDisjoint(events: seq<Event>)
    requires events != [] && Ordered(events)
    ensures Disjoint(Waits(events), events[0].ts, events[|events| - 1].ts)
    ensures IdleSince(events).Some? ==>
              && events[0].ts <= IdleSince(events).value <= events[|events| - 1].ts
              && forall k :: 0 <= k < |Waits(events)| ==> Waits(events)[k].end <= IdleSince(events).value
  {
    if |events| >= 2 {
      var front := events[..|events| - 1];
      WaitsAreDisjoint(front);
      assert front[|front| - 1].ts <= events[|events| - 1].ts;
    } else {
      assert events[..0] == [];
    }
  }

  lemma {:induction false} DisjointSum(waits: seq<Wait>, failures: seq<StopFailure>, lo: int, hi: int)
    requires Disjoint(waits, lo, hi) && lo <= hi
    ensures 0 <= TotalIdleMs(waits, failures) <= hi - lo
  {
    if waits != [] {
      var last := waits[|waits| - 1];
      DisjointSum(waits[..|waits| - 1], failures, lo, last.start);
    }
  }

  lemma PercentInRange(idleMs: int, totalMs: int)
    requires 0 <= idleMs <= totalMs && totalMs > 0
    ensures 0.0 <= IdlePercent(idleMs, totalMs).value <= 100.0
  {
    var share := idleMs as real / totalMs as real;
    assert 0.0 <= share <= 1.0;
  }

  /**
    For time-ordered events the counted waits are disjoint inside the session, so the percentage lies between 0 and
    100.
   */
  lemma IdleAccountingBound(events: seq<Event>, failures: seq<StopFailure>)
    requires events != [] && Ordered(events)
    ensures var session := events[|events| - 1].ts - events[0].ts;
            var idle := TotalIdleMs(Waits(events), failures);
            && Disjoint(Waits(events), events[0].ts, events[|events| - 1].ts)
            && 0 <= idle <= session
            && (IdlePercent(idle, session).Some? ==> 0.0 <= IdlePercent(idle, session).value <= 100.0)
  {
    WaitsAreDisjoint(events);
    DisjointSum(Waits(events), failures, events[0].ts, events[|events| - 1].ts);
    var session := events[|events| - 1].ts - events[0].ts;
    if session > 0 {
      PercentInRange(TotalIdleMs(Waits(events), failures), session);
    }
  }

  // ---- Response latency ----

  /** Reference: the notification a prompt would be answering, looking backwards. */
  function Awaiting(events: seq<Event>): (r: Option<int>)
  {
    if events == [] then None
    else
      var front, last := events[..|events| - 1], events[|events| - 1];
      match last.kind
      case Notification => if IdleSince(front).Some? then Some(last.ts) else Awaiting(front)
      case Other => Awaiting(front)
      case _ => None
  }

  function Latencies(events: seq<Event>): (r: seq<int>)
  {
    if events == [] then []
    else
      var front, last := events[..|events| - 1], events[|events| - 1];
      if last.kind.UserPrompt? && Awaiting(front).Some? then Latencies(front) + [last.ts - Awaiting(front).value]
      else Latencies(front)
  }

  method LatencySamples(events: seq<Event>) returns (samples: seq<int>)
    ensures samples == Latencies(events)
  {
    samples := [];
    var lastNotification: Option<int>, inIdlePeriod := None, false;
    for i := 0 to |events|
      invariant samples == Latencies(events[..i])
      invariant lastNotification == Awaiting(events[..i]) && inIdlePeriod == IdleSince(events[..i]).Some?
    {
      assert events[..i + 1][..i] == events[..i];
      var e := events[i];
      if e.kind.AgentStop? {
        inIdlePeriod, lastNotification := true, None;
      } else if e.kind.Notification? && inIdlePeriod {
        lastNotification := Some(e.ts);
      } else if e.kind.UserPrompt? {
        if lastNotification.Some? {
          samples := samples + [e.ts - lastNotification.value];
        }
        inIdlePeriod, lastNotification := false, None;
      }
    }
    assert events[..|events|] == events;
  }

  lemma {:induction false} AwaitingIsPast(events: seq<Event>)
    requires Ordered(events)
    ensures Awaiting(events).Some? ==> events != [] && Awaiting(events).value <= events[|events| - 1].ts
  {
    if events != [] {
      AwaitingIsPast(events[..|events| - 1]);
    }
  }

  lemma {:induction false} LatenciesNonNegative(events: seq<Event>)
    requires Ordered(events)
    ensures forall k :: 0 <= k < |Latencies(events)| ==> 0 <= Latencies(events)[k]
  {
    if events != [] {
      var front := events[..|events| - 1];
      LatenciesNonNegative(front);
      AwaitingIsPast(front);
      assert front != [] ==> front[|front| - 1].ts <= events[|events| - 1].ts;
    }
  }

  // ---- Percentiles ----

  function Sorted(samples: seq<int>): (r: seq<int>)
  {
    Sort(samples, (x: int) => x)
  }

  predicate InOrder(s: seq<int>)
  {
    forall i, j :: 0 <= i < j < |s| ==> s[i] <= s[j]
  }

  function CountAtMost(s: seq<int>, v: int): (r: nat)
  {
    if s == [] then 0 else CountAtMost(s[..|s| - 1], v) + (if s[|s| - 1] <= v then 1 else 0)
  }

  lemma {:induction false} CountBounds(s: seq<int>, v: int, k: nat)
    requires InOrder(s) && k <= |s|
    ensures (k > 0 ==> s[k - 1] <= v) ==> CountAtMost(s, v) >= k
    ensures (k < |s| ==> s[k] > v) ==> CountAtMost(s, v) <= k
  {
    if s != [] {
      CountBounds(s[..|s| - 1], v, if k == |s| then k - 1 else k);
    }
  }

  function Rank(p: nat, n: nat): (r: nat)
  {
    (p * n + 99) / 100
  }

  lemma RankBounds(p: nat, n: nat)
    requires n > 0 && 0 < p <= 100
    ensures 1 <= Rank(p, n) <= n
    ensures 100 * Rank(p, n) >= p * n > 100 * (Rank(p, n) - 1)
  {
    var m := p * n;
    assert 0 < m <= 100 * n;
  }

  lemma RankGrows(n: nat, p: nat, q: nat)
    requires p <= q
    ensures Rank(p, n) <= Rank(q, n)
  {
    assert p * n <= q * n;
  }

  /** Nearest rank: the element at ceil(p/100 * n) - 1, and 0 for no samples. */
  function Percentile(sorted: seq<int>, p: nat): (r: int)
    requires p <= 100
  {
    if sorted == [] then 0
    else if p == 0 then sorted[0]
    else RankBounds(p, |sorted|); sorted[Rank(p, |sorted|) - 1]
  }

  /** The percentile is the least sample that at least p percent of the samples do not exceed. */
  lemma NearestRank(sorted: seq<int>, p: nat)
    requires InOrder(sorted) && sorted != [] && 0 < p <= 100
    ensures var v := Percentile(sorted, p);
            && v in sorted
            && 100 * CountAtMost(sorted, v) >= p * |sorted|
            && forall u :: u in sorted && u < v ==> 100 * CountAtMost(sorted, u) < p * |sorted|
  {
    RankBounds(p, |sorted|);
    LeastAtRank(sorted, Rank(p, |sorted|), p * |sorted|);
  }

  lemma LeastAtRank(sorted: seq<int>, rank: nat, share: nat)
    requires InOrder(sorted) && 1 <= rank <= |sorted|
    requires 100 * rank >= share > 100 * (rank - 1)
    ensures 100 * CountAtMost(sorted, sorted[rank - 1]) >= share
    ensures forall u :: u in sorted && u < sorted[rank - 1] ==> 100 * CountAtMost(sorted, u) < share
  {
    CountBounds(sorted, sorted[rank - 1], rank);
    forall u | u in sorted && u < sorted[rank - 1]
      ensures 100 * CountAtMost(sorted, u) < share
    {
      CountBounds(sorted, u, rank - 1);
    }
  }

  lemma RanksInOrder(n: nat)
    requires n > 0
    ensures 1 <= Rank(50, n) <= Rank(95, n) <= n
  {
    RankBounds(50, n);
    RankBounds(95, n);
    RankGrows(n, 50, 95);
  }

  lemma OrderAtRanks(s: seq<int>, a: nat, b: nat)
    requires InOrder(s) && 1 <= a <= b <= |s|
    ensures s[0] <= s[a - 1] <= s[b - 1] <= s[|s| - 1]
  {
  }

  lemma PercentilesInOrder(s: seq<int>)
    requires InOrder(s) && s != []
    ensures s[0] <= Percentile(s, 50) <= Percentile(s, 95) <= s[|s| - 1]
  {
    PercentileAt(s, 50);
    PercentileAt(s, 95);
    RanksInOrder(|s|);
    OrderAtRanks(s, Rank(50, |s|), Rank(95, |s|));
  }

  lemma PercentileAt(s: seq<int>, p: nat)
    requires s != [] && 0 < p <= 100
    ensures 1 <= Rank(p, |s|) <= |s| && Percentile(s, p) == s[Rank(p, |s|) - 1]
  {
    RankBounds(p, |s|);
  }

  /** Over the sorted latency samples of a time-ordered session: 0 <= min <= p50 <= p95 <= max. */
  lemma LatencyPercentilesInOrder(events: seq<Event>)
    requires Ordered(events) && Latencies(events) != []
    ensures var s := Sorted(Latencies(events));
            && |s| == |Latencies(events)| && multiset(s) == multiset(Latencies(events)) && InOrder(s)
            && 0 <= s[0] <= Percentile(s, 50) <= Percentile(s, 95) <= s[|s| - 1]
  {
    LatenciesNonNegative(events);
    SortedSamples(Latencies(events));
    PercentilesInOrder(Sorted(Latencies(events)));
  }

  lemma SortedSamples(samples: seq<int>)
    requires forall k :: 0 <= k < |samples| ==> 0 <= samples[k]
    ensures var s := Sorted(samples);
            && |s| == |samples| && multiset(s) == multiset(samples) && InOrder(s)
            && (s != [] ==> 0 <= s[0])
  {
    SortKeepsAll(samples, (x: int) => x);
    SortOrders(samples, (x: int) => x, 0);
  }

  // ---- What the figures say ----

  /** The percentage is the share of the session spent waiting, to within half a tenth of a percent. */
  lemma PercentIsShare(idleMs: int, totalMs: int)
    requires totalMs > 0
    ensures var p := IdlePercent(idleMs, totalMs);
            p.Some? && -0.05 <= p.value - 100.0 * idleMs as real / totalMs as real <= 0.05
  {
    var tenths := idleMs as real / totalMs as real * 1000.0;
    var rounded := Round(tenths);
    assert tenths - 0.5 <= rounded as real <= tenths + 0.5;
    assert 100.0 * idleMs as real / totalMs as real == tenths / 10.0;
  }

  /** A session without duration has no percentage. */
  lemma NoDurationNoPercent(idleMs: int, totalMs: int)
    requires totalMs <= 0
    ensures IdlePercent(idleMs, totalMs) == None
  {
  }

  /** The last stop before an index, with no prompt since. */
  predicate StopBefore(events: seq<Event>, j: nat, i: nat)
    requires i <= |events|
  {
    && j < i && events[j].kind == AgentStop
    && (forall k :: j < k < i ==> events[k].kind != UserPrompt && events[k].kind != AgentStop)
  }

  lemma {:induction false} IdleSinceIs(events: seq<Event>, j: nat)
    requires StopBefore(events, j, |events|)
    ensures IdleSince(events) == Some(events[j].ts)
  {
    var front := events[..|events| - 1];
    if j < |events| - 1 {
      assert StopBefore(front, j, |front|);
      IdleSinceIs(front, j);
    }
  }

  lemma {:induction false} IdleSinceOnly(events: seq<Event>) returns (j: nat)
    requires IdleSince(events).Some?
    ensures StopBefore(events, j, |events|)
  {
    var front, last := events[..|events| - 1], events[|events| - 1];
    if last.kind == AgentStop {
      j := |events| - 1;
    } else {
      j := IdleSinceOnly(front);
      assert forall k :: j < k < |front| ==> front[k] == events[k];
    }
  }

  /** Every prompt that answers a stop ends a wait that began at that stop. */
  lemma {:induction false} PromptEndsWait(events: seq<Event>, j: nat, i: nat)
    requires i < |events| && events[i].kind == UserPrompt && StopBefore(events, j, i)
    ensures Wait(events[j].ts, events[i].ts) in Waits(events)
    decreases |events|
  {
    var front := events[..|events| - 1];
    if i < |events| - 1 {
      assert StopBefore(front, j, i);
      PromptEndsWait(front, j, i);
    } else {
      assert StopBefore(front, j, |front|);
      IdleSinceIs(front, j);
    }
  }

  /** And nothing else is a wait. */
  lemma {:induction false} WaitHasPrompt(events: seq<Event>, w: Wait) returns (j: nat, i: nat)
    requires w in Waits(events)
    ensures i < |events| && events[i].kind == UserPrompt && StopBefore(events, j, i)
            && w == Wait(events[j].ts, events[i].ts)
  {
    var front, last := events[..|events| - 1], events[|events| - 1];
    if w in Waits(front) {
      j, i := WaitHasPrompt(front, w);
      assert forall k :: 0 <= k < |front| ==> front[k] == events[k];
    } else {
      j := IdleSinceOnly(front);
      i := |front|;
      IdleSinceIs(front, j);
      assert forall k :: 0 <= k < |front| ==> front[k] == events[k];
    }
  }

  /** A wait counts in full, unless a rate limit was hit during it, when it does not count. */
  lemma WaitCounts(w: Wait, failures: seq<StopFailure>)
    ensures (exists f :: f in failures && f.isRateLimit && w.start <= f.ts <= w.end) ==> HumanIdleMs(w, failures) == 0
    ensures !(exists f :: f in failures && f.isRateLimit && w.start <= f.ts <= w.end) ==>
            HumanIdleMs(w, failures) == w.end - w.start
  {
    if f :| f in failures && f.isRateLimit && w.start <= f.ts <= w.end {
      var k :| 0 <= k < |failures| && failures[k] == f;
    }
  }

  /**
    The notification a prompt at i answers: the last one since the stop that precedes it, with no prompt in between.
   */
  predicate Notified(events: seq<Event>, j: nat, n: nat, i: nat)
    requires i <= |events|
  {
    && j < n < i && StopBefore(events, j, i) && events[n].kind == Notification
    && forall k :: n < k < i ==> events[k].kind != Notification
  }

  lemma {:induction false} AwaitingIs(events: seq<Event>, j: nat, n: nat)
    requires Notified(events, j, n, |events|)
    ensures Awaiting(events) == Some(events[n].ts)
  {
    var front := events[..|events| - 1];
    if n < |events| - 1 {
      assert Notified(front, j, n, |front|);
      AwaitingIs(front, j, n);
    } else {
      assert StopBefore(front, j, |front|);
      IdleSinceIs(front, j);
    }
  }

  /** Every prompt that answers a notification gives a latency sample. */
  lemma {:induction false} PromptGivesSample(events: seq<Event>, j: nat, n: nat, i: nat)
    requires i < |events| && events[i].kind == UserPrompt && Notified(events, j, n, i)
    ensures events[i].ts - events[n].ts in Latencies(events)
    decreases |events|
  {
    var front := events[..|events| - 1];
    if i < |events| - 1 {
      assert Notified(front, j, n, i);
      PromptGivesSample(front, j, n, i);
    } else {
      assert Notified(front, j, n, |front|);
      AwaitingIs(front, j, n);
    }
  }

  lemma {:induction false} AwaitingOnly(events: seq<Event>) returns (j: nat, n: nat)
    requires Awaiting(events).Some?
    ensures Notified(events, j, n, |events|) && Awaiting(events) == Some(events[n].ts)
  {
    var front, last := events[..|events| - 1], events[|events| - 1];
    assert forall k :: 0 <= k < |front| ==> front[k] == events[k];
    if last.kind == Notification && IdleSince(front).Some? {
      n := |events| - 1;
      j := IdleSinceOnly(front);
    } else {
      j, n := AwaitingOnly(front);
      IdleSinceIs(front, j);
    }
  }

  /** The prompts that answer a notification. */
  ghost function Answered(events: seq<Event>): (r: set<nat>)
  {
    set i: nat | i < |events| && events[i].kind == UserPrompt && Answers(events, i)
  }

  ghost predicate Answers(events: seq<Event>, i: nat)
    requires i <= |events|
  {
    exists j: nat, n: nat :: Notified(events, j, n, i)
  }

  lemma AnswersInFront(events: seq<Event>, i: nat)
    requires events != [] && i < |events|
    ensures Answers(events[..|events| - 1], i) <==> Answers(events, i)
  {
    var front := events[..|events| - 1];
    assert forall k :: 0 <= k < |front| ==> front[k] == events[k];
    if Answers(front, i) {
      var j: nat, n: nat :| Notified(front, j, n, i);
      assert Notified(events, j, n, i);
    }
    if Answers(events, i) {
      var j: nat, n: nat :| Notified(events, j, n, i);
      assert Notified(front, j, n, i);
    }
  }

  lemma AwaitingIffAnswers(events: seq<Event>)
    ensures Awaiting(events).Some? <==> Answers(events, |events|)
  {
    if Awaiting(events).Some? {
      var j, n := AwaitingOnly(events);
    }
    if Answers(events, |events|) {
      var j: nat, n: nat :| Notified(events, j, n, |events|);
      AwaitingIs(events, j, n);
    }
  }

  lemma AnsweredSplit(events: seq<Event>)
    requires events != []
    ensures var front, n := events[..|events| - 1], |events| - 1;
            Answered(events) ==
              Answered(front) + (if events[n].kind == UserPrompt && Answers(front, n) then {n} else {})
  {
    var front := events[..|events| - 1];
    forall i: nat | i < |events|
      ensures Answers(front, i) <==> Answers(events, i)
    {
      AnswersInFront(events, i);
    }
  }

  /** There is one sample for each of them. */
  lemma {:induction false} OneSampleEach(events: seq<Event>)
    ensures |Latencies(events)| == |Answered(events)|
  {
    if events != [] {
      var front := events[..|events| - 1];
      OneSampleEach(front);
      AwaitingIffAnswers(front);
      AnsweredSplit(events);
      var n := |events| - 1;
      OneMore(Answered(front), n);
    }
  }

  lemma OneMore(s: set<nat>, n: nat)
    ensures n !in s ==> |s + {n}| == |s| + 1
    ensures |s + {}| == |s|
  {
    assert s + {} == s;
  }
}

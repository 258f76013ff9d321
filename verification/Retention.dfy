/** Retention of analytics rows: old events go, old rate-limit snapshots thin out to one an hour and then one a day. */
module Retention {

  const HOUR_MS: int := 3_600_000
  const DAY_MS: int := 86_400_000

  /** Row id to timestamp, in epoch milliseconds. */
  type Table = map<nat, int>

  /** Timestamps from lo (when there is one) up to but excluding hi. */
  datatype Range = Since(lo: int, hi: int) | Before(hi: int) {
    predicate Covers(ts: int)
    {
      ts < hi && (Since? ==> lo <= ts)
    }
  }

  function HourlyRange(now: int): (r: Range)
  {
    Since(now - 30 * DAY_MS, now - 7 * DAY_MS)
  }

  function DailyRange(now: int): (r: Range)
  {
    Before(now - 30 * DAY_MS)
  }

  /** MIN(id) among the rows of a range, grouped by the UTC hour or day. */
  predicate LowestOfGroup(s: Table, id: nat, range: Range, width: int)
    requires id in s && width > 0
  {
    forall j :: j in s && range.Covers(s[j]) && s[j] / width == s[id] / width ==> id <= j
  }

  /** DELETE the rows of a range that are not the lowest of their group. */
  function Thin(s: Table, range: Range, width: int): (r: Table)
    requires width > 0
  {
    map id | id in s && (range.Covers(s[id]) ==> LowestOfGroup(s, id, range, width)) :: s[id]
  }

  /** Both statements, in the order they run. */
  function Cleanup(s: Table, now: int): (r: Table)
  {
    Thin(Thin(s, HourlyRange(now), HOUR_MS), DailyRange(now), DAY_MS)
  }

  class Analytics {
    var events: Table
    var snapshots: Table

    method RunRetentionCleanup(now: int, retentionDays: nat)
      modifies this
      ensures events == map id | id in old(events) && now - retentionDays * DAY_MS <= old(events)[id] :: old(events)[id]
      ensures snapshots == Cleanup(old(snapshots), now)
    {
      var cutoff := now - retentionDays * DAY_MS;
      events := map id | id in events && cutoff <= events[id] :: events[id];
      snapshots := Thin(snapshots, HourlyRange(now), HOUR_MS);
      snapshots := Thin(snapshots, DailyRange(now), DAY_MS);
    }
  }

  // ---- What a cleanup keeps ----

  /** Where a timestamp falls at a given moment. */
  datatype Slot = Recent | Hour(hour: int) | Day(day: int)

  function SlotOf(ts: int, now: int): (r: Slot)
  {
    if ts >= now - 7 * DAY_MS then Recent
    else if ts >= now - 30 * DAY_MS then Hour(ts / HOUR_MS)
    else Day(ts / DAY_MS)
  }

  predicate Lowest(s: Table, id: nat, now: int)
    requires id in s
  {
    forall j :: j in s && SlotOf(s[j], now) == SlotOf(s[id], now) ==> id <= j
  }

  predicate Survives(s: Table, id: nat, now: int)
  {
    id in s && (SlotOf(s[id], now).Recent? || Lowest(s, id, now))
  }

  /** A cleanup keeps every recent row, and of each older hour or day exactly its lowest row. */
  lemma CleanupKeeps(s: Table, now: int)
    ensures forall id :: id in Cleanup(s, now) <==> Survives(s, id, now)
    ensures forall id :: id in Cleanup(s, now) ==> Cleanup(s, now)[id] == s[id]
  {
    HourlyKeeps(s, now);
    DailyKeeps(Thin(s, HourlyRange(now), HOUR_MS), now);
    forall id | id in s && !SlotOf(s[id], now).Hour?
      ensures id in Thin(s, HourlyRange(now), HOUR_MS)
    {
    }
  }

  lemma HourlyKeeps(s: Table, now: int)
    ensures forall id :: id in Thin(s, HourlyRange(now), HOUR_MS) <==>
            id in s && (SlotOf(s[id], now).Hour? ==> Lowest(s, id, now))
  {
    forall id | id in s && SlotOf(s[id], now).Hour?
      ensures LowestOfGroup(s, id, HourlyRange(now), HOUR_MS) <==> Lowest(s, id, now)
    {
    }
  }

  lemma DailyKeeps(s: Table, now: int)
    ensures forall id :: id in Thin(s, DailyRange(now), DAY_MS) <==>
            id in s && (SlotOf(s[id], now).Day? ==> Lowest(s, id, now))
  {
    forall id | id in s && SlotOf(s[id], now).Day?
      ensures LowestOfGroup(s, id, DailyRange(now), DAY_MS) <==> Lowest(s, id, now)
    {
    }
  }

  /** The lowest row of a row's slot. */
  ghost function LowestOf(s: Table, id: nat, now: int): (m: nat)
    requires id in s
    ensures m <= id && m in s && SlotOf(s[m], now) == SlotOf(s[id], now) && Lowest(s, m, now)
  {
    if Lowest(s, id, now) then id
    else
      var j :| j in s && SlotOf(s[j], now) == SlotOf(s[id], now) && j < id;
      LowestOf(s, j, now)
  }

  /** Every older hour and day that had a row still has exactly one: its lowest. */
  lemma OnePerSlot(s: Table, id: nat, now: int) returns (kept: nat)
    requires id in s && !SlotOf(s[id], now).Recent?
    ensures kept in Cleanup(s, now) && Lowest(s, kept, now)
    ensures forall j :: j in Cleanup(s, now) && SlotOf(s[j], now) == SlotOf(s[id], now) ==> j == kept
  {
    CleanupKeeps(s, now);
    kept := LowestOf(s, id, now);
  }

  // ---- Repeated cleanups ----

  /** Rows that share an hour or day at one moment still share theirs at the later one. */
  predicate Coarsens(s: Table, t: int, later: int)
  {
    forall i, j :: i in s && j in s && SlotOf(s[i], t) == SlotOf(s[j], t) && !SlotOf(s[i], t).Recent? ==>
      SlotOf(s[i], later) == SlotOf(s[j], later)
  }

  /** No UTC hour has rows on both sides of the thirty-day mark. */
  predicate NoHourStraddles(s: Table, now: int)
  {
    forall i, j :: i in s && j in s && s[i] / HOUR_MS == s[j] / HOUR_MS && s[i] < now - 30 * DAY_MS ==>
      s[j] < now - 30 * DAY_MS
  }

  lemma SameHourSameDay(x: int, y: int)
    requires x / HOUR_MS == y / HOUR_MS
    ensures x / DAY_MS == y / DAY_MS
  {
    assert x / DAY_MS == (x / HOUR_MS) / 24;
    assert y / DAY_MS == (y / HOUR_MS) / 24;
  }

  lemma SlotsCoarsen(s: Table, t: int, later: int)
    requires t <= later && (NoHourStraddles(s, later) || t == later)
    ensures Coarsens(s, t, later)
  {
    forall i, j | i in s && j in s && SlotOf(s[i], t) == SlotOf(s[j], t) && !SlotOf(s[i], t).Recent?
      ensures SlotOf(s[i], later) == SlotOf(s[j], later)
    {
      if SlotOf(s[i], t).Hour? {
        SameHourSameDay(s[i], s[j]);
      }
    }
  }

  /** Of what s holds, c misses only rows that share an older hour or day with a lower row of c. */
  ghost predicate Represents(c: Table, s: Table, now: int)
  {
    && (forall id :: id in c ==> id in s && c[id] == s[id])
    && (forall id :: id in s && id !in c ==> Covered(c, id, SlotOf(s[id], now), now))
  }

  ghost predicate Covered(c: Table, id: nat, slot: Slot, now: int)
  {
    !slot.Recent? && exists m :: m in c && m < id && SlotOf(c[m], now) == slot
  }

  lemma RepresentativesSurviveAlike(c: Table, s: Table, now: int, id: nat)
    requires Represents(c, s, now)
    ensures Survives(c, id, now) <==> Survives(s, id, now)
  {
    if Survives(c, id, now) && !SlotOf(s[id], now).Recent? {
      forall j | j in s && SlotOf(s[j], now) == SlotOf(s[id], now)
        ensures id <= j
      {
        if j !in c {
          var m :| m in c && m < j && SlotOf(c[m], now) == SlotOf(s[j], now);
        }
      }
    }
  }

  lemma RepresentativesSuffice(c: Table, s: Table, now: int)
    requires Represents(c, s, now)
    ensures Cleanup(c, now) == Cleanup(s, now)
  {
    CleanupKeeps(c, now);
    CleanupKeeps(s, now);
    forall id: nat
      ensures id in Cleanup(c, now) <==> id in Cleanup(s, now)
    {
      RepresentativesSurviveAlike(c, s, now, id);
    }
  }

  lemma CleanupRepresents(s: Table, t: int, later: int)
    requires t <= later && Coarsens(s, t, later)
    ensures Represents(Cleanup(s, t), s, later)
  {
    CleanupKeeps(s, t);
    forall id | id in s && id !in Cleanup(s, t)
      ensures Covered(Cleanup(s, t), id, SlotOf(s[id], later), later)
    {
      var m := LowestOf(s, id, t);
      assert m in Cleanup(s, t) && SlotOf(s[m], later) == SlotOf(s[id], later);
    }
  }

  lemma RepresentsTransitive(a: Table, b: Table, s: Table, now: int)
    requires Represents(a, b, now) && Represents(b, s, now)
    ensures Represents(a, s, now)
  {
    forall id | id in s && id !in a
      ensures Covered(a, id, SlotOf(s[id], now), now)
    {
      if id !in b {
        var m :| m in b && m < id && SlotOf(b[m], now) == SlotOf(s[id], now);
        if m !in a {
          assert Covered(a, m, SlotOf(b[m], now), now);
        }
      }
    }
  }

  lemma InsertRepresents(c: Table, s: Table, id: nat, ts: int, now: int)
    requires Represents(c, s, now) && id !in s
    ensures Represents(c[id := ts], s[id := ts], now)
  {
    forall k | k in s && k !in c
      ensures Covered(c[id := ts], k, SlotOf(s[k], now), now)
    {
      var m :| m in c && m < k && SlotOf(c[m], now) == SlotOf(s[k], now);
      assert m in c[id := ts] && c[id := ts][m] == c[m];
    }
  }

  /** Cleaning up again at the same time changes nothing. */
  lemma CleanupIsIdempotent(s: Table, now: int)
    ensures Cleanup(Cleanup(s, now), now) == Cleanup(s, now)
  {
    SlotsCoarsen(s, now, now);
    CleanupRepresents(s, now, now);
    RepresentativesSuffice(Cleanup(s, now), s, now);
  }

  /** Ids are handed out in time order. */
  predicate Chronological(s: Table)
  {
    forall i, j :: i in s && j in s && i < j ==> s[i] <= s[j]
  }

  /** An hour cut by the thirty-day mark keeps its second row only if no earlier cleanup saw the hour whole. */
  lemma StraddledHourLosesARow(s: Table, now: int, f: nat, e: nat) returns (t: int)
    requires Chronological(s) && f in s && e in s && s[f] / HOUR_MS == s[e] / HOUR_MS
    requires s[f] < now - 30 * DAY_MS <= s[e]
    ensures t <= now && Cleanup(Cleanup(s, t), now) != Cleanup(s, now)
  {
    t := (s[e] / HOUR_MS + 1) * HOUR_MS + 7 * DAY_MS;
    var m := LowestOf(s, e, now);
    WholeHourBefore(s[e], s[f], s[m], now);
    LostRow(s, t, now, f, m);
  }

  lemma LostRow(s: Table, t: int, now: int, f: nat, m: nat)
    requires f in s && f < m && Survives(s, m, now)
    requires SlotOf(s[f], t) == SlotOf(s[m], t) && !SlotOf(s[m], t).Recent?
    ensures m in Cleanup(s, now) && m !in Cleanup(Cleanup(s, t), now)
  {
    CleanupKeeps(s, now);
    CleanupKeeps(s, t);
    assert m !in Cleanup(s, t);
    CleanupKeeps(Cleanup(s, t), now);
  }

  /** A moment at which a cleanup sees an hour whole, for an hour reaching past the thirty-day mark of `now`. */
  lemma WholeHourBefore(e: int, f: int, m: int, now: int)
    requires f / HOUR_MS == e / HOUR_MS && f <= e && now - 30 * DAY_MS <= e
    requires SlotOf(m, now) == SlotOf(e, now)
    requires f < now - 30 * DAY_MS
    ensures var t := (e / HOUR_MS + 1) * HOUR_MS + 7 * DAY_MS;
            t <= now && SlotOf(f, t) == SlotOf(m, t) == Hour(e / HOUR_MS) && f < m
  {
  }

  /** Earlier cleanups leave no trace in a later one exactly when no hour straddles the later thirty-day mark. */
  lemma EarlierCleanupsAbsorbedIff(s: Table, now: int)
    requires Chronological(s)
    ensures (forall t :: t <= now ==> Cleanup(Cleanup(s, t), now) == Cleanup(s, now)) <==> NoHourStraddles(s, now)
  {
    if NoHourStraddles(s, now) {
      forall t | t <= now
        ensures Cleanup(Cleanup(s, t), now) == Cleanup(s, now)
      {
        SlotsCoarsen(s, t, now);
        CleanupRepresents(s, t, now);
        RepresentativesSuffice(Cleanup(s, t), s, now);
      }
    } else {
      var f, e :| f in s && e in s && s[f] / HOUR_MS == s[e] / HOUR_MS && s[f] < now - 30 * DAY_MS <= s[e];
      var t := StraddledHourLosesARow(s, now, f, e);
    }
  }

  // ---- Whole histories ----

  datatype Op = Insert(id: nat, ts: int) | Clean(now: int)

  function Apply(s: Table, op: Op): (r: Table)
  {
    match op
    case Insert(id, ts) => s[id := ts]
    case Clean(now) => Cleanup(s, now)
  }

  function Run(s: Table, ops: seq<Op>): (r: Table)
  {
    if ops == [] then s else Apply(Run(s, ops[..|ops| - 1]), ops[|ops| - 1])
  }

  /** Everything ever inserted. */
  function Ever(s: Table, ops: seq<Op>): (r: Table)
  {
    if ops == [] then s
    else
      var before := Ever(s, ops[..|ops| - 1]);
      match ops[|ops| - 1]
      case Insert(id, ts) => before[id := ts]
      case Clean(_) => before
  }

  /** Ids are never reused. */
  predicate FreshIds(s: Table, ops: seq<Op>)
  {
    ops != [] ==>
      && FreshIds(s, ops[..|ops| - 1])
      && (ops[|ops| - 1].Insert? ==> ops[|ops| - 1].id !in Ever(s, ops[..|ops| - 1]))
  }

  lemma {:induction false} RunWithinEver(s: Table, ops: seq<Op>)
    requires FreshIds(s, ops)
    ensures forall id :: id in Run(s, ops) ==> id in Ever(s, ops) && Run(s, ops)[id] == Ever(s, ops)[id]
  {
    if ops != [] {
      var front, op := ops[..|ops| - 1], ops[|ops| - 1];
      RunWithinEver(s, front);
      if op.Clean? {
        CleanupKeeps(Run(s, front), op.now);
      }
    }
  }

  lemma {:induction false} RunRepresents(s: Table, ops: seq<Op>, now: int)
    requires FreshIds(s, ops)
    requires forall k :: 0 <= k < |ops| && ops[k].Clean? ==> ops[k].now <= now
    requires NoHourStraddles(Ever(s, ops), now)
    ensures Represents(Run(s, ops), Ever(s, ops), now)
  {
    if ops != [] {
      var front, op := ops[..|ops| - 1], ops[|ops| - 1];
      var x, all := Run(s, front), Ever(s, front);
      assert forall i :: i in all ==> i in Ever(s, ops) && all[i] == Ever(s, ops)[i];
      RunRepresents(s, front, now);
      match op {
        case Clean(t) =>
          SlotsCoarsen(x, t, now);
          CleanupRepresents(x, t, now);
          RepresentsTransitive(Cleanup(x, t), x, all, now);
        case Insert(id, ts) =>
          InsertRepresents(x, all, id, ts, now);
      }
    }
  }

  /**
    * The schedule of cleanups does not matter: however they were interleaved with inserts, the cleanup at `now` leaves
    * what one cleanup of everything ever inserted would leave, unless an hour straddles the thirty-day mark.
    */
  lemma ScheduleIndependence(s: Table, ops: seq<Op>, now: int)
    requires FreshIds(s, ops)
    requires forall k :: 0 <= k < |ops| && ops[k].Clean? ==> ops[k].now <= now
    requires NoHourStraddles(Ever(s, ops), now)
    ensures Cleanup(Run(s, ops), now) == Cleanup(Ever(s, ops), now)
  {
    RunRepresents(s, ops, now);
    RepresentativesSuffice(Run(s, ops), Ever(s, ops), now);
  }

  predicate FirstOfItsDay(s: Table, id: nat)
  {
    id in s && forall j :: j in s && s[j] / DAY_MS == s[id] / DAY_MS ==> id <= j
  }

  /** Whatever the schedule, every day that ever had a snapshot still has its first one. */
  lemma {:induction false} FirstOfDaySurvives(s: Table, ops: seq<Op>, id: nat)
    requires FreshIds(s, ops) && FirstOfItsDay(Ever(s, ops), id)
    ensures id in Run(s, ops)
  {
    if ops != [] {
      var front, op := ops[..|ops| - 1], ops[|ops| - 1];
      RunWithinEver(s, front);
      if op.Clean? {
        FirstOfDaySurvives(s, front, id);
        FirstOfDayIsLowest(Run(s, front), id, op.now);
        CleanupKeeps(Run(s, front), op.now);
      } else if op.id != id {
        var all := Ever(s, front);
        assert forall i :: i in all ==> i in Ever(s, ops) && all[i] == Ever(s, ops)[i];
        FirstOfDaySurvives(s, front, id);
      }
    }
  }

  lemma FirstOfDayIsLowest(s: Table, id: nat, now: int)
    requires FirstOfItsDay(s, id)
    ensures Survives(s, id, now)
  {
    forall j | j in s && SlotOf(s[j], now) == SlotOf(s[id], now) && !SlotOf(s[id], now).Recent?
      ensures id <= j
    {
      if SlotOf(s[id], now).Hour? {
        SameHourSameDay(s[j], s[id]);
      }
    }
  }
}

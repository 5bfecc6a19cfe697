/**
  Three computations over the same confirmed stays (app/admin/services.py): the arrivals-minus-departures walk of
  dashboard_summary, the per-day counts of get_week_overview, and the ranked status of get_unit_status_overview.
  Days are ordinals.
 */
module Occupancy {
  import opened Wrappers

  // A confirmed reservation. The night before end is the last one.
  datatype Stay = Stay(id: nat, unit: nat, start: int, end: int)

  ghost predicate StaysOk(stays: seq<Stay>) {
    forall i :: 0 <= i < |stays| ==> stays[i].start < stays[i].end
  }

  function Count(stays: seq<Stay>, p: Stay -> bool): nat {
    if stays == [] then 0 else (if p(stays[0]) then 1 else 0) + Count(stays[1..], p)
  }

  predicate Covers(s: Stay, day: int) {
    s.start <= day < s.end
  }

  function CoveringOn(stays: seq<Stay>, day: int): nat {
    Count(stays, (s: Stay) => Covers(s, day))
  }

  function StartingOn(stays: seq<Stay>, day: int): nat {
    Count(stays, (s: Stay) => s.start == day)
  }

  function EndingOn(stays: seq<Stay>, day: int): nat {
    Count(stays, (s: Stay) => s.end == day)
  }

  /******* The walk of the dashboard *******/

  const TREND_DAYS: nat := 30

  function At(counts: map<int, nat>, day: int): nat {
    if day in counts then counts[day] else 0
  }

  // One count per day that has any, as a GROUP BY over the window returns them.
  function GroupStarts(stays: seq<Stay>, first: int, last: int): map<int, nat> {
    if stays == [] then map[]
    else
      var rest, day := GroupStarts(stays[1..], first, last), stays[0].start;
      if first <= day <= last then rest[day := 1 + if day in rest then rest[day] else 0] else rest
  }

  function GroupEnds(stays: seq<Stay>, first: int, last: int): map<int, nat> {
    if stays == [] then map[]
    else
      var rest, day := GroupEnds(stays[1..], first, last), stays[0].end;
      if first <= day <= last then rest[day := 1 + if day in rest then rest[day] else 0] else rest
  }

  lemma {:induction false} GroupStartsCounts(stays: seq<Stay>, first: int, last: int, day: int)
    requires first <= day <= last
    ensures At(GroupStarts(stays, first, last), day) == StartingOn(stays, day)
  {
    if stays != [] {
      GroupStartsCounts(stays[1..], first, last, day);
    }
  }

  lemma {:induction false} GroupEndsCounts(stays: seq<Stay>, first: int, last: int, day: int)
    requires first <= day <= last
    ensures At(GroupEnds(stays, first, last), day) == EndingOn(stays, day)
  {
    if stays != [] {
      GroupEndsCounts(stays[1..], first, last, day);
    }
  }

  // One day on, the stays that cover the day are those of the day before, plus arrivals, minus departures.
  lemma {:induction false} NextDay(stays: seq<Stay>, day: int)
    requires StaysOk(stays)
    ensures CoveringOn(stays, day) == CoveringOn(stays, day - 1) + StartingOn(stays, day) - EndingOn(stays, day)
  {
    if stays != [] {
      NextDay(stays[1..], day);
      assert stays[0].start < stays[0].end;
    }
  }

  // The stays in the walk's base: begun before the window, and ending after its first day.
  function Base(stays: seq<Stay>, first: int): nat {
    Count(stays, (s: Stay) => s.start < first && s.end > first)
  }

  lemma {:induction false} BaseCounts(stays: seq<Stay>, first: int)
    requires StaysOk(stays)
    ensures Base(stays, first) + StartingOn(stays, first) == CoveringOn(stays, first)
  {
    if stays != [] {
      BaseCounts(stays[1..], first);
      assert stays[0].start < stays[0].end;
    }
  }

  // The running number after k days: the base, plus the arrivals, minus the departures of each of them.
  function Running(base: int, arrivals: map<int, nat>, departures: map<int, nat>, first: int, k: nat): int {
    if k == 0 then base
    else
      Running(base, arrivals, departures, first, k - 1) + At(arrivals, first + k - 1) - At(departures, first + k - 1)
  }

  function Walk(stays: seq<Stay>, first: int, k: nat): int {
    var last := first + TREND_DAYS - 1;
    Running(Base(stays, first), GroupStarts(stays, first, last), GroupEnds(stays, first, last), first, k + 1)
  }

  lemma {:induction false} RunningCounts(stays: seq<Stay>, first: int, last: int, k: nat)
    requires StaysOk(stays) && first + k <= last
    ensures Running(Base(stays, first), GroupStarts(stays, first, last), GroupEnds(stays, first, last), first, k + 1)
         == CoveringOn(stays, first + k) - EndingOn(stays, first)
  {
    GroupStartsCounts(stays, first, last, first + k);
    GroupEndsCounts(stays, first, last, first + k);
    if k == 0 {
      BaseCounts(stays, first);
    } else {
      RunningCounts(stays, first, last, k - 1);
      NextDay(stays, first + k);
    }
  }

  // The walk is off by the stays that end on the window's first day, on every day of the window.
  lemma WalkIsOff(stays: seq<Stay>, first: int, k: nat)
    requires StaysOk(stays) && k < TREND_DAYS
    ensures Walk(stays, first, k) == CoveringOn(stays, first + k) - EndingOn(stays, first)
  {
    RunningCounts(stays, first, first + TREND_DAYS - 1, k);
  }

  method WalkDays(base: int, arrivals: map<int, nat>, departures: map<int, nat>, first: int, days: nat)
    returns (trend: seq<int>)
    ensures |trend| == days
    ensures forall k :: 0 <= k < days ==> trend[k] == Running(base, arrivals, departures, first, k + 1)
  {
    var running := base;
    trend := [];
    for k := 0 to days
      invariant |trend| == k && running == Running(base, arrivals, departures, first, k)
      invariant forall i :: 0 <= i < k ==> trend[i] == Running(base, arrivals, departures, first, i + 1)
    {
      var day := first + k;
      running := running + At(arrivals, day);
      running := running - At(departures, day);
      trend := trend + [running];
    }
  }

  method OccupancyTrend(stays: seq<Stay>, first: int) returns (trend: seq<int>)
    requires StaysOk(stays)
    ensures |trend| == 30
    ensures forall k :: 0 <= k < 30 ==> trend[k] == Walk(stays, first, k)
    ensures forall k :: 0 <= k < 30 ==> trend[k] == CoveringOn(stays, first + k) - EndingOn(stays, first)
  {
    var last := first + TREND_DAYS - 1;
    trend := WalkDays(Base(stays, first), GroupStarts(stays, first, last), GroupEnds(stays, first, last), first, TREND_DAYS);
    forall k: nat | k < TREND_DAYS ensures trend[k] == CoveringOn(stays, first + k) - EndingOn(stays, first) {
      WalkIsOff(stays, first, k);
    }
  }

  // It agrees with the direct count on any day, and then on all of them, exactly when no stay ends on the first day.
  lemma TrendExactIff(stays: seq<Stay>, first: int, k: nat)
    requires StaysOk(stays) && k < TREND_DAYS
    ensures Walk(stays, first, k) == CoveringOn(stays, first + k) <==> forall s :: s in stays ==> s.end != first
  {
    WalkIsOff(stays, first, k);
    CountZeroIff(stays, (s: Stay) => s.end == first);
  }

  lemma {:induction false} CountZeroIff(stays: seq<Stay>, p: Stay -> bool)
    ensures Count(stays, p) == 0 <==> forall s :: s in stays ==> !p(s)
  {
    if stays != [] {
      CountZeroIff(stays[1..], p);
      assert forall s :: s in stays <==> s == stays[0] || s in stays[1..];
    }
  }

  // A single departure on the first day makes the walk show less than nothing in a house that is empty from then on.
  lemma TrendCanBeNegative(first: int, k: nat)
    requires k < TREND_DAYS
    ensures var stays := [Stay(1, 1, first - 1, first)];
      StaysOk(stays) && CoveringOn(stays, first + k) == 0 && Walk(stays, first, k) == -1
  {
    var s := Stay(1, 1, first - 1, first);
    assert [] + [s] == [s];
    CountAppend([], s, (s: Stay) => Covers(s, first + k));
    CountAppend([], s, (s: Stay) => s.end == first);
    WalkIsOff([s], first, k);
  }

  /******* The week overview *******/

  datatype DayCounts = DayCounts(day: int, staying: nat, arriving: nat, leaving: nat)

  // The overview counts every stay on its days, but no departure on its first day.
  ghost predicate DayCountsOk(stays: seq<Stay>, c: DayCounts, first: int, k: nat) {
    && c.day == first + k
    && c.staying == CoveringOn(stays, c.day) && c.arriving == StartingOn(stays, c.day)
    && c.leaving == if k == 0 then 0 else EndingOn(stays, c.day)
  }

  // The stays the week query returns.
  function InWeek(stays: seq<Stay>, first: int): seq<Stay> {
    if stays == [] then []
    else if stays[0].start <= first + 6 && stays[0].end > first then [stays[0]] + InWeek(stays[1..], first)
    else InWeek(stays[1..], first)
  }

  // Restricting the stays to the week loses nothing but the departures of its first day.
  lemma {:induction false} InWeekCounts(stays: seq<Stay>, first: int, day: int)
    requires StaysOk(stays) && first <= day <= first + 6
    ensures CoveringOn(InWeek(stays, first), day) == CoveringOn(stays, day)
    ensures StartingOn(InWeek(stays, first), day) == StartingOn(stays, day)
    ensures EndingOn(InWeek(stays, first), day) == if day == first then 0 else EndingOn(stays, day)
  {
    if stays != [] {
      InWeekCounts(stays[1..], first, day);
      assert stays[0].start < stays[0].end;
      if stays[0].start <= first + 6 && stays[0].end > first {
        assert InWeek(stays, first)[1..] == InWeek(stays[1..], first);
      }
    }
  }

  method WeekOverview(stays: seq<Stay>, first: int) returns (week: seq<DayCounts>)
    requires StaysOk(stays)
    ensures |week| == 7
    ensures forall k :: 0 <= k < 7 ==> DayCountsOk(stays, week[k], first, k)
  {
    var rows := InWeek(stays, first);
    week := [];
    for k := 0 to 7
      invariant |week| == k
      invariant forall i :: 0 <= i < k ==> DayCountsOk(stays, week[i], first, i)
    {
      var day := first + k;
      var staying, arriving, leaving := 0, 0, 0;
      for r := 0 to |rows|
        invariant staying == CoveringOn(rows[..r], day)
        invariant arriving == StartingOn(rows[..r], day)
        invariant leaving == EndingOn(rows[..r], day)
      {
        CountAppend(rows[..r], rows[r], (s: Stay) => Covers(s, day));
        CountAppend(rows[..r], rows[r], (s: Stay) => s.start == day);
        CountAppend(rows[..r], rows[r], (s: Stay) => s.end == day);
        assert rows[..r + 1] == rows[..r] + [rows[r]];
        if Covers(rows[r], day) {
          staying := staying + 1;
        }
        if rows[r].start == day {
          arriving := arriving + 1;
        }
        if rows[r].end == day {
          leaving := leaving + 1;
        }
      }
      assert rows[..|rows|] == rows;
      InWeekCounts(stays, first, day);
      week := week + [DayCounts(day, staying, arriving, leaving)];
    }
  }

  lemma {:induction false} CountAppend(stays: seq<Stay>, s: Stay, p: Stay -> bool)
    ensures Count(stays + [s], p) == Count(stays, p) + if p(s) then 1 else 0
  {
    if stays == [] {
      assert stays + [s] == [s] && [s][1..] == [];
    } else {
      assert (stays + [s])[1..] == stays[1..] + [s];
      CountAppend(stays[1..], s, p);
    }
  }

  /******* The status of each unit *******/

  datatype Unit = Unit(id: nat, blocked: bool)

  datatype UnitState = Blocked | Arriving | Departing | Occupied | Free

  datatype StatusRow = StatusRow(unit: nat, state: UnitState, until: Option<int>, reservation: Option<nat>)

  function Rank(s: Stay, day: int): nat {
    if s.start == day then 3 else if s.end == day then 2 else if Covers(s, day) then 1 else 0
  }

  // The ordering of the window function: rank, then start, then id, all descending.
  predicate Above(a: Stay, b: Stay, day: int) {
    Rank(a, day) > Rank(b, day)
    || (Rank(a, day) == Rank(b, day) && (a.start > b.start || (a.start == b.start && a.id > b.id)))
  }

  predicate Joins(s: Stay, unit: nat, day: int) {
    s.unit == unit && Rank(s, day) > 0
  }

  // The stay of the row numbered 1 in the unit's partition; None for the row the outer join adds.
  function TopStay(stays: seq<Stay>, unit: nat, day: int): (top: Option<Stay>)
    ensures top.None? ==> forall s :: s in stays ==> !Joins(s, unit, day)
    ensures top.Some? ==> top.value in stays && Joins(top.value, unit, day)
    ensures top.Some? ==> forall s :: s in stays && Joins(s, unit, day) ==> !Above(s, top.value, day)
  {
    if stays == [] then None
    else
      var rest := TopStay(stays[1..], unit, day);
      if Joins(stays[0], unit, day) && (rest.None? || Above(stays[0], rest.value, day)) then Some(stays[0]) else rest
  }

  ghost predicate Arrives(stays: seq<Stay>, unit: nat, day: int) {
    exists s :: s in stays && s.unit == unit && s.start == day
  }

  ghost predicate Departs(stays: seq<Stay>, unit: nat, day: int) {
    exists s :: s in stays && s.unit == unit && s.end == day
  }

  ghost predicate Covered(stays: seq<Stay>, unit: nat, day: int) {
    exists s :: s in stays && s.unit == unit && Covers(s, day)
  }

  // The state of a unit, in order of priority.
  ghost function StateOf(unit: Unit, stays: seq<Stay>, day: int): UnitState {
    if unit.blocked then Blocked
    else if Arrives(stays, unit.id, day) then Arriving
    else if Departs(stays, unit.id, day) then Departing
    else if Covered(stays, unit.id, day) then Occupied
    else Free
  }

  // The row names the highest ranked stay, and until when an arriving or occupied unit is taken.
  ghost predicate StatusRowOk(row: StatusRow, unit: Unit, stays: seq<Stay>, day: int) {
    var top := TopStay(stays, unit.id, day);
    && row.unit == unit.id && row.state == StateOf(unit, stays, day)
    && row.reservation == (if top.Some? then Some(top.value.id) else None)
    && row.until == if row.state == Arriving || row.state == Occupied then Some(top.value.end) else None
  }

  lemma TopStayDecides(stays: seq<Stay>, unit: nat, day: int)
    requires StaysOk(stays)
    ensures var top := TopStay(stays, unit, day);
      && (top.None? <==> !Arrives(stays, unit, day) && !Departs(stays, unit, day) && !Covered(stays, unit, day))
      && (top.Some? ==> (top.value.start == day <==> Arrives(stays, unit, day)))
      && (top.Some? && top.value.start != day ==> (top.value.end == day <==> Departs(stays, unit, day)))
      && (top.Some? && top.value.start != day && top.value.end != day ==> Covered(stays, unit, day))
  {
    var top := TopStay(stays, unit, day);
    forall s | s in stays && s.unit == unit && (s.start == day || s.end == day || Covers(s, day))
      ensures top.Some? && Rank(top.value, day) >= Rank(s, day)
    {
      assert Joins(s, unit, day);
    }
  }

  // The priorities, in plain terms: blocked, then a stay that starts, one that ends, one that goes on, then free.
  lemma StatesPlainly(unit: Unit, stays: seq<Stay>, day: int)
    ensures var state := StateOf(unit, stays, day);
            var starts := exists s :: s in stays && s.unit == unit.id && s.start == day;
            var ends := exists s :: s in stays && s.unit == unit.id && s.end == day;
            var goesOn := exists s :: s in stays && s.unit == unit.id && s.start < day < s.end;
      && (state == Blocked <==> unit.blocked)
      && (state == Arriving <==> !unit.blocked && starts)
      && (state == Departing <==> !unit.blocked && !starts && ends)
      && (state == Occupied <==> !unit.blocked && !starts && !ends && goesOn)
      && (state == Free <==> !unit.blocked && !starts && !ends && !goesOn)
  {
    if exists s :: s in stays && s.unit == unit.id && s.start < day < s.end {
      var s :| s in stays && s.unit == unit.id && s.start < day < s.end;
      assert Covers(s, day);
    }
  }

  // Which stay the row names: of those that start on the day the one with the highest id, else of those that end on it,
  // else of those that go on, the one that started last, and of these the one with the highest id.
  lemma TopStayPlainly(stays: seq<Stay>, unit: nat, day: int, s: Stay)
    requires StaysOk(stays) && s in stays && s.unit == unit && s.start <= day <= s.end
    ensures TopStay(stays, unit, day).Some?
    ensures var t := TopStay(stays, unit, day).value;
      && t in stays && t.unit == unit && t.start <= day <= t.end
      && (s.start == day ==> t.start == day && s.id <= t.id)
      && (s.end == day && t.start != day ==> t.end == day && (s.start < t.start || (s.start == t.start && s.id <= t.id)))
      && (t.start != day && t.end != day ==> s.start < t.start || (s.start == t.start && s.id <= t.id))
  {
    assert s.start < s.end;
    assert Joins(s, unit, day);
    var t := TopStay(stays, unit, day).value;
    assert t.start < t.end && !Above(s, t, day);
  }

  method UnitStatusOverview(units: seq<Unit>, stays: seq<Stay>, day: int) returns (rows: seq<StatusRow>)
    requires StaysOk(stays)
    ensures |rows| == |units|
    ensures forall i :: 0 <= i < |units| ==> StatusRowOk(rows[i], units[i], stays, day)
  {
    rows := [];
    for n := 0 to |units|
      invariant |rows| == n
      invariant forall i :: 0 <= i < n ==> StatusRowOk(rows[i], units[i], stays, day)
    {
      var top := TopStay(stays, units[n].id, day);
      TopStayDecides(stays, units[n].id, day);
      var state := if units[n].blocked then Blocked
                   else if top.None? then Free
                   else if top.value.start == day then Arriving
                   else if top.value.end == day then Departing
                   else Occupied;
      var until: Option<int> := None;
      if state == Occupied || state == Arriving {
        until := Some(top.value.end);
      }
      rows := rows + [StatusRow(units[n].id, state, until, if top.Some? then Some(top.value.id) else None)];
    }
  }

  /******* Units taken and stays counted *******/

  ghost predicate Taken(state: UnitState) {
    state == Arriving || state == Occupied
  }

  ghost function TakenUnits(units: seq<Unit>, stays: seq<Stay>, day: int): nat {
    if units == [] then 0
    else (if Taken(StateOf(units[0], stays, day)) then 1 else 0) + TakenUnits(units[1..], stays, day)
  }

  function CoveringIn(stays: seq<Stay>, unit: nat, day: int): nat {
    Count(stays, (s: Stay) => s.unit == unit && Covers(s, day))
  }

  function SumCovering(units: seq<Unit>, stays: seq<Stay>, day: int): nat {
    if units == [] then 0 else CoveringIn(stays, units[0].id, day) + SumCovering(units[1..], stays, day)
  }

  ghost predicate UnitsOk(units: seq<Unit>) {
    forall i, j :: 0 <= i < j < |units| ==> units[i].id != units[j].id
  }

  ghost predicate Listed(units: seq<Unit>, unit: nat) {
    exists i :: 0 <= i < |units| && units[i].id == unit
  }

  lemma {:induction false} SumCoveringIsCount(units: seq<Unit>, stays: seq<Stay>, day: int)
    requires UnitsOk(units)
    ensures SumCovering(units, stays, day) == Count(stays, (s: Stay) => Covers(s, day) && Listed(units, s.unit))
  {
    if units == [] {
      CountZeroIff(stays, (s: Stay) => Covers(s, day) && Listed(units, s.unit));
    } else {
      SumCoveringIsCount(units[1..], stays, day);
      SplitCount(units, stays, day);
    }
  }

  lemma {:induction false} SplitCount(units: seq<Unit>, stays: seq<Stay>, day: int)
    requires UnitsOk(units) && units != []
    ensures Count(stays, (s: Stay) => Covers(s, day) && Listed(units, s.unit))
         == CoveringIn(stays, units[0].id, day)
          + Count(stays, (s: Stay) => Covers(s, day) && Listed(units[1..], s.unit))
  {
    if stays != [] {
      SplitCount(units, stays[1..], day);
      ListedSplit(units, stays[0].unit);
    }
  }

  lemma ListedSplit(units: seq<Unit>, u: nat)
    requires UnitsOk(units) && units != []
    ensures Listed(units, u) <==> units[0].id == u || Listed(units[1..], u)
    ensures units[0].id == u ==> !Listed(units[1..], u)
  {
    if i :| 0 <= i < |units| && units[i].id == u {
      assert i > 0 ==> units[1..][i - 1].id == u;
    }
    if i :| 0 <= i < |units[1..]| && units[1..][i].id == u {
      assert units[i + 1].id == u;
    }
  }

  // Every stay is in one of the units.
  ghost predicate AllListed(units: seq<Unit>, stays: seq<Stay>) {
    forall s :: s in stays ==> Listed(units, s.unit)
  }

  lemma {:induction false} CountSame(stays: seq<Stay>, p: Stay -> bool, q: Stay -> bool)
    requires forall s :: s in stays ==> p(s) == q(s)
    ensures Count(stays, p) == Count(stays, q)
  {
    if stays != [] {
      assert stays[0] in stays;
      assert forall s :: s in stays[1..] ==> s in stays;
      CountSame(stays[1..], p, q);
    }
  }

  ghost predicate NoOverlap(stays: seq<Stay>) {
    forall i, j :: 0 <= i < |stays| && 0 <= j < |stays| && i != j && stays[i].unit == stays[j].unit ==>
      stays[i].end <= stays[j].start || stays[j].end <= stays[i].start
  }

  lemma {:induction false} CountAtMostOne(stays: seq<Stay>, p: Stay -> bool)
    requires forall i, j :: 0 <= i < j < |stays| ==> !(p(stays[i]) && p(stays[j]))
    ensures Count(stays, p) <= 1
  {
    if stays != [] {
      if p(stays[0]) {
        forall s | s in stays[1..] ensures !p(s) {
          var j :| 0 <= j < |stays[1..]| && stays[1..][j] == s;
          assert stays[j + 1] == s;
        }
        CountZeroIff(stays[1..], p);
      } else {
        CountAtMostOne(stays[1..], p);
      }
    }
  }

  lemma DisjointStays(stays: seq<Stay>)
    requires NoOverlap(stays)
    ensures forall s, t :: s in stays && t in stays && s != t && s.unit == t.unit ==> s.end <= t.start || t.end <= s.start
  {
    forall s, t | s in stays && t in stays && s != t && s.unit == t.unit ensures s.end <= t.start || t.end <= s.start {
      var i :| 0 <= i < |stays| && stays[i] == s;
      var j :| 0 <= j < |stays| && stays[j] == t;
    }
  }

  lemma UnitBalance(unit: Unit, stays: seq<Stay>, day: int)
    requires StaysOk(stays) && !unit.blocked
    ensures Taken(StateOf(unit, stays, day)) ==> CoveringIn(stays, unit.id, day) >= 1
    ensures NoOverlap(stays) ==>
      CoveringIn(stays, unit.id, day) == if Taken(StateOf(unit, stays, day)) then 1 else 0
  {
    var p := (s: Stay) => s.unit == unit.id && Covers(s, day);
    CountZeroIff(stays, p);
    if Arrives(stays, unit.id, day) {
      var s :| s in stays && s.unit == unit.id && s.start == day;
      assert p(s);
    }
    if NoOverlap(stays) {
      CountAtMostOne(stays, p);
      DisjointStays(stays);
    }
  }

  lemma {:induction false} TakenBySum(units: seq<Unit>, stays: seq<Stay>, day: int)
    requires StaysOk(stays) && forall u :: u in units ==> !u.blocked
    ensures TakenUnits(units, stays, day) <= SumCovering(units, stays, day)
    ensures NoOverlap(stays) ==> TakenUnits(units, stays, day) == SumCovering(units, stays, day)
  {
    if units != [] {
      assert units[0] in units;
      UnitBalance(units[0], stays, day);
      TakenBySum(units[1..], stays, day);
    }
  }

  // With no blocked unit, never more units are arriving or occupied than the overview counts stays for the day, and
  // exactly as many when no two stays of a unit overlap.
  lemma TakenUnitsMatchWeekOverview(units: seq<Unit>, stays: seq<Stay>, day: int)
    requires StaysOk(stays) && UnitsOk(units) && AllListed(units, stays) && forall u :: u in units ==> !u.blocked
    ensures TakenUnits(units, stays, day) <= CoveringOn(stays, day)
    ensures NoOverlap(stays) ==> TakenUnits(units, stays, day) == CoveringOn(stays, day)
  {
    TakenBySum(units, stays, day);
    SumCoveringIsCount(units, stays, day);
    CountSame(stays, (s: Stay) => Covers(s, day), (s: Stay) => Covers(s, day) && Listed(units, s.unit));
  }

  // Without that condition the two may differ: a departure hides a stay that covers the day.
  lemma OverlapHidesAStay(day: int)
    ensures var stays := [Stay(1, 1, day - 2, day), Stay(2, 1, day - 1, day + 1)];
      && StaysOk(stays) && StateOf(Unit(1, false), stays, day) == Departing && Covered(stays, 1, day)
  {
    var stays := [Stay(1, 1, day - 2, day), Stay(2, 1, day - 1, day + 1)];
    assert stays[0] in stays && stays[1] in stays;
  }
}

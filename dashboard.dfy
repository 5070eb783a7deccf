/**
 * What the dashboard derives from the current routine, the evaluations and the goals: each
 * block's status and progress, the current and the next activity, the day's completion, the
 * life score with its trend, the avatar's grey level and the goals on the radar.
 *
 * The timeline functions work on the blocks' starts as `split(':').map(Number)` reads them
 * (`Starts`), so NaN is possible and makes every comparison false.
 */
module Dashboard {
  import opened Wrappers
  import opened JsNumber
  import opened Clock
  import opened Types
  import opened Timeline

  // ----- getBlockStatus and currentActivityBlock -----

  datatype Status = Active | Completed | Upcoming

  /** The end the status and the current activity use: the next start, or midnight for the last block. */
  function StatusEnd(s: seq<Num>, i: nat): Num
    requires i < |s|
  {
    if i + 1 < |s| then s[i + 1] else Num(MinutesPerDay)
  }

  /** `nowMinutes >= blockStart && nowMinutes < blockEnd`. */
  predicate IsActive(s: seq<Num>, i: nat, now: MinuteOfDay)
    requires i < |s|
  {
    AtMost(s[i], Num(now)) && Less(Num(now), StatusEnd(s, i))
  }

  /** `getBlockStatus` as written: completed only once now is strictly past the end. */
  function BlockStatusAsWritten(s: seq<Num>, i: nat, now: MinuteOfDay): (st: Status)
    requires i < |s|
    ensures st == Active <==> IsActive(s, i, now)
    ensures st == Completed <==> !IsActive(s, i, now) && Less(StatusEnd(s, i), Num(now))
  {
    if IsActive(s, i, now) then Active
    else if Less(StatusEnd(s, i), Num(now)) then Completed
    else Upcoming
  }

  /**
   * At the very minute the next block starts, the block before it is neither active nor completed:
   * with blocks at 07:00 and 08:00 and now 08:00 the first shows as upcoming.
   */
  lemma StatusGapAtEnd()
    ensures BlockStatusAsWritten([Num(420), Num(480)], 0, 480) == Upcoming
    ensures BlockStatusAsWritten([Num(420), Num(480)], 1, 480) == Active
  {
  }

  /** `getBlockStatus` with the end minute itself counted as completed. */
  function BlockStatus(s: seq<Num>, i: nat, now: MinuteOfDay): (st: Status)
    requires i < |s|
    ensures st == Active <==> IsActive(s, i, now)
    ensures st == Completed <==> !IsActive(s, i, now) && AtMost(StatusEnd(s, i), Num(now))
  {
    if IsActive(s, i, now) then Active
    else if AtMost(StatusEnd(s, i), Num(now)) then Completed
    else Upcoming
  }

  /**
   * For strictly increasing starts a block is upcoming exactly before its start, active from its
   * start up to the next start, and completed from there on; so a block that has started is
   * never upcoming, and the status only moves forward as time passes.
   */
  lemma StatusByTime(s: seq<Num>, i: nat, now: MinuteOfDay)
    requires Increasing(s) && i < |s|
    ensures BlockStatus(s, i, now) == Upcoming <==> now < s[i].v
    ensures BlockStatus(s, i, now) == Active <==> s[i].v <= now < StatusEnd(s, i).v
    ensures BlockStatus(s, i, now) == Completed <==> StatusEnd(s, i).v <= now
  {
  }

  function Rank(st: Status): nat {
    match st
    case Upcoming => 0
    case Active => 1
    case Completed => 2
  }

  /** The corrected status never moves back as time passes. */
  lemma StatusMonotone(s: seq<Num>, i: nat, now: MinuteOfDay, later: MinuteOfDay)
    requires Increasing(s) && i < |s| && now <= later
    ensures Rank(BlockStatus(s, i, now)) <= Rank(BlockStatus(s, i, later))
  {
    StatusByTime(s, i, now);
    StatusByTime(s, i, later);
  }

  /** For strictly increasing starts at most one block is active. */
  lemma AtMostOneActive(s: seq<Num>, i: nat, j: nat, now: MinuteOfDay)
    requires Increasing(s) && i < |s| && j < |s|
    requires IsActive(s, i, now) && IsActive(s, j, now)
    ensures i == j
  {
  }

  /** The first active block at or after index `k`. */
  function FindActive(s: seq<Num>, k: nat, now: MinuteOfDay): (r: Option<nat>)
    requires k <= |s|
    ensures r.Some? ==> k <= r.value < |s| && IsActive(s, r.value, now)
    ensures r.Some? ==> forall j :: k <= j < r.value ==> !IsActive(s, j, now)
    ensures r.None? ==> forall j :: k <= j < |s| ==> !IsActive(s, j, now)
    decreases |s| - k
  {
    if k == |s| then None
    else if IsActive(s, k, now) then Some(k)
    else FindActive(s, k + 1, now)
  }

  /** `currentActivityBlock`: the index of the first active block; none without a routine. */
  function CurrentActivity(routine: Option<Routine>, now: MinuteOfDay): Option<nat> {
    match routine
    case None => None
    case Some(r) => FindActive(Starts(r.blocks), 0, now)
  }

  /**
   * For strictly increasing starts there is a current block exactly when now is not before the
   * first start, and it is the one block whose window holds now.
   */
  lemma CurrentActivitySpec(s: seq<Num>, now: MinuteOfDay)
    requires Increasing(s) && |s| > 0
    ensures FindActive(s, 0, now).None? <==> now < s[0].v
    ensures FindActive(s, 0, now).Some? ==>
      forall j :: 0 <= j < |s| ==> (IsActive(s, j, now) <==> j == FindActive(s, 0, now).value)
  {
    if s[0].v <= now {
      SomeActiveFrom(s, 0, now);
    }
    if FindActive(s, 0, now).Some? {
      var c := FindActive(s, 0, now).value;
      forall j | 0 <= j < |s| && IsActive(s, j, now) ensures j == c {
        AtMostOneActive(s, j, c, now);
      }
    }
  }

  /** A block that has started is active, or some later block is. */
  lemma SomeActiveFrom(s: seq<Num>, k: nat, now: MinuteOfDay)
    requires Increasing(s) && k < |s| && s[k].v <= now
    ensures exists j :: k <= j < |s| && IsActive(s, j, now)
    decreases |s| - k
  {
    if k + 1 < |s| && s[k + 1].v <= now {
      SomeActiveFrom(s, k + 1, now);
    } else {
      assert IsActive(s, k, now);
    }
  }

  // ----- firstUpcomingIndex -----

  /** `findIndex(start > nowMinutes)` from index `k`: the first such index, or -1. */
  function FirstUpcomingFrom(s: seq<Num>, k: nat, now: MinuteOfDay): (r: int)
    requires k <= |s|
    ensures r == -1 || k <= r < |s|
    ensures r == -1 <==> forall j :: k <= j < |s| ==> !Less(Num(now), s[j])
    ensures r >= 0 ==> Less(Num(now), s[r]) && forall j :: k <= j < r ==> !Less(Num(now), s[j])
    decreases |s| - k
  {
    if k == |s| then -1
    else if Less(Num(now), s[k]) then k
    else FirstUpcomingFrom(s, k + 1, now)
  }

  /** `firstUpcomingIndex`; -1 without a routine. */
  function FirstUpcomingIndex(routine: Option<Routine>, now: MinuteOfDay): int {
    match routine
    case None => -1
    case Some(r) => FirstUpcomingFrom(Starts(r.blocks), 0, now)
  }

  /** For increasing starts every block from the first upcoming one on starts after now, and none before it. */
  lemma UpcomingSuffix(s: seq<Num>, now: MinuteOfDay)
    requires Increasing(s)
    ensures var u := FirstUpcomingFrom(s, 0, now);
      u >= 0 ==> forall j :: 0 <= j < |s| ==> (now < s[j].v <==> u <= j)
  {
    var u := FirstUpcomingFrom(s, 0, now);
    if u >= 0 {
      forall j | u < j < |s| ensures now < s[j].v {
        assert s[u].v < s[j].v;
      }
    }
  }

  // ----- getProgress -----

  /** The end `getProgress` uses: the next start, or an hour after the block's own start for the last one. */
  function HourEnd(s: seq<Num>, i: nat): Num
    requires i < |s|
  {
    if i + 1 < |s| then s[i + 1] else Add(s[i], Num(60))
  }

  /** `Math.min(Math.max(x, 0), 100)`. */
  function Clamp(x: real): (r: real)
    ensures 0.0 <= r <= 100.0
    ensures 0.0 <= x <= 100.0 ==> r == x
  {
    if x < 0.0 then 0.0 else if x > 100.0 then 100.0 else x
  }

  /**
   * `getProgress`: the elapsed share of the block in percent, clamped to [0, 100]; none where
   * JavaScript gets NaN (an unreadable start or end, or an empty block at its own start). An
   * empty block before or after its start divides by zero into an infinity, which clamps to 0 or 100.
   */
  function Progress(s: seq<Num>, i: nat, now: MinuteOfDay): (p: Option<real>)
    requires i < |s|
    ensures p.Some? ==> 0.0 <= p.value <= 100.0
    ensures p.None? <==> s[i].NaN? || HourEnd(s, i).NaN? || (HourEnd(s, i) == s[i] && now == s[i].v)
  {
    var start := s[i];
    var end := HourEnd(s, i);
    if start.NaN? || end.NaN? then None
    else
      var total := end.v - start.v;
      var elapsed := now - start.v;
      if total == 0 then
        if elapsed > 0 then Some(100.0) else if elapsed < 0 then Some(0.0) else None
      else Some(Clamp((elapsed as real) / (total as real) * 100.0))
  }

  /** Across a block that ends after it starts, progress is 0 up to the start, 100 from the end on, and never goes back. */
  lemma ProgressMonotone(s: seq<Num>, i: nat, now: MinuteOfDay, later: MinuteOfDay)
    requires i < |s| && s[i].Num? && HourEnd(s, i).Num? && s[i].v < HourEnd(s, i).v
    requires now <= later
    ensures Progress(s, i, now).Some? && Progress(s, i, later).Some?
    ensures Progress(s, i, now).value <= Progress(s, i, later).value
    ensures now <= s[i].v ==> Progress(s, i, now).value == 0.0
    ensures HourEnd(s, i).v <= now ==> Progress(s, i, now).value == 100.0
  {
    var total := (HourEnd(s, i).v - s[i].v) as real;
    var a := ((now - s[i].v) as real) / total * 100.0;
    var b := ((later - s[i].v) as real) / total * 100.0;
    DivMonotone((now - s[i].v) as real, (later - s[i].v) as real, total);
    ClampMonotone(a, b);
    if HourEnd(s, i).v <= now {
      DivAtLeastOne((now - s[i].v) as real, total);
    }
    if now <= s[i].v {
      DivAtMostZero((now - s[i].v) as real, total);
    }
  }

  lemma ClampMonotone(a: real, b: real)
    requires a <= b
    ensures Clamp(a) <= Clamp(b)
  {
  }

  lemma DivMonotone(x: real, y: real, t: real)
    requires t > 0.0 && x <= y
    ensures x / t * 100.0 <= y / t * 100.0
  {
    assert y / t - x / t == (y - x) / t;
  }

  lemma DivAtLeastOne(x: real, t: real)
    requires t > 0.0 && t <= x
    ensures x / t * 100.0 >= 100.0
  {
    assert t / t == 1.0;
    assert x / t - t / t == (x - t) / t;
  }

  lemma DivAtMostZero(x: real, t: real)
    requires t > 0.0 && x <= 0.0
    ensures x / t * 100.0 <= 0.0
  {
    assert -(x / t) == (-x) / t;
  }

  // ----- progressStats -----

  /** A block counts as completed once now is strictly past its `getProgress` end. */
  predicate PastEnd(s: seq<Num>, i: nat, now: MinuteOfDay)
    requires i < |s|
  {
    Less(HourEnd(s, i), Num(now))
  }

  /** How many of the first `n` blocks are past their end. */
  function CountPast(s: seq<Num>, n: nat, now: MinuteOfDay): (c: nat)
    requires n <= |s|
    ensures c <= n
  {
    if n == 0 then 0 else CountPast(s, n - 1, now) + (if PastEnd(s, n - 1, now) then 1 else 0)
  }

  /**
   * `progressStats`: the number of completed blocks and the rounded percentage they make of the
   * routine; 0 and 0 without a routine or without blocks.
   */
  method ProgressStats(routine: Option<Routine>, now: MinuteOfDay) returns (completed: nat, percent: int)
    ensures routine.None? || |routine.value.blocks| == 0 ==> completed == 0 && percent == 0
    ensures routine.Some? && |routine.value.blocks| > 0 ==>
      var s := Starts(routine.value.blocks);
      completed == CountPast(s, |s|, now) && percent == MathRound(100 * completed, |s|)
    ensures routine.Some? ==> completed <= |routine.value.blocks|
    ensures 0 <= percent <= 100
  {
    if routine.None? || |routine.value.blocks| == 0 {
      return 0, 0;
    }
    var s := Starts(routine.value.blocks);
    completed := CountCompleted(s, now);
    percent := MathRound(100 * completed, |s|);
    MathRoundRange(100 * completed, |s|, 100);
  }

  /** The `forEach` of `progressStats`: the blocks past their end, counted one by one. */
  method CountCompleted(s: seq<Num>, now: MinuteOfDay) returns (completed: nat)
    ensures completed == CountPast(s, |s|, now)
  {
    completed := 0;
    var i := 0;
    while i < |s|
      invariant 0 <= i <= |s|
      invariant completed == CountPast(s, i, now)
    {
      var start := s[i];
      var end := Add(start, Num(60));
      if i < |s| - 1 {
        end := s[i + 1];
      }
      if Less(end, Num(now)) {
        completed := completed + 1;
      }
      i := i + 1;
    }
  }

  // ----- lifeScoreData and avatarFilter -----

  /** Sorted by date, most recent first. */
  predicate NewestFirst(es: seq<DailyEvaluation>) {
    forall i, j :: 0 <= i < j < |es| ==> es[j].date <= es[i].date
  }

  /** Inserts `x` after every evaluation not older than it, so equal dates keep their order. */
  function InsertByDate(es: seq<DailyEvaluation>, x: DailyEvaluation): (r: seq<DailyEvaluation>)
    requires NewestFirst(es)
    ensures NewestFirst(r)
    ensures multiset(r) == multiset(es) + multiset{x}
  {
    if es == [] then [x]
    else if es[0].date < x.date then
      InsertFrontNewest(es, x);
      [x] + es
    else
      var rest := InsertByDate(es[1..], x);
      assert es == [es[0]] + es[1..];
      InsertBehindNewest(es[0], rest, es[1..], x);
      [es[0]] + rest
  }

  lemma InsertFrontNewest(es: seq<DailyEvaluation>, x: DailyEvaluation)
    requires NewestFirst(es) && es != [] && es[0].date < x.date
    ensures NewestFirst([x] + es)
  {
    var r := [x] + es;
    forall i, j | 0 <= i < j < |r|
      ensures r[j].date <= r[i].date
    {
      assert r[j] == es[j - 1];
      if i > 0 { assert r[i] == es[i - 1]; }
    }
  }

  lemma InsertBehindNewest(h: DailyEvaluation, rest: seq<DailyEvaluation>, tail: seq<DailyEvaluation>,
                           x: DailyEvaluation)
    requires NewestFirst(rest) && NewestFirst([h] + tail)
    requires multiset(rest) == multiset(tail) + multiset{x}
    requires x.date <= h.date
    ensures NewestFirst([h] + rest)
  {
    forall j | 0 <= j < |rest|
      ensures rest[j].date <= h.date
    {
      assert rest[j] in multiset(rest);
      if rest[j] != x {
        assert rest[j] in multiset(tail);
        var k :| 0 <= k < |tail| && tail[k] == rest[j];
        assert ([h] + tail)[k + 1] == tail[k] && ([h] + tail)[0] == h;
      }
    }
    var r := [h] + rest;
    forall i, j | 0 <= i < j < |r|
      ensures r[j].date <= r[i].date
    {
      assert r[j] == rest[j - 1];
      if i > 0 { assert r[i] == rest[i - 1]; }
    }
  }

  /** `[...evaluations].sort((a, b) => date(b) - date(a))`: a stable sort, newest first. */
  function SortNewestFirst(es: seq<DailyEvaluation>): (r: seq<DailyEvaluation>)
    ensures NewestFirst(r)
    ensures multiset(r) == multiset(es)
    ensures |r| == |es|
  {
    if es == [] then []
    else
      var init := es[..|es| - 1];
      assert es == init + [es[|es| - 1]];
      var r := InsertByDate(SortNewestFirst(init), es[|es| - 1]);
      assert |r| == |multiset(r)|;
      r
  }

  /** `.slice(0, 14)` of the sorted list. */
  function Recent(es: seq<DailyEvaluation>): (r: seq<DailyEvaluation>)
    ensures |r| == if |es| < 14 then |es| else 14
  {
    var sorted := SortNewestFirst(es);
    if |sorted| <= 14 then sorted else sorted[..14]
  }

  /** The evaluations kept are the newest: none left out is more recent than one kept. */
  lemma RecentAreNewest(es: seq<DailyEvaluation>)
    ensures multiset(Recent(es)) <= multiset(es)
    ensures NewestFirst(Recent(es))
    ensures forall x, y :: x in multiset(es) - multiset(Recent(es)) && y in Recent(es) ==> x.date <= y.date
  {
    var sorted := SortNewestFirst(es);
    var r := Recent(es);
    var rest := sorted[|r|..];
    assert sorted == r + rest;
    assert multiset(es) == multiset(r) + multiset(rest);
    NewestSplit(sorted, |r|);
    assert r == sorted[..|r|];
  }

  /** In a list sorted newest first, nothing after position `n` is newer than anything before it. */
  lemma NewestSplit(sorted: seq<DailyEvaluation>, n: nat)
    requires NewestFirst(sorted) && n <= |sorted|
    ensures forall x, y :: x in multiset(sorted[n..]) && y in sorted[..n] ==> x.date <= y.date
  {
    forall x, y | x in multiset(sorted[n..]) && y in sorted[..n] ensures x.date <= y.date {
      var j :| 0 <= j < |sorted[n..]| && sorted[n..][j] == x;
      var i :| 0 <= i < n && sorted[..n][i] == y;
      assert sorted[n + j] == x && sorted[i] == y;
    }
  }

  function CompletionPoints(p: PlanCompletion): nat {
    match p
    case Yes => 50
    case Partial => 25
    case No => 0
  }

  /** `(rating / 5) * 50` plus the completion points, with the rating a whole number. */
  function Points(e: DailyEvaluation): int {
    e.rating * 10 + CompletionPoints(e.planCompletion)
  }

  function TotalPoints(es: seq<DailyEvaluation>): int {
    if es == [] then 0 else TotalPoints(es[..|es| - 1]) + Points(es[|es| - 1])
  }

  /** Ratings between 0 and 5 give between 0 and 100 points per evaluation. */
  lemma {:induction false} TotalPointsRange(es: seq<DailyEvaluation>)
    requires forall i :: 0 <= i < |es| ==> 0 <= es[i].rating <= 5
    ensures 0 <= TotalPoints(es) <= 100 * |es|
  {
    if es != [] {
      TotalPointsRange(es[..|es| - 1]);
    }
  }

  datatype Trend = Up | Down | Flat

  /** Up or down as the latest rating beats or trails the one before it; flat otherwise or with fewer than two. */
  function TrendOf(recent: seq<DailyEvaluation>): Trend {
    if |recent| < 2 then Flat
    else if recent[0].rating > recent[1].rating then Up
    else if recent[0].rating < recent[1].rating then Down
    else Flat
  }

  /**
   * `lifeScoreData`: 50 and flat without evaluations; otherwise the rounded mean points of the 14
   * most recent evaluations and the trend of the latest two. Ratings between 0 and 5 keep the
   * score between 0 and 100.
   */
  method LifeScore(es: seq<DailyEvaluation>) returns (score: int, trend: Trend)
    ensures |es| == 0 ==> score == 50 && trend == Flat
    ensures |es| > 0 ==>
      var recent := Recent(es);
      score == MathRound(100 * TotalPoints(recent), 100 * |recent|) && trend == TrendOf(recent)
    ensures (forall i :: 0 <= i < |es| ==> 0 <= es[i].rating <= 5) ==> 0 <= score <= 100
  {
    if |es| == 0 {
      return 50, Flat;
    }
    var recent := Recent(es);
    var totalPoints := 0;
    var maxPoints := 0;
    var k := 0;
    while k < |recent|
      invariant 0 <= k <= |recent|
      invariant totalPoints == TotalPoints(recent[..k])
      invariant maxPoints == 100 * k
    {
      assert recent[..k + 1][..k] == recent[..k];
      totalPoints := totalPoints + Points(recent[k]);
      maxPoints := maxPoints + 100;
      k := k + 1;
    }
    assert recent[..k] == recent;
    score := MathRound(100 * totalPoints, maxPoints);
    trend := TrendOf(recent);
    if forall i :: 0 <= i < |es| ==> 0 <= es[i].rating <= 5 {
      forall i | 0 <= i < |recent| ensures 0 <= recent[i].rating <= 5 {
        RecentAreNewest(es);
        assert recent[i] in multiset(es);
      }
      TotalPointsRange(recent);
      MathRoundRange(100 * totalPoints, maxPoints, 100);
    }
  }

  /** `Math.max(0, 100 - score)`: how grey the avatar is drawn. */
  function Grayscale(score: int): (g: int)
    ensures g >= 0 && g >= 100 - score
    ensures g == 0 || g == 100 - score
  {
    if 100 - score > 0 then 100 - score else 0
  }

  /** For a score in [0, 100] the grey level is its complement, also in [0, 100]. */
  lemma GrayscaleComplement(score: int)
    requires 0 <= score <= 100
    ensures Grayscale(score) == 100 - score && 0 <= Grayscale(score) <= 100
  {
  }

  // ----- urgentGoals -----

  function Uncompleted(gs: seq<Goal>): (r: seq<Goal>)
    ensures forall x :: x in r <==> x in gs && !x.completed
  {
    if gs == [] then []
    else if gs[0].completed then Uncompleted(gs[1..])
    else [gs[0]] + Uncompleted(gs[1..])
  }

  /** `goals.filter(g => !g.completed).slice(0, 3)`. */
  function UrgentGoals(gs: seq<Goal>): (r: seq<Goal>)
    ensures |r| <= 3
    ensures forall x :: x in r ==> x in gs && !x.completed
  {
    var open := Uncompleted(gs);
    if |open| <= 3 then open else open[..3]
  }

  /** The radar shows the first open goals in list order: all of them when there are at most three. */
  lemma {:induction false} UrgentGoalsAreFirst(gs: seq<Goal>)
    ensures UrgentGoals(gs) == Uncompleted(gs)[..|UrgentGoals(gs)|]
    ensures |Uncompleted(gs)| <= 3 ==> forall x :: x in gs && !x.completed ==> x in UrgentGoals(gs)
    ensures |Uncompleted(gs)| >= 3 ==> |UrgentGoals(gs)| == 3
  {
  }
}

/**
 * Operations on a routine's block list shared by the app shell and the routine editor:
 * reading a block's start, re-sorting the list by time text (`sort` with `localeCompare`,
 * which is stable), and shifting every block by a number of minutes.
 */
module Timeline {
  import opened Wrappers
  import opened JsText
  import opened JsNumber
  import opened Clock
  import opened Types

  /** A block's start in minutes since midnight, read with `split(':').map(Number)`. */
  function StartOf(b: TimeBlock): Num {
    TimeMinutes(b.time)
  }

  /** No block's time text sorts before that of a block earlier in the list. */
  predicate SortedByTime(bs: seq<TimeBlock>) {
    forall i, j :: 0 <= i < j < |bs| ==> !LexLess(bs[j].time, bs[i].time)
  }

  /** Inserts `x` after every block whose time text does not sort after its own (stable insertion). */
  function InsertByTime(bs: seq<TimeBlock>, x: TimeBlock): (r: seq<TimeBlock>)
    requires SortedByTime(bs)
    ensures SortedByTime(r)
    ensures multiset(r) == multiset(bs) + multiset{x}
  {
    if bs == [] then [x]
    else if LexLess(x.time, bs[0].time) then
      InsertFrontSorted(bs, x);
      [x] + bs
    else
      var rest := InsertByTime(bs[1..], x);
      assert bs == [bs[0]] + bs[1..];
      InsertBehindSorted(bs[0], rest, bs[1..], x);
      [bs[0]] + rest
  }

  lemma InsertFrontSorted(bs: seq<TimeBlock>, x: TimeBlock)
    requires SortedByTime(bs) && bs != [] && LexLess(x.time, bs[0].time)
    ensures SortedByTime([x] + bs)
  {
    forall j | 0 <= j < |bs|
      ensures !LexLess(bs[j].time, x.time)
    {
      if LexLess(bs[j].time, x.time) {
        LexLessTransitive(bs[j].time, x.time, bs[0].time);
        if j == 0 { LexLessIrreflexive(bs[0].time); }
      }
    }
  }

  lemma InsertBehindSorted(h: TimeBlock, rest: seq<TimeBlock>, tail: seq<TimeBlock>, x: TimeBlock)
    requires SortedByTime(rest) && SortedByTime([h] + tail)
    requires multiset(rest) == multiset(tail) + multiset{x}
    requires !LexLess(x.time, h.time)
    ensures SortedByTime([h] + rest)
  {
    forall j | 0 <= j < |rest|
      ensures !LexLess(rest[j].time, h.time)
    {
      assert rest[j] in multiset(rest);
      if rest[j] != x {
        assert rest[j] in multiset(tail);
        var k :| 0 <= k < |tail| && tail[k] == rest[j];
        assert ([h] + tail)[k + 1] == tail[k] && ([h] + tail)[0] == h;
      }
    }
    var r := [h] + rest;
    forall i, j | 0 <= i < j < |r|
      ensures !LexLess(r[j].time, r[i].time)
    {
      if i > 0 { assert r[i] == rest[i - 1] && r[j] == rest[j - 1]; }
    }
  }

  /** `blocks.sort((a, b) => a.time.localeCompare(b.time))`: a stable sort by time text. */
  function SortByTime(bs: seq<TimeBlock>): (r: seq<TimeBlock>)
    ensures SortedByTime(r)
    ensures multiset(r) == multiset(bs)
    ensures |r| == |bs|
  {
    if bs == [] then []
    else
      var init := bs[..|bs| - 1];
      assert bs == init + [bs[|bs| - 1]];
      var r := InsertByTime(SortByTime(init), bs[|bs| - 1]);
      assert |r| == |multiset(r)|;
      r
  }

  /** Inserting a block whose time is not earlier than any other appends it. */
  lemma {:induction false} InsertLast(bs: seq<TimeBlock>, x: TimeBlock)
    requires SortedByTime(bs)
    requires forall i :: 0 <= i < |bs| ==> !LexLess(x.time, bs[i].time)
    ensures InsertByTime(bs, x) == bs + [x]
  {
    if bs != [] {
      InsertLast(bs[1..], x);
      assert bs == [bs[0]] + bs[1..];
    }
  }

  /** Sorting a list that is already in time order leaves it as it is. */
  lemma {:induction false} SortSortedIsIdentity(bs: seq<TimeBlock>)
    requires SortedByTime(bs)
    ensures SortByTime(bs) == bs
  {
    if bs != [] {
      var init := bs[..|bs| - 1];
      SortSortedIsIdentity(init);
      InsertLast(init, bs[|bs| - 1]);
      assert init + [bs[|bs| - 1]] == bs;
    }
  }

  // ----- the schedule shift -----

  /** `{ ...block, time: HH:MM }` with the block's start moved by `delta` minutes around the clock. */
  function ShiftBlock(b: TimeBlock, delta: int): (r: TimeBlock)
    ensures r == b.(time := r.time)
    ensures StartOf(b).Num? ==> r.time == FormatHM(ShiftMinute(StartOf(b).v, delta))
    ensures StartOf(b).NaN? ==> r.time == "NaN:NaN"
  {
    b.(time := ShiftedTime(b.time, delta))
  }

  /** The shifted block's time reads back as its old start moved by `delta` around the clock. */
  lemma ShiftBlockStart(b: TimeBlock, delta: int)
    requires StartOf(b).Num?
    ensures StartOf(ShiftBlock(b, delta)) == Num(ShiftMinute(StartOf(b).v, delta))
  {
    ShiftedTimeReads(b.time, delta);
  }

  /** `blocks.map(...)`: every block shifted, in the original order. */
  function ShiftEach(bs: seq<TimeBlock>, delta: int): (r: seq<TimeBlock>)
    ensures |r| == |bs|
    ensures forall i :: 0 <= i < |bs| ==> r[i] == ShiftBlock(bs[i], delta)
  {
    seq(|bs|, i requires 0 <= i < |bs| => ShiftBlock(bs[i], delta))
  }

  /**
   * Each block keeps everything but its time; a readable start moves by `delta` around the clock,
   * and an unreadable one turns into "NaN:NaN".
   */
  lemma ShiftEachStarts(bs: seq<TimeBlock>, delta: int)
    ensures forall i :: 0 <= i < |bs| ==> ShiftEach(bs, delta)[i] == bs[i].(time := ShiftEach(bs, delta)[i].time)
    ensures forall i :: 0 <= i < |bs| && StartOf(bs[i]).Num? ==>
      StartOf(ShiftEach(bs, delta)[i]) == Num(ShiftMinute(StartOf(bs[i]).v, delta))
    ensures forall i :: 0 <= i < |bs| && StartOf(bs[i]).NaN? ==> ShiftEach(bs, delta)[i].time == "NaN:NaN"
  {
    forall i | 0 <= i < |bs| && StartOf(bs[i]).Num?
      ensures StartOf(ShiftEach(bs, delta)[i]) == Num(ShiftMinute(StartOf(bs[i]).v, delta))
    {
      ShiftBlockStart(bs[i], delta);
    }
  }

  lemma ShiftEachAppend(a: seq<TimeBlock>, b: seq<TimeBlock>, delta: int)
    ensures ShiftEach(a + b, delta) == ShiftEach(a, delta) + ShiftEach(b, delta)
  {
    assert forall i :: 0 <= i < |a| ==> (a + b)[i] == a[i];
    assert forall i :: |a| <= i < |a| + |b| ==> (a + b)[i] == b[i - |a|];
  }

  /** Shifting two lists that hold the same blocks gives two lists that hold the same blocks. */
  lemma {:induction false} ShiftEachPermutes(a: seq<TimeBlock>, b: seq<TimeBlock>, delta: int)
    requires multiset(a) == multiset(b)
    ensures multiset(ShiftEach(a, delta)) == multiset(ShiftEach(b, delta))
    decreases |a|
  {
    if a == [] {
      assert |b| == |multiset(b)| == 0;
    } else {
      assert a[0] in multiset(b);
      var k :| 0 <= k < |b| && b[k] == a[0];
      var p, q := b[..k], b[k + 1..];
      DropMatching(a, b, k);
      ShiftEachPermutes(a[1..], p + q, delta);
      Reassemble(a, b, k, delta);
      MultisetSplice(ShiftEach(a[1..], delta), ShiftEach(p, delta), ShiftEach([a[0]], delta), ShiftEach(q, delta));
    }
  }

  /** Shifting a list piece by piece around one chosen position. */
  lemma Reassemble(a: seq<TimeBlock>, b: seq<TimeBlock>, k: nat, delta: int)
    requires a != [] && k < |b| && b[k] == a[0]
    ensures ShiftEach(a, delta) == ShiftEach([a[0]], delta) + ShiftEach(a[1..], delta)
    ensures ShiftEach(b, delta) == ShiftEach(b[..k], delta) + ShiftEach([a[0]], delta) + ShiftEach(b[k + 1..], delta)
    ensures ShiftEach(b[..k] + b[k + 1..], delta) == ShiftEach(b[..k], delta) + ShiftEach(b[k + 1..], delta)
  {
    var p, q := b[..k], b[k + 1..];
    assert a == [a[0]] + a[1..] && b == p + [a[0]] + q;
    ShiftEachAppend([a[0]], a[1..], delta);
    ShiftEachAppend(p + [a[0]], q, delta);
    ShiftEachAppend(p, [a[0]], delta);
    ShiftEachAppend(p, q, delta);
  }

  /** Removing one matching element from two lists with the same elements leaves the same elements. */
  lemma DropMatching<T>(a: seq<T>, b: seq<T>, k: nat)
    requires a != [] && k < |b| && b[k] == a[0] && multiset(a) == multiset(b)
    ensures multiset(a[1..]) == multiset(b[..k] + b[k + 1..])
  {
    var x := a[0];
    assert a == [x] + a[1..];
    assert multiset(a) == multiset{x} + multiset(a[1..]);
    assert b == b[..k] + [x] + b[k + 1..];
    assert multiset(b) == multiset(b[..k]) + multiset{x} + multiset(b[k + 1..]);
    var l, r := multiset(a[1..]), multiset(b[..k] + b[k + 1..]);
    assert r == multiset(b[..k]) + multiset(b[k + 1..]);
    forall y
      ensures l[y] == r[y]
    {
      assert multiset(a)[y] == multiset{x}[y] + l[y];
      assert multiset(b)[y] == multiset{x}[y] + r[y];
    }
    assert l == r;
  }

  /** Putting one piece in front of a list or between two parts of it gives the same elements. */
  lemma MultisetSplice<T>(t: seq<T>, p: seq<T>, x: seq<T>, q: seq<T>)
    requires multiset(t) == multiset(p + q)
    ensures multiset(x + t) == multiset(p + x + q)
  {
    assert multiset(x + t) == multiset(x) + multiset(t);
    assert multiset(p + q) == multiset(p) + multiset(q);
    assert multiset(p + x + q) == multiset(p) + multiset(x) + multiset(q);
  }

  /** The new block list of a schedule shift: all blocks shifted, then re-sorted by time text. */
  function ShiftBlocks(bs: seq<TimeBlock>, delta: int): (r: seq<TimeBlock>)
  {
    SortByTime(ShiftEach(bs, delta))
  }

  /**
   * The shift keeps the number of blocks, keeps the list sorted by time text, and holds
   * exactly the shifted blocks: each one is some block of the input with only its time moved.
   */
  lemma ShiftBlocksSpec(bs: seq<TimeBlock>, delta: int)
    ensures |ShiftBlocks(bs, delta)| == |bs|
    ensures SortedByTime(ShiftBlocks(bs, delta))
    ensures multiset(ShiftBlocks(bs, delta)) == multiset(ShiftEach(bs, delta))
    ensures HoldsShifted(ShiftBlocks(bs, delta), bs, delta)
  {
    var r := ShiftBlocks(bs, delta);
    var e := ShiftEach(bs, delta);
    forall y
      ensures y in r <==> exists i :: 0 <= i < |bs| && y == ShiftBlock(bs[i], delta)
    {
      assert y in r <==> y in multiset(e);
      if y in e {
        var i :| 0 <= i < |e| && e[i] == y;
        assert y == ShiftBlock(bs[i], delta);
      }
      if exists i :: 0 <= i < |bs| && y == ShiftBlock(bs[i], delta) {
        var i :| 0 <= i < |bs| && y == ShiftBlock(bs[i], delta);
        assert e[i] == y;
      }
    }
  }

  /** `r` holds exactly the blocks of `bs` shifted by `delta`. */
  ghost predicate HoldsShifted(r: seq<TimeBlock>, bs: seq<TimeBlock>, delta: int) {
    forall y :: y in r <==> exists i :: 0 <= i < |bs| && y == ShiftBlock(bs[i], delta)
  }

  /** Every block's time parses. */
  predicate AllTimesParse(bs: seq<TimeBlock>) {
    forall i :: 0 <= i < |bs| ==> StartOf(bs[i]).Num?
  }

  /** The block's time is the `HH:MM` text of its own start minute. */
  predicate FormattedStart(b: TimeBlock) {
    StartOf(b).Num? && 0 <= StartOf(b).v < MinutesPerDay && b.time == FormatHM(StartOf(b).v)
  }

  /** When every time parses, the shifted list runs through the day in non-decreasing minutes. */
  lemma ShiftSortedByMinute(bs: seq<TimeBlock>, delta: int)
    requires AllTimesParse(bs)
    ensures var r := ShiftBlocks(bs, delta);
      forall i, j :: 0 <= i < j < |r| ==>
        StartOf(r[i]).Num? && StartOf(r[j]).Num? && 0 <= StartOf(r[i]).v <= StartOf(r[j]).v < MinutesPerDay
  {
    var r := ShiftBlocks(bs, delta);
    ShiftBlocksSpec(bs, delta);
    forall k | 0 <= k < |r|
      ensures FormattedStart(r[k])
    {
      assert r[k] in r;
      var i :| 0 <= i < |bs| && r[k] == ShiftBlock(bs[i], delta);
      ShiftBlockStart(bs[i], delta);
    }
    forall i, j | 0 <= i < j < |r|
      ensures StartOf(r[i]).v <= StartOf(r[j]).v
    {
      FormatHMOrder(StartOf(r[j]).v, StartOf(r[i]).v);
    }
  }

  /** The time text is the zero-padded `HH:MM` of a minute of the day. */
  predicate CanonicalTime(t: string) {
    TimeMinutes(t).Num? && 0 <= TimeMinutes(t).v < MinutesPerDay && FormatHM(TimeMinutes(t).v) == t
  }

  /** Two shifts that add up to whole days cancel out: a block shifted by both is the block itself. */
  lemma ShiftBlockBack(b: TimeBlock, delta: int, undo: int)
    requires CanonicalTime(b.time)
    requires (delta + undo) % MinutesPerDay == 0
    ensures ShiftBlock(ShiftBlock(b, delta), undo) == b
  {
    var v := StartOf(b).v;
    var w := ShiftMinute(v, delta);
    var f := ShiftBlock(b, delta);
    ShiftBlockStart(b, delta);
    ShiftMinuteBack(v, w, delta, undo);
    var g := ShiftBlock(f, undo);
    assert g.time == FormatHM(ShiftMinute(w, undo));
    assert g.time == b.time;
  }

  /** Shifting a minute of the day by two amounts that add up to whole days lands on the same minute. */
  lemma ShiftMinuteBack(v: int, w: int, delta: int, undo: int)
    requires 0 <= v < MinutesPerDay
    requires (delta + undo) % MinutesPerDay == 0
    requires w == ShiftMinute(v, delta)
    ensures ShiftMinute(w, undo) == v
  {
    var q := (v + delta) / MinutesPerDay;
    var p := (delta + undo) / MinutesPerDay;
    assert w == v + delta - MinutesPerDay * q;
    assert delta + undo == MinutesPerDay * p;
    assert w + undo == v + MinutesPerDay * (p - q);
    ModAddMultiple(v, p - q);
  }

  /** Adding whole days does not change the minute of the day. */
  lemma ModAddMultiple(v: int, k: int)
    requires 0 <= v < MinutesPerDay
    ensures (v + MinutesPerDay * k) % MinutesPerDay == v
  {
    var a := v + MinutesPerDay * k;
    var q, r := a / MinutesPerDay, a % MinutesPerDay;
    assert a == MinutesPerDay * q + r && 0 <= r < MinutesPerDay;
    assert MinutesPerDay * (q - k) == v - r;
  }

  /** Every block's time is canonical `HH:MM` text. */
  predicate AllCanonical(bs: seq<TimeBlock>) {
    forall i :: 0 <= i < |bs| ==> CanonicalTime(bs[i].time)
  }

  /**
   * Shifting a whole schedule by `delta` and then by `undo`, two amounts that add up to whole
   * days (`undo == -delta` above all), brings back the same blocks, and, when no two blocks share
   * a time, the very same list.
   */
  lemma ShiftBackRestores(bs: seq<TimeBlock>, delta: int, undo: int)
    requires AllCanonical(bs)
    requires (delta + undo) % MinutesPerDay == 0
    ensures var back := ShiftBlocks(ShiftBlocks(bs, delta), undo);
      |back| == |bs| && multiset(back) == multiset(bs) && forall y :: y in back <==> y in bs
    ensures StrictlySortedByTime(bs) ==> ShiftBlocks(ShiftBlocks(bs, delta), undo) == bs
  {
    var fwd := ShiftBlocks(bs, delta);
    var back := ShiftBlocks(fwd, undo);
    ShiftBlocksSpec(bs, delta);
    ShiftBlocksSpec(fwd, undo);
    ShiftEachPermutes(fwd, ShiftEach(bs, delta), undo);
    ShiftEachTwice(bs, delta, undo);
    SameBlocksBack(bs, fwd, back, delta, undo);
    if StrictlySortedByTime(bs) {
      StrictlySortedHasDistinctTimes(bs);
      SortedSameElementsEqual(back, bs);
    }
  }

  /** Shifted there and back by whole days, every canonical block is itself again. */
  lemma ShiftEachTwice(bs: seq<TimeBlock>, delta: int, undo: int)
    requires AllCanonical(bs) && (delta + undo) % MinutesPerDay == 0
    ensures ShiftEach(ShiftEach(bs, delta), undo) == bs
  {
    forall i | 0 <= i < |bs|
      ensures ShiftEach(ShiftEach(bs, delta), undo)[i] == bs[i]
    {
      ShiftBlockBack(bs[i], delta, undo);
    }
  }

  lemma SameBlocksBack(bs: seq<TimeBlock>, fwd: seq<TimeBlock>, back: seq<TimeBlock>, delta: int, undo: int)
    requires AllCanonical(bs) && (delta + undo) % MinutesPerDay == 0
    requires HoldsShifted(fwd, bs, delta) && HoldsShifted(back, fwd, undo)
    ensures forall y :: y in back <==> y in bs
  {
    forall y
      ensures y in back <==> y in bs
    {
      if y in back {
        BackComesFromOriginal(bs, fwd, back, delta, undo, y);
      }
      if y in bs {
        OriginalReachesBack(bs, fwd, back, delta, undo, y);
      }
    }
  }

  lemma BackComesFromOriginal(bs: seq<TimeBlock>, fwd: seq<TimeBlock>, back: seq<TimeBlock>, delta: int, undo: int, y: TimeBlock)
    requires AllCanonical(bs) && (delta + undo) % MinutesPerDay == 0
    requires HoldsShifted(fwd, bs, delta) && HoldsShifted(back, fwd, undo)
    requires y in back
    ensures y in bs
  {
    var k :| 0 <= k < |fwd| && y == ShiftBlock(fwd[k], undo);
    assert fwd[k] in fwd;
    var i :| 0 <= i < |bs| && fwd[k] == ShiftBlock(bs[i], delta);
    ShiftBlockBack(bs[i], delta, undo);
  }

  lemma OriginalReachesBack(bs: seq<TimeBlock>, fwd: seq<TimeBlock>, back: seq<TimeBlock>, delta: int, undo: int, y: TimeBlock)
    requires AllCanonical(bs) && (delta + undo) % MinutesPerDay == 0
    requires HoldsShifted(fwd, bs, delta) && HoldsShifted(back, fwd, undo)
    requires y in bs
    ensures y in back
  {
    var i :| 0 <= i < |bs| && bs[i] == y;
    ShiftBlockBack(bs[i], delta, undo);
    assert ShiftBlock(bs[i], delta) in fwd;
    var k :| 0 <= k < |fwd| && fwd[k] == ShiftBlock(bs[i], delta);
    assert y == ShiftBlock(fwd[k], undo);
  }

  /** Each block's time text sorts strictly before the next one's. */
  predicate StrictlySortedByTime(bs: seq<TimeBlock>) {
    forall i, j :: 0 <= i < j < |bs| ==> LexLess(bs[i].time, bs[j].time)
  }

  /** Each block's time text sorts strictly before its successor's. */
  predicate ChainedByTime(bs: seq<TimeBlock>) {
    forall i :: 0 <= i < |bs| - 1 ==> LexLess(bs[i].time, bs[i + 1].time)
  }

  /** Neighbouring blocks in order are enough: the order of strings is transitive. */
  lemma {:induction false} ChainedIsStrictlySorted(bs: seq<TimeBlock>)
    requires ChainedByTime(bs)
    ensures StrictlySortedByTime(bs)
  {
    if |bs| > 1 {
      ChainedIsStrictlySorted(bs[1..]);
      forall j | 1 <= j < |bs|
        ensures LexLess(bs[0].time, bs[j].time)
      {
        if j > 1 {
          assert bs[1..][0] == bs[1] && bs[1..][j - 1] == bs[j];
          LexLessTransitive(bs[0].time, bs[1].time, bs[j].time);
        }
      }
      forall i, j | 0 <= i < j < |bs|
        ensures LexLess(bs[i].time, bs[j].time)
      {
        if i > 0 { assert bs[1..][i - 1] == bs[i] && bs[1..][j - 1] == bs[j]; }
      }
    }
  }

  lemma StrictlySortedHasDistinctTimes(bs: seq<TimeBlock>)
    requires StrictlySortedByTime(bs)
    ensures SortedByTime(bs)
  {
    forall i, j | 0 <= i < j < |bs|
      ensures !LexLess(bs[j].time, bs[i].time)
    {
      LexLessTrichotomy(bs[i].time, bs[j].time);
    }
  }

  /** A sorted list holds the same elements as a strictly sorted list of the same length only by being equal to it. */
  lemma {:induction false} SortedSameElementsEqual(a: seq<TimeBlock>, b: seq<TimeBlock>)
    requires SortedByTime(a) && StrictlySortedByTime(b) && |a| == |b|
    requires forall y :: y in a <==> y in b
    ensures a == b
  {
    if a != [] {
      SameElementsDistinct(a, b);
      HeadsMatch(a, b);
      TailsSameElements(a, b);
      forall i, j | 0 <= i < j < |b| - 1
        ensures LexLess(b[1..][i].time, b[1..][j].time)
      {
        assert b[1..][i] == b[i + 1] && b[1..][j] == b[j + 1];
      }
      forall i, j | 0 <= i < j < |a| - 1
        ensures !LexLess(a[1..][j].time, a[1..][i].time)
      {
        assert a[1..][i] == a[i + 1] && a[1..][j] == a[j + 1];
      }
      SortedSameElementsEqual(a[1..], b[1..]);
      assert a == [a[0]] + a[1..] && b == [b[0]] + b[1..];
    }
  }

  /** The earliest block of the strictly sorted list starts the sorted one too. */
  lemma HeadsMatch(a: seq<TimeBlock>, b: seq<TimeBlock>)
    requires a != [] && |a| == |b| && SortedByTime(a) && StrictlySortedByTime(b)
    requires forall y :: y in a <==> y in b
    ensures a[0] == b[0]
  {
    assert a[0] in b;
    var k :| 0 <= k < |b| && b[k] == a[0];
    assert b[0] in a;
    var m :| 0 <= m < |a| && a[m] == b[0];
    if k != 0 {
      assert LexLess(b[0].time, b[k].time);
      if m == 0 { LexLessIrreflexive(b[0].time); }
      assert !LexLess(a[m].time, a[0].time);
    }
  }

  /** With the heads equal and no element repeated, the tails hold the same elements. */
  lemma TailsSameElements(a: seq<TimeBlock>, b: seq<TimeBlock>)
    requires a != [] && b != [] && a[0] == b[0] && StrictlySortedByTime(b)
    requires forall i, j :: 0 <= i < j < |a| ==> a[i] != a[j]
    requires forall y :: y in a <==> y in b
    ensures forall y :: y in a[1..] <==> y in b[1..]
  {
    forall y
      ensures y in a[1..] <==> y in b[1..]
    {
      if y in b[1..] {
        var j :| 1 <= j < |b| && b[j] == y;
        assert LexLess(b[0].time, y.time);
        if y == a[0] { LexLessIrreflexive(y.time); }
        assert y in a;
        var i :| 0 <= i < |a| && a[i] == y;
        assert i != 0;
        assert a[1..][i - 1] == y;
      }
      if y in a[1..] {
        var i :| 1 <= i < |a| && a[i] == y;
        assert y in b;
        var j :| 0 <= j < |b| && b[j] == y;
        if j == 0 {
          // a[i] == a[0]: a repeats an element, which its distinctness rules out.
          assert false;
        }
        assert b[1..][j - 1] == y;
      }
    }
  }

  /** A list as long as a list of distinct elements, holding the same elements, has distinct elements too. */
  lemma SameElementsDistinct(a: seq<TimeBlock>, b: seq<TimeBlock>)
    requires StrictlySortedByTime(b) && |a| == |b|
    requires forall y :: y in a <==> y in b
    ensures forall i, j :: 0 <= i < j < |a| ==> a[i] != a[j]
  {
    StrictDistinct(b);
    forall i, j | 0 <= i < j < |a|
      ensures a[i] != a[j]
    {
      if a[i] == a[j] {
        assert (set y | y in a) == (set y | y in b);
        SetOfSeqBound(a, i, j);
        DistinctSetSize(b);
        assert false;
      }
    }
  }

  lemma StrictDistinct(b: seq<TimeBlock>)
    requires StrictlySortedByTime(b)
    ensures forall i, j :: 0 <= i < j < |b| ==> b[i] != b[j]
  {
    forall i, j | 0 <= i < j < |b|
      ensures b[i] != b[j]
    {
      if b[i] == b[j] { LexLessIrreflexive(b[i].time); }
    }
  }

  /** A list with a repeated element has fewer distinct elements than entries. */
  lemma SetOfSeqBound(a: seq<TimeBlock>, i: int, j: int)
    requires 0 <= i < j < |a| && a[i] == a[j]
    ensures |(set y | y in a)| < |a|
  {
    var t := a[..j] + a[j + 1..];
    assert (set y | y in a) == (set y | y in t) by {
      forall y | y in a ensures y in t {
        if y == a[j] { assert t[i] == y; } else {
          var k :| 0 <= k < |a| && a[k] == y;
          if k < j { assert t[k] == y; } else { assert t[k - 1] == y; }
        }
      }
    }
    SetOfSeqAtMost(t);
  }

  lemma {:induction false} SetOfSeqAtMost(s: seq<TimeBlock>)
    ensures |(set y | y in s)| <= |s|
  {
    if s != [] {
      SetOfSeqAtMost(s[1..]);
      assert (set y | y in s) == {s[0]} + (set y | y in s[1..]);
    }
  }

  lemma {:induction false} DistinctSetSize(s: seq<TimeBlock>)
    requires forall i, j :: 0 <= i < j < |s| ==> s[i] != s[j]
    ensures |(set y | y in s)| == |s|
  {
    if s != [] {
      DistinctSetSize(s[1..]);
      assert (set y | y in s) == {s[0]} + (set y | y in s[1..]);
      assert s[0] !in (set y | y in s[1..]);
    }
  }

  // ----- starts as numbers -----

  /** Every block's start, in order. */
  function Starts(bs: seq<TimeBlock>): (s: seq<Num>)
    ensures |s| == |bs|
  {
    seq(|bs|, i requires 0 <= i < |bs| => StartOf(bs[i]))
  }

  /** Starts that all parse and strictly increase. */
  predicate Increasing(s: seq<Num>) {
    (forall i :: 0 <= i < |s| ==> s[i].Num?)
    && forall i, j :: 0 <= i < j < |s| ==> s[i].v < s[j].v
  }

  /** A list of canonical `HH:MM` times in strictly ascending text order has strictly increasing starts. */
  lemma CanonicalSortedIncreasing(bs: seq<TimeBlock>)
    requires AllCanonical(bs) && StrictlySortedByTime(bs)
    ensures Increasing(Starts(bs))
  {
    var s := Starts(bs);
    forall i | 0 <= i < |s| ensures s[i].Num? {
      assert CanonicalTime(bs[i].time);
    }
    forall i, j | 0 <= i < j < |s| ensures s[i].v < s[j].v {
      assert CanonicalTime(bs[i].time) && CanonicalTime(bs[j].time);
      FormatHMOrder(s[i].v, s[j].v);
    }
  }
}

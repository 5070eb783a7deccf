/**
 * The app shell's updates of the goal list and the list of daily evaluations: each builds a new
 * list from the old one (spread, `map`, `filter`).
 */
module Collections {
  import opened Types

  // ----- daily evaluations -----

  /** The evaluations whose date is not `d`, in their order. */
  function OtherDates(es: seq<DailyEvaluation>, d: Day): (r: seq<DailyEvaluation>)
    ensures forall x :: x in r <==> x in es && x.date != d
    ensures |r| <= |es|
  {
    if es == [] then []
    else if es[0].date == d then OtherDates(es[1..], d)
    else [es[0]] + OtherDates(es[1..], d)
  }

  /** `[evaluation, ...prev.filter(e => e.date !== evaluation.date)]`. */
  function SaveEvaluation(es: seq<DailyEvaluation>, e: DailyEvaluation): seq<DailyEvaluation> {
    [e] + OtherDates(es, e.date)
  }

  /**
   * After saving, the new evaluation comes first, no other entry shares its date, and the other
   * entries are exactly the old ones of other dates.
   */
  lemma SaveEvaluationSpec(es: seq<DailyEvaluation>, e: DailyEvaluation)
    ensures var r := SaveEvaluation(es, e);
      |r| >= 1 && r[0] == e
      && (forall k :: 1 <= k < |r| ==> r[k].date != e.date)
      && (forall x :: x in r[1..] <==> x in es && x.date != e.date)
      && |r| <= |es| + 1
    ensures forall a, b :: es == a + b ==>
      SaveEvaluation(es, e)[1..] == OtherDates(a, e.date) + OtherDates(b, e.date)
  {
    forall a, b | es == a + b
      ensures SaveEvaluation(es, e)[1..] == OtherDates(a, e.date) + OtherDates(b, e.date)
    {
      OtherDatesAppend(a, b, e.date);
    }
    var r := SaveEvaluation(es, e);
    assert r[1..] == OtherDates(es, e.date);
    forall k | 1 <= k < |r| ensures r[k].date != e.date {
      assert r[k] in r[1..];
    }
  }

  /** The filter works piece by piece, so the evaluations it keeps stay in their order. */
  lemma {:induction false} OtherDatesAppend(a: seq<DailyEvaluation>, b: seq<DailyEvaluation>, d: Day)
    ensures OtherDates(a + b, d) == OtherDates(a, d) + OtherDates(b, d)
  {
    if a == [] {
      assert a + b == b;
    } else {
      assert (a + b)[0] == a[0] && (a + b)[1..] == a[1..] + b;
      OtherDatesAppend(a[1..], b, d);
      if a[0].date == d {
        assert OtherDates(a + b, d) == OtherDates(a[1..] + b, d);
      } else {
        assert OtherDates(a + b, d) == [a[0]] + OtherDates(a[1..] + b, d);
      }
    }
  }

  /** Saving the same day twice keeps only the second evaluation for that day. */
  lemma SaveTwiceKeepsLast(es: seq<DailyEvaluation>, e1: DailyEvaluation, e2: DailyEvaluation)
    requires e1.date == e2.date
    ensures SaveEvaluation(SaveEvaluation(es, e1), e2) == SaveEvaluation(es, e2)
  {
    OtherDatesIdempotent(es, e1.date);
  }

  lemma {:induction false} OtherDatesIdempotent(es: seq<DailyEvaluation>, d: Day)
    ensures OtherDates(OtherDates(es, d), d) == OtherDates(es, d)
  {
    if es != [] {
      OtherDatesIdempotent(es[1..], d);
    }
  }

  // ----- goals -----

  /** `[...goals, goal]`. */
  function AddGoal(gs: seq<Goal>, g: Goal): seq<Goal> {
    gs + [g]
  }

  /** `goals.map(g => g.id === id ? { ...g, completed: !g.completed } : g)`. */
  function ToggleGoal(gs: seq<Goal>, id: string): (r: seq<Goal>)
    ensures |r| == |gs|
    ensures forall i :: 0 <= i < |gs| && gs[i].id != id ==> r[i] == gs[i]
    ensures forall i :: 0 <= i < |gs| && gs[i].id == id ==>
      r[i] == gs[i].(completed := !gs[i].completed)
  {
    seq(|gs|, i requires 0 <= i < |gs| => if gs[i].id == id then gs[i].(completed := !gs[i].completed) else gs[i])
  }

  /** `goals.filter(g => g.id !== id)`. */
  function DeleteGoal(gs: seq<Goal>, id: string): (r: seq<Goal>)
    ensures forall x :: x in r <==> x in gs && x.id != id
    ensures |r| <= |gs|
  {
    if gs == [] then []
    else if gs[0].id == id then DeleteGoal(gs[1..], id)
    else [gs[0]] + DeleteGoal(gs[1..], id)
  }

  /** Toggling the same goal twice gives back the list. */
  lemma ToggleTwice(gs: seq<Goal>, id: string)
    ensures ToggleGoal(ToggleGoal(gs, id), id) == gs
  {
    var once := ToggleGoal(gs, id);
    var twice := ToggleGoal(once, id);
    forall i | 0 <= i < |gs| ensures twice[i] == gs[i] {
      assert once[i].id == gs[i].id;
    }
  }

  /** Toggling changes nothing but the completion flag: ids, texts, periods and categories stay. */
  lemma ToggleKeepsGoals(gs: seq<Goal>, id: string)
    ensures forall i :: 0 <= i < |gs| ==>
      var g := ToggleGoal(gs, id)[i];
      g.id == gs[i].id && g.text == gs[i].text && g.period == gs[i].period && g.category == gs[i].category
  {
  }

  /** Deleting the goal just added, whose id no other goal has, gives back the old list. */
  lemma {:induction false} DeleteAdded(gs: seq<Goal>, g: Goal)
    requires forall i :: 0 <= i < |gs| ==> gs[i].id != g.id
    ensures DeleteGoal(AddGoal(gs, g), g.id) == gs
  {
    if gs == [] {
      assert AddGoal(gs, g) == [g];
    } else {
      assert AddGoal(gs, g) == [gs[0]] + AddGoal(gs[1..], g);
      DeleteAdded(gs[1..], g);
      assert gs == [gs[0]] + gs[1..];
    }
  }

  /** Deleting an id no goal has changes nothing. */
  lemma {:induction false} DeleteAbsent(gs: seq<Goal>, id: string)
    requires forall i :: 0 <= i < |gs| ==> gs[i].id != id
    ensures DeleteGoal(gs, id) == gs
  {
    if gs != [] {
      DeleteAbsent(gs[1..], id);
      assert gs == [gs[0]] + gs[1..];
    }
  }

  /** Deletion works piece by piece, so the goals it keeps stay in their order. */
  lemma {:induction false} DeleteAppend(a: seq<Goal>, b: seq<Goal>, id: string)
    ensures DeleteGoal(a + b, id) == DeleteGoal(a, id) + DeleteGoal(b, id)
  {
    if a != [] {
      assert (a + b)[0] == a[0] && (a + b)[1..] == a[1..] + b;
      DeleteAppend(a[1..], b, id);
      if a[0].id == id {
        assert DeleteGoal(a + b, id) == DeleteGoal(a[1..] + b, id);
      } else {
        assert DeleteGoal(a + b, id) == [a[0]] + DeleteGoal(a[1..] + b, id);
      }
    } else {
      assert a + b == b;
    }
  }
}

/**
 * The goal planner: the guard and record of a new goal, and the per-period sections that list
 * the goals. The goal's id, drawn from the clock, is a parameter.
 */
module GoalPlanner {
  import opened Wrappers
  import opened JsText
  import opened Types
  import Collections

  /** The period selected when the planner opens (`'diario'`). */
  const DefaultPeriod: GoalPeriod := Daily

  /**
   * `handleAdd`: none for text that is blank once trimmed; otherwise an uncompleted goal of the
   * selected period with the text exactly as typed.
   */
  function NewGoal(text: string, period: GoalPeriod, id: string): Option<Goal> {
    if IsBlank(text) then None else Some(Goal(id, text, period, false, None))
  }

  /**
   * A goal is made exactly when the text has a character that is not whitespace; it is
   * uncompleted, has no category, keeps the untrimmed text and the selected period, and the app
   * appends it as the last goal.
   */
  lemma NewGoalSpec(gs: seq<Goal>, text: string, period: GoalPeriod, id: string)
    ensures NewGoal(text, period, id).Some? <==> !AllWhitespace(text)
    ensures NewGoal(text, period, id).Some? ==>
      var g := NewGoal(text, period, id).value;
      g.text == text && g.period == period && !g.completed && g.category.None? && g.id == id
      && Collections.AddGoal(gs, g)[|gs|] == g && Collections.AddGoal(gs, g)[..|gs|] == gs
  {
    BlankIffAllWhitespace(text);
  }

  /** `goals.filter(g => g.period === period)`. */
  function PeriodGoals(gs: seq<Goal>, p: GoalPeriod): (r: seq<Goal>)
    ensures forall x :: x in r <==> x in gs && x.period == p
    ensures |r| <= |gs|
  {
    if gs == [] then []
    else if gs[0].period == p then [gs[0]] + PeriodGoals(gs[1..], p)
    else PeriodGoals(gs[1..], p)
  }

  /** The four sections between them show every goal exactly once. */
  lemma {:induction false} SectionsPartition(gs: seq<Goal>)
    ensures |PeriodGoals(gs, Daily)| + |PeriodGoals(gs, Weekly)| + |PeriodGoals(gs, Monthly)|
      + |PeriodGoals(gs, Yearly)| == |gs|
    ensures forall x :: x in gs ==> x in PeriodGoals(gs, x.period)
  {
    if gs != [] {
      SectionsPartition(gs[1..]);
    }
  }

  /** A section keeps the goals in their order: filtering works piece by piece. */
  lemma {:induction false} PeriodGoalsAppend(a: seq<Goal>, b: seq<Goal>, p: GoalPeriod)
    ensures PeriodGoals(a + b, p) == PeriodGoals(a, p) + PeriodGoals(b, p)
  {
    if a == [] {
      assert a + b == b;
    } else {
      assert (a + b)[1..] == a[1..] + b;
      PeriodGoalsAppend(a[1..], b, p);
    }
  }

  /** A new goal shows at the end of its own section, and the other sections do not change. */
  lemma NewGoalSection(gs: seq<Goal>, g: Goal, p: GoalPeriod)
    ensures PeriodGoals(Collections.AddGoal(gs, g), p)
      == if g.period == p then PeriodGoals(gs, p) + [g] else PeriodGoals(gs, p)
  {
    PeriodGoalsAppend(gs, [g], p);
    assert [g][1..] == [];
  }
}

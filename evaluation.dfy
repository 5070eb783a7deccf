/**
 * The daily check-in screen: how recently the user talked to the mentor, the guard and record of
 * a check-in, today's existing check-in, and the 28-day calendar. The clock is a parameter: `now`
 * in milliseconds for the recency, and `today` as a day number.
 */
module Evaluation {
  import opened Wrappers
  import opened JsText
  import opened Types

  const MsPerDay: int := 1000 * 60 * 60 * 24

  datatype Level = Good | Warning | Danger

  datatype Interaction = Interaction(status: Level, days: string, msg: string)

  /** `getInteractionStatus`: the level, the label and the message for the last interaction. */
  function InteractionStatus(last: Option<int>, now: int): Interaction {
    if last.None? || last.value == 0 then Interaction(Danger, "Nunca", "No hemos hablado nunca.")
    else
      var diffDays := (now - last.value) / MsPerDay;
      if diffDays < 1 then Interaction(Level.Good, "Hoy", "Estamos conectados.")
      else if diffDays < 3 then Interaction(Warning, NatToString(diffDays) + " días", "Vuelve al chat.")
      else Interaction(Danger, NatToString(diffDays) + " días", "Alerta: No te aísles.")
  }

  /**
   * In milliseconds elapsed: under one day is good, one to under three days is a warning, and
   * three days or more, or no recorded interaction at all, is danger. A warning or danger label
   * names the whole days elapsed.
   */
  lemma InteractionLevels(last: Option<int>, now: int)
    ensures var s := InteractionStatus(last, now).status;
      var known := last.Some? && last.value != 0;
      (s == Level.Good <==> known && now - last.value < MsPerDay)
      && (s == Warning <==> known && MsPerDay <= now - last.value < 3 * MsPerDay)
      && (s == Danger <==> !known || 3 * MsPerDay <= now - last.value)
    ensures last.None? || last.value == 0 ==> InteractionStatus(last, now).days == "Nunca"
    ensures last.Some? && last.value != 0 && MsPerDay <= now - last.value ==>
      var d := (now - last.value) / MsPerDay;
      d >= 1 && d * MsPerDay <= now - last.value < (d + 1) * MsPerDay
      && DigitsValue(InteractionStatus(last, now).days[..|NatToString(d)|]) == d
  {
    if last.Some? && last.value != 0 {
      var diff := now - last.value;
      var d := diff / MsPerDay;
      assert d * MsPerDay <= diff < (d + 1) * MsPerDay;
      if d >= 1 {
        var shown := NatToString(d) + " días";
        assert shown[..|NatToString(d)|] == NatToString(d);
      }
    }
  }

  /**
   * `handleSubmit`: none unless plan completion and mood are chosen and the rating is not zero;
   * otherwise today's record, with the interaction score 10 exactly when the interaction is good.
   */
  function Submit(plan: Option<PlanCompletion>, mood: Option<Mood>, energy: int, rating: int,
                  audio: Option<string>, today: Day, status: Interaction): (r: Option<DailyEvaluation>)
  {
    if plan.None? || mood.None? || rating == 0 then None
    else Some(DailyEvaluation(today, rating, plan.value, mood.value, energy, audio, None,
                              if status.status == Level.Good then 10 else 0))
  }

  /** A check-in is recorded exactly when plan, mood and rating are given, and carries them for today. */
  lemma SubmitSpec(plan: Option<PlanCompletion>, mood: Option<Mood>, energy: int, rating: int,
                   audio: Option<string>, today: Day, status: Interaction)
    ensures var r := Submit(plan, mood, energy, rating, audio, today, status);
      (r.Some? <==> plan.Some? && mood.Some? && rating != 0)
      && (r.Some? ==> (r.value.date == today && r.value.rating == rating
          && Some(r.value.planCompletion) == plan && Some(r.value.moodEmoji) == mood
          && r.value.energyLevel == energy && r.value.audioNote == audio && r.value.textNote.None?
          && (r.value.interactionScore == 10 <==> status.status == Level.Good)
          && (r.value.interactionScore == 0 <==> status.status != Level.Good)))
  {
  }

  /** `evaluations.find(e => e.date === day)`. */
  function FindByDate(es: seq<DailyEvaluation>, day: Day): (r: Option<DailyEvaluation>)
    ensures r.Some? ==> r.value in es && r.value.date == day
    ensures r.None? <==> forall i :: 0 <= i < |es| ==> es[i].date != day
  {
    if es == [] then None
    else if es[0].date == day then Some(es[0])
    else FindByDate(es[1..], day)
  }

  /** The first check-in of that day is the one found. */
  lemma {:induction false} FindByDateIsFirst(es: seq<DailyEvaluation>, day: Day, k: nat)
    requires k < |es| && es[k].date == day
    requires forall i :: 0 <= i < k ==> es[i].date != day
    ensures FindByDate(es, day) == Some(es[k])
  {
    if k > 0 {
      FindByDateIsFirst(es[1..], day, k - 1);
    }
  }

  /** `hasEvaluatedToday`. */
  predicate HasEvaluatedToday(es: seq<DailyEvaluation>, today: Day) {
    FindByDate(es, today).Some?
  }

  /** After the app saves a check-in for today, one is found for today, and it is the new one. */
  lemma SavedIsFound(es: seq<DailyEvaluation>, e: DailyEvaluation)
    ensures FindByDate([e] + es, e.date) == Some(e)
    ensures HasEvaluatedToday([e] + es, e.date)
  {
  }

  datatype CalendarDay = CalendarDay(date: Day, evaluation: Option<DailyEvaluation>)

  /** `calendarDays`: the last 28 days, oldest first and ending today, each with its check-in if any. */
  method CalendarDays(es: seq<DailyEvaluation>, today: Day) returns (days: seq<CalendarDay>)
    ensures |days| == 28
    ensures forall k :: 0 <= k < 28 ==> days[k].date == today - 27 + k
    ensures forall k :: 0 <= k < 28 ==> days[k].evaluation == FindByDate(es, days[k].date)
    ensures days[27].date == today
  {
    days := [];
    var i := 27;
    while i >= 0
      invariant -1 <= i <= 27
      invariant |days| == 27 - i
      invariant forall k :: 0 <= k < |days| ==> days[k].date == today - 27 + k
      invariant forall k :: 0 <= k < |days| ==> days[k].evaluation == FindByDate(es, days[k].date)
    {
      var d := today - i;
      days := days + [CalendarDay(d, FindByDate(es, d))];
      i := i - 1;
    }
  }
}

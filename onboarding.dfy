/**
 * The two onboarding screens. The wizard is a step counter advanced under guards (`Wizard`
 * values, the step function `Next`, and the `OnboardingWizard` class whose handlers update its
 * fields); the simple form is one guard over its field values that yields the payload.
 */
module Onboarding {
  import opened Wrappers
  import opened JsText
  import opened Types

  /** What either screen hands on: the payload of `onComplete`. */
  datatype OnboardingData = OnboardingData(name: string, mainGoal: string, routinePreference: string, avatar: Option<string>)

  // ----- the wizard -----

  /**
   * The wizard's fields, with the step changes `handleNext` has scheduled and not yet applied
   * (`pending`) and the `isAnimating` flag.
   */
  datatype Wizard = Wizard(step: int, name: string, mainGoal: string, routinePref: string,
                           pending: nat, animating: bool)

  const Start: Wizard := Wizard(1, "", "", MorningProductive, 0, false)

  /**
   * `handleNext`: a blank name holds step 1 and a blank goal holds step 2. Otherwise the click
   * sets `isAnimating` and schedules one step change for 300 ms later; the step on screen stays.
   */
  function Click(w: Wizard): Wizard {
    if w.step == 1 && IsBlank(w.name) then w
    else if w.step == 2 && IsBlank(w.mainGoal) then w
    else w.(animating := true, pending := w.pending + 1)
  }

  /** One scheduled timer runs: `setStep(prev => prev + 1)` and `setIsAnimating(false)`. */
  function Fire(w: Wizard): Wizard
    requires w.pending > 0
  {
    w.(step := w.step + 1, pending := w.pending - 1, animating := false)
  }

  /** `renderStep` draws a screen only for these steps. */
  predicate Renders(step: int) {
    step == 1 || step == 2 || step == 3
  }

  /** `handleFinish`: the fields, unchanged. */
  function Finish(w: Wizard): (d: OnboardingData)
    ensures d.name == w.name && d.mainGoal == w.mainGoal && d.routinePreference == w.routinePref && d.avatar.None?
  {
    OnboardingData(w.name, w.mainGoal, w.routinePref, None)
  }

  /** The click's guards hold the wizard still. */
  predicate Held(w: Wizard) {
    (w.step == 1 && AllWhitespace(w.name)) || (w.step == 2 && AllWhitespace(w.mainGoal))
  }

  /**
   * A click is refused exactly at step 1 with an all-whitespace name and at step 2 with an
   * all-whitespace goal; otherwise it schedules exactly one step change and nothing else changes,
   * and when that timer runs the step has grown by exactly one.
   */
  lemma NextSpec(w: Wizard)
    ensures Click(w) == w <==> Held(w)
    ensures !Held(w) ==> Click(w) == w.(animating := true, pending := w.pending + 1)
    ensures !Held(w) ==> Fire(Click(w)) == w.(step := w.step + 1, animating := false)
  {
    HeldIsBlank(w);
  }

  lemma HeldIsBlank(w: Wizard)
    ensures Held(w) <==> (w.step == 1 && IsBlank(w.name)) || (w.step == 2 && IsBlank(w.mainGoal))
  {
    BlankIffAllWhitespace(w.name);
    BlankIffAllWhitespace(w.mainGoal);
  }

  /**
   * When each click's timer runs before the next click, the wizard stays on a step it can draw
   * (the next button is on steps 1 and 2 only), and it passes step 1 only with a name and step 2
   * only with a goal that are not blank.
   */
  lemma StepsStayDrawable(w: Wizard)
    requires Renders(w.step) && w.pending == 0
    ensures Renders(Start.step) && Start.pending == 0 && Start.routinePref == MorningProductive
    ensures w.step < 3 && Click(w).pending > 0 ==> Renders(Fire(Click(w)).step) && Fire(Click(w)).pending == 0
    ensures w.step == 1 && Click(w).pending > 0 ==> !IsBlank(w.name)
    ensures w.step == 2 && Click(w).pending > 0 ==> !IsBlank(w.mainGoal)
  {
  }

  /**
   * The buttons stay enabled while a step change is pending, so a second click within 300 ms
   * passes the same check again: with a name and no goal on step 1, two clicks and their two
   * timers leave the wizard on step 3 with a blank goal, step 2's check never made.
   */
  lemma DoubleClickSkipsGoal()
    ensures var w := Wizard(1, "Ana", "", MorningProductive, 0, false);
      var w2 := Click(Click(w));
      w2.pending == 2 && Fire(Fire(w2)).step == 3 && IsBlank(Fire(Fire(w2)).mainGoal)
  {
    var w := Wizard(1, "Ana", "", MorningProductive, 0, false);
    assert !IsWhitespace(w.name[0]);
    BlankIffAllWhitespace(w.name);
  }

  /** On step 2 with a goal, a double click ends on step 4, for which `renderStep` draws nothing. */
  lemma DoubleClickPastLast(w: Wizard)
    requires w.step == 2 && !IsBlank(w.mainGoal) && w.pending == 0
    ensures Click(Click(w)).pending == 2 && !Renders(Fire(Fire(Click(Click(w)))).step)
  {
  }

  /** `handleNext` with the evidently intended guard: a click while `isAnimating` is ignored. */
  function GuardedClick(w: Wizard): Wizard {
    if w.animating then w else Click(w)
  }

  /** At most one step change pending, only from a step with a next button, and only while animating; a drawable step. */
  predicate Orderly(w: Wizard) {
    Renders(w.step) && w.pending <= 1 && (w.pending == 1 ==> w.animating && w.step < 3)
  }

  /**
   * With clicks ignored while animating, every event keeps the wizard orderly, so it never leaves
   * the three drawn steps, and a click schedules a step change only when nothing is pending and
   * the check of the step on screen passes.
   */
  lemma GuardedInvariant(w: Wizard, text: string, afternoon: bool)
    requires Orderly(w)
    ensures Orderly(Start)
    ensures w.step < 3 ==> Orderly(GuardedClick(w))
    ensures w.pending > 0 ==> Orderly(Fire(w)) && Fire(w).step == w.step + 1
    ensures Orderly(w.(name := text)) && Orderly(w.(mainGoal := text)) && Orderly(w.(animating := true))
    ensures Orderly(w.(routinePref := if afternoon then AfternoonFocus else MorningProductive))
    ensures GuardedClick(w).pending > w.pending ==>
      w.pending == 0 && (w.step == 1 ==> !IsBlank(w.name)) && (w.step == 2 ==> !IsBlank(w.mainGoal))
  {
  }

  class OnboardingWizard {
    var step: int
    var name: string
    var mainGoal: string
    var routinePref: string
    var pending: nat
    var animating: bool

    function State(): Wizard
      reads this
    {
      Wizard(step, name, mainGoal, routinePref, pending, animating)
    }

    constructor()
      ensures State() == Start
    {
      step := 1;
      name := "";
      mainGoal := "";
      routinePref := MorningProductive;
      pending := 0;
      animating := false;
    }

    method HandleNext()
      modifies this
      ensures State() == Click(old(State()))
    {
      if step == 1 && IsBlank(name) {
        return;
      }
      if step == 2 && IsBlank(mainGoal) {
        return;
      }
      animating := true;
      pending := pending + 1;
    }

    /** The 300 ms timer of one earlier `handleNext`. */
    method TimerFires()
      requires pending > 0
      modifies this
      ensures State() == Fire(old(State()))
    {
      step := step + 1;
      pending := pending - 1;
      animating := false;
    }

    method SetName(text: string)
      modifies this
      ensures State() == old(State()).(name := text)
    {
      name := text;
    }

    method SetMainGoal(text: string)
      modifies this
      ensures State() == old(State()).(mainGoal := text)
    {
      mainGoal := text;
    }

    /** The two routine buttons of step 3. */
    method SetRoutinePref(afternoon: bool)
      modifies this
      ensures State() == old(State()).(routinePref := if afternoon then AfternoonFocus else MorningProductive)
    {
      routinePref := if afternoon then AfternoonFocus else MorningProductive;
    }

    /** `handleFinish`: the payload, of the fields as they are at the click, is handed on 500 ms later. */
    method HandleFinish() returns (data: OnboardingData)
      modifies this
      ensures data == Finish(old(State())) && State() == old(State()).(animating := true)
    {
      data := OnboardingData(name, mainGoal, routinePref, None);
      animating := true;
    }
  }

  // ----- the simple form -----

  datatype SimpleForm = SimpleForm(name: string, mainGoal: string, routinePref: string, avatar: Option<string>, acceptedTerms: bool)

  /** The form as it opens: the name from the entry screen, the morning routine, nothing else. */
  function Opened(initialName: string): SimpleForm {
    SimpleForm(initialName, "", MorningProductive, None, false)
  }

  const PresetGoals: seq<string> := [
    "Organizar mi vida y rutina",
    "Salir adelante con mis proyectos",
    "Recuperar mi equilibrio personal",
    "Ser más productivo en el trabajo",
    "Mejorar mi salud y energía"
  ]

  /** Clicking a preset goal. */
  function PickPreset(f: SimpleForm, i: nat): (r: SimpleForm)
    requires i < |PresetGoals|
    ensures r == f.(mainGoal := PresetGoals[i])
  {
    f.(mainGoal := PresetGoals[i])
  }

  /** `handleSubmit`: the payload when name and goal are not blank and the terms are accepted. */
  function Submit(f: SimpleForm): Option<OnboardingData> {
    if IsBlank(f.name) || IsBlank(f.mainGoal) || !f.acceptedTerms then None
    else Some(OnboardingData(f.name, f.mainGoal, f.routinePref, f.avatar))
  }

  /**
   * Submitting succeeds exactly when the name and the goal each have a character that is not
   * whitespace and the terms are accepted, and hands on the four fields as they stand.
   */
  lemma SubmitSpec(f: SimpleForm)
    ensures Submit(f).Some? <==> !AllWhitespace(f.name) && !AllWhitespace(f.mainGoal) && f.acceptedTerms
    ensures Submit(f).Some? ==> Submit(f).value == OnboardingData(f.name, f.mainGoal, f.routinePref, f.avatar)
    ensures Opened(f.name).routinePref == MorningProductive && Submit(Opened(f.name)).None?
  {
    BlankIffAllWhitespace(f.name);
    BlankIffAllWhitespace(f.mainGoal);
  }

  /** A preset goal always passes the goal check. */
  lemma PresetGoalsPass(f: SimpleForm, i: nat)
    requires i < |PresetGoals|
    ensures !AllWhitespace(PickPreset(f, i).mainGoal)
  {
    assert !IsWhitespace(PresetGoals[i][0]);
  }
}

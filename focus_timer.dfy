/**
 * The Pomodoro focus timer: a 25-minute focus period and a 5-minute break, counted down one
 * second per interval tick while running. The state a tick leads to is given by `Next` on whole
 * timer values; the `FocusTimer` class holds the component's three state fields and its handlers
 * update them in place.
 */
module Pomodoro {
  import opened JsText
  import opened JsNumber

  datatype Mode = Focus | Break

  const FocusSeconds: int := 25 * 60
  const BreakSeconds: int := 5 * 60

  /** The full length of a period of the given mode. */
  function Duration(m: Mode): (d: int)
    ensures d == if m == Focus then 1500 else 300
  {
    if m == Focus then FocusSeconds else BreakSeconds
  }

  function Other(m: Mode): (o: Mode)
    ensures o != m
  {
    if m == Focus then Break else Focus
  }

  datatype Timer = Timer(timeLeft: int, isActive: bool, mode: Mode)

  /** The state the component starts in. */
  const Initial: Timer := Timer(FocusSeconds, false, Focus)

  /** The seconds left lie within the current mode's period. */
  predicate Bounded(t: Timer) {
    0 <= t.timeLeft <= Duration(t.mode)
  }

  /**
   * One run of the timer effect: a running timer with time left loses one second; a timer at
   * zero stops and switches to the full period of the other mode; otherwise nothing changes.
   */
  function Next(t: Timer): (r: Timer)
    ensures t.isActive && t.timeLeft > 0 ==> r == t.(timeLeft := t.timeLeft - 1)
    ensures t.timeLeft == 0 ==> r == Timer(Duration(Other(t.mode)), false, Other(t.mode))
    ensures !t.isActive && t.timeLeft != 0 ==> r == t
  {
    if t.isActive && t.timeLeft > 0 then t.(timeLeft := t.timeLeft - 1)
    else if t.timeLeft == 0 then Timer(Duration(Other(t.mode)), false, Other(t.mode))
    else t
  }

  /** `toggleTimer`. */
  function Toggle(t: Timer): (r: Timer)
    ensures r.isActive == !t.isActive && r.timeLeft == t.timeLeft && r.mode == t.mode
  {
    t.(isActive := !t.isActive)
  }

  /** `resetTimer`. */
  function Reset(t: Timer): (r: Timer)
    ensures !r.isActive && r.mode == t.mode && r.timeLeft == Duration(t.mode)
  {
    Timer(Duration(t.mode), false, t.mode)
  }

  /** The timer starts bounded, and ticks, toggles and resets keep it so; in particular it never leaves 0..1500. */
  lemma BoundedInvariant(t: Timer)
    ensures Bounded(Initial)
    ensures Bounded(t) ==> Bounded(Next(t)) && Bounded(Toggle(t)) && Bounded(Reset(t))
    ensures Bounded(t) ==> 0 <= t.timeLeft <= FocusSeconds
  {
  }

  /** `n` runs of the timer effect. */
  function Steps(t: Timer, n: nat): Timer
    decreases n
  {
    if n == 0 then t else Steps(Next(t), n - 1)
  }

  /**
   * A running timer with `k` seconds left reaches zero after exactly `k` ticks, still running and
   * in the same mode, and the tick after that stops it and starts the other mode's full period.
   */
  lemma {:induction false} CountdownCompletes(t: Timer)
    requires t.isActive && t.timeLeft >= 0
    ensures Steps(t, t.timeLeft) == t.(timeLeft := 0)
    ensures Next(Steps(t, t.timeLeft)) == Timer(Duration(Other(t.mode)), false, Other(t.mode))
    decreases t.timeLeft
  {
    if t.timeLeft > 0 {
      CountdownCompletes(Next(t));
    }
  }

  /** A whole Pomodoro cycle: from start, toggled on, 1500 ticks count down and the next begins the break. */
  lemma FocusThenBreak()
    ensures Steps(Toggle(Initial), FocusSeconds) == Timer(0, true, Focus)
    ensures Next(Steps(Toggle(Initial), FocusSeconds)) == Timer(BreakSeconds, false, Break)
  {
    CountdownCompletes(Toggle(Initial));
  }

  /** `formatTime`: minutes and seconds, each at least two digits. */
  function FormatTime(seconds: nat): (r: string)
    ensures |r| == 5 <==> seconds < 6000
  {
    Pad2(seconds / 60) + ":" + Pad2(seconds % 60)
  }

  /** Reading the displayed text back as minutes and seconds gives the seconds it was made from. */
  lemma FormatTimeReadsBack(seconds: nat)
    ensures TimeMinutes(FormatTime(seconds)) == Num(seconds)
    ensures FormatTime(seconds)[|Pad2(seconds / 60)|] == ':'
  {
    var m, sec := seconds / 60, seconds % 60;
    assert m * 60 + sec == seconds;
    ReadDigitPairNumber(Pad2(m), Pad2(sec), m, sec);
  }

  /** The component: its three state fields, and the effect and handlers that update them. */
  class FocusTimer {
    var timeLeft: int
    var isActive: bool
    var mode: Mode

    function State(): Timer
      reads this
    {
      Timer(timeLeft, isActive, mode)
    }

    ghost predicate Valid()
      reads this
    {
      Bounded(State())
    }

    constructor()
      ensures State() == Initial && Valid()
    {
      timeLeft := FocusSeconds;
      isActive := false;
      mode := Focus;
    }

    /** One run of the effect: the interval's tick, or the switch at zero. */
    method Tick()
      requires Valid()
      modifies this
      ensures State() == Next(old(State())) && Valid()
    {
      if isActive && timeLeft > 0 {
        timeLeft := timeLeft - 1;
      } else if timeLeft == 0 {
        isActive := false;
        if mode == Focus {
          mode := Break;
          timeLeft := BreakSeconds;
        } else {
          mode := Focus;
          timeLeft := FocusSeconds;
        }
      }
    }

    method ToggleTimer()
      requires Valid()
      modifies this
      ensures State() == Toggle(old(State())) && Valid()
    {
      isActive := !isActive;
    }

    method ResetTimer()
      requires Valid()
      modifies this
      ensures State() == Reset(old(State())) && Valid()
    {
      isActive := false;
      timeLeft := if mode == Focus then FocusSeconds else BreakSeconds;
    }

    /** The text the component shows. */
    method Display() returns (text: string)
      requires Valid()
      ensures text == FormatTime(timeLeft) && |text| == 5
      ensures TimeMinutes(text) == Num(timeLeft)
    {
      text := FormatTime(timeLeft);
      FormatTimeReadsBack(timeLeft);
    }
  }
}

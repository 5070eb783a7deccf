/**
 * The app shell's state and the handlers that change it: the periodic time check, the schedule
 * shift, the three ways out of the lock screen, routine updates and deletion, importing a shared
 * routine, and the goal and evaluation lists.
 */
module App {
  import opened Wrappers
  import opened JsText
  import opened JsNumber
  import opened Clock
  import opened Types
  import opened Timeline
  import opened Presets
  import opened RoutineTable
  import opened AppTick
  import opened Collections

  /**
   * The table after `shiftSchedule(minutes)`: the current routine with every block shifted and the
   * list re-sorted, stored back under its id; the table as it was when no routine is current.
   */
  function ShiftedTable(t: Table, current: string, minutes: int): Table {
    match Lookup(t, current)
    case None => t
    case Some(r) => Upsert(t, r.(blocks := ShiftBlocks(r.blocks, minutes)))
  }

  /**
   * The shift touches only the current routine: it keeps the routine's id, name and description,
   * its blocks become the shifted, re-sorted list, and every other routine stays as it was.
   */
  lemma ShiftedTableSpec(t: Table, current: string, minutes: int)
    requires RoutineTable.Valid(t)
    ensures RoutineTable.Valid(ShiftedTable(t, current, minutes))
    ensures ShiftedTable(t, current, minutes).order == t.order
    ensures forall k :: k != current ==> Lookup(ShiftedTable(t, current, minutes), k) == Lookup(t, k)
    ensures current in t.byId ==>
      var r := t.byId[current];
      Lookup(ShiftedTable(t, current, minutes), current) == Some(r.(blocks := ShiftBlocks(r.blocks, minutes)))
  {
    if current in t.byId {
      UpsertSpec(t, t.byId[current].(blocks := ShiftBlocks(t.byId[current].blocks, minutes)));
    }
  }

  /**
   * The checks `checkTime` makes for block `i` of the current routine: the events it raises, and
   * the lock-screen activity, which becomes the block's own when it is a locking block whose
   * window holds now. Times are read through `input.read`.
   */
  method CheckBlock(r: Routine, i: nat, input: TickInput, snap: Snapshot, activity: string)
    returns (raised: seq<Event>, activity': string)
    requires i < |r.blocks|
    ensures raised == BlockEvents(r, i, input, snap)
    ensures activity' == (if Locking(r.blocks[i]) && InWindow(input.read, r.blocks, i, input.now)
                          then r.blocks[i].activity else activity)
  {
    var bs := r.blocks;
    var b := bs[i];
    var start := input.read.number(b.time);
    var nextStart := if i + 1 < |bs| then input.read.integer(bs[i + 1].time) else Add(start, Num(60));
    var now: int := input.now;
    raised := [];
    activity' := activity;
    if AtMost(start, Num(now)) && Less(Num(now), nextStart) {
      if b.kind == Sacred && b.enforceLock == Some(true) {
        activity' := b.activity;
        if !snap.isLocked {
          var lockKey := LockKey(input.day, b);
          if lockKey !in snap.ledger {
            raised := raised + [LockEvent(r, i, input)];
          }
        }
      }
    }
    var alarmKey := AlarmKey(input.day, b);
    if Same(start, Num(now)) && b.alarmEnabled != Some(false) && alarmKey !in snap.ledger {
      raised := raised + [AlarmEvent(r, i, input)];
    }
    if b.kind == Sacred {
      var fromWork := i > 0 && bs[i - 1].kind == Work;
      if Same(start, Num(now + 15)) && fromWork {
        var warningKey := WarningKey(input.day, b, r.id);
        if warningKey !in snap.ledger {
          raised := raised + [WarningEvent(r, i, input)];
        }
      }
    }
  }

  /**
   * The body of `checkTime` once the current routine is found: the blocks checked in order, then
   * the vitamin-D reminder; the events raised and the activity the lock screen ends up showing.
   */
  method Run(r: Routine, input: TickInput, snap: Snapshot) returns (events: seq<Event>, activity: string)
    ensures events == TickEvents(Some(r), input, snap)
    ensures activity == ScanActivity(input.read, r.blocks, |r.blocks|, input.now, snap.activity)
  {
    var bs := r.blocks;
    events := [];
    activity := snap.activity;
    var i := 0;
    while i < |bs|
      invariant 0 <= i <= |bs|
      invariant events == ScanEvents(r, i, input, snap)
      invariant activity == ScanActivity(input.read, bs, i, input.now, snap.activity)
    {
      var raised, activity' := CheckBlock(r, i, input, snap, activity);
      activity := activity';
      events := events + raised;
      i := i + 1;
    }
    var tail: seq<Event> := [];
    if input.settings.vitaminDEnabled {
      var vitaminMinutes := input.read.number(input.settings.vitaminDTime);
      if Same(Num(input.now), vitaminMinutes) {
        var vitaminKey := VitaminKey(input.day);
        if vitaminKey !in snap.ledger {
          tail := [VitaminEvent(input)];
        }
      }
    }
    events := events + tail;
  }

  /**
   * `checkTime` on the state it closed over: nothing without a current routine, otherwise the
   * run's events and the ledger, lock flag and activity they lead to.
   */
  method CheckTime(routine: Option<Routine>, input: TickInput, snap: Snapshot) returns (events: seq<Event>, after: Snapshot)
    ensures events == TickEvents(routine, input, snap) && after == After(routine, input, snap)
  {
    if routine.None? {
      return [], snap;
    }
    var activity;
    events, activity := Run(routine.value, input, snap);
    AfterRun(routine.value, input, snap, events, activity);
    after := Snapshot(snap.ledger + KeysOf(events), snap.isLocked || RaisesLock(events), activity);
  }

  /** The table and current id after `deleteRoutine`; the current id still names a routine. */
  method DeleteFrom(t: Table, current: string, id: string) returns (t': Table, current': string)
    requires RoutineTable.Valid(t) && current in t.byId
    ensures (t', current') == Delete(t, current, id)
    ensures RoutineTable.Valid(t') && current' in t'.byId
  {
    DeleteKeepsCurrent(t, current, id);
    var result := Delete(t, current, id);
    t', current' := result.0, result.1;
  }

  class AppState {
    /** `notifiedBlocks`: the dedup keys of everything already announced. */
    var ledger: set<string>
    var isLocked: bool
    var currentSacredActivity: string
    var routines: Table
    var currentRoutineId: string
    var pendingImport: Option<Routine>
    var goals: seq<Goal>
    var evaluations: seq<DailyEvaluation>

    /** The routine table is well formed and the current id always names one of its routines. */
    ghost predicate Valid()
      reads this
    {
      RoutineTable.Valid(routines) && currentRoutineId in routines.byId
    }

    /** The state on a first start, with nothing saved: the presets, the morning routine, nothing announced. */
    constructor ()
      ensures Valid()
      ensures ledger == {} && !isLocked && currentSacredActivity == ""
      ensures routines == PresetTable() && currentRoutineId == MorningProductive
      ensures pendingImport == None && goals == [] && evaluations == []
    {
      ledger := {};
      isLocked := false;
      currentSacredActivity := "";
      routines := PresetTable();
      currentRoutineId := MorningProductive;
      pendingImport := None;
      goals := [];
      evaluations := [];
      PresetTableValid();
    }

    /**
     * One run of `checkTime` at minute `now` of day `day`: the events it raises and the state it
     * leaves are those of `TickEvents` and `After`, every check reading the ledger and the lock
     * flag as they were when the run started. Nothing else changes.
     */
    method Tick(now: MinuteOfDay, day: string, muted: bool, granted: bool, settings: AppSettings)
      returns (events: seq<Event>)
      modifies this
      ensures var input := TickInput(JsReaders, now, day, muted, granted, settings);
        var snap := Snapshot(old(ledger), old(isLocked), old(currentSacredActivity));
        var routine := Lookup(routines, currentRoutineId);
        events == TickEvents(routine, input, snap)
        && Snapshot(ledger, isLocked, currentSacredActivity) == After(routine, input, snap)
      ensures routines == old(routines) && currentRoutineId == old(currentRoutineId)
      ensures pendingImport == old(pendingImport) && goals == old(goals) && evaluations == old(evaluations)
    {
      var input := TickInput(JsReaders, now, day, muted, granted, settings);
      var snap := Snapshot(ledger, isLocked, currentSacredActivity);
      var after;
      events, after := CheckTime(Lookup(routines, currentRoutineId), input, snap);
      // the state updates of the run take effect together, once it is over
      ledger, isLocked, currentSacredActivity := after.ledger, after.isLocked, after.activity;
    }

    /** `shiftSchedule(minutes)`: the current routine's blocks shifted and re-sorted; nothing else changes. */
    method ShiftSchedule(minutes: int)
      requires Valid()
      modifies this
      ensures Valid()
      ensures routines == ShiftedTable(old(routines), old(currentRoutineId), minutes)
      ensures currentRoutineId == old(currentRoutineId) && isLocked == old(isLocked) && ledger == old(ledger)
      ensures currentSacredActivity == old(currentSacredActivity) && pendingImport == old(pendingImport)
      ensures goals == old(goals) && evaluations == old(evaluations)
    {
      ShiftedTableSpec(routines, currentRoutineId, minutes);
      var routine := Lookup(routines, currentRoutineId);
      if routine.Some? {
        var r := routine.value;
        var blocks := ShiftBlocks(r.blocks, minutes);
        UpdateRoutine(r.(blocks := blocks));
      }
    }

    /** "Llego tarde": the schedule moves 15 minutes later and the lock screen closes. */
    method LateUnlock()
      requires Valid()
      modifies this
      ensures Valid()
      ensures routines == ShiftedTable(old(routines), old(currentRoutineId), 15) && !isLocked
      ensures currentRoutineId == old(currentRoutineId) && ledger == old(ledger)
      ensures currentSacredActivity == old(currentSacredActivity) && pendingImport == old(pendingImport)
      ensures goals == old(goals) && evaluations == old(evaluations)
    {
      ShiftSchedule(15);
      isLocked := false;
    }

    /** Skipping the block and the emergency unlock both only close the lock screen. */
    method Unlock()
      modifies this
      ensures !isLocked
      ensures ledger == old(ledger) && routines == old(routines) && currentRoutineId == old(currentRoutineId)
      ensures currentSacredActivity == old(currentSacredActivity) && pendingImport == old(pendingImport)
      ensures goals == old(goals) && evaluations == old(evaluations)
    {
      isLocked := false;
    }

    /** `updateRoutine`: the routine is stored under its id; nothing else changes. */
    method UpdateRoutine(r: Routine)
      requires Valid()
      modifies this
      ensures Valid()
      ensures routines == Upsert(old(routines), r)
      ensures currentRoutineId == old(currentRoutineId) && isLocked == old(isLocked) && ledger == old(ledger)
      ensures currentSacredActivity == old(currentSacredActivity) && pendingImport == old(pendingImport)
      ensures goals == old(goals) && evaluations == old(evaluations)
    {
      UpsertSpec(routines, r);
      routines := Upsert(routines, r);
    }

    /** `onRoutineChange` (`setCurrentRoutineId`): the routine picked from the list becomes current; nothing else changes. */
    method SelectRoutine(id: string)
      requires Valid() && id in routines.byId
      modifies this
      ensures Valid() && currentRoutineId == id
      ensures unchanged(this`routines, this`isLocked, this`ledger, this`currentSacredActivity, this`pendingImport, this`goals, this`evaluations)
    {
      currentRoutineId := id;
    }

    /**
     * What `handleCreateRoutine` asks of the shell for the routine it built: `onUpdateRoutine`
     * stores it and `onRoutineChange` makes it current.
     */
    method AddAndSelect(r: Routine)
      requires Valid()
      modifies this
      ensures Valid()
      ensures routines == Upsert(old(routines), r) && currentRoutineId == r.id
      ensures Lookup(routines, currentRoutineId) == Some(r)
      ensures unchanged(this`isLocked, this`ledger, this`currentSacredActivity, this`pendingImport, this`goals, this`evaluations)
    {
      UpdateRoutine(r);
      UpsertSpec(old(routines), r);
      SelectRoutine(r.id);
    }

    /** `deleteRoutine`: the table and current id that `Delete` gives; the current id still names a routine. */
    method DeleteRoutine(id: string)
      requires Valid()
      modifies this
      ensures Valid()
      ensures (routines, currentRoutineId) == Delete(old(routines), old(currentRoutineId), id)
      ensures unchanged(this`isLocked, this`ledger, this`currentSacredActivity, this`pendingImport, this`goals, this`evaluations)
    {
      routines, currentRoutineId := DeleteFrom(routines, currentRoutineId, id);
    }

    /** `confirmImport`: a pending shared routine is stored, becomes current, and is no longer pending. */
    method ConfirmImport()
      requires Valid()
      modifies this
      ensures Valid()
      ensures old(pendingImport).None? ==>
        routines == old(routines) && currentRoutineId == old(currentRoutineId) && pendingImport == None
      ensures old(pendingImport).Some? ==>
        routines == Upsert(old(routines), old(pendingImport).value)
        && currentRoutineId == old(pendingImport).value.id && pendingImport == None
      ensures isLocked == old(isLocked) && ledger == old(ledger) && currentSacredActivity == old(currentSacredActivity)
      ensures goals == old(goals) && evaluations == old(evaluations)
    {
      if pendingImport.Some? {
        var r := pendingImport.value;
        UpsertSpec(routines, r);
        routines := Upsert(routines, r);
        currentRoutineId := r.id;
        pendingImport := None;
      }
    }

    /** `handleSaveEvaluation`. */
    method SaveEvaluation(e: DailyEvaluation)
      modifies this
      ensures evaluations == Collections.SaveEvaluation(old(evaluations), e)
      ensures goals == old(goals) && routines == old(routines) && currentRoutineId == old(currentRoutineId)
      ensures isLocked == old(isLocked) && ledger == old(ledger) && currentSacredActivity == old(currentSacredActivity)
      ensures pendingImport == old(pendingImport)
    {
      evaluations := Collections.SaveEvaluation(evaluations, e);
    }

    /** `addGoal`, `toggleGoal`, `deleteGoal`: only the goal list changes. */
    method AddGoal(g: Goal)
      modifies this
      ensures goals == Collections.AddGoal(old(goals), g)
      ensures evaluations == old(evaluations) && routines == old(routines) && currentRoutineId == old(currentRoutineId)
      ensures isLocked == old(isLocked) && ledger == old(ledger) && currentSacredActivity == old(currentSacredActivity)
      ensures pendingImport == old(pendingImport)
    {
      goals := Collections.AddGoal(goals, g);
    }

    method ToggleGoal(id: string)
      modifies this
      ensures goals == Collections.ToggleGoal(old(goals), id)
      ensures evaluations == old(evaluations) && routines == old(routines) && currentRoutineId == old(currentRoutineId)
      ensures isLocked == old(isLocked) && ledger == old(ledger) && currentSacredActivity == old(currentSacredActivity)
      ensures pendingImport == old(pendingImport)
    {
      goals := Collections.ToggleGoal(goals, id);
    }

    method DeleteGoal(id: string)
      modifies this
      ensures goals == Collections.DeleteGoal(old(goals), id)
      ensures evaluations == old(evaluations) && routines == old(routines) && currentRoutineId == old(currentRoutineId)
      ensures isLocked == old(isLocked) && ledger == old(ledger) && currentSacredActivity == old(currentSacredActivity)
      ensures pendingImport == old(pendingImport)
    {
      goals := Collections.DeleteGoal(goals, id);
    }
  }
}

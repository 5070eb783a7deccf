/**
 * What one run of the app shell's periodic time check decides: which block alarms, sacred-block
 * pre-warnings, sacred locks and the vitamin-D reminder fire, which dedup keys it records, whether
 * the screen locks and which activity the lock screen shows.
 *
 * Every check of one run reads the ledger of notified keys and the lock flag as they were when the
 * run started (the values the callback closed over); what the run adds takes effect from the next run.
 */
module AppTick {
  import opened Wrappers
  import opened JsText
  import opened JsNumber
  import opened Clock
  import opened Types
  import opened Timeline

  datatype EventKind = BlockAlarm | SacredPreWarning | SacredLock | VitaminD

  /**
   * One thing the run does: the index of the block that raised it (none for vitamin D), the dedup
   * key it records, the toast it shows, whether it plays the alarm sound and whether it also posts
   * a system notification.
   */
  datatype Event = Event(kind: EventKind, block: Option<nat>, key: string, toast: Option<string>,
                         sound: bool, notice: bool)

  /**
   * How the check reads clock text: `split(':').map(Number)` for a block's start and the vitamin-D
   * time, `parseInt` on both pieces for the next block's start.
   */
  datatype Readers = Readers(number: string -> Num, integer: string -> Num)

  /** The readers the app shell uses. */
  const JsReaders: Readers := Readers(TimeMinutes, TimeMinutesInt)

  /**
   * What the run reads besides the routine: how it parses times, the clock, the mute switch,
   * whether notifications are permitted, and the settings.
   */
  datatype TickInput = TickInput(read: Readers, now: MinuteOfDay, day: string, muted: bool, granted: bool,
                                 settings: AppSettings)

  /** The state the run closed over. */
  datatype Snapshot = Snapshot(ledger: set<string>, isLocked: bool, activity: string)

  function LockKey(day: string, b: TimeBlock): string { day + "-" + b.id + "-LOCK" }

  function AlarmKey(day: string, b: TimeBlock): string { day + "-" + b.time + "-ALARM" }

  function WarningKey(day: string, b: TimeBlock, routineId: string): string { day + "-" + b.time + "-" + routineId }

  function VitaminKey(day: string): string { day + "-VITAMIND" }

  const VitaminMessage: string := "\U{2600}\U{FE0F} Hora de la Vitamina D: Sal a la calle por 15 minutos."

  const WarningOpening: string := "Aviso: Cierre de Sesión IA en 15 minutos. Tu bloque \""
  const WarningClosing: string := "\" comienza pronto. Guarda tu trabajo."

  function WarningMessage(b: TimeBlock): string {
    WarningOpening + b.activity + WarningClosing
  }

  /** The end of block `i`'s lock window: the next block's start read with `parseInt`, or an hour after its own start. */
  function WindowEnd(read: Readers, bs: seq<TimeBlock>, i: nat): Num
    requires i < |bs|
  {
    if i + 1 < |bs| then read.integer(bs[i + 1].time) else Add(read.number(bs[i].time), Num(60))
  }

  /** `currentMinutes >= blockStartMinutes && currentMinutes < nextBlockStart`. */
  predicate InWindow(read: Readers, bs: seq<TimeBlock>, i: nat, now: int)
    requires i < |bs|
  {
    AtMost(read.number(bs[i].time), Num(now)) && Less(Num(now), WindowEnd(read, bs, i))
  }

  /** A sacred block that asks to lock the screen. */
  predicate Locking(b: TimeBlock) {
    b.kind == Sacred && b.enforceLock == Some(true)
  }

  predicate LockFires(bs: seq<TimeBlock>, i: nat, input: TickInput, snap: Snapshot)
    requires i < |bs|
  {
    Locking(bs[i]) && InWindow(input.read, bs, i, input.now) && !snap.isLocked && LockKey(input.day, bs[i]) !in snap.ledger
  }

  predicate AlarmFires(bs: seq<TimeBlock>, i: nat, input: TickInput, snap: Snapshot)
    requires i < |bs|
  {
    Same(input.read.number(bs[i].time), Num(input.now)) && bs[i].alarmEnabled != Some(false)
    && AlarmKey(input.day, bs[i]) !in snap.ledger
  }

  /** A sacred block right after a work block, starting exactly 15 minutes from now. */
  predicate WarningFires(r: Routine, i: nat, input: TickInput, snap: Snapshot)
    requires i < |r.blocks|
  {
    var bs := r.blocks;
    bs[i].kind == Sacred && i > 0 && bs[i - 1].kind == Work && Same(input.read.number(bs[i].time), Num(input.now + 15))
    && WarningKey(input.day, bs[i], r.id) !in snap.ledger
  }

  predicate VitaminFires(input: TickInput, snap: Snapshot) {
    input.settings.vitaminDEnabled && Same(input.read.number(input.settings.vitaminDTime), Num(input.now))
    && VitaminKey(input.day) !in snap.ledger
  }

  function LockEvent(r: Routine, i: nat, input: TickInput): Event
    requires i < |r.blocks|
  {
    Event(SacredLock, Some(i), LockKey(input.day, r.blocks[i]), None, !input.muted, false)
  }

  function AlarmEvent(r: Routine, i: nat, input: TickInput): Event
    requires i < |r.blocks|
  {
    Event(BlockAlarm, Some(i), AlarmKey(input.day, r.blocks[i]), Some("Alarma: " + r.blocks[i].activity), !input.muted, false)
  }

  function WarningEvent(r: Routine, i: nat, input: TickInput): Event
    requires i < |r.blocks|
  {
    Event(SacredPreWarning, Some(i), WarningKey(input.day, r.blocks[i], r.id), Some(WarningMessage(r.blocks[i])),
          !input.muted, input.granted)
  }

  /** The events block `i` raises, in the order the source checks them: lock, alarm, pre-warning. */
  function BlockEvents(r: Routine, i: nat, input: TickInput, snap: Snapshot): (es: seq<Event>)
    requires i < |r.blocks|
  {
    (if LockFires(r.blocks, i, input, snap) then [LockEvent(r, i, input)] else [])
    + (if AlarmFires(r.blocks, i, input, snap) then [AlarmEvent(r, i, input)] else [])
    + (if WarningFires(r, i, input, snap) then [WarningEvent(r, i, input)] else [])
  }

  /** Every event of block `i` names block `i`, and each kind is raised exactly when its condition holds. */
  lemma BlockEventsSpec(r: Routine, i: nat, input: TickInput, snap: Snapshot, e: Event)
    requires i < |r.blocks|
    ensures e in BlockEvents(r, i, input, snap) ==> e.block == Some(i)
    ensures e in BlockEvents(r, i, input, snap) && e.kind == SacredLock ==> LockFires(r.blocks, i, input, snap)
    ensures e in BlockEvents(r, i, input, snap) && e.kind == BlockAlarm ==> AlarmFires(r.blocks, i, input, snap)
    ensures e in BlockEvents(r, i, input, snap) && e.kind == SacredPreWarning ==> WarningFires(r, i, input, snap)
    ensures e in BlockEvents(r, i, input, snap) ==> e.kind != VitaminD && e.key !in snap.ledger
    ensures LockFires(r.blocks, i, input, snap) ==> LockEvent(r, i, input) in BlockEvents(r, i, input, snap)
    ensures AlarmFires(r.blocks, i, input, snap) ==> AlarmEvent(r, i, input) in BlockEvents(r, i, input, snap)
    ensures WarningFires(r, i, input, snap) ==> WarningEvent(r, i, input) in BlockEvents(r, i, input, snap)
  {
    if e in BlockEvents(r, i, input, snap) {
      BlockEventsOrigin(r, i, input, snap, e);
    }
    BlockEventsRaised(r, i, input, snap);
  }

  lemma BlockEventsOrigin(r: Routine, i: nat, input: TickInput, snap: Snapshot, e: Event)
    requires i < |r.blocks| && e in BlockEvents(r, i, input, snap)
    ensures e.block == Some(i) && e.kind != VitaminD && e.key !in snap.ledger
    ensures e.kind == SacredLock ==> LockFires(r.blocks, i, input, snap)
    ensures e.kind == BlockAlarm ==> AlarmFires(r.blocks, i, input, snap)
    ensures e.kind == SacredPreWarning ==> WarningFires(r, i, input, snap)
  {
    var l := if LockFires(r.blocks, i, input, snap) then [LockEvent(r, i, input)] else [];
    var a := if AlarmFires(r.blocks, i, input, snap) then [AlarmEvent(r, i, input)] else [];
    var w := if WarningFires(r, i, input, snap) then [WarningEvent(r, i, input)] else [];
    assert BlockEvents(r, i, input, snap) == l + a + w;
    if e in l {
      assert e == LockEvent(r, i, input);
    } else if e in a {
      assert e == AlarmEvent(r, i, input);
    } else {
      assert e in w && e == WarningEvent(r, i, input);
    }
  }

  lemma BlockEventsRaised(r: Routine, i: nat, input: TickInput, snap: Snapshot)
    requires i < |r.blocks|
    ensures LockFires(r.blocks, i, input, snap) ==> LockEvent(r, i, input) in BlockEvents(r, i, input, snap)
    ensures AlarmFires(r.blocks, i, input, snap) ==> AlarmEvent(r, i, input) in BlockEvents(r, i, input, snap)
    ensures WarningFires(r, i, input, snap) ==> WarningEvent(r, i, input) in BlockEvents(r, i, input, snap)
  {
  }

  /** The events of the first `n` blocks, block by block. */
  function ScanEvents(r: Routine, n: nat, input: TickInput, snap: Snapshot): seq<Event>
    requires n <= |r.blocks|
  {
    if n == 0 then [] else ScanEvents(r, n - 1, input, snap) + BlockEvents(r, n - 1, input, snap)
  }

  function VitaminEvent(input: TickInput): Event {
    Event(VitaminD, None, VitaminKey(input.day), Some(VitaminMessage), !input.muted, input.granted)
  }

  function VitaminEvents(input: TickInput, snap: Snapshot): seq<Event> {
    if VitaminFires(input, snap) then [VitaminEvent(input)] else []
  }

  /** Everything the run raises; nothing at all when the current routine is missing. */
  function TickEvents(routine: Option<Routine>, input: TickInput, snap: Snapshot): seq<Event> {
    match routine
    case None => []
    case Some(r) => ScanEvents(r, |r.blocks|, input, snap) + VitaminEvents(input, snap)
  }

  function KeysOf(es: seq<Event>): set<string> {
    set e | e in es :: e.key
  }

  predicate RaisesLock(es: seq<Event>) {
    exists e :: e in es && e.kind == SacredLock
  }

  /** The keys and the lock flag of a run built piece by piece are those of its pieces. */
  lemma KeysAppend(a: seq<Event>, b: seq<Event>)
    ensures KeysOf(a + b) == KeysOf(a) + KeysOf(b)
    ensures RaisesLock(a + b) <==> RaisesLock(a) || RaisesLock(b)
  {
    forall x | x in KeysOf(a + b) ensures x in KeysOf(a) + KeysOf(b) {
      var e :| e in a + b && e.key == x;
    }
    forall x | x in KeysOf(a) + KeysOf(b) ensures x in KeysOf(a + b) {
      if x in KeysOf(a) {
        var e :| e in a && e.key == x;
        assert e in a + b;
      } else {
        var e :| e in b && e.key == x;
        assert e in a + b;
      }
    }
    if RaisesLock(a + b) {
      var e :| e in a + b && e.kind == SacredLock;
    }
    if RaisesLock(b) {
      var e :| e in b && e.kind == SacredLock;
      assert e in a + b;
    }
    if RaisesLock(a) {
      var e :| e in a && e.kind == SacredLock;
      assert e in a + b;
    }
  }

  /** The activity the lock screen shows: that of the last locking block whose window holds now, else the old one. */
  function ScanActivity(read: Readers, bs: seq<TimeBlock>, n: nat, now: int, oldActivity: string): string
    requires n <= |bs|
  {
    if n == 0 then oldActivity
    else if Locking(bs[n - 1]) && InWindow(read, bs, n - 1, now) then bs[n - 1].activity
    else ScanActivity(read, bs, n - 1, now, oldActivity)
  }

  /** The state after the run. */
  function After(routine: Option<Routine>, input: TickInput, snap: Snapshot): Snapshot {
    match routine
    case None => snap
    case Some(r) =>
      var es := TickEvents(routine, input, snap);
      Snapshot(snap.ledger + KeysOf(es), snap.isLocked || RaisesLock(es),
               ScanActivity(input.read, r.blocks, |r.blocks|, input.now, snap.activity))
  }

  /** The snapshot after a run is the old one with the run's keys added and its lock raised. */
  lemma AfterRun(r: Routine, input: TickInput, snap: Snapshot, events: seq<Event>, activity: string)
    requires events == TickEvents(Some(r), input, snap)
    requires activity == ScanActivity(input.read, r.blocks, |r.blocks|, input.now, snap.activity)
    ensures After(Some(r), input, snap) == Snapshot(snap.ledger + KeysOf(events), snap.isLocked || RaisesLock(events), activity)
  {
  }

  // ----- where each event comes from -----

  /** The scan of the first `n` blocks raises only block events, each naming one of those blocks. */
  lemma {:induction false} ScanBlockBound(r: Routine, n: nat, input: TickInput, snap: Snapshot, e: Event)
    requires n <= |r.blocks|
    ensures e in ScanEvents(r, n, input, snap) ==> e.block.Some? && e.block.value < n && e.kind != VitaminD
  {
    if n > 0 {
      ScanBlockBound(r, n - 1, input, snap, e);
      BlockEventsSpec(r, n - 1, input, snap, e);
    }
  }

  /** An event of the scan naming block `i` is one of the events block `i` raises, and back. */
  lemma {:induction false} ScanHoldsBlock(r: Routine, n: nat, input: TickInput, snap: Snapshot, e: Event, i: nat)
    requires i < n <= |r.blocks|
    ensures e in ScanEvents(r, n, input, snap) && e.block == Some(i) <==> e in BlockEvents(r, i, input, snap)
  {
    BlockEventsSpec(r, n - 1, input, snap, e);
    if n - 1 != i {
      ScanHoldsBlock(r, n - 1, input, snap, e, i);
    } else {
      ScanBlockBound(r, n - 1, input, snap, e);
    }
  }

  /** The events of the run that name block `i` are exactly the events block `i` raises. */
  lemma TickHoldsBlock(r: Routine, input: TickInput, snap: Snapshot, e: Event, i: nat)
    requires i < |r.blocks|
    ensures e in TickEvents(Some(r), input, snap) && e.block == Some(i) <==> e in BlockEvents(r, i, input, snap)
  {
    ScanHoldsBlock(r, |r.blocks|, input, snap, e, i);
  }

  /** A block event of the run is an event of the block it names. */
  lemma TickEventOrigin(r: Routine, input: TickInput, snap: Snapshot, e: Event)
    requires e in TickEvents(Some(r), input, snap)
    ensures e.kind == VitaminD <==> e.block.None?
    ensures e.kind == VitaminD ==> e == VitaminEvent(input) && VitaminFires(input, snap)
    ensures e.block.Some? ==> e.block.value < |r.blocks| && e in BlockEvents(r, e.block.value, input, snap)
  {
    ScanBlockBound(r, |r.blocks|, input, snap, e);
    if e.block.Some? && e.block.value < |r.blocks| {
      TickHoldsBlock(r, input, snap, e, e.block.value);
    }
  }

  /**
   * A block alarm for block `i` fires iff the block starts this very minute, its alarm is not
   * switched off and its `day-time-ALARM` key was not yet recorded.
   */
  lemma AlarmFiresIff(r: Routine, input: TickInput, snap: Snapshot, i: nat)
    requires i < |r.blocks|
    ensures (exists e :: e in TickEvents(Some(r), input, snap) && e.kind == BlockAlarm && e.block == Some(i))
            <==> AlarmFires(r.blocks, i, input, snap)
  {
    if AlarmFires(r.blocks, i, input, snap) {
      var e := AlarmEvent(r, i, input);
      BlockEventsSpec(r, i, input, snap, e);
      TickHoldsBlock(r, input, snap, e, i);
    }
    forall e | e in TickEvents(Some(r), input, snap) && e.kind == BlockAlarm && e.block == Some(i)
      ensures AlarmFires(r.blocks, i, input, snap)
    {
      TickHoldsBlock(r, input, snap, e, i);
      BlockEventsSpec(r, i, input, snap, e);
    }
  }

  /**
   * The lock for block `i` engages iff the block is sacred and enforces the lock, now lies in its
   * window, the app is not locked already and the block's `day-id-LOCK` key was not yet recorded.
   */
  lemma LockFiresIff(r: Routine, input: TickInput, snap: Snapshot, i: nat)
    requires i < |r.blocks|
    ensures (exists e :: e in TickEvents(Some(r), input, snap) && e.kind == SacredLock && e.block == Some(i))
            <==> LockFires(r.blocks, i, input, snap)
  {
    if LockFires(r.blocks, i, input, snap) {
      var e := LockEvent(r, i, input);
      BlockEventsSpec(r, i, input, snap, e);
      TickHoldsBlock(r, input, snap, e, i);
    }
    forall e | e in TickEvents(Some(r), input, snap) && e.kind == SacredLock && e.block == Some(i)
      ensures LockFires(r.blocks, i, input, snap)
    {
      TickHoldsBlock(r, input, snap, e, i);
      BlockEventsSpec(r, i, input, snap, e);
    }
  }

  /**
   * The pre-warning for block `i` fires iff it is a sacred block following a work block, it starts
   * exactly 15 minutes from now and its `day-time-routineId` key was not yet recorded.
   */
  lemma WarningFiresIff(r: Routine, input: TickInput, snap: Snapshot, i: nat)
    requires i < |r.blocks|
    ensures (exists e :: e in TickEvents(Some(r), input, snap) && e.kind == SacredPreWarning && e.block == Some(i))
            <==> WarningFires(r, i, input, snap)
  {
    if WarningFires(r, i, input, snap) {
      var e := WarningEvent(r, i, input);
      BlockEventsSpec(r, i, input, snap, e);
      TickHoldsBlock(r, input, snap, e, i);
    }
    forall e | e in TickEvents(Some(r), input, snap) && e.kind == SacredPreWarning && e.block == Some(i)
      ensures WarningFires(r, i, input, snap)
    {
      TickHoldsBlock(r, input, snap, e, i);
      BlockEventsSpec(r, i, input, snap, e);
    }
  }

  /**
   * The vitamin-D reminder fires iff a routine is current, the reminder is on, now equals the
   * parsed reminder time and `day-VITAMIND` was not yet recorded.
   */
  lemma VitaminFiresIff(routine: Option<Routine>, input: TickInput, snap: Snapshot)
    ensures (exists e :: e in TickEvents(routine, input, snap) && e.kind == VitaminD)
            <==> routine.Some? && VitaminFires(input, snap)
  {
    if routine.Some? {
      if VitaminFires(input, snap) {
        assert VitaminEvent(input) in TickEvents(routine, input, snap);
      }
      forall e | e in TickEvents(routine, input, snap) && e.kind == VitaminD
        ensures VitaminFires(input, snap)
      {
        TickEventOrigin(routine.value, input, snap, e);
      }
    }
  }

  /** The screen is locked after the run iff it was locked before or some block's lock fired. */
  lemma LockedAfterIff(r: Routine, input: TickInput, snap: Snapshot)
    ensures After(Some(r), input, snap).isLocked
            <==> snap.isLocked || exists i :: 0 <= i < |r.blocks| && LockFires(r.blocks, i, input, snap)
  {
    var es := TickEvents(Some(r), input, snap);
    if RaisesLock(es) {
      var e :| e in es && e.kind == SacredLock;
      TickEventOrigin(r, input, snap, e);
      LockFiresIff(r, input, snap, e.block.value);
    }
    if exists i :: 0 <= i < |r.blocks| && LockFires(r.blocks, i, input, snap) {
      var i :| 0 <= i < |r.blocks| && LockFires(r.blocks, i, input, snap);
      LockFiresIff(r, input, snap, i);
    }
  }

  /** Each event records a key that was not yet in the ledger, so it fires at most once per key. */
  lemma EventsAreNew(routine: Option<Routine>, input: TickInput, snap: Snapshot, e: Event)
    requires e in TickEvents(routine, input, snap)
    ensures e.key !in snap.ledger && e.key in After(routine, input, snap).ledger
  {
    TickEventOrigin(routine.value, input, snap, e);
    if e.block.Some? {
      BlockEventsSpec(routine.value, e.block.value, input, snap, e);
    }
    assert e.key in KeysOf(TickEvents(routine, input, snap));
  }

  // ----- muting -----

  function Silenced(es: seq<Event>): (r: seq<Event>)
    ensures |r| == |es|
    ensures forall k :: 0 <= k < |es| ==> r[k] == es[k].(sound := false)
  {
    seq(|es|, k requires 0 <= k < |es| => es[k].(sound := false))
  }

  lemma SilencedAppend(a: seq<Event>, b: seq<Event>)
    ensures Silenced(a + b) == Silenced(a) + Silenced(b)
  {
    assert |Silenced(a + b)| == |Silenced(a) + Silenced(b)|;
    forall k | 0 <= k < |a + b|
      ensures Silenced(a + b)[k] == (Silenced(a) + Silenced(b))[k]
    {
      if k >= |a| { assert (a + b)[k] == b[k - |a|]; }
    }
  }

  /** Muting changes none of the conditions, only the sound flag of the events block `i` raises. */
  lemma BlockMuted(r: Routine, i: nat, input: TickInput, snap: Snapshot)
    requires i < |r.blocks| && !input.muted
    ensures BlockEvents(r, i, input.(muted := true), snap) == Silenced(BlockEvents(r, i, input, snap))
  {
    var q := input.(muted := true);
    var bs := r.blocks;
    assert q.read == input.read && q.now == input.now && q.day == input.day && q.settings == input.settings;
    assert LockFires(bs, i, q, snap) == LockFires(bs, i, input, snap);
    assert AlarmFires(bs, i, q, snap) == AlarmFires(bs, i, input, snap);
    assert WarningFires(r, i, q, snap) == WarningFires(r, i, input, snap);
    var l := if LockFires(bs, i, input, snap) then [LockEvent(r, i, input)] else [];
    var a := if AlarmFires(bs, i, input, snap) then [AlarmEvent(r, i, input)] else [];
    var w := if WarningFires(r, i, input, snap) then [WarningEvent(r, i, input)] else [];
    SilencedAppend(l, a);
    SilencedAppend(l + a, w);
  }

  lemma {:induction false} ScanMuted(r: Routine, n: nat, input: TickInput, snap: Snapshot)
    requires n <= |r.blocks| && !input.muted
    ensures ScanEvents(r, n, input.(muted := true), snap) == Silenced(ScanEvents(r, n, input, snap))
  {
    if n > 0 {
      ScanMuted(r, n - 1, input, snap);
      BlockMuted(r, n - 1, input, snap);
      SilencedAppend(ScanEvents(r, n - 1, input, snap), BlockEvents(r, n - 1, input, snap));
    }
  }

  /**
   * Muting only keeps the alarm sound from playing: the same events are raised with the same
   * keys, toasts and notifications, and the state after the run is the same.
   */
  lemma MutingOnlySilences(routine: Option<Routine>, input: TickInput, snap: Snapshot)
    requires !input.muted
    ensures TickEvents(routine, input.(muted := true), snap) == Silenced(TickEvents(routine, input, snap))
    ensures After(routine, input.(muted := true), snap) == After(routine, input, snap)
  {
    if routine.Some? {
      var r := routine.value;
      var loud := TickEvents(routine, input, snap);
      var quiet := TickEvents(routine, input.(muted := true), snap);
      ScanMuted(r, |r.blocks|, input, snap);
      SilencedAppend(ScanEvents(r, |r.blocks|, input, snap), VitaminEvents(input, snap));
      assert VitaminEvents(input.(muted := true), snap) == Silenced(VitaminEvents(input, snap));
      assert quiet == Silenced(loud);
      assert KeysOf(quiet) == KeysOf(loud) by {
        forall x ensures x in KeysOf(quiet) <==> x in KeysOf(loud) {
          if x in KeysOf(loud) {
            var k :| 0 <= k < |loud| && loud[k].key == x;
            assert quiet[k].key == x;
          }
          if x in KeysOf(quiet) {
            var k :| 0 <= k < |quiet| && quiet[k].key == x;
            assert loud[k].key == x;
          }
        }
      }
      assert RaisesLock(quiet) <==> RaisesLock(loud) by {
        if RaisesLock(loud) {
          var k :| 0 <= k < |loud| && loud[k].kind == SacredLock;
          assert quiet[k] in quiet;
        }
        if RaisesLock(quiet) {
          var k :| 0 <= k < |quiet| && quiet[k].kind == SacredLock;
          assert loud[k] in loud;
        }
      }
    }
  }

  /** Without a current routine the run raises nothing and changes nothing, the vitamin-D check included. */
  lemma MissingRoutineIsNoOp(input: TickInput, snap: Snapshot)
    ensures TickEvents(None, input, snap) == []
    ensures After(None, input, snap) == snap
  {
  }

  // ----- a second run in the same minute -----

  lemma BlockSilentAfter(r: Routine, i: nat, input: TickInput, snap: Snapshot)
    requires i < |r.blocks|
    ensures BlockEvents(r, i, input, After(Some(r), input, snap)) == []
  {
    var after := After(Some(r), input, snap);
    if LockFires(r.blocks, i, input, snap) {
      BlockEventsRaised(r, i, input, snap);
      FiredKeyRecorded(r, i, input, snap, LockEvent(r, i, input));
    }
    if AlarmFires(r.blocks, i, input, snap) {
      BlockEventsRaised(r, i, input, snap);
      FiredKeyRecorded(r, i, input, snap, AlarmEvent(r, i, input));
    }
    if WarningFires(r, i, input, snap) {
      BlockEventsRaised(r, i, input, snap);
      FiredKeyRecorded(r, i, input, snap, WarningEvent(r, i, input));
    }
    assert !LockFires(r.blocks, i, input, after) && !AlarmFires(r.blocks, i, input, after);
    assert !WarningFires(r, i, input, after);
  }

  /** The key of every event block `i` raises is in the ledger after the run. */
  lemma FiredKeyRecorded(r: Routine, i: nat, input: TickInput, snap: Snapshot, e: Event)
    requires i < |r.blocks| && e in BlockEvents(r, i, input, snap)
    ensures e.key in After(Some(r), input, snap).ledger
  {
    BlockEventsOrigin(r, i, input, snap, e);
    TickHoldsBlock(r, input, snap, e, i);
    assert e.key in KeysOf(TickEvents(Some(r), input, snap));
  }

  lemma ScanSilentAfter(r: Routine, n: nat, input: TickInput, snap: Snapshot)
    requires n <= |r.blocks|
    ensures ScanEvents(r, n, input, After(Some(r), input, snap)) == []
  {
    var after := After(Some(r), input, snap);
    forall i | 0 <= i < n
      ensures BlockEvents(r, i, input, after) == []
    {
      BlockSilentAfter(r, i, input, snap);
    }
    ScanSilent(r, n, input, after);
  }

  /** A scan over blocks none of which raises anything raises nothing. */
  lemma {:induction false} ScanSilent(r: Routine, n: nat, input: TickInput, s: Snapshot)
    requires n <= |r.blocks|
    requires forall i :: 0 <= i < n ==> BlockEvents(r, i, input, s) == []
    ensures ScanEvents(r, n, input, s) == []
  {
    if n > 0 {
      ScanSilent(r, n - 1, input, s);
    }
  }

  /** A second run in the same minute of the same day, from the state the first one left, raises nothing. */
  lemma SecondTickIsSilent(routine: Option<Routine>, input: TickInput, snap: Snapshot)
    ensures TickEvents(routine, input, After(routine, input, snap)) == []
  {
    if routine.Some? {
      var r := routine.value;
      ScanSilentAfter(r, |r.blocks|, input, snap);
      var es := TickEvents(routine, input, snap);
      if VitaminFires(input, snap) {
        assert VitaminEvent(input) in es;
        assert VitaminEvent(input).key in KeysOf(es);
      }
    }
  }
}

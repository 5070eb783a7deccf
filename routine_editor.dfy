/**
 * The routine editor: the completion percentage it shows, and the edits it makes to the current
 * routine's block list (change a field, add or remove a block, add or delete a subtask, shift the
 * whole routine) and the creation of a new routine. Each edit yields the new block list or routine
 * that the editor hands to the app shell's `updateRoutine`; the random ids it draws are parameters.
 */
module RoutineEditor {
  import opened Wrappers
  import opened JsText
  import opened JsNumber
  import opened Clock
  import opened Types
  import opened Timeline
  import RoutineTable
  import App

  // ----- completionProgress -----

  /** The end `completionProgress` uses: the next start when it is later than this one, else an hour after this one. */
  function CompletionEnd(s: seq<Num>, i: nat): Num
    requires i < |s|
  {
    if i + 1 < |s| && Less(s[i], s[i + 1]) then s[i + 1] else Add(s[i], Num(60))
  }

  /** `currentMinutes >= end`. */
  predicate Done(s: seq<Num>, i: nat, now: MinuteOfDay)
    requires i < |s|
  {
    AtMost(CompletionEnd(s, i), Num(now))
  }

  /** How many of the first `n` blocks are done. */
  function CountDone(s: seq<Num>, n: nat, now: MinuteOfDay): (c: nat)
    requires n <= |s|
    ensures c <= n
  {
    if n == 0 then 0 else CountDone(s, n - 1, now) + (if Done(s, n - 1, now) then 1 else 0)
  }

  /** A block that is done stays done: the count never drops as the day goes on. */
  lemma {:induction false} CountDoneMonotone(s: seq<Num>, n: nat, now: MinuteOfDay, later: MinuteOfDay)
    requires n <= |s| && now <= later
    ensures CountDone(s, n, now) <= CountDone(s, n, later)
  {
    if n > 0 {
      CountDoneMonotone(s, n - 1, now, later);
    }
  }

  /** Every block ends after it starts, unless its start does not parse. */
  lemma CompletionEndAfterStart(s: seq<Num>, i: nat)
    requires i < |s| && s[i].Num?
    ensures CompletionEnd(s, i).Num? && s[i].v < CompletionEnd(s, i).v
  {
  }

  /**
   * `completionProgress`: the rounded percentage of blocks that are done; 0 without a routine or
   * without blocks.
   */
  method CompletionProgress(routine: Option<Routine>, now: MinuteOfDay) returns (percent: int)
    ensures routine.None? || |routine.value.blocks| == 0 ==> percent == 0
    ensures routine.Some? && |routine.value.blocks| > 0 ==>
      var s := Starts(routine.value.blocks);
      percent == MathRound(100 * CountDone(s, |s|, now), |s|)
    ensures 0 <= percent <= 100
  {
    if routine.None? || |routine.value.blocks| == 0 {
      return 0;
    }
    var s := Starts(routine.value.blocks);
    var completed := CountDoneBlocks(s, now);
    MathRoundRange(100 * completed, |s|, 100);
    percent := MathRound(100 * completed, |s|);
  }

  /** The `forEach` of `completionProgress`. */
  method CountDoneBlocks(s: seq<Num>, now: MinuteOfDay) returns (completed: nat)
    ensures completed == CountDone(s, |s|, now)
  {
    completed := 0;
    var i := 0;
    while i < |s|
      invariant 0 <= i <= |s|
      invariant completed == CountDone(s, i, now)
    {
      var start := s[i];
      var end := Add(start, Num(60));
      if i < |s| - 1 {
        var next := s[i + 1];
        if Less(start, next) {
          end := next;
        }
      }
      if AtMost(end, Num(now)) {
        completed := completed + 1;
      }
      i := i + 1;
    }
  }

  // ----- handleBlockChange -----

  /** A `[field]: value` update of one block. */
  datatype BlockChange =
    | SetTime(time: string)
    | SetActivity(activity: string)
    | SetKind(kind: BlockKind)
    | SetCustomColor(customColor: Option<string>)
    | SetLocation(location: Option<string>)
    | SetAudioUrl(audioUrl: Option<string>)
    | SetAiSuggestion(aiSuggestion: Option<string>)
    | SetAlarmEnabled(alarmEnabled: Option<bool>)
    | SetEnforceLock(enforceLock: Option<bool>)
    | SetSubtasks(subtasks: Option<seq<Subtask>>)

  /** `{ ...block, [field]: value }`: the named field takes the value, every other field stays. */
  function Apply(b: TimeBlock, c: BlockChange): (r: TimeBlock)
    ensures r.id == b.id
    ensures if c.SetTime? then r.time == c.time else r.time == b.time
    ensures if c.SetActivity? then r.activity == c.activity else r.activity == b.activity
    ensures if c.SetKind? then r.kind == c.kind else r.kind == b.kind
    ensures if c.SetCustomColor? then r.customColor == c.customColor else r.customColor == b.customColor
    ensures if c.SetLocation? then r.location == c.location else r.location == b.location
    ensures if c.SetAudioUrl? then r.audioUrl == c.audioUrl else r.audioUrl == b.audioUrl
    ensures if c.SetAiSuggestion? then r.aiSuggestion == c.aiSuggestion else r.aiSuggestion == b.aiSuggestion
    ensures if c.SetAlarmEnabled? then r.alarmEnabled == c.alarmEnabled else r.alarmEnabled == b.alarmEnabled
    ensures if c.SetEnforceLock? then r.enforceLock == c.enforceLock else r.enforceLock == b.enforceLock
    ensures if c.SetSubtasks? then r.subtasks == c.subtasks else r.subtasks == b.subtasks
  {
    match c
    case SetTime(v) => b.(time := v)
    case SetActivity(v) => b.(activity := v)
    case SetKind(v) => b.(kind := v)
    case SetCustomColor(v) => b.(customColor := v)
    case SetLocation(v) => b.(location := v)
    case SetAudioUrl(v) => b.(audioUrl := v)
    case SetAiSuggestion(v) => b.(aiSuggestion := v)
    case SetAlarmEnabled(v) => b.(alarmEnabled := v)
    case SetEnforceLock(v) => b.(enforceLock := v)
    case SetSubtasks(v) => b.(subtasks := v)
  }

  /** `handleBlockChange`: the block at `index` updated, and the list re-sorted only when its time changed. */
  function ChangeBlock(bs: seq<TimeBlock>, index: nat, c: BlockChange): seq<TimeBlock>
    requires index < |bs|
  {
    var changed := bs[index := Apply(bs[index], c)];
    if c.SetTime? then SortByTime(changed) else changed
  }

  /**
   * A change of any field but the time leaves every other block where it was and changes only
   * that field of the indexed block; a change of the time keeps the same blocks, now sorted by time.
   */
  lemma ChangeBlockSpec(bs: seq<TimeBlock>, index: nat, c: BlockChange)
    requires index < |bs|
    ensures |ChangeBlock(bs, index, c)| == |bs|
    ensures !c.SetTime? ==> (ChangeBlock(bs, index, c)[index] == Apply(bs[index], c)
      && forall j :: 0 <= j < |bs| && j != index ==> ChangeBlock(bs, index, c)[j] == bs[j])
    ensures c.SetTime? ==> (SortedByTime(ChangeBlock(bs, index, c))
      && multiset(ChangeBlock(bs, index, c)) == multiset(bs[index := bs[index].(time := c.time)]))
  {
  }

  // ----- addBlock and removeBlock -----

  const NewActivityName: string := "Nueva Actividad"

  /** The block `addBlock` creates. */
  function NewBlock(id: string): TimeBlock {
    TimeBlock(id, "12:00", NewActivityName, Work, None, None, None, None, Some(true), Some(false), Some([]))
  }

  /** `addBlock`: the new block appended, then the list sorted by time. */
  function AddBlock(bs: seq<TimeBlock>, id: string): seq<TimeBlock> {
    SortByTime(bs + [NewBlock(id)])
  }

  /**
   * Adding a block lengthens the list by one and keeps it sorted; into a list already sorted the
   * new block goes after every block not later than 12:00 and before every later one, and the
   * other blocks keep their order.
   */
  lemma AddBlockSpec(bs: seq<TimeBlock>, id: string)
    ensures |AddBlock(bs, id)| == |bs| + 1
    ensures SortedByTime(AddBlock(bs, id))
    ensures multiset(AddBlock(bs, id)) == multiset(bs) + multiset{NewBlock(id)}
    ensures SortedByTime(bs) ==> exists k :: (0 <= k <= |bs| && AddBlock(bs, id) == bs[..k] + [NewBlock(id)] + bs[k..]
      && (forall j :: 0 <= j < k ==> !LexLess("12:00", bs[j].time))
      && (forall j :: k <= j < |bs| ==> LexLess("12:00", bs[j].time)))
  {
    var x := NewBlock(id);
    var all := bs + [x];
    assert all[..|all| - 1] == bs;
    if SortedByTime(bs) {
      SortSortedIsIdentity(bs);
      var k := InsertSplits(bs, x);
    }
  }

  /** Inserting into a sorted list places the block after the ones not later than it and before the later ones. */
  lemma {:induction false} InsertSplits(bs: seq<TimeBlock>, x: TimeBlock) returns (k: nat)
    requires SortedByTime(bs)
    ensures k <= |bs| && InsertByTime(bs, x) == bs[..k] + [x] + bs[k..]
    ensures forall j :: 0 <= j < k ==> !LexLess(x.time, bs[j].time)
    ensures forall j :: k <= j < |bs| ==> LexLess(x.time, bs[j].time)
  {
    if bs == [] {
      k := 0;
    } else if LexLess(x.time, bs[0].time) {
      k := 0;
      forall j | 0 < j < |bs| ensures LexLess(x.time, bs[j].time) {
        LexLessTrichotomy(bs[0].time, bs[j].time);
        if LexLess(bs[0].time, bs[j].time) {
          LexLessTransitive(x.time, bs[0].time, bs[j].time);
        }
      }
    } else {
      var k' := InsertSplits(bs[1..], x);
      k := k' + 1;
      assert InsertByTime(bs, x) == [bs[0]] + InsertByTime(bs[1..], x);
      InsertSplitsBehind(bs, x, k');
    }
  }

  /** One step of `InsertSplits`: the split of the tail, shifted past a head that is not later than `x`. */
  lemma InsertSplitsBehind(bs: seq<TimeBlock>, x: TimeBlock, k': nat)
    requires bs != [] && !LexLess(x.time, bs[0].time)
    requires k' <= |bs| - 1
    requires forall j :: 0 <= j < k' ==> !LexLess(x.time, bs[1..][j].time)
    requires forall j :: k' <= j < |bs| - 1 ==> LexLess(x.time, bs[1..][j].time)
    ensures bs[..k' + 1] == [bs[0]] + bs[1..][..k'] && bs[k' + 1..] == bs[1..][k'..]
    ensures forall j :: 0 <= j < k' + 1 ==> !LexLess(x.time, bs[j].time)
    ensures forall j :: k' + 1 <= j < |bs| ==> LexLess(x.time, bs[j].time)
  {
    forall j | k' + 1 <= j < |bs| ensures LexLess(x.time, bs[j].time) {
      assert bs[j] == bs[1..][j - 1];
    }
    forall j | 0 < j < k' + 1 ensures !LexLess(x.time, bs[j].time) {
      assert bs[j] == bs[1..][j - 1];
    }
  }

  /** `blocks.filter((_, i) => i !== index)`. */
  function RemoveBlock(bs: seq<TimeBlock>, index: int): (r: seq<TimeBlock>)
    ensures 0 <= index < |bs| ==> (|r| == |bs| - 1
      && (forall j :: 0 <= j < index ==> r[j] == bs[j])
      && (forall j :: index <= j < |r| ==> r[j] == bs[j + 1]))
    ensures !(0 <= index < |bs|) ==> r == bs
  {
    if 0 <= index < |bs| then bs[..index] + bs[index + 1..] else bs
  }

  /** Removing one block takes out exactly that block. */
  lemma RemoveBlockTakesOne(bs: seq<TimeBlock>, index: int)
    requires 0 <= index < |bs|
    ensures multiset(RemoveBlock(bs, index)) + multiset{bs[index]} == multiset(bs)
  {
    assert bs == bs[..index] + [bs[index]] + bs[index + 1..];
  }

  // ----- subtasks -----

  /** `block.subtasks || []`. */
  function SubtasksOf(b: TimeBlock): seq<Subtask> {
    b.subtasks.GetOr([])
  }

  /**
   * `addSubtask`: none when the input is blank; otherwise the block list with one subtask of the
   * trimmed text, not completed, appended to the block's subtasks.
   */
  function AddSubtask(bs: seq<TimeBlock>, blockIndex: nat, input: string, newId: string): Option<seq<TimeBlock>>
    requires blockIndex < |bs|
  {
    if IsBlank(input) then None
    else
      var sub := Subtask(newId, Trim(input), false);
      Some(ChangeBlock(bs, blockIndex, SetSubtasks(Some(SubtasksOf(bs[blockIndex]) + [sub]))))
  }

  /**
   * Blank input, whitespace only included, is refused; any other input adds exactly one subtask,
   * with the trimmed text and not completed, at the end of that block's list, and touches nothing else.
   */
  lemma AddSubtaskSpec(bs: seq<TimeBlock>, blockIndex: nat, input: string, newId: string)
    requires blockIndex < |bs|
    ensures AddSubtask(bs, blockIndex, input, newId).None? <==> AllWhitespace(input)
    ensures AddSubtask(bs, blockIndex, input, newId).Some? ==>
      var r := AddSubtask(bs, blockIndex, input, newId).value;
      |r| == |bs| && SubtasksOf(r[blockIndex]) == SubtasksOf(bs[blockIndex]) + [Subtask(newId, Trim(input), false)]
      && r[blockIndex] == bs[blockIndex].(subtasks := r[blockIndex].subtasks)
      && Trim(input) != [] && !IsWhitespace(Trim(input)[0]) && !IsWhitespace(Trim(input)[|Trim(input)| - 1])
      && forall j :: 0 <= j < |bs| && j != blockIndex ==> r[j] == bs[j]
  {
    BlankIffAllWhitespace(input);
    if !IsBlank(input) {
      TrimIsTrimmed(input);
      ChangeBlockSpec(bs, blockIndex, SetSubtasks(Some(SubtasksOf(bs[blockIndex]) + [Subtask(newId, Trim(input), false)])));
    }
  }

  function WithoutSubtask(ss: seq<Subtask>, id: string): (r: seq<Subtask>)
    ensures forall x :: x in r <==> x in ss && x.id != id
  {
    if ss == [] then []
    else if ss[0].id == id then WithoutSubtask(ss[1..], id)
    else [ss[0]] + WithoutSubtask(ss[1..], id)
  }

  /** `deleteSubtask`: the block's subtasks without those of the given id. */
  function DeleteSubtask(bs: seq<TimeBlock>, blockIndex: nat, subtaskId: string): seq<TimeBlock>
    requires blockIndex < |bs|
  {
    ChangeBlock(bs, blockIndex, SetSubtasks(Some(WithoutSubtask(SubtasksOf(bs[blockIndex]), subtaskId))))
  }

  /** Deleting removes every subtask with that id from that block and nothing else. */
  lemma DeleteSubtaskSpec(bs: seq<TimeBlock>, blockIndex: nat, subtaskId: string)
    requires blockIndex < |bs|
    ensures var r := DeleteSubtask(bs, blockIndex, subtaskId);
      |r| == |bs|
      && (forall x :: x in SubtasksOf(r[blockIndex]) <==> x in SubtasksOf(bs[blockIndex]) && x.id != subtaskId)
      && r[blockIndex] == bs[blockIndex].(subtasks := r[blockIndex].subtasks)
      && forall j :: 0 <= j < |bs| && j != blockIndex ==> r[j] == bs[j]
    ensures forall a, b :: SubtasksOf(bs[blockIndex]) == a + b ==>
      SubtasksOf(DeleteSubtask(bs, blockIndex, subtaskId)[blockIndex])
        == WithoutSubtask(a, subtaskId) + WithoutSubtask(b, subtaskId)
  {
    ChangeBlockSpec(bs, blockIndex, SetSubtasks(Some(WithoutSubtask(SubtasksOf(bs[blockIndex]), subtaskId))));
    forall a, b | SubtasksOf(bs[blockIndex]) == a + b
      ensures SubtasksOf(DeleteSubtask(bs, blockIndex, subtaskId)[blockIndex])
        == WithoutSubtask(a, subtaskId) + WithoutSubtask(b, subtaskId)
    {
      WithoutSubtaskAppend(a, b, subtaskId);
    }
  }

  /** The subtask filter works piece by piece, so the subtasks it keeps stay in their order. */
  lemma {:induction false} WithoutSubtaskAppend(a: seq<Subtask>, b: seq<Subtask>, id: string)
    ensures WithoutSubtask(a + b, id) == WithoutSubtask(a, id) + WithoutSubtask(b, id)
  {
    if a == [] {
      assert a + b == b;
    } else {
      assert (a + b)[0] == a[0] && (a + b)[1..] == a[1..] + b;
      WithoutSubtaskAppend(a[1..], b, id);
      if a[0].id == id {
        assert WithoutSubtask(a + b, id) == WithoutSubtask(a[1..] + b, id);
      } else {
        assert WithoutSubtask(a + b, id) == [a[0]] + WithoutSubtask(a[1..] + b, id);
      }
    }
  }

  /** Deleting a subtask just added, whose id the block did not use, gives back the old subtasks. */
  lemma {:induction false} DeleteAddedSubtask(ss: seq<Subtask>, sub: Subtask)
    requires forall i :: 0 <= i < |ss| ==> ss[i].id != sub.id
    ensures WithoutSubtask(ss + [sub], sub.id) == ss
  {
    if ss == [] {
      assert ss + [sub] == [sub];
    } else {
      assert (ss + [sub])[1..] == ss[1..] + [sub];
      DeleteAddedSubtask(ss[1..], sub);
      assert ss == [ss[0]] + ss[1..];
    }
  }

  // ----- shiftWholeRoutine -----

  /** `shiftWholeRoutine`: the routine with every block shifted and re-sorted; none without a routine. */
  function ShiftWholeRoutine(routine: Option<Routine>, minutes: int): Option<Routine> {
    match routine
    case None => None
    case Some(r) => Some(r.(blocks := ShiftBlocks(r.blocks, minutes)))
  }

  /**
   * Shifting by `minutes` and then back by `undo`, the two adding up to whole days (`-minutes`
   * above all), gives the same blocks again, and the very same routine when its times are
   * canonical and strictly ascending, as the presets are.
   */
  lemma ShiftWholeRoutineBack(r: Routine, minutes: int, undo: int)
    requires AllCanonical(r.blocks)
    requires (minutes + undo) % MinutesPerDay == 0
    ensures var back := ShiftWholeRoutine(ShiftWholeRoutine(Some(r), minutes), undo).value;
      back.id == r.id && back.name == r.name && back.description == r.description
      && |back.blocks| == |r.blocks| && (forall y :: y in back.blocks <==> y in r.blocks)
      && (StrictlySortedByTime(r.blocks) ==> back == r)
  {
    ShiftBackRestores(r.blocks, minutes, undo);
  }

  /**
   * The editor's shift, handed to the app's `updateRoutine`, has the same effect as the app's own
   * schedule shift of the current routine; without a routine both leave the table alone.
   */
  lemma EditorShiftIsAppShift(t: RoutineTable.Table, current: string, minutes: int)
    ensures match ShiftWholeRoutine(RoutineTable.Lookup(t, current), minutes)
      case None => App.ShiftedTable(t, current, minutes) == t
      case Some(r) => App.ShiftedTable(t, current, minutes) == RoutineTable.Upsert(t, r)
  {
  }

  // ----- handleCreateRoutine -----

  const DefaultDescription: string := "Rutina personalizada"

  const DayStart: string := "Inicio del día"
  const WorkBlock: string := "Bloque de Trabajo"
  const Lunch: string := "Comida"

  /** The three blocks a new routine starts with. */
  function StarterBlocks(id1: string, id2: string, id3: string): seq<TimeBlock> {
    [ TimeBlock(id1, "07:00", DayStart, Personal, None, None, None, None, Some(true), None, None),
      TimeBlock(id2, "09:00", WorkBlock, Work, None, None, None, None, Some(false), None, None),
      TimeBlock(id3, "13:00", Lunch, Sacred, None, None, None, None, Some(true), Some(false), None) ]
  }

  /**
   * The starter blocks: a personal block at 07:00 with its alarm on, a work block at 09:00 with
   * its alarm off, and a sacred block at 13:00 with its alarm on that does not lock, carrying the
   * three given ids, in strictly ascending time.
   */
  lemma StarterBlocksSorted(id1: string, id2: string, id3: string)
    ensures var bs := StarterBlocks(id1, id2, id3);
      |bs| == 3 && bs[0].time == "07:00" && bs[1].time == "09:00" && bs[2].time == "13:00"
      && StrictlySortedByTime(bs)
    ensures StarterKinds(StarterBlocks(id1, id2, id3), id1, id2, id3)
  {
    var bs := StarterBlocks(id1, id2, id3);
    assert LexLess("07:00", "09:00");
    assert LexLess("09:00", "13:00");
    assert ChainedByTime(bs);
    ChainedIsStrictlySorted(bs);
  }

  /** Ids, kinds, alarms and lock of the three starter blocks. */
  predicate StarterKinds(bs: seq<TimeBlock>, id1: string, id2: string, id3: string) {
    |bs| == 3
    && bs[0].id == id1 && bs[0].kind == Personal && bs[0].alarmEnabled == Some(true) && bs[0].activity == DayStart
    && bs[1].id == id2 && bs[1].kind == Work && bs[1].alarmEnabled == Some(false) && bs[1].activity == WorkBlock
    && bs[2].id == id3 && bs[2].kind == Sacred && bs[2].alarmEnabled == Some(true) && bs[2].enforceLock == Some(false)
    && bs[2].activity == Lunch
  }

  /**
   * `handleCreateRoutine`: none for a blank name; otherwise a routine with the name as typed, the
   * description or its default, and the three starter blocks.
   */
  function CreateRoutine(name: string, description: string, id: string, id1: string, id2: string, id3: string)
    : Option<Routine>
  {
    if IsBlank(name) then None
    else Some(Routine(id, name, if description == "" then DefaultDescription else description, StarterBlocks(id1, id2, id3)))
  }

  /**
   * A routine is created exactly when the name is not all whitespace; it keeps the untrimmed name,
   * falls back to the default description only for an empty one, and starts with the three
   * starter blocks in strictly ascending time at 07:00, 09:00 and 13:00. The shell then stores it
   * and makes it current (`App.AppState.AddAndSelect`).
   */
  lemma CreateRoutineSpec(name: string, description: string, id: string, id1: string, id2: string, id3: string)
    ensures CreateRoutine(name, description, id, id1, id2, id3).Some? <==> !AllWhitespace(name)
    ensures CreateRoutine(name, description, id, id1, id2, id3).Some? ==>
      var r := CreateRoutine(name, description, id, id1, id2, id3).value;
      r.id == id && r.name == name
      && (description != "" ==> r.description == description)
      && (description == "" ==> r.description == DefaultDescription)
      && |r.blocks| == 3 && r.blocks[0].time == "07:00" && r.blocks[1].time == "09:00" && r.blocks[2].time == "13:00"
      && StrictlySortedByTime(r.blocks) && StarterKinds(r.blocks, id1, id2, id3)
  {
    BlankIffAllWhitespace(name);
    StarterBlocksSorted(id1, id2, id3);
  }
}

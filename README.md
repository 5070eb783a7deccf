# Equilibrio IA — a verified model of the schedule core

Equilibrio IA is a single-page wellness app. The user keeps routines, which are lists of time
blocks (`"HH:MM"` start, activity, kind, optional alarm, lock and subtasks). The app shell runs a
periodic time check that:

- rings block alarms;
- pre-warns fifteen minutes before a sacred block that follows a work block;
- locks the screen during sacred blocks that ask for it;
- reminds the user of vitamin D.

Each announcement is recorded under a dedup key, so it fires once per day.

Around the shell sit:

- the dashboard's derived timeline (block status, current and next activity, progress, life
  score);
- the routine editor;
- the evaluation, goal, retrospective, timer, settings, entry and onboarding screens.

These are mostly small state machines and validators.

This project models that core in Dafny and proves what it promises.

- **JavaScript values and built-ins** (`wrappers.dfy`, `js_text.dfy`, `js_number.dfy`,
  `clock.dfy`):
  - numbers with `NaN`, whose comparisons are all false;
  - `Number` and `parseInt` on decimal text;
  - `split`, `trim` and `padStart(2, '0')`;
  - `Math.round` on an exact quotient;
  - string order as `localeCompare` gives it on digit-and-colon text;
  - the `Date` arithmetic of a minute shift, which wraps modulo one day.
- **Data** (`types.dfy`, `presets.dfy`): the records of the type declarations and the five
  built-in routines.
- **Block lists** (`timeline.dfy`): a stable sort by time text, and shifting every block by some
  minutes.
- **Routine table** (`routine_table.dfy`): the table of routines by id with its key order, plus
  upsert, removal and deletion with the fallback current routine.
- **Collections** (`collections.dfy`): goal and evaluation list updates.
- **The periodic check** (`app_tick.dfy`): as events and a new ledger, computed from a snapshot of
  the state the check closed over.
- **The app shell** (`app.dfy`): a class `AppState` whose handlers update its fields in place and
  whose `Tick` runs the check with a loop.
- **Dashboard** (`dashboard.dfy`), **editor** (`routine_editor.dfy`): the dashboard's derived
  values and the routine editor's operations, with the two percentage loops as methods.
- **The other screens**:
  - `evaluation.dfy`, `settings_rules.dfy`, `goal_planner.dfy`: evaluation, settings and goals;
  - `agile_coach.dfy`, `focus_timer.dfy`: the retrospective coach and the focus timer;
  - `splash_screen.dfy`, `onboarding.dfy`: the entry screen and the two onboarding screens.

  Each is a value type with step functions and the lemmas about them. Where the component keeps
  fields that its handlers change, there is also a class.

## Model

| member | source | states |
|---|---|---|
| JsText.TrimStart | components/RoutineManager.tsx:97-102 | the result is a suffix of the input, what was dropped is all whitespace, and the result does not start with whitespace |
| JsText.TrimEnd | components/RoutineManager.tsx:97-102 | the result is a prefix of the input, what was dropped is all whitespace, and the result does not end with whitespace |
| JsText.TrimIsTrimmed | components/RoutineManager.tsx:97-102 | `trim()` gives a contiguous slice of the input with no whitespace at either end |
| JsText.BlankIffAllWhitespace | components/RoutineManager.tsx:97 | the guard `!s.trim()` holds exactly for text made only of whitespace (the empty text included) |
| JsText.Split | App.tsx:402 | `split(':')` gives at least one part, and no part contains the separator |
| JsText.SplitJoin | App.tsx:402 | joining the parts of a split with the separator gives the text back |
| JsText.NatToString | App.tsx:320-321 | `toString()` of a natural number is a digit string that reads back as that number, one digit below 10 and two below 100 |
| JsText.PadStart2 | App.tsx:320-321 | `padStart(2, '0')` keeps the text at its end and fills with zeros up to length two |
| JsText.Pad2 | App.tsx:320-321 | a padded number is a digit string that reads back as the number, two characters below 100 |
| JsText.LexLessTransitive | App.tsx:324 | the `localeCompare` order on time texts is transitive |
| JsText.LexLessTrichotomy | App.tsx:324 | two time texts are equal or ordered exactly one way round |
| JsNumber.MathRound | components/Dashboard.tsx:89 | `Math.round(num/den)` is the integer nearest the quotient, and halves round up |
| JsNumber.MathRoundRange | components/RoutineManager.tsx:82 | a rounded ratio of at most k stays between 0 and k |
| JsNumber.DigitPrefix | App.tsx:406 | `parseInt` reads the longest run of leading digits |
| JsNumber.ReadDigits | App.tsx:402-406 | a digit string reads as its decimal value under both `Number` and `parseInt` |
| JsNumber.ReadDigitPairNumber | App.tsx:402-403 | two non-empty digit texts joined by `:` read as the first value times 60 plus the second under `split(":").map(Number)` |
| JsNumber.ReadDigitPairInt | App.tsx:406 | two non-empty digit texts joined by `:` read as the first value times 60 plus the second under `parseInt` of each part |
| Clock.ShiftMinute | App.tsx:317-321 | a shifted minute always lies within one day |
| Clock.FormatHM | App.tsx:320-322 | a formatted time is five characters with the colon in the middle |
| Clock.ParseFormatHM | App.tsx:320-322 | every formatted minute of the day reads back as that minute under `Number` and under `parseInt` |
| Clock.FormatHMOrder | App.tsx:324 | formatted times are in text order exactly when their minutes are in numeric order |
| Clock.ShiftedTime | App.tsx:315-323 | a time that does not parse becomes `"NaN:NaN"`, and only then is the result seven characters |
| Clock.ShiftedTimeReads | App.tsx:315-323 | a time that parses, shifted, reads as its minute shifted modulo one day |
| Timeline.InsertByTime | App.tsx:324 | inserting into a sorted list keeps it sorted and adds exactly that block |
| Timeline.SortByTime | App.tsx:324 | the sort result is ordered by time text and is a permutation of the input |
| Timeline.InsertLast | App.tsx:324 | a block no earlier than all others goes last, which is the sort's stability for equal times |
| Timeline.SortSortedIsIdentity | App.tsx:324 | sorting a list already in order changes nothing |
| Timeline.ShiftBlock | App.tsx:315-323 | only the time changes, and it becomes the shifted minute formatted, or `"NaN:NaN"` |
| Timeline.ShiftBlockStart | App.tsx:315-323 | a shifted block starts at its old start plus the shift, modulo one day |
| Timeline.ShiftEachStarts | App.tsx:315-323 | the map changes only each block's time: a readable start moves by the shift modulo one day, an unreadable one becomes `"NaN:NaN"` |
| Timeline.ShiftEachPermutes | App.tsx:315-324 | mapping two lists that hold the same blocks, each as often, gives two lists that again hold the same blocks as often |
| Timeline.ShiftBlocksSpec | App.tsx:315-324 | the shifted list is sorted, has the same length, and holds exactly the shifted blocks |
| Timeline.ShiftSortedByMinute | App.tsx:315-324 | when every time parses, the shifted blocks are formatted times in ascending minute order |
| Timeline.ShiftBlockBack | App.tsx:315-323 | a block with a canonical time, shifted forward and then back by a whole-day total, is the same block |
| Timeline.ShiftBackRestores | App.tsx:315-324 | shifting a list of canonical times there and back by a whole-day total gives the same blocks, each as often as before, and the very same list when it was strictly ascending |
| Timeline.ChainedIsStrictlySorted | constants.ts:22-98 | a list whose neighbours ascend is strictly ascending throughout |
| Timeline.SortedSameElementsEqual | App.tsx:324 | a sorted list with exactly the elements of a strictly ascending list of the same length is that list |
| Timeline.Starts | components/Dashboard.tsx:103-104 | one start per block, as `split(':').map(Number)` reads it |
| Timeline.CanonicalSortedIncreasing | components/Dashboard.tsx:101-117 | canonical times in strictly ascending text order have strictly ascending numeric starts |
| Presets.PresetRoutines | constants.ts:22-98 | there are five built-in routines, with the morning, afternoon, split-shift, imported and "El Cambio" ids in that order |
| Presets.PresetsAreSorted | constants.ts:22-98 | every built-in routine lists its blocks in strictly ascending time |
| RoutineTable.LookupValid | App.tsx:312 | in a well-formed table `customRoutines[id]` is present exactly when the id is a key, and the routine found carries that id |
| RoutineTable.Without | App.tsx:476-490 | the remaining keys are exactly the old keys other than the deleted one, and the list is no longer than before |
| RoutineTable.WithoutAppend | App.tsx:476-478 | dropping a key from two joined key lists is dropping it from each and joining, so the remaining keys keep their old order |
| RoutineTable.WithoutFirst | App.tsx:482-484 | the first remaining key is the first old key other than the deleted one |
| RoutineTable.PresetTableValid | App.tsx:71 | the initial table is well formed and holds the morning routine first |
| RoutineTable.UpsertSpec | App.tsx:472-474 | after an upsert the routine is stored under its id and every other entry is unchanged; an existing key keeps its place and a new one goes last |
| RoutineTable.RemoveSpec | App.tsx:476-490 | removal keeps the table well formed, drops exactly that id, and removing an absent id changes nothing |
| RoutineTable.DeleteOther | App.tsx:476-490 | deleting a routine that is not current removes just it and keeps the current id |
| RoutineTable.DeleteCurrent | App.tsx:476-490 | deleting the current routine while others remain removes just it and makes `Object.keys(...)[0]` current: the first old key, in the table's order, other than the deleted one |
| RoutineTable.DeleteLast | App.tsx:476-490 | deleting the current and only routine restores the presets with the morning routine current |
| RoutineTable.DeleteKeepsCurrent | App.tsx:476-490 | after any deletion the current id still names a routine of the table |
| Collections.OtherDates | App.tsx:352-355 | the kept evaluations are exactly those with another date |
| Collections.SaveEvaluationSpec | App.tsx:352-355 | the saved evaluation comes first, followed by exactly the evaluations with another date; for any split of the old list the rest is the kept part of the front followed by the kept part of the back, so their order is kept |
| Collections.OtherDatesAppend | App.tsx:352-355 | the date filter over two joined lists is the filter over the first followed by the filter over the second |
| Collections.SaveTwiceKeepsLast | App.tsx:352-355 | saving the same day twice keeps only the second evaluation |
| Collections.ToggleGoal | App.tsx:469 | only goals with that id have their completion flipped, and the length stays |
| Collections.DeleteGoal | App.tsx:470 | the remaining goals are exactly those with another id |
| Collections.ToggleTwice | App.tsx:469 | toggling twice gives the list back |
| Collections.ToggleKeepsGoals | App.tsx:469 | toggling changes no id, text, period or category |
| Collections.DeleteAdded | App.tsx:468-470 | deleting a goal just added under a fresh id gives the old list back |
| Collections.DeleteAbsent | App.tsx:470 | deleting an unknown id changes nothing |
| Collections.DeleteAppend | App.tsx:470 | deleting keeps the order of the goals it keeps |
| AppTick.BlockEventsSpec | App.tsx:401-443 | each event of a block names that block and was not yet announced; a lock, an alarm or a pre-warning is raised exactly when its condition holds |
| AppTick.KeysAppend | App.tsx:401-459 | the keys and the lock flag of a run are those of its parts |
| AppTick.TickHoldsBlock | App.tsx:401-443 | the events of a run that name a block are exactly the events that block raises |
| AppTick.TickEventOrigin | App.tsx:392-459 | every event is either the vitamin-D reminder, raised under its condition, or an event of a block of the routine |
| AppTick.AlarmFiresIff | App.tsx:422-427 | a block's alarm fires exactly when it starts this minute, its alarm is not switched off, and its key is new |
| AppTick.LockFiresIff | App.tsx:406-419 | a lock fires exactly for a locking sacred block whose window holds now, when the screen is not locked and its key is new |
| AppTick.WarningFiresIff | App.tsx:429-443 | a pre-warning fires exactly for a sacred block after a work block that starts in exactly 15 minutes, with a new key |
| AppTick.VitaminFiresIff | App.tsx:446-459 | the vitamin reminder fires exactly when enabled, at its minute, with a new key, and only when a routine exists |
| AppTick.LockedAfterIff | App.tsx:408-419 | after the run the screen is locked exactly when it was before or some lock fired |
| AppTick.EventsAreNew | App.tsx:413-455 | each event's key was not in the ledger before and is in it after |
| AppTick.Silenced | App.tsx:416-456 | muting keeps every event and only clears its sound |
| AppTick.MutingOnlySilences | App.tsx:416-456 | with the sound muted the same events fire, silently, and the new state is the same |
| AppTick.MissingRoutineIsNoOp | App.tsx:398-399 | without a current routine the run raises nothing and changes nothing |
| AppTick.SecondTickIsSilent | App.tsx:462-466 | a second run in the same minute, from the state the first left, raises nothing |
| App.ShiftedTableSpec | App.tsx:311-331 | the shift keeps the table well formed and its key order, changes only the current routine, whose blocks become the shifted sorted blocks, and does nothing without one |
| App.CheckBlock | App.tsx:401-443 | one iteration of the check raises exactly that block's events and sets the lock screen's activity when its window holds now |
| App.Run | App.tsx:392-459 | the loop over the blocks yields exactly the run's events and lock-screen activity |
| App.CheckTime | App.tsx:392-466 | one `checkTime` run yields exactly the reference events of the tick and the ledger, lock and activity the tick leads to; with no current routine it yields nothing and changes nothing |
| App.AppState.constructor | App.tsx:58-142 | the first start has the presets, the morning routine, an empty ledger and no lock |
| App.AppState.Tick | App.tsx:392-466 | the state after a check is the ledger, lock and activity of the run; the routines, goals and evaluations stay |
| App.AppState.ShiftSchedule | App.tsx:311-331 | only the current routine is shifted, and the table stays well formed |
| App.AppState.LateUnlock | App.tsx:333-337 | the schedule moves 15 minutes later and the lock screen closes |
| App.AppState.Unlock | App.tsx:339-342 | skipping a block only closes the lock screen |
| App.AppState.UpdateRoutine | App.tsx:472-474 | only the table changes, by an upsert, and it stays well formed |
| App.AppState.SelectRoutine | components/RoutineManager.tsx:390-392 | picking a routine of the table makes it current and changes nothing else |
| App.AppState.AddAndSelect | components/RoutineManager.tsx:168-169 | creating a routine stores it by an upsert and then makes it current, so the current id finds that very routine; nothing else changes |
| App.AppState.DeleteRoutine | App.tsx:476-490 | the table and current id become those of the deletion, and the current id still names a routine |
| App.AppState.ConfirmImport | App.tsx:298-309 | a pending routine is stored and made current and is no longer pending; without one nothing changes |
| App.AppState.SaveEvaluation | App.tsx:352-355 | only the evaluations change, by the save |
| App.AppState.AddGoal | App.tsx:468 | only the goals change, by appending |
| App.AppState.ToggleGoal | App.tsx:469 | only the goals change, by the toggle |
| App.AppState.DeleteGoal | App.tsx:470 | only the goals change, by the deletion |
| Dashboard.BlockStatusAsWritten | components/Dashboard.tsx:101-117 | the status as coded: active inside the window, completed only strictly after its end |
| Dashboard.StatusGapAtEnd | components/Dashboard.tsx:114-115 | at the very minute the next block starts, the status as coded reports the earlier block as upcoming |
| Dashboard.BlockStatus | components/Dashboard.tsx:101-117 | active exactly inside the block's window, and completed exactly once its end is reached |
| Dashboard.StatusByTime | components/Dashboard.tsx:101-117 | for ascending canonical times: upcoming before the start, active in the window, completed from the end |
| Dashboard.StatusMonotone | components/Dashboard.tsx:101-117 | as time goes on a block's status only moves forward from upcoming through active to completed |
| Dashboard.AtMostOneActive | components/Dashboard.tsx:120-135 | with ascending starts, at most one block is active at a time |
| Dashboard.FindActive | components/Dashboard.tsx:120-135 | `find` returns the first active block, and none only when no block is active |
| Dashboard.CurrentActivitySpec | components/Dashboard.tsx:120-135 | for ascending canonical times, there is no current activity exactly before the first block starts, and otherwise it is the unique active block |
| Dashboard.FirstUpcomingFrom | components/Dashboard.tsx:137-145 | `findIndex` gives the first block starting after now, or -1 when there is none |
| Dashboard.UpcomingSuffix | components/Dashboard.tsx:137-145 | for ascending starts, every block after the first upcoming one is upcoming too |
| Dashboard.Clamp | components/Dashboard.tsx:169 | the clamped value lies in 0..100 and equals its input when that does |
| Dashboard.Progress | components/Dashboard.tsx:157-170 | a defined progress lies in 0..100, and it is undefined (NaN) exactly for an unparsable start, an unparsable end (the next block's start), or a zero-length block at its start minute |
| Dashboard.ProgressMonotone | components/Dashboard.tsx:157-170 | progress never decreases over time, is 0 up to the start and 100 from the end |
| Dashboard.ProgressStats | components/Dashboard.tsx:70-91 | with no routine or no blocks, 0 of 0%; otherwise the count of blocks past their end and its rounded percentage, within 0..100 |
| Dashboard.CountCompleted | components/Dashboard.tsx:76-85 | the loop counts exactly the blocks strictly past their end |
| Dashboard.InsertByDate | components/Dashboard.tsx:41 | inserting keeps the list newest first and adds exactly that evaluation |
| Dashboard.SortNewestFirst | components/Dashboard.tsx:41 | the sorted copy is newest first and a permutation |
| Dashboard.Recent | components/Dashboard.tsx:41 | at most the fourteen newest are kept |
| Dashboard.RecentAreNewest | components/Dashboard.tsx:41 | the kept evaluations are newest first and none left out is newer than one kept |
| Dashboard.TotalPointsRange | components/Dashboard.tsx:43-54 | with ratings in 0..5, the points lie between 0 and 100 per evaluation |
| Dashboard.LifeScore | components/Dashboard.tsx:38-67 | no evaluations give score 50 and a flat trend; otherwise the rounded percentage of the points and the trend of the two newest ratings; ratings in 0..5 give a score in 0..100 |
| Dashboard.Grayscale | components/Dashboard.tsx:94-98 | the grey level is `100 - score` and never negative |
| Dashboard.GrayscaleComplement | components/Dashboard.tsx:94-98 | for a score in 0..100 the grey level is its complement, within 0..100 |
| Dashboard.Uncompleted | components/Dashboard.tsx:173 | exactly the goals not completed |
| Dashboard.UrgentGoals | components/Dashboard.tsx:173 | at most three goals, all uncompleted |
| Dashboard.UrgentGoalsAreFirst | components/Dashboard.tsx:173 | the radar shows the first three uncompleted goals in order, all of them when there are at most three |
| RoutineEditor.CountDone | components/RoutineManager.tsx:64-80 | at most as many blocks are done as were counted |
| RoutineEditor.CountDoneMonotone | components/RoutineManager.tsx:64-80 | later in the day no fewer blocks are done |
| RoutineEditor.CompletionEndAfterStart | components/RoutineManager.tsx:67-75 | the end of a block with a readable start lies after that start |
| RoutineEditor.CompletionProgress | components/RoutineManager.tsx:58-83 | 0 without a routine or blocks; otherwise the rounded percentage of blocks whose end is reached, within 0..100 |
| RoutineEditor.CountDoneBlocks | components/RoutineManager.tsx:64-80 | the loop counts exactly the done blocks |
| RoutineEditor.Apply | components/RoutineManager.tsx:88 | the changed field takes the new value and every other field and the id stay |
| RoutineEditor.ChangeBlockSpec | components/RoutineManager.tsx:86-94 | a change other than the time edits that block in place; a time change gives a sorted permutation of the edited list |
| RoutineEditor.AddBlockSpec | components/RoutineManager.tsx:117-131 | one block is added, the list is sorted, and a sorted list receives the new "12:00" block after every block not later than it |
| RoutineEditor.InsertSplits | components/RoutineManager.tsx:127-128 | inserting into a sorted list puts the block after those not later than it and before those later |
| RoutineEditor.RemoveBlock | components/RoutineManager.tsx:133-136 | an index in range drops exactly that block; any other index changes nothing |
| RoutineEditor.RemoveBlockTakesOne | components/RoutineManager.tsx:133-136 | the removed block together with the rest is the old list |
| RoutineEditor.AddSubtaskSpec | components/RoutineManager.tsx:96-109 | blank input is refused; otherwise one uncompleted subtask with the trimmed text is appended to that block, and nothing else changes |
| RoutineEditor.WithoutSubtask | components/RoutineManager.tsx:113 | the remaining subtasks are exactly those with another id |
| RoutineEditor.WithoutSubtaskAppend | components/RoutineManager.tsx:113 | the `filter` over two joined lists is the filter over each, joined, so the kept subtasks stay in order and each keeps its multiplicity |
| RoutineEditor.DeleteSubtaskSpec | components/RoutineManager.tsx:111-115 | only that block's subtasks change, losing exactly those with the given id; for any split of the old subtasks the new ones are the kept part of the front followed by the kept part of the back, so their order is kept |
| RoutineEditor.DeleteAddedSubtask | components/RoutineManager.tsx:106-113 | deleting a subtask just added under a fresh id gives the old list back |
| RoutineEditor.ShiftWholeRoutineBack | components/RoutineManager.tsx:138-151 | shifting there and back by a whole-day total keeps the routine's fields and blocks, and gives the same routine for ascending canonical times |
| RoutineEditor.EditorShiftIsAppShift | components/RoutineManager.tsx:138-151 | the editor's shift has the same effect on the table as the app shell's schedule shift |
| RoutineEditor.CreateRoutineSpec | components/RoutineManager.tsx:153-170 | a routine is made exactly for a name that is not all whitespace, with the untrimmed name, the default description only for an empty one, and three starter blocks in strictly ascending time: a personal 07:00 block with its alarm on, a work 09:00 block with its alarm off, and a sacred 13:00 block with its alarm on that does not lock |
| RoutineEditor.StarterBlocksSorted | components/RoutineManager.tsx:159-165 | the starter blocks sit at 07:00, 09:00 and 13:00 in strictly ascending order and have the given ids, kinds, activities and alarm settings |
| Evaluation.InteractionLevels | components/EvaluationSystem.tsx:33-43 | the level is good, a warning or danger exactly by the elapsed days thresholds; no interaction shows "Nunca" and otherwise the whole days elapsed |
| Evaluation.SubmitSpec | components/EvaluationSystem.tsx:101-120 | a submission is refused exactly without a plan, a mood or a rating, and otherwise records today's answers as given |
| Evaluation.FindByDate | components/EvaluationSystem.tsx:28-30 | a found evaluation is in the list with that date, and none is found exactly when no evaluation has that date |
| Evaluation.FindByDateIsFirst | components/EvaluationSystem.tsx:28-30 | `find` returns the first evaluation of that date |
| Evaluation.SavedIsFound | components/EvaluationSystem.tsx:28-30 | after saving, today's evaluation is the one found and the day counts as evaluated |
| Evaluation.CalendarDays | components/EvaluationSystem.tsx:87-99 | 28 days ending today, in order, each with the evaluation found for its date |
| Pomodoro.Duration | components/FocusTimer.tsx:15-27 | 25 minutes for focus, 5 for a break |
| Pomodoro.Other | components/FocusTimer.tsx:15-27 | the other mode differs from the current one |
| Pomodoro.Next | components/FocusTimer.tsx:9-29 | a running timer counts down one second; at zero it stops and switches mode with that mode's full time; a paused one stays |
| Pomodoro.Toggle | components/FocusTimer.tsx:31 | only the running flag flips |
| Pomodoro.Reset | components/FocusTimer.tsx:33-36 | the timer stops with the full time of its current mode |
| Pomodoro.BoundedInvariant | components/FocusTimer.tsx:5-36 | every step keeps the remaining time within the mode's duration |
| Pomodoro.CountdownCompletes | components/FocusTimer.tsx:9-29 | a running timer reaches zero after as many seconds as it had left, and then switches mode |
| Pomodoro.FocusThenBreak | components/FocusTimer.tsx:5-29 | a started focus session ends after 1500 seconds in a paused five-minute break |
| Pomodoro.FormatTime | components/FocusTimer.tsx:38-42 | the display is five characters exactly below one hundred minutes |
| Pomodoro.FormatTimeReadsBack | components/FocusTimer.tsx:38-42 | the display reads back as minutes and seconds of the remaining time |
| Pomodoro.FocusTimer.constructor | components/FocusTimer.tsx:5-7 | the timer opens paused in focus mode with 25 minutes |
| Pomodoro.FocusTimer.Tick | components/FocusTimer.tsx:9-29 | a second passing updates the fields as the step function says and keeps them bounded |
| Pomodoro.FocusTimer.ToggleTimer | components/FocusTimer.tsx:31 | play or pause flips the running flag |
| Pomodoro.FocusTimer.ResetTimer | components/FocusTimer.tsx:33-36 | reset stops the timer with its mode's full time |
| Pomodoro.FocusTimer.Display | components/FocusTimer.tsx:38-42 | the display of the fields is five characters and reads back as the remaining time |
| SettingsRules.SetVitaminDTime | components/Settings.tsx:26-28 | only the reminder time changes, to the value entered |
| SettingsRules.ToggleVitaminD | components/Settings.tsx:30-32 | only the reminder flag changes, and it flips |
| SettingsRules.ToggleTwice | components/Settings.tsx:30-32 | toggling twice gives the settings back |
| SettingsRules.SetMedia | components/Settings.tsx:49 | the field takes the value and every other setting stays |
| SettingsRules.SizeLimit | components/Settings.tsx:39 | 2 MiB for the alarm sound, 5 MiB for the pictures |
| SettingsRules.UploadSpec | components/Settings.tsx:34-56 | a file is refused exactly above its field's limit; a stored one changes only its field, and resetting that field undoes it |
| SettingsRules.ChangePasswordSpec | components/Settings.tsx:95-119 | a short password is reported first, then a mismatch; a good one with a stored user is saved and the inputs cleared; without a stored user nothing changes |
| SettingsRules.AvatarPrompt | components/Settings.tsx:62-63 | the fixed transform prompt with a photo, else the typed prompt, else the default; never empty |
| SettingsRules.AfterGenerateSpec | components/Settings.tsx:67-69 | a returned image becomes the mentor avatar and clears the prompt; no image changes nothing |
| GoalPlanner.NewGoalSpec | components/GoalPlanner.tsx:124-133 | a goal is made exactly for text that is not all whitespace, uncompleted, with the untrimmed text and selected period, and goes last |
| GoalPlanner.PeriodGoals | components/GoalPlanner.tsx:87 | a section holds exactly the goals of its period |
| GoalPlanner.SectionsPartition | components/GoalPlanner.tsx:87 | the four sections show every goal exactly once between them |
| GoalPlanner.PeriodGoalsAppend | components/GoalPlanner.tsx:87 | a section keeps the goals in their order |
| GoalPlanner.NewGoalSection | components/GoalPlanner.tsx:124-133 | a new goal appears at the end of its own section and no other section changes |
| Retrospective.SaveSpec | components/AgileCoach.tsx:12-28 | a save is refused exactly when both of the first two fields are empty; otherwise one entry with the fields as typed goes first and the fields clear |
| Retrospective.SaveTwiceIsOnce | components/AgileCoach.tsx:12-28 | saving again right after a save changes nothing |
| Retrospective.AgileCoach.constructor | components/AgileCoach.tsx:6-10 | the coach opens with no entries and empty fields |
| Retrospective.AgileCoach.HandleSave | components/AgileCoach.tsx:12-28 | the fields change as the save says |
| Retrospective.AgileCoach.ClearSaved | components/AgileCoach.tsx:23-27 | the timer clears only the saved flag |
| Entry.MountSpec | components/SplashScreen.tsx:19-35 | the screen switches to login exactly for a stored user with a name and a password, and loads both |
| Entry.RegisterSpec | components/SplashScreen.tsx:37-51 | registering fails with the message exactly for an all-whitespace name or password, and otherwise authenticates a new user by the name as typed |
| Entry.LoginSpec | components/SplashScreen.tsx:53-64 | login succeeds exactly with the stored password, as a returning user; an empty password never logs in |
| Entry.ConsistentInvariant | components/SplashScreen.tsx:19-176 | every event keeps login mode tied to a stored password |
| Entry.SplashScreen.constructor | components/SplashScreen.tsx:10-16 | the screen opens in register mode with empty fields |
| Entry.SplashScreen.OnMount | components/SplashScreen.tsx:19-35 | the fields change as mounting says |
| Entry.SplashScreen.HandleRegister | components/SplashScreen.tsx:37-51 | the fields and the authentication are those of registering |
| Entry.SplashScreen.HandleLogin | components/SplashScreen.tsx:53-64 | the fields and the authentication are those of logging in |
| Entry.SplashScreen.OnPasswordChange | components/SplashScreen.tsx:127-130 | typing a password clears the error |
| Entry.SplashScreen.OnChangeAccount | components/SplashScreen.tsx:170-176 | back to register mode with the name and both passwords cleared |
| Onboarding.Finish | components/OnboardingWizard.tsx:34-43 | the payload carries the three answers unchanged and no avatar |
| Onboarding.NextSpec | components/OnboardingWizard.tsx:23-31 | a click is refused exactly on step 1 with an all-whitespace name and on step 2 with an all-whitespace goal; otherwise it starts the animation and schedules one step change, whose timer then raises the step by one and ends the animation |
| Onboarding.StepsStayDrawable | components/OnboardingWizard.tsx:23-137 | when each click's timer runs before the next click, the wizard opens on step 1 with the morning routine, stays on a drawable step, and leaves step 1 only with a name and step 2 only with a goal |
| Onboarding.DoubleClickSkipsGoal | components/OnboardingWizard.tsx:23-31 | with a name and no goal on step 1, two clicks before the first timer runs schedule two step changes, which leave the wizard on step 3 with a blank goal |
| Onboarding.DoubleClickPastLast | components/OnboardingWizard.tsx:23-137 | on step 2 with a goal, two clicks before the first timer runs take the wizard to a step it does not draw |
| Onboarding.GuardedInvariant | components/OnboardingWizard.tsx:23-137 | if clicks were ignored while the animation runs, at most one step change would be pending, every step reached would be drawable, and a click would schedule a change only past the step's own check |
| Onboarding.OnboardingWizard.constructor | components/OnboardingWizard.tsx:17-20 | the wizard opens on step 1 with the morning routine |
| Onboarding.OnboardingWizard.HandleNext | components/OnboardingWizard.tsx:23-31 | the fields change as a click says: nothing when refused, otherwise the animation starts and one more step change is pending |
| Onboarding.OnboardingWizard.TimerFires | components/OnboardingWizard.tsx:27-30 | a pending step change raises the step by one and ends the animation |
| Onboarding.OnboardingWizard.SetName | components/OnboardingWizard.tsx:17-20 | only the name changes |
| Onboarding.OnboardingWizard.SetMainGoal | components/OnboardingWizard.tsx:17-20 | only the goal changes |
| Onboarding.OnboardingWizard.SetRoutinePref | components/OnboardingWizard.tsx:107-118 | only the routine preference changes, to the button chosen |
| Onboarding.OnboardingWizard.HandleFinish | components/OnboardingWizard.tsx:34-43 | the payload is the three answers as they stand, and only the animation flag changes |
| Onboarding.PickPreset | components/SimpleOnboarding.tsx:18-24 | picking a preset sets only the goal, to that preset |
| Onboarding.SubmitSpec | components/SimpleOnboarding.tsx:46-54 | the form submits exactly with a name and a goal that are not all whitespace and the terms accepted, handing on the fields as they stand; a fresh form does not submit |
| Onboarding.PresetGoalsPass | components/SimpleOnboarding.tsx:18-24 | a preset goal always passes the goal check |

## Left out

- Storage: reading and writing `localStorage`, and serialising with JSON, are left out. The state
  types hold the parsed values. The entry screen's branch for a corrupt stored user is not
  modelled, and neither is the settings screen's "Error al guardar." branch.
- Effects: browser notifications, audio playback, `alert`, toasts and `setInterval`/`setTimeout`
  are left out.
  - Each check event carries its toast text and a sound flag instead.
  - The notification permission is a parameter.
  - The timers become explicit calls (`Tick`, `ClearSaved`).
- AI and sharing: calls to the AI service (tips, chat, live voice, image generation) and share
  links are left out. A generated image is a parameter.
- Random values: random ids (`Math.random`) and clock-derived ids are parameters.
- Clock: the clock is a parameter.
  - For the periodic check, it is the minute of the day and the day key text.
  - For evaluations, the date is a day number.
  - For the interaction status, it is milliseconds.
  - The calendar's day-of-month label is not modelled.
  - `Date` behaviour across daylight-saving changes is not modelled.
- Numbers:
  - A block's progress is an exact rational number (`real`).
  - The rounded percentages apply `Math.round` to the exact quotient of two integers.
  - Binary floating-point rounding is not modelled.
  - `Number` and `parseInt` are modelled on decimal digits, an optional sign and surrounding
    whitespace.
  - `Number` gives NaN for fractions, exponents, hex and `Infinity`, where JavaScript gives their
    values.
  - `parseInt` keeps the leading digits, so "1.5" and "1e3" read as 1, as in JavaScript. "0x10"
    reads as 0, where JavaScript gives 16.
- Text:
  - Strings are sequences of code points, so `length` is in code points, not UTF-16 code units.
  - `localeCompare` is modelled as code-point order. This agrees with it on canonical `HH:MM` texts
    and on "NaN:NaN", which is what a shift writes.
  - Other time texts can sort differently. Such texts come from an import or from a typed time, as
    in "1:00" against "10:00": the locale collation ranks ':' before the digits.
- Object key order: the routine table keeps its keys in insertion order. This is how JavaScript
  orders keys that are not array indices.
- Arrays: sorting a copy (`[...blocks].sort`) is modelled on sequences. The copy is never aliased.
- RoutineEditor.ChangeBlock: requires an index within the list. The editor only calls it (and
  `AddSubtask` and `DeleteSubtask`) with the index of a block it is showing.
- Onboarding.OnboardingWizard.HandleNext: the 300 ms timer is an explicit call, `TimerFires`. The
  model lets clicks and timers interleave in any order, as the screen's buttons allow.
- Onboarding.StepsStayDrawable: stated only for a click whose timer runs before the next click.
  Two quick clicks break it, as `Onboarding.DoubleClickSkipsGoal` and
  `Onboarding.DoubleClickPastLast` show.
- Other screens: `handleOnboardingComplete`, the splash-to-app hand-over and tab switching in the
  app shell are not modelled. Chat, meditation, workout and live assistant screens are not part
  of this model.
- Timeline.SortByTime: the sort is specified as stable insertion by time text. The comparator's
  ties are equal texts, so the stability is stated only for a block placed after equal times
  (`Timeline.InsertLast`).

## Findings

| source | as written | input that shows it | evidently intended | confidence | as-written member | corrected member |
|---|---|---|---|---|---|---|
| components/Dashboard.tsx:115 | a block counts as completed only when `nowMinutes > blockEnd` | blocks at 07:00 and 08:00, now 08:00: the first block is neither active (its window is 07:00 up to 08:00) nor past its end, so it shows as upcoming | completed once the end is reached (`>=`), as the routine editor's progress does with `currentMinutes >= end` | not executed | Dashboard.BlockStatusAsWritten, Dashboard.StatusGapAtEnd | Dashboard.BlockStatus, Dashboard.StatusByTime, Dashboard.StatusMonotone |
| components/OnboardingWizard.tsx:23-31 | `handleNext` checks the step on screen, but the step rises only in a timer 300 ms later, and the buttons stay enabled meanwhile | name "Ana" and no goal on step 1, two clicks within 300 ms: the wizard lands on step 3 with a blank goal; on step 2 with a goal, two quick clicks reach step 4, which draws nothing | a click is ignored while `isAnimating` holds | not executed | Onboarding.Click, Onboarding.DoubleClickSkipsGoal, Onboarding.DoubleClickPastLast | Onboarding.GuardedClick, Onboarding.GuardedInvariant |

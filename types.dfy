/** The records the application stores: time blocks, routines, goals, evaluations and settings. */
module Types {
  import opened Wrappers

  /** What a block is for; it decides whether the block can warn or lock. */
  datatype BlockKind = Work | Sacred | Personal | Break

  datatype Subtask = Subtask(id: string, text: string, completed: bool)

  /** One scheduled activity. `time` is the `HH:MM` text the user entered; the optional fields may be absent. */
  datatype TimeBlock = TimeBlock(
    id: string,
    time: string,
    activity: string,
    kind: BlockKind,
    customColor: Option<string>,
    location: Option<string>,
    audioUrl: Option<string>,
    aiSuggestion: Option<string>,
    alarmEnabled: Option<bool>,
    enforceLock: Option<bool>,
    subtasks: Option<seq<Subtask>>)

  /** A named day schedule; its blocks are kept in order of their time text. */
  datatype Routine = Routine(id: string, name: string, description: string, blocks: seq<TimeBlock>)

  /** 'diario' | 'semanal' | 'mensual' | 'anual'. */
  datatype GoalPeriod = Daily | Weekly | Monthly | Yearly

  datatype Goal = Goal(id: string, text: string, period: GoalPeriod, completed: bool, category: Option<string>)

  datatype RetroEntry = RetroEntry(date: string, wentWell: string, toImprove: string, actionItem: string)

  datatype PlanCompletion = Yes | Partial | No

  datatype Mood = Great | Good | Neutral | Bad | Terrible

  /** A calendar day, numbered so that later days are larger; it stands for the `YYYY-MM-DD` text. */
  type Day = int

  /** The check-in of one day. */
  datatype DailyEvaluation = DailyEvaluation(
    date: Day,
    rating: int,
    planCompletion: PlanCompletion,
    moodEmoji: Mood,
    energyLevel: int,
    audioNote: Option<string>,
    textNote: Option<string>,
    interactionScore: int)

  datatype Theme = Light | Dark

  datatype Accent = Teal | Indigo | Rose | Amber

  datatype AppSettings = AppSettings(
    vitaminDTime: string,
    vitaminDEnabled: bool,
    theme: Option<Theme>,
    accentColor: Option<Accent>,
    appVolume: Option<real>,
    customAlarmUrl: Option<string>,
    userAvatar: Option<string>,
    mentorAvatar: Option<string>,
    lastInteractionTimestamp: Option<int>)

  /** JavaScript truthiness of an optional string: present and not empty. */
  predicate Truthy(s: Option<string>) {
    s.Some? && s.value != ""
  }

  /** The identifiers of the built-in routines (the `RoutineType` values). */
  const MorningProductive: string := "Mañana Productiva"
  const AfternoonFocus: string := "Tarde de Foco"
  const SplitShift: string := "Jornada Partida"
  const Custom: string := "Personalizada"
  const PdfImported: string := "Agenda Personal (Importada PDF)"
  const ElCambio: string := "El Cambio"
}

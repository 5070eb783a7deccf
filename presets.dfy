/**
 * The five built-in routines, in the key order of the preset table. Block ids there are drawn at
 * random when the module loads; here they are fixed distinct placeholders.
 */
module Presets {
  import opened Wrappers
  import opened JsText
  import opened JsNumber
  import opened Clock
  import opened Types
  import opened Timeline

  // The texts of the presets, named so that the block lists below stay short.
  const MorningName := "Mañana Productiva (Madrugador)"
  const MorningDescription := "Ideal para quienes tienen más energía al inicio del día."
  const AfternoonName := "Tarde de Foco (Noctámbulo)"
  const AfternoonDescription := "Para quienes prefieren mañanas lentas y tardes intensas."
  const SplitName := "Jornada Partida"
  const SplitDescription := "Equilibrio distribuido durante todo el día."
  const ImportedName := "Agenda Personal (Importada PDF)"
  const ImportedDescription := "Rutina importada de tus tareas: Enfoque, Meditación y Control Consciente."
  const ChangeName := "El Cambio"
  const ChangeDescription := "Tu rutina de transformación personal y disciplina."

  const Focus1Of4 := "MODO FOCO IA (Bloque 1/4)"
  const Focus2Of4 := "MODO FOCO IA (Bloque 2/4)"
  const Focus3Of4 := "MODO FOCO IA (Bloque 3/4)"
  const Focus4Of4 := "MODO FOCO IA (Bloque 4/4)"
  const Focus1Of2 := "MODO FOCO IA (Bloque 1/2)"
  const Focus2Of2 := "MODO FOCO IA (Bloque 2/2)"

  const WakeAndCare := "Despertar y Cuidado Personal"
  const FamilyBreakfast := "Desayuno Familiar (Sin pantallas)"
  const ActiveMicroBreak := "Micro-Descanso Activo"
  const MorningClose := "CIERRE DE MAÑANA"
  const LunchAndRelax := "Almuerzo y Relax"
  const WorkdayClose := "CIERRE DE JORNADA"
  const QuietEvenings := "Noches Tranquilas"

  const WakeAndFamily := "Despertar y Tiempo Familiar"
  const Housework := "Tareas del Hogar"
  const LightMail := "Correos / Pendientes Ligeros"
  const FamilyLunch := "Almuerzo Familiar"
  const Siesta := "Tiempo de Sombra / Siesta"
  const MicroBreak := "Micro-Descanso"
  const CloseAndDinner := "Cierre y Cena"

  const WakeAndExercise := "Despertar y Ejercicio"
  const CloseAndLunch := "Cierre y Almuerzo"
  const SacredFamilyBlock := "BLOQUE SAGRADO FAMILIAR"
  const DayClose := "Cierre de Jornada"
  const CoupleTime := "Tiempo en Pareja"

  const MorningRitual := "Despertar y Ritual de Mañana - ¡Foco!"
  const Meditation := "Meditación: Inducción y Diseño de Futuro"
  const MeditationSpace := "Espacio de Meditación"
  const ConsciousCheck := "Control Consciente: ¿Viejo yo o Nuevo yo? (Pausa 3 seg)"
  const ComingHome := "Transición: Llegada a Casa / No Consumo. ¡Ducha!"
  const StudyHour := "Bloque de Estudio Personal/IA (1 Hora)"
  const ScreensOff := "Cierre de Pantallas / Prep. para Dormir"
  const NightReflection := "Reflexión Nocturna"
  const NightReflectionPatterns := "Reflexión Nocturna (Patrones y Nuevo Yo)"

  /** A preset block: every one has its alarm on; only some say whether they lock. */
  function PresetBlock(id: string, time: string, activity: string, kind: BlockKind,
                       location: Option<string>, enforceLock: Option<bool>): TimeBlock
  {
    TimeBlock(id, time, activity, kind, None, location, None, None, Some(true), enforceLock, None)
  }

  function MorningBlocks(): seq<TimeBlock> {
    [ PresetBlock("m1", "07:00", WakeAndCare, Personal, None, None),
      PresetBlock("m2", "07:30", FamilyBreakfast, Sacred, None, Some(true)),
      PresetBlock("m3", "08:30", Focus1Of4, Work, None, None),
      PresetBlock("m4", "10:00", ActiveMicroBreak, Break, None, None),
      PresetBlock("m5", "10:15", Focus2Of4, Work, None, None),
      PresetBlock("m6", "12:00", MorningClose, Work, None, None),
      PresetBlock("m7", "13:00", LunchAndRelax, Sacred, None, Some(true)),
      PresetBlock("m8", "14:30", Focus3Of4, Work, None, None),
      PresetBlock("m9", "17:00", Focus4Of4, Work, None, None),
      PresetBlock("m10", "18:00", WorkdayClose, Personal, None, None),
      PresetBlock("m11", "20:30", QuietEvenings, Sacred, None, None) ]
  }

  function AfternoonBlocks(): seq<TimeBlock> {
    [ PresetBlock("a1", "08:00", WakeAndFamily, Sacred, None, Some(false)),
      PresetBlock("a2", "09:00", Housework, Personal, None, None),
      PresetBlock("a3", "10:30", LightMail, Work, None, None),
      PresetBlock("a4", "12:00", FamilyLunch, Sacred, None, Some(true)),
      PresetBlock("a5", "13:30", Siesta, Personal, None, None),
      PresetBlock("a6", "15:00", Focus1Of2, Work, None, None),
      PresetBlock("a7", "17:30", MicroBreak, Break, None, None),
      PresetBlock("a8", "18:00", Focus2Of2, Work, None, None),
      PresetBlock("a9", "20:00", CloseAndDinner, Sacred, None, Some(true)) ]
  }

  function SplitBlocks(): seq<TimeBlock> {
    [ PresetBlock("s1", "07:00", WakeAndExercise, Personal, None, None),
      PresetBlock("s2", "08:30", Focus1Of2, Work, None, None),
      PresetBlock("s3", "12:00", CloseAndLunch, Personal, None, None),
      PresetBlock("s4", "13:00", SacredFamilyBlock, Sacred, None, Some(true)),
      PresetBlock("s5", "16:00", Focus3Of4, Work, None, None),
      PresetBlock("s6", "19:00", DayClose, Personal, None, None),
      PresetBlock("s7", "20:00", CoupleTime, Sacred, None, Some(true)) ]
  }

  /** The imported agenda and "El Cambio" share their blocks except for the last activity's text. */
  function ChangeBlocks(prefix: string, lastActivity: string): seq<TimeBlock> {
    [ PresetBlock(prefix + "1", "05:30", MorningRitual, Personal, None, None),
      PresetBlock(prefix + "2", "07:30", Meditation, Sacred, Some(MeditationSpace), Some(true)),
      PresetBlock(prefix + "3", "14:00", ConsciousCheck, Break, None, None),
      PresetBlock(prefix + "4", "17:45", ComingHome, Personal, None, None),
      PresetBlock(prefix + "5", "18:15", StudyHour, Work, None, None),
      PresetBlock(prefix + "6", "21:15", ScreensOff, Sacred, None, Some(true)),
      PresetBlock(prefix + "7", "23:00", lastActivity, Personal, None, None) ]
  }

  /** The preset routines, in the order their keys are listed. */
  function PresetRoutines(): (rs: seq<Routine>)
    ensures |rs| == 5
    ensures rs[0].id == MorningProductive && rs[1].id == AfternoonFocus && rs[2].id == SplitShift
      && rs[3].id == PdfImported && rs[4].id == ElCambio
  {
    [ Routine(MorningProductive, MorningName, MorningDescription, MorningBlocks()),
      Routine(AfternoonFocus, AfternoonName, AfternoonDescription, AfternoonBlocks()),
      Routine(SplitShift, SplitName, SplitDescription, SplitBlocks()),
      Routine(PdfImported, ImportedName, ImportedDescription, ChangeBlocks("p", NightReflection)),
      Routine(ElCambio, ChangeName, ChangeDescription, ChangeBlocks("c", NightReflectionPatterns)) ]
  }

  /** Every preset lists its blocks in strictly ascending time. */
  lemma PresetsAreSorted()
    ensures forall k :: 0 <= k < |PresetRoutines()| ==> StrictlySortedByTime(PresetRoutines()[k].blocks)
  {
    MorningChained();
    AfternoonChained();
    SplitChained();
    ChangeChained("p", NightReflection);
    ChangeChained("c", NightReflectionPatterns);
    var rs := PresetRoutines();
    forall k | 0 <= k < |rs|
      ensures StrictlySortedByTime(rs[k].blocks)
    {
      ChainedIsStrictlySorted(rs[k].blocks);
    }
  }

  lemma MorningChained()
    ensures ChainedByTime(MorningBlocks())
  {
    var bs := MorningBlocks();
    assert bs[0].time == "07:00";
    assert bs[1].time == "07:30";
    assert bs[2].time == "08:30";
    assert bs[3].time == "10:00";
    assert bs[4].time == "10:15";
    assert bs[5].time == "12:00";
    assert bs[6].time == "13:00";
    assert bs[7].time == "14:30";
    assert bs[8].time == "17:00";
    assert bs[9].time == "18:00";
    assert bs[10].time == "20:30";
    assert LexLess("07:00", "07:30");
    assert LexLess("07:30", "08:30");
    assert LexLess("08:30", "10:00");
    assert LexLess("10:00", "10:15");
    assert LexLess("10:15", "12:00");
    assert LexLess("12:00", "13:00");
    assert LexLess("13:00", "14:30");
    assert LexLess("14:30", "17:00");
    assert LexLess("17:00", "18:00");
    assert LexLess("18:00", "20:30");
  }

  lemma AfternoonChained()
    ensures ChainedByTime(AfternoonBlocks())
  {
    var bs := AfternoonBlocks();
    assert bs[0].time == "08:00";
    assert bs[1].time == "09:00";
    assert bs[2].time == "10:30";
    assert bs[3].time == "12:00";
    assert bs[4].time == "13:30";
    assert bs[5].time == "15:00";
    assert bs[6].time == "17:30";
    assert bs[7].time == "18:00";
    assert bs[8].time == "20:00";
    assert LexLess("08:00", "09:00");
    assert LexLess("09:00", "10:30");
    assert LexLess("10:30", "12:00");
    assert LexLess("12:00", "13:30");
    assert LexLess("13:30", "15:00");
    assert LexLess("15:00", "17:30");
    assert LexLess("17:30", "18:00");
    assert LexLess("18:00", "20:00");
  }

  lemma SplitChained()
    ensures ChainedByTime(SplitBlocks())
  {
    var bs := SplitBlocks();
    assert bs[0].time == "07:00";
    assert bs[1].time == "08:30";
    assert bs[2].time == "12:00";
    assert bs[3].time == "13:00";
    assert bs[4].time == "16:00";
    assert bs[5].time == "19:00";
    assert bs[6].time == "20:00";
    assert LexLess("07:00", "08:30");
    assert LexLess("08:30", "12:00");
    assert LexLess("12:00", "13:00");
    assert LexLess("13:00", "16:00");
    assert LexLess("16:00", "19:00");
    assert LexLess("19:00", "20:00");
  }

  lemma ChangeChained(prefix: string, lastActivity: string)
    ensures ChainedByTime(ChangeBlocks(prefix, lastActivity))
  {
    var bs := ChangeBlocks(prefix, lastActivity);
    assert bs[0].time == "05:30";
    assert bs[1].time == "07:30";
    assert bs[2].time == "14:00";
    assert bs[3].time == "17:45";
    assert bs[4].time == "18:15";
    assert bs[5].time == "21:15";
    assert bs[6].time == "23:00";
    assert LexLess("05:30", "07:30");
    assert LexLess("07:30", "14:00");
    assert LexLess("14:00", "17:45");
    assert LexLess("17:45", "18:15");
    assert LexLess("18:15", "21:15");
    assert LexLess("21:15", "23:00");
  }
}

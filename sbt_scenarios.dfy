/**
 * Worked cases of the eligibility rule, on 15 July 2025. Each lemma fixes
 * what timestamp parsing and `float` give for the texts it uses and states
 * whether the patient is eligible.
 */
module SbtScenarios {
  import opened Wrappers
  import opened JsonValues
  import opened SbtChecker

  /** 2025-07-15 as days since 1970-01-01. */
  const July15: Day := 20284

  const At0500: string := "2025-07-15T05:00:00"
  const At0600: string := "2025-07-15T06:00:00"
  const At0700: string := "2025-07-15T07:00:00"
  /** The evening before, 23:00 on 14 July 2025. */
  const Eve2300: string := "2025-07-14T23:00:00"

  /** What `fromisoformat` yields for the three texts above. */
  predicate ParsesHours(parseStamp: StampParser) {
    && parseStamp(At0500) == Some(Midnight(July15) + 5 * MicrosPerHour)
    && parseStamp(At0600) == Some(Midnight(July15) + 6 * MicrosPerHour)
    && parseStamp(At0700) == Some(Midnight(July15) + 7 * MicrosPerHour)
  }

  function Bed(meds: seq<Medication>, vitals: seq<Vital>): Patient {
    Patient(Some("CP1"), Some("Asha"), Some("Rao"), Some("City"), Some("ICU"), Some("4"), meds, vitals)
  }

  function Ventilation(at: string, fio2: Json, peep: Json): Vital {
    map["timestamp" := JStr(at), "daysFiO2" := fio2, "daysVentPEEP" := peep]
  }

  function Breathing(at: string, hr: Json): Vital {
    map["timestamp" := JStr(at), "daysVentBreathSequence" := JStr("csv"), "daysHR" := hr]
  }

  /** One vital with FiO2 50 and PEEP 5, no medications: eligible. */
  lemma ScenarioLowSettings(parseStamp: StampParser, parseNumber: NumberParser)
    requires ParsesHours(parseStamp)
    ensures Eligible(Bed([], [Ventilation(At0600, JNum(50.0), JNum(5.0))]), July15, parseStamp, parseNumber)
  {
    var vitals := [Ventilation(At0600, JNum(50.0), JNum(5.0))];
    assert IsLatest(vitals, 0, parseStamp);
  }

  /** The same with "IV Noradrenaline" active: the case-insensitive substring
      test finds it, so not eligible. */
  lemma ScenarioNoradrenaline(parseStamp: StampParser, parseNumber: NumberParser)
    requires ParsesHours(parseStamp)
    ensures !Eligible(Bed([Medication(Some("IV Noradrenaline"))], [Ventilation(At0600, JNum(50.0), JNum(5.0))]),
                      July15, parseStamp, parseNumber)
  {
    var m := Medication(Some("IV Noradrenaline"));
    assert LoweredName(m) == "iv noradrenaline";
    assert Strings.OccursAt(Noradrenaline, LoweredName(m), 3);
    assert OnNoradrenaline([m][0]);
  }

  /** A "csv" vital at 07:00 with heart rate 100: not eligible. (It is also
      the latest vital, and it has no FiO2.) */
  lemma ScenarioCsvLowHeartRate(parseStamp: StampParser, parseNumber: NumberParser)
    requires ParsesHours(parseStamp)
    ensures !Eligible(Bed([], [Ventilation(At0600, JNum(50.0), JNum(5.0)), Breathing(At0700, JNum(100.0))]),
                      July15, parseStamp, parseNumber)
  {
    var vitals := [Ventilation(At0600, JNum(50.0), JNum(5.0)), Breathing(At0700, JNum(100.0))];
    assert Unstable(vitals[1], Midnight(July15), parseStamp, parseNumber);
  }

  /** The same with heart rate 130: condition 3 holds, yet the 07:00 vital is
      the latest one and carries no FiO2, so condition 1 fails: not eligible. */
  lemma ScenarioCsvHighHeartRate(parseStamp: StampParser, parseNumber: NumberParser)
    requires ParsesHours(parseStamp)
    ensures var vitals := [Ventilation(At0600, JNum(50.0), JNum(5.0)), Breathing(At0700, JNum(130.0))];
            && StabilityGate(vitals, Midnight(July15), parseStamp, parseNumber)
            && !Eligible(Bed([], vitals), July15, parseStamp, parseNumber)
  {
    var vitals := [Ventilation(At0600, JNum(50.0), JNum(5.0)), Breathing(At0700, JNum(130.0))];
    assert IsLatest(vitals, 1, parseStamp);
    LatestVitalDecides(vitals, 1, parseStamp, parseNumber);
  }

  /** A "csv" vital with heart rate 130 before the latest one: eligible. */
  lemma ScenarioEarlierCsvHighHeartRate(parseStamp: StampParser, parseNumber: NumberParser)
    requires ParsesHours(parseStamp)
    ensures Eligible(Bed([], [Breathing(At0500, JNum(130.0)), Ventilation(At0600, JNum(50.0), JNum(5.0))]),
                     July15, parseStamp, parseNumber)
  {
    var vitals := [Breathing(At0500, JNum(130.0)), Ventilation(At0600, JNum(50.0), JNum(5.0))];
    assert IsLatest(vitals, 1, parseStamp);
  }

  /** FiO2 given as the text "70" coerces to 70, which is not below 60. */
  lemma ScenarioFiO2Text(parseStamp: StampParser, parseNumber: NumberParser)
    requires ParsesHours(parseStamp) && parseNumber("70") == Some(70.0)
    ensures !Eligible(Bed([], [Ventilation(At0600, JStr("70"), JNum(5.0))]), July15, parseStamp, parseNumber)
  {
    var vitals := [Ventilation(At0600, JStr("70"), JNum(5.0))];
    assert IsLatest(vitals, 0, parseStamp);
    LatestVitalDecides(vitals, 0, parseStamp, parseNumber);
  }

  /** FiO2 exactly 60 fails the strict comparison. */
  lemma ScenarioFiO2AtLimit(parseStamp: StampParser, parseNumber: NumberParser)
    requires ParsesHours(parseStamp)
    ensures !Eligible(Bed([], [Ventilation(At0600, JNum(60.0), JNum(5.0))]), July15, parseStamp, parseNumber)
  {
    var vitals := [Ventilation(At0600, JNum(60.0), JNum(5.0))];
    assert IsLatest(vitals, 0, parseStamp);
    LatestVitalDecides(vitals, 0, parseStamp, parseNumber);
  }

  /** Two vitals with the same timestamp: the first one is the latest, and a
      high FiO2 on the second does not matter. */
  lemma ScenarioTieKeepsFirst(parseStamp: StampParser, parseNumber: NumberParser)
    requires ParsesHours(parseStamp)
    ensures Eligible(Bed([], [Ventilation(At0600, JNum(50.0), JNum(5.0)), Ventilation(At0600, JNum(80.0), JNum(5.0))]),
                     July15, parseStamp, parseNumber)
  {
    var vitals := [Ventilation(At0600, JNum(50.0), JNum(5.0)), Ventilation(At0600, JNum(80.0), JNum(5.0))];
    assert IsLatest(vitals, 0, parseStamp);
  }

  /** A "csv" vital at 05:00 with heart rate 100, older than the ventilation
      vital: condition 1 holds, and condition 3 alone rejects. */
  lemma ScenarioEarlierCsvLowHeartRate(parseStamp: StampParser, parseNumber: NumberParser)
    requires ParsesHours(parseStamp)
    ensures var vitals := [Breathing(At0500, JNum(100.0)), Ventilation(At0600, JNum(50.0), JNum(5.0))];
            && LatestVitalGate(vitals, parseStamp, parseNumber)
            && !Eligible(Bed([], vitals), July15, parseStamp, parseNumber)
  {
    var vitals := [Breathing(At0500, JNum(100.0)), Ventilation(At0600, JNum(50.0), JNum(5.0))];
    assert IsLatest(vitals, 1, parseStamp);
    assert Unstable(vitals[0], Midnight(July15), parseStamp, parseNumber);
  }

  /** A "csv" vital with heart rate 100 stamped the evening before lies
      outside the window that starts at midnight: eligible. */
  lemma ScenarioCsvBeforeMidnight(parseStamp: StampParser, parseNumber: NumberParser)
    requires ParsesHours(parseStamp) && parseStamp(Eve2300) == Some(Midnight(July15) - MicrosPerHour)
    ensures Eligible(Bed([], [Breathing(Eve2300, JNum(100.0)), Ventilation(At0600, JNum(50.0), JNum(5.0))]),
                     July15, parseStamp, parseNumber)
  {
    var vitals := [Breathing(Eve2300, JNum(100.0)), Ventilation(At0600, JNum(50.0), JNum(5.0))];
    assert IsLatest(vitals, 1, parseStamp);
  }
}

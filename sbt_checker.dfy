/**
 * The Spontaneous Breathing Trial eligibility rule (`check_sbt_eligibility`).
 *
 * A patient snapshot yields a task when three gates pass:
 *   1. the latest vital (greatest parseable timestamp, first one on ties) has
 *      FiO2 < 60 and PEEP < 10;
 *   2. no active medication's lower-cased name contains "noradrenaline";
 *   3. no vital stamped at or after midnight of the check date has breath
 *      sequence "csv" together with a heart rate below 120.
 *
 * The clock is not read: the check date and the `createdAt` text are
 * parameters. Timestamp parsing (`datetime.fromisoformat` after the `Z`
 * rewrite) and `float` of a string are the parameters `parseStamp` and
 * `parseNumber`; every timestamp is read on one clock, as microseconds.
 */
module SbtChecker {
  import opened Wrappers
  import opened JsonValues
  import opened Strings

  /** An instant on the single clock all timestamps are read on, in microseconds. */
  type Instant = int
  /** A calendar date, as a count of days since 1970-01-01. */
  type Day = int

  type StampParser = string -> Option<Instant>
  type NumberParser = string -> Option<real>

  const MicrosPerHour: int := 3_600_000_000
  const MicrosPerDay: int := 24 * MicrosPerHour

  const FiO2Limit: real := 60.0
  const PeepLimit: real := 10.0
  const HeartRateLimit: real := 120.0
  const Noradrenaline: string := "noradrenaline"
  const Csv: string := "csv"

  const CreatedBy: string := "SBT agent"
  const Urgency: string := "Low"
  const Message: string := "Please order a SBT for this patient as patient is not on noradrenaline, and fio2 is less than 0.6 with a peep less than 10"

  /** An active medication order; `None` stands for a missing or null name. */
  datatype Medication = Medication(name: Option<string>)

  /** A vital observation is a dict: which keys it has, and their types, vary. */
  type Vital = Object

  /** The patient record; `None` in an identity field is a missing key. */
  datatype Patient = Patient(
    cpmrn: Option<string>,
    name: Option<string>,
    lastName: Option<string>,
    hospitalName: Option<string>,
    unitName: Option<string>,
    bedNo: Option<string>,
    medications: seq<Medication>,  // orders.active.medications
    vitals: seq<Vital>)

  datatype Task = Task(
    createdBy: string,
    cpmrn: string,
    patientName: string,
    hospital: string,
    unit: string,
    bedNumber: string,
    createdAt: string,
    urgency: string,
    message: string)

  /** `datetime.combine(d, time.min)`. */
  function Midnight(d: Day): (r: Instant)
    ensures r % MicrosPerDay == 0 && r / MicrosPerDay == d
  {
    d * MicrosPerDay
  }

  /** What reading a vital's `timestamp` does: skip it, parse a text, or raise
      an exception the source does not catch. A truthy non-string raises a
      TypeError, except a list or dict that contains "Z", whose missing
      `replace` raises the AttributeError the source catches. */
  datatype StampRead = Skip | Text(s: string) | Raises

  function ReadStamp(v: Vital): (r: StampRead)
    ensures r.Text? <==> Get(v, "timestamp").JStr? && Get(v, "timestamp").s != ""
    ensures r.Text? ==> Get(v, "timestamp") == JStr(r.s)
    ensures r == Raises ==> Truthy(Get(v, "timestamp")) && !Get(v, "timestamp").JStr?
    ensures !Truthy(Get(v, "timestamp")) ==> r == Skip
  {
    var t := Get(v, "timestamp");
    if !Truthy(t) then Skip
    else match t
      case JStr(s) => Text(s)
      case JArray(items) => if JStr("Z") in items then Skip else Raises
      case JObject(members) => if "Z" in members then Skip else Raises
      case _ => Raises
  }

  /** The vitals on which reading the timestamp does not raise. */
  predicate StampsReadable(vitals: seq<Vital>) {
    forall i :: 0 <= i < |vitals| ==> ReadStamp(vitals[i]) != Raises
  }

  /** The parsed timestamp of a vital, `None` when it is skipped or does not parse. */
  function StampOf(v: Vital, parseStamp: StampParser): Option<Instant> {
    match ReadStamp(v)
    case Text(s) => parseStamp(s)
    case _ => None
  }

  /** `float(x) if x is not None else None`, with ValueError and TypeError caught. */
  function Coerce(x: Json, parseNumber: NumberParser): (r: Option<real>)
    ensures r.Some? ==> x.JBool? || x.JNum? || x.JStr?
    ensures x.JNum? ==> r == Some(x.n)
    ensures x.JStr? ==> r == parseNumber(x.s)
    ensures x == JBool(true) ==> r == Some(1.0)
    ensures x == JBool(false) ==> r == Some(0.0)
  {
    match x
    case JNull => None
    case JBool(b) => Some(if b then 1.0 else 0.0)
    case JNum(n) => Some(n)
    case JStr(s) => parseNumber(s)
    case _ => None
  }

  predicate Below(x: Option<real>, limit: real) {
    x.Some? && x.value < limit
  }

  // ---------------------------------------------------------------------------
  // The three gates, stated declaratively

  /** Among the first `n` vitals, vital `k` has the greatest parsed timestamp,
      and every earlier vital with a parsed timestamp has a strictly smaller one. */
  ghost predicate IsLatestAmong(vitals: seq<Vital>, n: nat, k: nat, parseStamp: StampParser)
    requires n <= |vitals|
  {
    && k < n
    && StampOf(vitals[k], parseStamp).Some?
    && (forall j :: 0 <= j < n && StampOf(vitals[j], parseStamp).Some? ==>
          StampOf(vitals[j], parseStamp).value <= StampOf(vitals[k], parseStamp).value)
    && (forall j :: 0 <= j < k && StampOf(vitals[j], parseStamp).Some? ==>
          StampOf(vitals[j], parseStamp).value < StampOf(vitals[k], parseStamp).value)
  }

  ghost predicate IsLatest(vitals: seq<Vital>, k: nat, parseStamp: StampParser) {
    IsLatestAmong(vitals, |vitals|, k, parseStamp)
  }

  /** Condition 1 on one vital: FiO2 below 60 and PEEP below 10, both coerced. */
  predicate VentilationLow(v: Vital, parseNumber: NumberParser) {
    && Below(Coerce(Get(v, "daysFiO2"), parseNumber), FiO2Limit)
    && Below(Coerce(Get(v, "daysVentPEEP"), parseNumber), PeepLimit)
  }

  ghost predicate LatestVitalGate(vitals: seq<Vital>, parseStamp: StampParser, parseNumber: NumberParser) {
    exists k: nat :: IsLatest(vitals, k, parseStamp) && VentilationLow(vitals[k], parseNumber)
  }

  /** The lower-cased name the source searches; a missing name reads as "". */
  function LoweredName(m: Medication): string {
    Lower(m.name.GetOr(""))
  }

  ghost predicate OnNoradrenaline(m: Medication) {
    Occurs(Noradrenaline, LoweredName(m))
  }

  ghost predicate MedicationGate(meds: seq<Medication>) {
    forall i :: 0 <= i < |meds| ==> !OnNoradrenaline(meds[i])
  }

  /** Condition 3 fails on this vital: stamped at or after `windowStart`,
      breath sequence exactly "csv" and a heart rate that coerces below 120. */
  predicate Unstable(v: Vital, windowStart: Instant, parseStamp: StampParser, parseNumber: NumberParser) {
    && StampOf(v, parseStamp).Some?
    && StampOf(v, parseStamp).value >= windowStart
    && Get(v, "daysVentBreathSequence") == JStr(Csv)
    && Below(Coerce(Get(v, "daysHR"), parseNumber), HeartRateLimit)
  }

  ghost predicate StabilityGate(vitals: seq<Vital>, windowStart: Instant, parseStamp: StampParser, parseNumber: NumberParser) {
    forall i :: 0 <= i < |vitals| ==> !Unstable(vitals[i], windowStart, parseStamp, parseNumber)
  }

  ghost predicate Eligible(p: Patient, checkDate: Day, parseStamp: StampParser, parseNumber: NumberParser) {
    && LatestVitalGate(p.vitals, parseStamp, parseNumber)
    && MedicationGate(p.medications)
    && StabilityGate(p.vitals, Midnight(checkDate), parseStamp, parseNumber)
  }

  // ---------------------------------------------------------------------------
  // The task

  /** `f"{name} {lastName}".strip() if name or lastName else ''`. */
  function FullName(name: string, lastName: string): (r: string)
    ensures r == Trim(name + " " + lastName)
  {
    if name != "" || lastName != "" then Trim(name + " " + lastName)
    else
      assert TrimStart(" ") == "";
      ""
  }

  /** The task record: fixed literals, identity fields copied ("" when
      missing) and the stripped full name. */
  function SbtTask(p: Patient, createdAt: string): (t: Task)
    ensures t.createdBy == CreatedBy && t.urgency == Urgency && t.message == Message
    ensures t.createdAt == createdAt
    ensures t.cpmrn == p.cpmrn.GetOr("") && t.hospital == p.hospitalName.GetOr("")
    ensures t.unit == p.unitName.GetOr("") && t.bedNumber == p.bedNo.GetOr("")
    ensures t.patientName == Trim(p.name.GetOr("") + " " + p.lastName.GetOr(""))
    ensures NoEdgeSpace(t.patientName)
  {
    TrimStrips(p.name.GetOr("") + " " + p.lastName.GetOr(""));
    Task(
      createdBy := CreatedBy,
      cpmrn := p.cpmrn.GetOr(""),
      patientName := FullName(p.name.GetOr(""), p.lastName.GetOr("")),
      hospital := p.hospitalName.GetOr(""),
      unit := p.unitName.GetOr(""),
      bedNumber := p.bedNo.GetOr(""),
      createdAt := createdAt,
      urgency := Urgency,
      message := Message)
  }

  // ---------------------------------------------------------------------------
  // The scans

  /** The loop that keeps `latest_vital` and `latest_timestamp`: a vital
      replaces the current one only with a strictly greater timestamp. */
  method FindLatestVital(vitals: seq<Vital>, parseStamp: StampParser) returns (latest: Option<nat>)
    ensures latest.None? <==> forall j :: 0 <= j < |vitals| ==> StampOf(vitals[j], parseStamp).None?
    ensures latest.Some? ==> IsLatest(vitals, latest.value, parseStamp)
  {
    latest := None;
    var latestStamp: Instant := 0;
    for i := 0 to |vitals|
      invariant latest.None? <==> forall j :: 0 <= j < i ==> StampOf(vitals[j], parseStamp).None?
      invariant latest.Some? ==> IsLatestAmong(vitals, i, latest.value, parseStamp)
      invariant latest.Some? ==> StampOf(vitals[latest.value], parseStamp) == Some(latestStamp)
    {
      var stamp := StampOf(vitals[i], parseStamp);
      if stamp.Some? && (latest.None? || stamp.value > latestStamp) {
        latest, latestStamp := Some(i), stamp.value;
      }
    }
  }

  /** The `has_noradrenaline` loop, which stops at the first match. */
  method HasNoradrenaline(meds: seq<Medication>) returns (found: bool)
    ensures found <==> !MedicationGate(meds)
  {
    found := false;
    var i := 0;
    while i < |meds|
      invariant 0 <= i <= |meds|
      invariant forall j :: 0 <= j < i ==> !OnNoradrenaline(meds[j])
    {
      var name := LoweredName(meds[i]);
      ContainsIffOccurs(name, Noradrenaline);
      if Contains(name, Noradrenaline) {
        found := true;
        break;
      }
      i := i + 1;
    }
  }

  /** The condition-3 loop, which returns as soon as it meets an unstable vital. */
  method HasRecentInstability(vitals: seq<Vital>, windowStart: Instant, parseStamp: StampParser, parseNumber: NumberParser)
    returns (unstable: bool)
    ensures unstable <==> !StabilityGate(vitals, windowStart, parseStamp, parseNumber)
  {
    for i := 0 to |vitals|
      invariant forall j :: 0 <= j < i ==> !Unstable(vitals[j], windowStart, parseStamp, parseNumber)
    {
      var stamp := StampOf(vitals[i], parseStamp);
      if stamp.None? || stamp.value < windowStart {
        continue;
      }
      if Get(vitals[i], "daysVentBreathSequence") == JStr(Csv) {
        var hr := Coerce(Get(vitals[i], "daysHR"), parseNumber);
        if hr.Some? && hr.value < HeartRateLimit {
          assert Unstable(vitals[i], windowStart, parseStamp, parseNumber);
          return true;
        }
      }
    }
    return false;
  }

  /** `check_sbt_eligibility`: a task exactly when the three gates pass. */
  method CheckSbtEligibility(p: Patient, checkDate: Day, createdAt: string,
                             parseStamp: StampParser, parseNumber: NumberParser)
    returns (task: Option<Task>)
    requires StampsReadable(p.vitals)
    ensures task.Some? <==> Eligible(p, checkDate, parseStamp, parseNumber)
    ensures task.Some? ==> task.value == SbtTask(p, createdAt)
    ensures (forall j :: 0 <= j < |p.vitals| ==> StampOf(p.vitals[j], parseStamp).None?) ==> task.None?
  {
    if |p.vitals| == 0 {
      return None;
    }
    var latest := FindLatestVital(p.vitals, parseStamp);
    if latest.None? {
      return None;
    }
    var k := latest.value;
    LatestVitalDecides(p.vitals, k, parseStamp, parseNumber);
    var fio2 := Coerce(Get(p.vitals[k], "daysFiO2"), parseNumber);
    var peep := Coerce(Get(p.vitals[k], "daysVentPEEP"), parseNumber);
    if fio2.None? || fio2.value >= FiO2Limit {
      return None;
    }
    if peep.None? || peep.value >= PeepLimit {
      return None;
    }

    var onNoradrenaline := HasNoradrenaline(p.medications);
    if onNoradrenaline {
      return None;
    }

    var unstable := HasRecentInstability(p.vitals, Midnight(checkDate), parseStamp, parseNumber);
    if unstable {
      return None;
    }
    return Some(SbtTask(p, createdAt));
  }

  // ---------------------------------------------------------------------------
  // Properties of the rule

  /** The latest vital is unique: ties go to the first. */
  lemma LatestIsUnique(vitals: seq<Vital>, k1: nat, k2: nat, parseStamp: StampParser)
    requires IsLatest(vitals, k1, parseStamp) && IsLatest(vitals, k2, parseStamp)
    ensures k1 == k2
  {
  }

  /** Condition 1 is decided by the latest vital alone. */
  lemma LatestVitalDecides(vitals: seq<Vital>, k: nat, parseStamp: StampParser, parseNumber: NumberParser)
    requires IsLatest(vitals, k, parseStamp)
    ensures LatestVitalGate(vitals, parseStamp, parseNumber) <==> VentilationLow(vitals[k], parseNumber)
  {
    if LatestVitalGate(vitals, parseStamp, parseNumber) {
      var k': nat :| IsLatest(vitals, k', parseStamp) && VentilationLow(vitals[k'], parseNumber);
      LatestIsUnique(vitals, k, k', parseStamp);
    }
  }

  /** Whenever some timestamp parses, a latest vital exists. */
  lemma {:induction false} LatestExists(vitals: seq<Vital>, n: nat, j: nat, parseStamp: StampParser)
    requires j < n <= |vitals| && StampOf(vitals[j], parseStamp).Some?
    ensures exists k: nat :: IsLatestAmong(vitals, n, k, parseStamp)
  {
    var u := StampOf(vitals[n - 1], parseStamp);
    if j == n - 1 && (forall i :: 0 <= i < n - 1 ==> StampOf(vitals[i], parseStamp).None?) {
      assert IsLatestAmong(vitals, n, n - 1, parseStamp);
    } else {
      var j' :| 0 <= j' < n - 1 && StampOf(vitals[j'], parseStamp).Some?;
      LatestExists(vitals, n - 1, j', parseStamp);
      var k: nat :| IsLatestAmong(vitals, n - 1, k, parseStamp);
      if u.Some? && u.value > StampOf(vitals[k], parseStamp).value {
        assert IsLatestAmong(vitals, n, n - 1, parseStamp);
      } else {
        assert IsLatestAmong(vitals, n, k, parseStamp);
      }
    }
  }
}

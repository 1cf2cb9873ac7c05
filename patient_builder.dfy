/**
 * The construction of the patient record from the request payload inside
 * the `/check` handler: identity fields with "" for a missing key, the
 * trimmed non-blank medication names, and one `vitals` list made of the
 * "latest vital" followed by the "other vitals".
 */
module PatientBuilder {
  import opened Wrappers
  import opened JsonValues
  import opened Strings
  import opened SbtChecker

  /** The request payload. `None` in an identity field is a missing key; a
      missing `medications` or `vitals` list is the empty list, and a missing
      or null `latestVital` is the empty dict. */
  datatype Form = Form(
    cpmrn: Option<string>,
    name: Option<string>,
    lastName: Option<string>,
    hospitalName: Option<string>,
    unitName: Option<string>,
    bedNo: Option<string>,
    medications: seq<Json>,
    latestVital: Object,
    vitals: seq<Object>)

  /** `med_name.strip()` is only reached on truthy entries, and raises an
      uncaught AttributeError unless they are strings. */
  predicate MedicationsReadable(names: seq<Json>) {
    forall i :: 0 <= i < |names| ==> Truthy(names[i]) ==> names[i].JStr?
  }

  /** The medication order one payload entry contributes: its trimmed name,
      when it is a string that is not blank. */
  function KeptMedication(j: Json): (r: seq<Medication>)
    ensures |r| <= 1
    ensures r != [] <==> j.JStr? && !SpaceBetween(j.s, 0, |j.s|)
  {
    if !j.JStr? then []
    else
      TrimEmptyIffBlank(j.s);
      if Trim(j.s) != "" then [Medication(Some(Trim(j.s)))] else []
  }

  /** The medication orders the payload's list yields, in payload order. */
  function KeptMedications(names: seq<Json>): (r: seq<Medication>)
    ensures |r| <= |names|
  {
    if names == [] then []
    else KeptMedications(names[..|names| - 1]) + KeptMedication(names[|names| - 1])
  }

  /** The `vital_entry` for the latest vital: exactly the three keys it reads. */
  function LatestVitalEntry(lv: Object): (e: Vital)
    ensures e.Keys == {"timestamp", "daysFiO2", "daysVentPEEP"}
    ensures forall key :: key in e ==> e[key] == Get(lv, key)
  {
    map["timestamp" := Get(lv, "timestamp"),
        "daysFiO2" := Get(lv, "daysFiO2"),
        "daysVentPEEP" := Get(lv, "daysVentPEEP")]
  }

  /** The `vital_entry` for one other vital: the timestamp, plus the breath
      sequence and heart rate only when the payload has those keys. */
  function OtherVitalEntry(v: Object): (e: Vital)
    ensures e.Keys == {"timestamp"} + (v.Keys * {"daysVentBreathSequence", "daysHR"})
    ensures "daysFiO2" !in e && "daysVentPEEP" !in e
    ensures forall key :: key in e ==> e[key] == Get(v, key)
  {
    var e := map["timestamp" := Get(v, "timestamp")];
    var e := if "daysVentBreathSequence" in v then e["daysVentBreathSequence" := v["daysVentBreathSequence"]] else e;
    if "daysHR" in v then e["daysHR" := v["daysHR"]] else e
  }

  /** `vitals` is the list the builder makes from the payload: the latest
      vital's entry first when that dict is not empty, then one entry per
      other vital, in payload order. */
  predicate BuiltVitals(latestVital: Object, others: seq<Object>, vitals: seq<Vital>) {
    var first := if latestVital != map[] then 1 else 0;
    && |vitals| == first + |others|
    && (first == 1 ==> vitals[0] == LatestVitalEntry(latestVital))
    && (forall i :: 0 <= i < |others| ==> vitals[first + i] == OtherVitalEntry(others[i]))
  }

  /** The medication loop: appends `{'name': med_name.strip()}` for every
      entry that is truthy and not blank once stripped. */
  method CollectMedications(names: seq<Json>) returns (meds: seq<Medication>)
    requires MedicationsReadable(names)
    ensures meds == KeptMedications(names)
  {
    meds := [];
    for i := 0 to |names|
      invariant meds == KeptMedications(names[..i])
    {
      var name := names[i];
      assert names[..i + 1][..i] == names[..i];
      if Truthy(name) && Trim(name.s) != "" {
        meds := meds + [Medication(Some(Trim(name.s)))];
      }
    }
    assert names[..|names|] == names;
  }

  /** The vitals list: the latest vital's entry first when that dict is not
      empty, then one entry per other vital, in payload order. */
  method CollectVitals(latestVital: Object, others: seq<Object>) returns (vitals: seq<Vital>)
    ensures BuiltVitals(latestVital, others, vitals)
    ensures ReadStamp(latestVital) != Raises && StampsReadable(others) ==> StampsReadable(vitals)
  {
    vitals := [];
    if latestVital != map[] {
      vitals := vitals + [LatestVitalEntry(latestVital)];
    }
    var first := |vitals|;
    for i := 0 to |others|
      invariant |vitals| == first + i
      invariant first == 1 ==> vitals[0] == LatestVitalEntry(latestVital)
      invariant forall j :: 0 <= j < i ==> vitals[first + j] == OtherVitalEntry(others[j])
    {
      vitals := vitals + [OtherVitalEntry(others[i])];
    }
    if ReadStamp(latestVital) != Raises && StampsReadable(others) {
      forall i | 0 <= i < |vitals|
        ensures ReadStamp(vitals[i]) != Raises
      {
        if i < first {
          LatestVitalEntryReadsAlike(latestVital);
        } else {
          OtherVitalEntryReadsAlike(others[i - first]);
        }
      }
    }
  }

  /** Builds `patient_json` from the payload. */
  method BuildPatient(form: Form) returns (p: Patient)
    requires MedicationsReadable(form.medications)
    ensures p.cpmrn == Some(form.cpmrn.GetOr("")) && p.name == Some(form.name.GetOr(""))
    ensures p.lastName == Some(form.lastName.GetOr("")) && p.hospitalName == Some(form.hospitalName.GetOr(""))
    ensures p.unitName == Some(form.unitName.GetOr("")) && p.bedNo == Some(form.bedNo.GetOr(""))
    ensures p.medications == KeptMedications(form.medications)
    ensures BuiltVitals(form.latestVital, form.vitals, p.vitals)
    ensures ReadStamp(form.latestVital) != Raises && StampsReadable(form.vitals) ==> StampsReadable(p.vitals)
  {
    var meds := CollectMedications(form.medications);
    var vitals := CollectVitals(form.latestVital, form.vitals);
    p := Patient(
      cpmrn := Some(form.cpmrn.GetOr("")),
      name := Some(form.name.GetOr("")),
      lastName := Some(form.lastName.GetOr("")),
      hospitalName := Some(form.hospitalName.GetOr("")),
      unitName := Some(form.unitName.GetOr("")),
      bedNo := Some(form.bedNo.GetOr("")),
      medications := meds,
      vitals := vitals);
  }

  // ---------------------------------------------------------------------------
  // What the medication list holds

  /** The list is built entry by entry, in payload order. */
  lemma {:induction false} KeptMedicationsAppend(a: seq<Json>, b: seq<Json>)
    ensures KeptMedications(a + b) == KeptMedications(a) + KeptMedications(b)
    decreases |b|
  {
    if b == [] {
      assert a + b == a;
    } else {
      var b' := b[..|b| - 1];
      assert (a + b)[..|a + b| - 1] == a + b';
      assert (a + b)[|a + b| - 1] == b[|b| - 1];
      KeptMedicationsAppend(a, b');
    }
  }

  /** An order is in the list exactly when some payload entry contributes it. */
  lemma {:induction false} KeptMedicationsMembers(names: seq<Json>, m: Medication)
    ensures m in KeptMedications(names) <==> exists i :: 0 <= i < |names| && m in KeptMedication(names[i])
  {
    if names != [] {
      var init, last := names[..|names| - 1], names[|names| - 1];
      assert KeptMedications(names) == KeptMedications(init) + KeptMedication(last);
      KeptMedicationsMembers(init, m);
      if m in KeptMedications(init) {
        var i :| 0 <= i < |init| && m in KeptMedication(init[i]);
        assert names[i] == init[i];
      } else if m in KeptMedication(last) {
        assert m in KeptMedication(names[|names| - 1]);
      } else {
        forall i | 0 <= i < |names|
          ensures m !in KeptMedication(names[i])
        {
          if i < |init| {
            assert names[i] == init[i];
          }
        }
      }
    }
  }

  /** Every kept name is non-empty and already stripped. */
  lemma {:induction false} KeptMedicationsStripped(names: seq<Json>)
    ensures forall m :: m in KeptMedications(names) ==>
              m.name.Some? && m.name.value != "" && Trim(m.name.value) == m.name.value
  {
    if names != [] {
      KeptMedicationsStripped(names[..|names| - 1]);
      var last := names[|names| - 1];
      if last.JStr? {
        TrimIdempotent(last.s);
      }
    }
  }

  // ---------------------------------------------------------------------------
  // What the checker sees of the built vitals

  /** Only the payload's latest vital can pass condition 1: an other vital
      carries no FiO2, so when one of them is stamped latest (or there is no
      latest-vital dict at all) the patient is not eligible. */
  lemma OnlyLatestVitalEntryPasses(latestVital: Object, others: seq<Object>, vitals: seq<Vital>,
                                   parseStamp: StampParser, parseNumber: NumberParser)
    requires BuiltVitals(latestVital, others, vitals)
    ensures LatestVitalGate(vitals, parseStamp, parseNumber) ==>
              latestVital != map[] && IsLatest(vitals, 0, parseStamp)
  {
    var first := if latestVital != map[] then 1 else 0;
    forall j | first <= j < |vitals|
      ensures Get(vitals[j], "daysFiO2") == JNull
    {
      assert vitals[first + (j - first)] == OtherVitalEntry(others[j - first]);
      OtherVitalEntryReadsAlike(others[j - first]);
    }
    if LatestVitalGate(vitals, parseStamp, parseNumber) {
      var k: nat :| IsLatest(vitals, k, parseStamp) && VentilationLow(vitals[k], parseNumber);
      assert k < first;
    }
  }

  /** The checker reads the same timestamp from the latest vital's entry as
      from the payload dict. */
  lemma LatestVitalEntryReadsAlike(lv: Object)
    ensures ReadStamp(LatestVitalEntry(lv)) == ReadStamp(lv)
  {
  }

  /** The checker reads the same timestamp, breath sequence and heart rate
      from a built entry as from the payload vital, and reads FiO2 and PEEP
      from an other vital as missing. */
  lemma OtherVitalEntryReadsAlike(v: Object)
    ensures ReadStamp(OtherVitalEntry(v)) == ReadStamp(v)
    ensures forall key :: key in {"timestamp", "daysVentBreathSequence", "daysHR"} ==>
              Get(OtherVitalEntry(v), key) == Get(v, key)
    ensures Get(OtherVitalEntry(v), "daysFiO2") == JNull && Get(OtherVitalEntry(v), "daysVentPEEP") == JNull
  {
  }
}

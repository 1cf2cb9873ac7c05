# SBT eligibility rule, modelled in Dafny

This project models the core of a small clinical service. The service decides
whether a ventilated patient qualifies for a Spontaneous Breathing Trial (SBT),
and if so it emits a task record. There are two parts:

- **The eligibility rule** `check_sbt_eligibility` (`sbt_checker.py`), in
  `sbt_checker.dfy`. It scans one patient snapshot. It returns a task only when
  all three gates pass:
  1. The *latest vital* has FiO2 < 60 and PEEP < 10, both coerced to numbers.
     The latest vital is the one with the greatest parseable timestamp; on a tie,
     the first one in list order wins.
  2. No active medication's lower-cased name contains `noradrenaline`.
  3. No vital stamped at or after midnight of the check date has breath sequence
     exactly `"csv"` together with a heart rate that coerces below 120.

  The function is made of loops, so each scan is a `method` with loop invariants:
  `FindLatestVital`, `HasNoradrenaline` (a flag loop that stops at the first
  match) and `HasRecentInstability` (it returns as soon as it finds an unstable
  vital). `CheckSbtEligibility` composes them. Each method is proved against
  declarative predicates (`IsLatest`, `LatestVitalGate`, `MedicationGate`,
  `StabilityGate`, `Eligible`). The main result is `CheckSbtEligibility`'s
  contract: it returns a task exactly when `Eligible` holds, and that task is
  `SbtTask`, built from fixed literals and copied identity fields.
- **The patient-record builder** inside the `/check` handler (`app.py:29-72`),
  in `patient_builder.dfy`. Its two append loops are the methods
  `CollectMedications` and `CollectVitals`; `BuildPatient` composes them. The
  shape of the vitals list is the predicate `BuiltVitals`.
- `sbt_scenarios.dfy` holds worked cases on 15 July 2025.
- `strings.dfy` models the Python builtins the core uses: `str.strip`,
  `str.lower` and the substring test `in`.
- `json_values.dfy` holds decoded JSON values, their Python truthiness and
  `dict.get`.

Modelling choices:
- A vital is a dict, `map<string, Json>`. The checker reads fields of any type
  through `float()`, and the builder keeps exactly the keys the payload has.
- Identity fields are `Option<string>`; `None` means a missing key. A
  medication's name is `Option<string>` too; `None` means a missing or null
  name, which the checker reads as "" (sbt_checker.py:82). The builder reads
  every medication entry as a JSON value, so null and other falsy entries are
  skipped as at app.py:47.
- The clock is never read. The check date (`Day`, days since 1970-01-01) and
  the `createdAt` text are parameters.
- `datetime.fromisoformat` (after the `Z` → `+00:00` rewrite) is the parameter
  `parseStamp: string -> Option<Instant>`. All timestamps are read on one
  naive clock, in microseconds.
- `float()` of a string is the parameter `parseNumber: string -> Option<real>`.
  `Coerce` gives the rest of `float()`'s cases: `None` stays missing, a boolean
  gives 1.0 or 0.0, a number gives itself, and a list or dict is a caught
  `TypeError`.
- Reading a timestamp (`ReadStamp`) follows the code exactly. A falsy value is
  skipped. A string is parsed. A list or dict that contains `"Z"` is skipped,
  because its missing `replace` raises the `AttributeError` the code catches.
  Any other truthy value raises a `TypeError` that `check_sbt_eligibility` does not catch.
  `CheckSbtEligibility` therefore requires `StampsReadable`.
- Values are immutable, so the checker leaves its input record unchanged by
  construction.

Which vital counts as latest matters more than it first appears. A `"csv"`
vital stamped after the ventilation vital becomes the latest vital. It has no
`daysFiO2`, so gate 1 fails and the result is `None` (sbt_checker.py:46-48,
56-71), even when its heart rate is 130; see
`SbtScenarios.ScenarioCsvHighHeartRate`. Through the builder this holds in
general: `PatientBuilder.OnlyLatestVitalEntryPasses` shows that a patient
passes gate 1 only when the payload's `latestVital` entry is the latest stamped
vital.

## Model

| member | source | states |
|---|---|---|
| `SbtChecker.CheckSbtEligibility` | sbt_checker.py:12-138 | Returns a task exactly when all three gates hold (`Eligible`), and the task is then `SbtTask`: `createdBy` "SBT agent", `Urgency` "Low", the fixed message, `CPMRN`/`hospital`/`unit`/`BedNumber` copied from `CPMRN`/`hospitalName`/`unitName`/`bedNo` (missing → ""), and `createdAt` as given. With no parseable timestamp (so also with no vitals), the result is `None`. |
| `SbtChecker.FindLatestVital` | sbt_checker.py:36-53 | `None` exactly when no vital has a truthy timestamp that parses. Otherwise it returns the index of the vital with the greatest timestamp such that every earlier parseable vital is strictly older: a later equal timestamp does not replace it. |
| `SbtChecker.LatestIsUnique` | sbt_checker.py:46-48 | At most one vital is the latest in that sense, so the choice is deterministic. |
| `SbtChecker.LatestExists` | sbt_checker.py:40-53 | If any vital's timestamp parses, a latest vital exists; unparsable ones are skipped, not fatal. |
| `SbtChecker.LatestVitalDecides` | sbt_checker.py:55-74 | Gate 1 holds exactly when the latest vital's `daysFiO2` coerces below 60 and its `daysVentPEEP` coerces below 10. A missing or uncoercible value, or exactly 60 or 10, fails. |
| `SbtChecker.HasNoradrenaline` | sbt_checker.py:76-88 | True exactly when some medication's lower-cased name (a missing name reads as "") contains "noradrenaline" at some position. |
| `SbtChecker.HasRecentInstability` | sbt_checker.py:90-119 | True exactly when some vital has a parseable timestamp at or after the window start, breath sequence exactly "csv", and a heart rate that coerces below 120. Earlier vitals, unparsable timestamps and a missing or uncoercible heart rate never trigger it. |
| `SbtChecker.FullName` | sbt_checker.py:122-124 | The patient name equals `strip(name + " " + lastName)` in all cases. When both parts are empty, the guard gives "", which is also what `strip(" ")` gives, so the guard changes nothing. |
| `SbtChecker.Midnight` | sbt_checker.py:91 | The window start is midnight of the check date: a whole number of days on the clock, and exactly day `d`'s. |
| `SbtChecker.ReadStamp` | sbt_checker.py:41-50 | A timestamp is parsed exactly when it is a non-empty string, and then that string is parsed. A falsy value is skipped. Only a truthy non-string can raise; a list or dict containing "Z" is skipped instead, because its missing `replace` raises the AttributeError the loop catches. |
| `SbtChecker.Coerce` | sbt_checker.py:60-68 | Only booleans, numbers and strings coerce. A number gives itself, a string gives what `float` parses, `True` gives 1.0 and `False` 0.0. Null, lists and dicts give no value (a null is skipped, the TypeError is caught). |
| `SbtChecker.SbtTask` | sbt_checker.py:126-136 | The task has `createdBy` "SBT agent", `Urgency` "Low" and the fixed message, the given `createdAt`, `CPMRN`, `hospitalName`, `unitName` and `bedNo` copied ("" when missing), and the stripped full name, which has no surrounding white space. |
| `Strings.TrimStrips` | sbt_checker.py:124 | `strip()` leaves a contiguous part of its input. Only white space is cut before and after it, and it neither starts nor ends with white space. |
| `Strings.TrimStartKeepsSuffix` | app.py:47 | The leading half of `strip()` keeps a suffix of its input, cuts only white space, and stops at the first character that is not white space. |
| `Strings.TrimEndKeepsPrefix` | app.py:47 | The trailing half of `strip()` keeps a prefix of its input, cuts only white space, and stops at the last character that is not white space. |
| `Strings.StripIsUnique` | app.py:47-49 | At most one string satisfies the property `TrimStrips` proves of `Trim`, so that property defines `strip()` completely. |
| `Strings.TrimIdempotent` | app.py:47-49 | Stripping a stripped name changes nothing. |
| `Strings.TrimEmptyIffBlank` | app.py:47 | `med_name.strip()` is falsy exactly when the name is all white space. |
| `Strings.Lower` | sbt_checker.py:82 | Lower-casing keeps the length, leaves no ASCII capital, maps each capital to its small letter, and changes no other character. |
| `Strings.LowerIdempotent` | sbt_checker.py:82 | Lower-casing a lower-cased name changes nothing. |
| `Strings.ContainsIffOccurs` | sbt_checker.py:83 | The left-to-right substring test used for `'noradrenaline' in med_name` holds exactly when the needle occurs at some position. |
| `SbtScenarios.ScenarioLowSettings` | sbt_checker.py:55-74 | One vital at 06:00 with FiO2 50 and PEEP 5, and no medications: eligible. |
| `SbtScenarios.ScenarioNoradrenaline` | sbt_checker.py:80-88 | The same patient with "IV Noradrenaline" active: not eligible (case-insensitive substring match). |
| `SbtScenarios.ScenarioCsvLowHeartRate` | sbt_checker.py:105-115 | Adding a "csv" vital at 07:00 with heart rate 100 makes the patient not eligible. |
| `SbtScenarios.ScenarioCsvHighHeartRate` | sbt_checker.py:40-74 | With heart rate 130 instead, gate 3 holds. The 07:00 vital is still the latest and has no FiO2, so the patient is not eligible. |
| `SbtScenarios.ScenarioEarlierCsvHighHeartRate` | sbt_checker.py:91-117 | A "csv" vital with heart rate 130 that is older than the ventilation vital: eligible. |
| `SbtScenarios.ScenarioFiO2Text` | sbt_checker.py:59-71 | FiO2 given as the text "70" coerces to 70: not eligible. |
| `SbtScenarios.ScenarioFiO2AtLimit` | sbt_checker.py:70-71 | FiO2 exactly 60 fails the strict comparison: not eligible. |
| `SbtScenarios.ScenarioTieKeepsFirst` | sbt_checker.py:46-48 | Two vitals with the same timestamp: the first is the latest, and a high FiO2 on the second is ignored: eligible. |
| `SbtScenarios.ScenarioEarlierCsvLowHeartRate` | sbt_checker.py:93-115 | A "csv" vital at 05:00 with heart rate 100, older than the ventilation vital: gate 1 holds, and gate 3 alone makes the patient not eligible. |
| `SbtScenarios.ScenarioCsvBeforeMidnight` | sbt_checker.py:91-103 | A "csv" vital with heart rate 100 stamped at 23:00 the evening before is outside the window: eligible. |
| `PatientBuilder.BuildPatient` | app.py:29-72 | The six identity fields are copied from the payload (missing → ""). The medications are `KeptMedications` of the payload's names. The vitals are the latest vital's entry (only if that dict is non-empty) followed by one entry per other vital, in order, so there are `(1 or 0) + |other vitals|` of them. Readable timestamps stay readable. |
| `PatientBuilder.CollectMedications` | app.py:44-50 | The loop appends exactly `KeptMedications(names)`: one stripped name for each entry that is a string and not blank once stripped, in payload order. |
| `PatientBuilder.CollectVitals` | app.py:52-72 | The list holds the latest-vital entry first when that dict is non-empty, then `OtherVitalEntry` of each other vital in order. If the payload's timestamps do not raise, the built ones do not either. |
| `PatientBuilder.LatestVitalEntry` | app.py:53-60 | The latest-vital entry has exactly the keys `timestamp`, `daysFiO2` and `daysVentPEEP`, each holding the payload's value, or null when that key is missing. |
| `PatientBuilder.OtherVitalEntry` | app.py:62-72 | An other-vital entry has `timestamp`, plus `daysVentBreathSequence` and/or `daysHR` exactly when the payload has those keys. It never has `daysFiO2` or `daysVentPEEP`, and every value is the payload's. |
| `PatientBuilder.KeptMedication` | app.py:46-50 | One payload entry contributes at most one order, and it contributes one exactly when it is a string that is not all white space. |
| `PatientBuilder.KeptMedications` | app.py:45-50 | The payload's list yields at most as many orders as it has entries. |
| `PatientBuilder.KeptMedicationsAppend` | app.py:46-50 | The medication list of a concatenated payload is the concatenation of the two lists, so input order is kept. |
| `PatientBuilder.KeptMedicationsMembers` | app.py:46-50 | An order is in the list exactly when some payload entry contributes it. |
| `PatientBuilder.KeptMedicationsStripped` | app.py:46-50 | Every kept name is present, non-empty and already stripped. |
| `PatientBuilder.OnlyLatestVitalEntryPasses` | app.py:52-72 | For vitals built from a payload, gate 1 holds only when the payload has a non-empty `latestVital` and its entry is the latest stamped vital. An other vital stamped later, or a missing `latestVital`, makes the patient not eligible, because other vitals carry no FiO2. |
| `PatientBuilder.LatestVitalEntryReadsAlike` | app.py:53-60 | The checker reads the same timestamp from the built latest-vital entry as from the payload dict. |
| `PatientBuilder.OtherVitalEntryReadsAlike` | app.py:64-72 | From a built other-vital entry, the checker reads the payload's timestamp, breath sequence and heart rate. It reads FiO2 and PEEP as missing. |

## Left out

- Flask routing, `render_template`, `request.get_json`, the empty-payload 400 reply, `jsonify`, the 200/500 status codes and `app.run` (`app.py:5-27`, `app.py:74-87`). These are HTTP plumbing. The catch-all `except Exception` → 500 is left out with them.
- Clock reads: `date.today()` and `datetime.now().isoformat()` are the parameters `checkDate` and `createdAt`.
- ISO 8601 parsing and the `Z` → `+00:00` rewrite sit behind `parseStamp`. Comparing timezone-aware and naive timestamps raises a `TypeError` that `check_sbt_eligibility` does not catch. The model reads every timestamp on one clock instead.
- Python `float()` of a string (including NaN, infinity and rounding) sits behind `parseNumber`. JSON numbers are exact reals.
- `Strings.Lower`: only ASCII letters are case-mapped. Python's full Unicode `lower()` is not modelled.
- `SbtChecker.CheckSbtEligibility`: requires `StampsReadable`. On the inputs this excludes (a truthy timestamp that is neither a string nor a list or dict containing "Z"), `check_sbt_eligibility` raises a TypeError it does not catch; only the left-out catch-all in the handler turns it into a 500 reply.
- `PatientBuilder.BuildPatient`: requires `MedicationsReadable`. A truthy medication entry that is not a string makes `strip()` raise an AttributeError; only the left-out catch-all at app.py:82-83 turns it into a 500 reply.
- Identity fields (`CPMRN`, `name`, `lastName`, `hospitalName`, `unitName`, `bedNo`) that are present but not strings are not modelled. That includes JSON null, which `get` would copy and the name f-string would render as "None". Medication names that are present but neither strings nor null are not modelled either. Non-dict vitals, and `medications`/`vitals` payload fields that are not lists, are typed away.
- Dict key order is not modelled. Entries are compared by their key sets and values.

# Sports-clinic patient records — a Dafny model

This project models the record rules of the sports-clinic module of an ERP add-on collection
(`bemade_sports_clinic/models/patient.py`): a patient (`sports.patient`) and a patient's injury
(`sports.patient.injury`).

- A patient has a match status (`yes`, `no`) and a practice status (`yes`, `no_contact`, `no`).
  Only four pairs may be saved. The pair determines the patient's stage (`healthy`,
  `practice_ok`, `no_play`) and whether the patient is injured.
- An injured patient is "injured since" the time of the first injury that is not resolved. The
  patient also counts its active injuries, shows a display name built from first and last name,
  and has an age computed from the birth date.
- An injury is `resolved` once its resolution date is set and reached, `active` otherwise.
- When an injury is created, or its treatment professionals are written, the professionals'
  partners that do not follow it yet are subscribed as followers.

Files:

- `wrappers.dfy` (module `Wrappers`): `Option` for the ERP's unset `False`, `Outcome` for a validation.
- `dates.dfy` (module `Dates`): dates as (year, month, day), their order, and the `years` of
  `relativedelta(today, birth)`.
- `text.dfy` (module `Text`): Python's `str.strip()`.
- `injuries.dfy` (module `Injuries`): injury stage, follower sync, the `PatientInjury` class.
- `patients.dfy` (module `Patients`): status rules, stage, injured flag and time, active count,
  name, age, the `Patient` class and the status constraint.

The current date, the default injury time fixed when the module is loaded, and the followers the
framework's `create` starts a record with are parameters. Pure rules are functions with lemmas.
The compute methods, `write`, `create`, `message_subscribe` and `action_consulted_today` change
fields in place; they are methods of the `Patient` and `PatientInjury` classes.

On follower sync, the code subscribes the partners of ALL the professionals that do not follow yet.
It does not subscribe only the newly added ones. So a
professional whose partner stopped following is subscribed again by the next write of the list.
The model follows the code.

## Model

| member | source | states |
|---|---|---|
| Patients.InvalidCombinations | bemade_sports_clinic/models/patient.py:72-80 | a pair is refused exactly when match is `yes` and practice is `no` or `no_contact` |
| Patients.ConstrainMatchAndPracticeStatus | bemade_sports_clinic/models/patient.py:70-80 | over a set of patients: passes iff every patient's pair is one of the four valid pairs; otherwise raises the validation error with its message |
| Patients.PatientStageOf | bemade_sports_clinic/models/patient.py:89-99 | the stage is set exactly on the pairs the constraint accepts, unset on every other pair |
| Patients.PatientStageTable | bemade_sports_clinic/models/patient.py:89-94 | healthy iff (yes,yes); practice_ok iff (no,yes) or (no,no_contact); no_play iff (no,no) |
| Patients.IsInjured | bemade_sports_clinic/models/patient.py:118 | injured iff the stage is not `healthy`, for every pair; every refused pair counts as injured |
| Patients.ActiveInjuries | bemade_sports_clinic/models/patient.py:85 | keeps exactly the injuries whose stage is active, never more than there are |
| Patients.UnresolvedInjuries | bemade_sports_clinic/models/patient.py:120 | keeps exactly the injuries whose stage is not resolved |
| Patients.ActiveIsUnresolved | bemade_sports_clinic/models/patient.py:120 | with two stages, "not resolved" and "active" keep the same injuries in the same order |
| Patients.ActiveInjuryCount | bemade_sports_clinic/models/patient.py:85 | the count is at most the number of injuries, and zero exactly when every injury is resolved |
| Patients.ActiveInjuryCountIsOccurrences | bemade_sports_clinic/models/patient.py:85 | the active count is the number of occurrences of `active` among the stages; active plus resolved is the number of injuries |
| Patients.InjuredSince | bemade_sports_clinic/models/patient.py:118-123 | when set, the patient is injured and the value is the injury time of an injury that is not resolved |
| Patients.InjuredSinceIsFirstUnresolved | bemade_sports_clinic/models/patient.py:119-121 | when injured, injured-since is the time of the first injury not resolved, in the injuries' order (not the one with the earliest time) |
| Patients.InjuredSinceUnset | bemade_sports_clinic/models/patient.py:118-123 | injured-since is unset iff not injured or every injury is resolved; when injured it is set iff some injury is active |
| Patients.DisplayName | bemade_sports_clinic/models/patient.py:112-113 | the name has no whitespace at either end and is empty when both parts are missing |
| Patients.DisplayNameJoins | bemade_sports_clinic/models/patient.py:112-113 | two trimmed non-empty parts give exactly first, space, last |
| Patients.DisplayNameFirstOnly | bemade_sports_clinic/models/patient.py:112-113 | a missing last name gives the (trimmed) first name |
| Patients.DisplayNameLastOnly | bemade_sports_clinic/models/patient.py:112-113 | a missing first name gives the (trimmed) last name |
| Patients.Age | bemade_sports_clinic/models/patient.py:104-107 | unset exactly when the birth date is unset; never negative for a birth date on or before today |
| Patients.AgeIsWholeYears | bemade_sports_clinic/models/patient.py:104-107 | the age is unset iff the birth date is; for a birth date on or before today it is non-negative and is the whole years elapsed: that birthday has passed and the next has not |
| Patients.Patient.constructor | bemade_sports_clinic/models/patient.py:36-43 | a new patient has both statuses `yes`; its stage is healthy and it is not injured |
| Patients.Patient.ComputeName | bemade_sports_clinic/models/patient.py:109-113 | sets only `name`, to the display name of the current first and last names |
| Patients.Patient.ComputeAge | bemade_sports_clinic/models/patient.py:101-107 | sets only `age`, to the age for the birth date and today |
| Patients.Patient.ComputeStage | bemade_sports_clinic/models/patient.py:87-99 | sets only `stage`; it is set iff the pair is valid |
| Patients.Patient.ComputeIsInjured | bemade_sports_clinic/models/patient.py:115-123 | sets only the injured flag and the injured-since time, from the statuses and the injuries' stages and times |
| Patients.Patient.ComputeActiveInjuryCount | bemade_sports_clinic/models/patient.py:82-85 | sets only the count, to the number of active injuries, at most the number of injuries |
| Patients.Patient.ConsultedToday | bemade_sports_clinic/models/patient.py:135-137 | sets the last consultation date to today and changes nothing else |
| Dates.RelativeDeltaYears | bemade_sports_clinic/models/patient.py:107 | `relativedelta(today, birth).years`: between 0 and the year difference when birth is on or before today, between the (negative) year difference and 0 otherwise |
| Dates.RelativeDeltaYearsIsWholeYears | bemade_sports_clinic/models/patient.py:107 | for birth on or before today, `relativedelta(...).years` is the unique n with birth+n years on or before today and birth+n+1 years after it |
| Dates.RelativeDeltaYearsForFutureBirth | bemade_sports_clinic/models/patient.py:107 | for a birth date after today the years are the negated whole years from today to the birth date |
| Dates.WholeYearsUnique | bemade_sports_clinic/models/patient.py:107 | at most one number of whole years separates two dates |
| Text.IsSpace | bemade_sports_clinic/models/patient.py:113 | the characters Python's `str.isspace()` accepts, which `strip()` removes |
| Text.TrimLeft | bemade_sports_clinic/models/patient.py:113 | the result is a suffix of the input; what was removed is all whitespace; the result starts with a non-space |
| Text.TrimRight | bemade_sports_clinic/models/patient.py:113 | the result is a prefix of the input; what was removed is all whitespace; the result ends with a non-space |
| Text.Strip | bemade_sports_clinic/models/patient.py:113 | no whitespace at either end; empty iff the input is all whitespace |
| Text.StripOfPadded | bemade_sports_clinic/models/patient.py:113 | stripping a trimmed string padded with any whitespace gives it back |
| Text.StripIdempotent | bemade_sports_clinic/models/patient.py:113 | stripping twice is stripping once |
| Injuries.InjuryStageOf | bemade_sports_clinic/models/patient.py:190-196 | resolved iff a resolution date is set and on or before today; active otherwise |
| Injuries.ResolvedStaysResolved | bemade_sports_clinic/models/patient.py:193-196 | a resolved injury stays resolved on later days; one without a resolution date is always active |
| Injuries.Partners | bemade_sports_clinic/models/patient.py:201 | `mapped('partner_id')`: holds each professional's partner exactly once and nothing else |
| Injuries.Minus | bemade_sports_clinic/models/patient.py:201-202 | recordset difference: exactly the elements of the left side not in the right side, without duplicates |
| Injuries.ToSubscribe | bemade_sports_clinic/models/patient.py:201-202 | exactly the professionals' partners that do not follow yet, each once; nothing when all already follow |
| Injuries.Synced | bemade_sports_clinic/models/patient.py:200-203 | after `message_subscribe(to_subscribe)` the old followers are kept in place, none is duplicated, every professional's partner follows, and the followers are exactly the old ones plus the partners |
| Injuries.SyncedIdempotent | bemade_sports_clinic/models/patient.py:200-203 | syncing again with the same professionals subscribes nobody |
| Injuries.PatientInjury.Create | bemade_sports_clinic/models/patient.py:205-212 | stores the values (injury time defaulting to the load-time default), and the followers become the initial ones plus the professionals' partners not yet following |
| Injuries.PatientInjury.Subscribe | bemade_sports_clinic/models/patient.py:203 | appends one follower per given partner |
| Injuries.PatientInjury.ComputeStage | bemade_sports_clinic/models/patient.py:190-196 | sets only the stage, to the stage for the resolution date and today |
| Injuries.PatientInjury.Write | bemade_sports_clinic/models/patient.py:198-203 | stores the given values; with the professionals key the followers are synced (kept, no duplicate, every professional's partner following); without it they are unchanged |
| Injuries.CreateMulti | bemade_sports_clinic/models/patient.py:205-212 | one fresh record per values: valid, with its professionals, followed by the initial followers plus its professionals' partners not among them |
| Injuries.AllFollowers | bemade_sports_clinic/models/patient.py:202 | `message_follower_ids` of several records: a partner is in it exactly when it follows one of the records |
| Injuries.BatchWriteAsWritten | bemade_sports_clinic/models/patient.py:198-203 | the multi-record write as written: every record keeps its followers and gets the new professionals; a professional's partner follows a record afterwards iff it already did or it followed none of the records, so one that follows another record is never subscribed |
| Injuries.BatchWriteAsWrittenMissesPartner | bemade_sports_clinic/models/patient.py:198-203 | two injuries, the professional's partner already follows the first: it is never subscribed to the second |
| Injuries.BatchWrite | bemade_sports_clinic/models/patient.py:198-203 | the multi-record write synced record by record: every record keeps its followers in place, gains exactly the professionals' partners it lacked, duplicates none and is followed by every professional's partner |

## Findings

| source | as written | input that shows it | evidently intended | confidence | as-written member | corrected member |
|---|---|---|---|---|---|---|
| bemade_sports_clinic/models/patient.py:198-203 | `write` on several injuries subtracts the followers of ALL of them from the professionals' partners, then subscribes that one list to each | injuries A (partner 7 follows) and B (no followers); write professional with partner 7 to both: nothing is subscribed, B is not followed by partner 7 | each injury is followed by each of its professionals' partners, as `create` does record by record (lines 208-211) | medium, not executed; relies on the framework's union semantics of `mapped` on several records | Injuries.BatchWriteAsWritten, Injuries.BatchWriteAsWrittenMissesPartner | Injuries.BatchWrite |

## Left out

- The ERP framework: persistence, `super().write`/`create`, change tracking, access groups, field declarations and when computed fields are recomputed. The model's methods are called explicitly. A patient reads the `stage` its injuries hold.
- Compute methods loop over a set of records; each is modelled for one record. The status constraint keeps its loop, because it raises at the first invalid record.
- `default_get` (lines 60-68), `action_view_patient_form` and `action_view_injury_form` (lines 125-133, 214-222), and the action dictionary `action_consulted_today` returns: these are user-interface wiring.
- Injuries.PatientInjury.Write, Patients.Patient.ConsultedToday: each is modelled for one record. `action_consulted_today` calls `ensure_one()` (line 136), which raises on several patients; that error path is not modelled.
- `PatientContact` (lines 146-158): only field declarations.
- Patients.Age: does not model how `relativedelta` clips days past the end of a month (a 29 February birth date, say). Months are added keeping the day.
- Patients.Age: "unset" is `None`. The framework stores `False` in an integer field as 0.
- `injured_since` is a date field assigned a date-time; the model keeps the injury time as an opaque value.
- `message_subscribe` is modelled as appending one follower per partner. Its own duplicate check and its subtypes are not modelled. So the no-duplicate property rests on the module's own subtraction.
- The many-to-many commands of `treatment_professional_ids` are modelled as the full new list (a replace).
- The `datetime.now()` default of `injury_date_time` is evaluated once when the module is loaded; the model takes it as a parameter.
- Injuries.PatientInjury.Write: does not recompute the stage; it is a computed field, recomputed by `ComputeStage`.
- Strings are sequences of Unicode code points; `strip()` removes the characters for which Python's `isspace()` holds.
- `bemade_fsm/__manifest__.py`, `bemade_mailcow_blacklist/__manifest__.py`, `bemade_fsm/models/product_template.py` hold configuration and field declarations only. `bemade_mailcow_integration/models/res_users.py` wraps the framework's `create` and calls a mailcow model that is not part of this model.

/** A patient of the sports clinic (`sports.patient`): the rules that relate its match and
    practice statuses, its stage, whether it is injured and since when, how many injuries are
    active, its display name and its age. */
module Patients {
  import opened Wrappers
  import opened Dates
  import opened Text
  import opened Injuries

  datatype MatchStatus = MatchYes | MatchNo
  datatype PracticeStatus = PracticeYes | PracticeNoContact | PracticeNo
  datatype PatientStage = NoPlay | PracticeOk | Healthy

  /** The (match, practice) status pairs a patient may be saved with. */
  const ValidCombinations: seq<(MatchStatus, PracticeStatus)> :=
    [(MatchYes, PracticeYes), (MatchNo, PracticeYes), (MatchNo, PracticeNoContact), (MatchNo, PracticeNo)]

  predicate IsValidCombination(m: MatchStatus, p: PracticeStatus) {
    (m, p) in ValidCombinations
  }

  /** The only pairs refused are those that let a patient play matches without full practice. */
  lemma InvalidCombinations(m: MatchStatus, p: PracticeStatus)
    ensures !IsValidCombination(m, p) <==> m == MatchYes && (p == PracticeNo || p == PracticeNoContact)
  {
  }

  const InvalidStatusMessage := "Invalid combination of match and practice status."

  /** The stage each valid status pair stands for. */
  const StageMap: map<(MatchStatus, PracticeStatus), PatientStage> := map[
    (MatchYes, PracticeYes) := Healthy,
    (MatchNo, PracticeYes) := PracticeOk,
    (MatchNo, PracticeNoContact) := PracticeOk,
    (MatchNo, PracticeNo) := NoPlay]

  /** The stage of a patient: defined on exactly the pairs the constraint accepts. */
  function PatientStageOf(m: MatchStatus, p: PracticeStatus): (r: Option<PatientStage>)
    ensures r.Some? <==> IsValidCombination(m, p)
  {
    if (m, p) in StageMap then Some(StageMap[(m, p)]) else None
  }

  /** The stage table, entry by entry. */
  lemma PatientStageTable(m: MatchStatus, p: PracticeStatus)
    ensures PatientStageOf(m, p) == Some(Healthy) <==> m == MatchYes && p == PracticeYes
    ensures PatientStageOf(m, p) == Some(PracticeOk) <==> m == MatchNo && (p == PracticeYes || p == PracticeNoContact)
    ensures PatientStageOf(m, p) == Some(NoPlay) <==> m == MatchNo && p == PracticeNo
  {
  }

  /** A patient is injured unless cleared for both matches and practice: for every pair,
      injured means not healthy, and every invalid pair (which has no stage) counts as injured. */
  predicate IsInjured(m: MatchStatus, p: PracticeStatus)
    ensures IsInjured(m, p) <==> PatientStageOf(m, p) != Some(Healthy)
    ensures !IsValidCombination(m, p) ==> IsInjured(m, p)
  {
    p != PracticeYes || m != MatchYes
  }

  /** What the patient computations read of one injury: its computed stage and its time. */
  datatype InjuryView = InjuryView(stage: InjuryStage, injuryTime: DateTime)

  /** `injury_ids.filtered(lambda r: r.stage == 'active')`. */
  function ActiveInjuries(s: seq<InjuryView>): (r: seq<InjuryView>)
    ensures |r| <= |s|
    ensures forall v :: v in r <==> v in s && v.stage == Active
  {
    if s == [] then []
    else (if s[0].stage == Active then [s[0]] else []) + ActiveInjuries(s[1..])
  }

  /** `injury_ids.filtered(lambda r: not r.stage == 'resolved')`. */
  function UnresolvedInjuries(s: seq<InjuryView>): (r: seq<InjuryView>)
    ensures |r| <= |s|
    ensures forall v :: v in r <==> v in s && v.stage != Resolved
  {
    if s == [] then []
    else (if s[0].stage != Resolved then [s[0]] else []) + UnresolvedInjuries(s[1..])
  }

  /** An injury has two stages, so the two filters keep the same injuries. */
  lemma {:induction false} ActiveIsUnresolved(s: seq<InjuryView>)
    ensures ActiveInjuries(s) == UnresolvedInjuries(s)
  {
    if s != [] {
      ActiveIsUnresolved(s[1..]);
    }
  }

  /** What the patient computations read of each injury record. */
  function Views(s: seq<PatientInjury>): (r: seq<InjuryView>)
    reads s
    ensures |r| == |s| && forall i :: 0 <= i < |s| ==> r[i] == InjuryView(s[i].stage, s[i].injuryTime)
  {
    seq(|s|, i reads s requires 0 <= i < |s| => InjuryView(s[i].stage, s[i].injuryTime))
  }

  /** `active_injury_count`: at most the number of injuries, and zero exactly when every
      injury is resolved. */
  function ActiveInjuryCount(s: seq<InjuryView>): (n: nat)
    ensures n <= |s|
    ensures n == 0 <==> forall v :: v in s ==> v.stage == Resolved
  {
    var active := ActiveInjuries(s);
    assert active != [] ==> active[0] in active;
    |ActiveInjuries(s)|
  }

  function Stages(s: seq<InjuryView>): (r: seq<InjuryStage>)
    ensures |r| == |s| && forall i :: 0 <= i < |s| ==> r[i] == s[i].stage
  {
    seq(|s|, i requires 0 <= i < |s| => s[i].stage)
  }

  /** The active injury count is how many times `Active` occurs among the injuries' stages;
      with the resolved ones it makes up every injury. */
  lemma {:induction false} ActiveInjuryCountIsOccurrences(s: seq<InjuryView>)
    ensures ActiveInjuryCount(s) == multiset(Stages(s))[Active]
    ensures ActiveInjuryCount(s) + multiset(Stages(s))[Resolved] == |s|
  {
    if s != [] {
      ActiveInjuryCountIsOccurrences(s[1..]);
      assert Stages(s) == [s[0].stage] + Stages(s[1..]);
    }
  }

  /** `injured_since`: when injured, the time of the first injury, in the injuries' order, that
      is not resolved (unset if there is none); unset when not injured. When set, the patient
      is injured and the time is that of an unresolved injury. */
  function InjuredSince(m: MatchStatus, p: PracticeStatus, s: seq<InjuryView>): (r: Option<DateTime>)
    ensures r.Some? ==> IsInjured(m, p)
    ensures r.Some? ==> exists v :: v in s && v.stage != Resolved && v.injuryTime == r.value
  {
    if IsInjured(m, p) then
      var unresolved := UnresolvedInjuries(s);
      if |unresolved| > 0 then Some(unresolved[0].injuryTime) else None
    else
      None
  }

  /** When injured, the injured-since time is that of the first unresolved injury in the
      injuries' order. */
  lemma {:induction false} InjuredSinceIsFirstUnresolved(m: MatchStatus, p: PracticeStatus, s: seq<InjuryView>, i: nat)
    requires IsInjured(m, p)
    requires i < |s| && s[i].stage != Resolved
    requires forall j :: 0 <= j < i ==> s[j].stage == Resolved
    ensures InjuredSince(m, p, s) == Some(s[i].injuryTime)
  {
    if i > 0 {
      InjuredSinceIsFirstUnresolved(m, p, s[1..], i - 1);
    }
  }

  /** The injured-since time is unset exactly when the patient is not injured or every injury
      is resolved; when injured, it is set exactly when an injury is active. */
  lemma InjuredSinceUnset(m: MatchStatus, p: PracticeStatus, s: seq<InjuryView>)
    ensures InjuredSince(m, p, s) == None <==> !IsInjured(m, p) || forall i :: 0 <= i < |s| ==> s[i].stage == Resolved
    ensures IsInjured(m, p) ==> (InjuredSince(m, p, s).Some? <==> ActiveInjuryCount(s) > 0)
  {
    ActiveIsUnresolved(s);
    var u := UnresolvedInjuries(s);
    if |u| > 0 {
      assert u[0] in u;
    } else {
      forall i | 0 <= i < |s| ensures s[i].stage == Resolved {
        assert s[i] in s;
      }
    }
  }

  function OrEmpty(s: Option<string>): string {
    if s.Some? then s.value else ""
  }

  /** `name`: first and last name joined by a space, missing parts empty, then stripped. */
  function DisplayName(first: Option<string>, last: Option<string>): (r: string)
    ensures Trimmed(r)
    ensures first == None && last == None ==> r == ""
  {
    var joined := OrEmpty(first) + " " + OrEmpty(last);
    assert first == None && last == None ==> AllSpace(joined);
    Strip(joined)
  }

  /** With both parts present and trimmed, the name is exactly first, space, last. */
  lemma DisplayNameJoins(first: string, last: string)
    requires first != [] && last != [] && Trimmed(first) && Trimmed(last)
    ensures DisplayName(Some(first), Some(last)) == first + " " + last
  {
    var both := first + " " + last;
    assert Trimmed(both) by {
      assert both[0] == first[0] && both[|both| - 1] == last[|last| - 1];
    }
    assert [] + both + [] == both;
    StripOfPadded([], both, []);
  }

  /** With the last name missing, the name is the first name. */
  lemma DisplayNameFirstOnly(first: string)
    requires Trimmed(first)
    ensures DisplayName(Some(first), None) == first
  {
    assert AllSpace(" ");
    assert first + " " + "" == [] + first + " ";
    StripOfPadded([], first, " ");
  }

  /** With the first name missing, the name is the last name. */
  lemma DisplayNameLastOnly(last: string)
    requires Trimmed(last)
    ensures DisplayName(None, Some(last)) == last
  {
    assert AllSpace(" ");
    assert "" + " " + last == " " + last + [];
    StripOfPadded(" ", last, []);
  }

  /** `age`: unset without a birth date; otherwise `relativedelta(today, birth).years`. */
  function Age(dateOfBirth: Option<Date>, today: Date): (r: Option<int>)
    ensures r.None? <==> dateOfBirth.None?
    ensures (dateOfBirth.Some? && ValidDate(dateOfBirth.value) && ValidDate(today)
      && AtOrBefore(dateOfBirth.value, today)) ==> r.value >= 0
  {
    if dateOfBirth.None? then None else Some(RelativeDeltaYears(today, dateOfBirth.value))
  }

  /** The age is unset exactly when the birth date is; for a birth date on or before today it
      is the number of whole years elapsed, and never negative. */
  lemma AgeIsWholeYears(dateOfBirth: Option<Date>, today: Date)
    requires ValidDate(today) && (dateOfBirth.Some? ==> ValidDate(dateOfBirth.value))
    ensures Age(dateOfBirth, today).None? <==> dateOfBirth.None?
    ensures dateOfBirth.Some? && AtOrBefore(dateOfBirth.value, today) ==>
      var n := Age(dateOfBirth, today).value;
      n >= 0 && AtOrBefore(AddYears(dateOfBirth.value, n), today) && Before(today, AddYears(dateOfBirth.value, n + 1))
  {
  }

  class Patient {
    var firstName: Option<string>
    var lastName: Option<string>
    var dateOfBirth: Option<Date>
    var matchStatus: MatchStatus
    var practiceStatus: PracticeStatus
    var injuries: seq<PatientInjury>
    var lastConsultationDate: Option<Date>
    // computed fields
    var name: string
    var age: Option<int>
    var stage: Option<PatientStage>
    var isInjured: bool
    var injuredSince: Option<DateTime>
    var activeInjuryCount: nat

    /** A new patient: both statuses default to `yes`, and the computed fields agree. */
    constructor (firstName: string, lastName: string, dateOfBirth: Option<Date>, today: Date)
      ensures this.firstName == Some(firstName) && this.lastName == Some(lastName)
      ensures this.dateOfBirth == dateOfBirth
      ensures matchStatus == MatchYes && practiceStatus == PracticeYes
      ensures injuries == [] && lastConsultationDate == None
      ensures name == DisplayName(Some(firstName), Some(lastName))
      ensures age == Age(dateOfBirth, today)
      ensures stage == Some(Healthy) && !isInjured && injuredSince == None && activeInjuryCount == 0
    {
      this.firstName := Some(firstName);
      this.lastName := Some(lastName);
      this.dateOfBirth := dateOfBirth;
      matchStatus := MatchYes;
      practiceStatus := PracticeYes;
      injuries := [];
      lastConsultationDate := None;
      name := DisplayName(Some(firstName), Some(lastName));
      age := Age(dateOfBirth, today);
      stage := Some(Healthy);
      isInjured := false;
      injuredSince := None;
      activeInjuryCount := 0;
    }

    /** The stage and time of each of the patient's injuries. */
    function InjuryViews(): seq<InjuryView>
      reads this`injuries, injuries
    {
      Views(injuries)
    }

    /** `_compute_name`. */
    method ComputeName()
      modifies this`name
      ensures name == DisplayName(firstName, lastName)
      ensures Trimmed(name)
    {
      name := Strip(OrEmpty(firstName) + " " + OrEmpty(lastName));
    }

    /** `_compute_age`, with the current date passed in. */
    method ComputeAge(today: Date)
      modifies this`age
      ensures age == Age(dateOfBirth, today)
    {
      if dateOfBirth.None? {
        age := None;
      } else {
        age := Some(RelativeDeltaYears(today, dateOfBirth.value));
      }
    }

    /** `_compute_stage`: the stage for a valid pair, unset for an invalid one. */
    method ComputeStage()
      modifies this`stage
      ensures stage == PatientStageOf(matchStatus, practiceStatus)
      ensures stage.Some? <==> IsValidCombination(matchStatus, practiceStatus)
    {
      if (matchStatus, practiceStatus) !in StageMap {
        stage := None;
      } else {
        stage := Some(StageMap[(matchStatus, practiceStatus)]);
      }
    }

    /** `_compute_is_injured`: sets both `is_injured` and `injured_since`. */
    method ComputeIsInjured()
      modifies this`isInjured, this`injuredSince
      ensures isInjured == IsInjured(matchStatus, practiceStatus)
      ensures injuredSince == InjuredSince(matchStatus, practiceStatus, InjuryViews())
    {
      isInjured := practiceStatus != PracticeYes || matchStatus != MatchYes;
      if isInjured {
        var unresolved := UnresolvedInjuries(InjuryViews());
        injuredSince := if |unresolved| > 0 then Some(unresolved[0].injuryTime) else None;
      } else {
        injuredSince := None;
      }
    }

    /** `_compute_active_injury_count`. */
    method ComputeActiveInjuryCount()
      modifies this`activeInjuryCount
      ensures activeInjuryCount == ActiveInjuryCount(InjuryViews())
      ensures activeInjuryCount <= |injuries|
    {
      activeInjuryCount := |ActiveInjuries(InjuryViews())|;
    }

    /** `action_consulted_today`: records today as the last consultation and nothing else. */
    method ConsultedToday(today: Date)
      modifies this`lastConsultationDate
      ensures lastConsultationDate == Some(today)
    {
      lastConsultationDate := Some(today);
    }
  }

  /** `constrain_match_and_practice_status` on a set of patients: passes when every patient's
      pair is valid, and raises the validation error at the first that is not. */
  method ConstrainMatchAndPracticeStatus(recs: seq<Patient>) returns (r: Outcome<string>)
    ensures r == Pass <==> forall i :: 0 <= i < |recs| ==> IsValidCombination(recs[i].matchStatus, recs[i].practiceStatus)
    ensures r.Fail? ==> r.error == InvalidStatusMessage
  {
    for k := 0 to |recs|
      invariant forall i :: 0 <= i < k ==> IsValidCombination(recs[i].matchStatus, recs[i].practiceStatus)
    {
      if (recs[k].matchStatus, recs[k].practiceStatus) !in ValidCombinations {
        return Fail(InvalidStatusMessage);
      }
    }
    return Pass;
  }
}

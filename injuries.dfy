/** A patient's injury (`sports.patient.injury`): its stage, and the bookkeeping that makes
    the treatment professionals follow it. */
module Injuries {
  import opened Wrappers
  import opened Dates

  /** The instant an injury happened; the model only stores and copies it. */
  type DateTime = int

  datatype InjuryStage = Active | Resolved

  /** The stage of an injury: resolved once a resolution date is set and has been reached. */
  function InjuryStageOf(resolutionDate: Option<Date>, today: Date): (r: InjuryStage)
    ensures r == Resolved <==> resolutionDate.Some? && AtOrBefore(resolutionDate.value, today)
  {
    if resolutionDate.Some? && AtOrBefore(resolutionDate.value, today) then Resolved else Active
  }

  /** An injury that is resolved stays resolved as days go by, and one without a resolution
      date is active whatever the day. */
  lemma ResolvedStaysResolved(resolutionDate: Option<Date>, today: Date, later: Date)
    requires AtOrBefore(today, later)
    ensures InjuryStageOf(resolutionDate, today) == Resolved ==> InjuryStageOf(resolutionDate, later) == Resolved
    ensures resolutionDate == None ==> InjuryStageOf(resolutionDate, later) == Active
  {
  }

  /** A contact (`res.partner`), the kind of record that follows a document. */
  type PartnerId = nat

  /** A user (`res.users`) and the partner it is attached to. */
  datatype User = User(id: nat, partner: PartnerId)

  predicate NoDup(s: seq<PartnerId>) {
    forall i, j :: 0 <= i < j < |s| ==> s[i] != s[j]
  }

  /** The partners of a list of users, as a set. */
  function PartnerSet(users: seq<User>): set<PartnerId> {
    set u | u in users :: u.partner
  }

  /** `users.mapped('partner_id')`: every user's partner once, in order of first occurrence. */
  function Partners(users: seq<User>): (r: seq<PartnerId>)
    ensures NoDup(r)
    ensures forall p :: p in r <==> p in PartnerSet(users)
  {
    if users == [] then []
    else
      var init := users[..|users| - 1];
      var last := users[|users| - 1];
      assert users == init + [last];
      var ps := Partners(init);
      if last.partner in ps then ps else ps + [last.partner]
  }

  /** Recordset difference `a - b`: the elements of `a` that are not in `b`, in `a`'s order. */
  function Minus(a: seq<PartnerId>, b: seq<PartnerId>): (r: seq<PartnerId>)
    ensures forall p :: p in r <==> p in a && p !in b
    ensures NoDup(a) ==> NoDup(r)
    ensures (forall p :: p in a ==> p in b) ==> r == []
  {
    if a == [] then []
    else
      var rest := Minus(a[1..], b);
      assert NoDup(a) ==> a[0] !in a[1..];
      (if a[0] in b then [] else [a[0]]) + rest
  }

  /** The partners to subscribe: the professionals' partners that do not follow yet. */
  function ToSubscribe(professionals: seq<User>, followers: seq<PartnerId>): (r: seq<PartnerId>)
    ensures NoDup(r)
    ensures forall p :: p in r <==> p in PartnerSet(professionals) && p !in followers
    ensures (forall u :: u in professionals ==> u.partner in followers) ==> r == []
  {
    Minus(Partners(professionals), followers)
  }

  /** The followers after `message_subscribe(to_subscribe)`: the old followers, in place, then
      one new follower per professional's partner not among them. Every professional's partner
      then follows, and no follower is duplicated. */
  function Synced(professionals: seq<User>, followers: seq<PartnerId>): (r: seq<PartnerId>)
    ensures |r| >= |followers| && r[..|followers|] == followers
    ensures forall u :: u in professionals ==> u.partner in r
    ensures forall p :: p in r <==> p in followers || p in PartnerSet(professionals)
    ensures NoDup(followers) ==> NoDup(r)
  {
    SyncedFacts(professionals, followers);
    followers + ToSubscribe(professionals, followers)
  }

  lemma SyncedFacts(professionals: seq<User>, followers: seq<PartnerId>)
    ensures var s := followers + ToSubscribe(professionals, followers);
      (forall u :: u in professionals ==> u.partner in s)
      && (NoDup(followers) ==> NoDup(s))
  {
    var t := ToSubscribe(professionals, followers);
    var s := followers + t;
    if NoDup(followers) {
      forall i, j | 0 <= i < j < |s| ensures s[i] != s[j] {
        if j < |followers| {
        } else if i < |followers| {
          assert s[j] in t;
        } else {
          assert s[i] == t[i - |followers|] && s[j] == t[j - |followers|];
        }
      }
    }
    forall u | u in professionals ensures u.partner in s {
      assert u.partner in PartnerSet(professionals);
    }
  }

  /** Syncing a second time with the same professionals subscribes nobody. */
  lemma SyncedIdempotent(professionals: seq<User>, followers: seq<PartnerId>)
    requires NoDup(followers)
    ensures ToSubscribe(professionals, Synced(professionals, followers)) == []
    ensures Synced(professionals, Synced(professionals, followers)) == Synced(professionals, followers)
  {
  }

  /** The values handed to `create` or `write`; `None` means the key is absent. */
  datatype InjuryValues = InjuryValues(
    injuryTime: Option<DateTime>,
    resolutionDate: Option<Option<Date>>,
    professionals: Option<seq<User>>)

  class PatientInjury {
    var injuryTime: DateTime
    var resolutionDate: Option<Date>
    var professionals: seq<User>
    /** `message_follower_ids`, each follower given by its partner. */
    var followers: seq<PartnerId>
    /** The computed `stage` field. */
    var stage: InjuryStage

    /** A partner follows a document at most once. */
    ghost predicate Valid()
      reads this
    {
      NoDup(followers)
    }

    /** `create` for one record: the framework stores the values (an absent injury time takes
        the default captured when the module was loaded) and starts the followers with
        `initialFollowers`; then the professionals' partners that do not follow yet are
        subscribed. */
    constructor Create(vals: InjuryValues, defaultTime: DateTime, initialFollowers: seq<PartnerId>, today: Date)
      requires NoDup(initialFollowers)
      ensures Valid()
      ensures injuryTime == (if vals.injuryTime.Some? then vals.injuryTime.value else defaultTime)
      ensures resolutionDate == (if vals.resolutionDate.Some? then vals.resolutionDate.value else None)
      ensures professionals == (if vals.professionals.Some? then vals.professionals.value else [])
      ensures stage == InjuryStageOf(resolutionDate, today)
      ensures followers == Synced(professionals, initialFollowers)
      ensures forall u :: u in professionals ==> u.partner in followers
    {
      var resolution := if vals.resolutionDate.Some? then vals.resolutionDate.value else None;
      injuryTime := if vals.injuryTime.Some? then vals.injuryTime.value else defaultTime;
      resolutionDate := resolution;
      professionals := if vals.professionals.Some? then vals.professionals.value else [];
      followers := initialFollowers;
      stage := InjuryStageOf(resolution, today);
      new;
      ghost var synced := Synced(professionals, followers);
      var toSubscribe := ToSubscribe(professionals, followers);
      Subscribe(toSubscribe);
    }

    /** `message_subscribe(partners)`: one new follower per partner given. */
    method Subscribe(partners: seq<PartnerId>)
      modifies this`followers
      ensures followers == old(followers) + partners
    {
      followers := followers + partners;
    }

    /** `_compute_stage`. */
    method ComputeStage(today: Date)
      modifies this`stage
      ensures stage == InjuryStageOf(resolutionDate, today)
    {
      if resolutionDate.Some? && AtOrBefore(resolutionDate.value, today) {
        stage := Resolved;
      } else {
        stage := Active;
      }
    }

    /** `write` on one record: the values are stored; when they name the treatment
        professionals, the professionals' partners that do not follow yet are subscribed.
        A write without that key leaves the followers alone. */
    method Write(vals: InjuryValues)
      requires Valid()
      modifies this
      ensures Valid()
      ensures injuryTime == (if vals.injuryTime.Some? then vals.injuryTime.value else old(injuryTime))
      ensures resolutionDate == (if vals.resolutionDate.Some? then vals.resolutionDate.value else old(resolutionDate))
      ensures professionals == (if vals.professionals.Some? then vals.professionals.value else old(professionals))
      ensures stage == old(stage)
      ensures followers == (if vals.professionals.Some? then Synced(professionals, old(followers)) else old(followers))
      ensures vals.professionals.Some? ==> forall u :: u in professionals ==> u.partner in followers
    {
      if vals.injuryTime.Some? {
        injuryTime := vals.injuryTime.value;
      }
      if vals.resolutionDate.Some? {
        resolutionDate := vals.resolutionDate.value;
      }
      if vals.professionals.Some? {
        professionals := vals.professionals.value;
        ghost var synced := Synced(professionals, followers);
        var toSubscribe := ToSubscribe(professionals, followers);
        Subscribe(toSubscribe);
      }
    }
  }

  /** The record `create` makes from `vals`: valid, with the given professionals, and followed
      by the initial followers and then the professionals' partners not among them. */
  ghost predicate CreatedFrom(rec: PatientInjury, vals: InjuryValues, initialFollowers: seq<PartnerId>)
    reads rec
  {
    rec.Valid()
    && rec.professionals == (if vals.professionals.Some? then vals.professionals.value else [])
    && rec.followers == Synced(rec.professionals, initialFollowers)
  }

  /** `create` for a list of values: one record per values, each synced on its own. */
  method CreateMulti(valsList: seq<InjuryValues>, defaultTime: DateTime, initialFollowers: seq<PartnerId>, today: Date)
    returns (res: seq<PatientInjury>)
    requires NoDup(initialFollowers)
    ensures |res| == |valsList|
    ensures forall i :: 0 <= i < |res| ==> fresh(res[i]) && CreatedFrom(res[i], valsList[i], initialFollowers)
  {
    res := [];
    for k := 0 to |valsList|
      invariant |res| == k
      invariant forall i :: 0 <= i < k ==> fresh(res[i]) && CreatedFrom(res[i], valsList[i], initialFollowers)
    {
      var rec := new PatientInjury.Create(valsList[k], defaultTime, initialFollowers, today);
      assert CreatedFrom(rec, valsList[k], initialFollowers);
      res := res + [rec];
    }
  }

  /** One injury seen as a follower list, for writes that touch several records at once. */
  datatype Thread = Thread(professionals: seq<User>, followers: seq<PartnerId>)

  /** The followers of all the records together (`self.message_follower_ids` on a set): a
      partner is in it exactly when it follows one of the records. */
  function AllFollowers(recs: seq<Thread>): (r: seq<PartnerId>)
    ensures forall i, p :: 0 <= i < |recs| && p in recs[i].followers ==> p in r
    ensures forall p :: p in r ==> exists i :: 0 <= i < |recs| && p in recs[i].followers
  {
    if recs == [] then []
    else
      var rest := AllFollowers(recs[1..]);
      assert forall p :: p in rest ==> exists i :: 0 <= i < |recs| && p in recs[i].followers by {
        forall p | p in rest ensures exists i :: 0 <= i < |recs| && p in recs[i].followers {
          var k :| 0 <= k < |recs[1..]| && p in recs[1..][k].followers;
          assert p in recs[k + 1].followers;
        }
      }
      recs[0].followers + rest
  }

  /** `write({'treatment_professional_ids': professionals})` on several records as written: the
      partners subscribed are the professionals' partners minus the followers of ANY of the
      records, and that one list is subscribed on every record. So a professional's partner ends
      up following a record only if it already did, or if it followed none of the records; one
      that follows some other record is never subscribed. */
  function BatchWriteAsWritten(recs: seq<Thread>, professionals: seq<User>): (r: seq<Thread>)
    ensures |r| == |recs|
    ensures forall i :: 0 <= i < |recs| ==>
      r[i].professionals == professionals
      && |r[i].followers| >= |recs[i].followers| && r[i].followers[..|recs[i].followers|] == recs[i].followers
    ensures forall i, u :: 0 <= i < |recs| && u in professionals ==>
      (u.partner in r[i].followers <==> u.partner in recs[i].followers || u.partner !in AllFollowers(recs))
    ensures forall i, j, u ::
      (0 <= i < |recs| && 0 <= j < |recs| && u in professionals
       && u.partner in recs[j].followers && u.partner !in recs[i].followers) ==> u.partner !in r[i].followers
  {
    var toSubscribe := Minus(Partners(professionals), AllFollowers(recs));
    assert forall u :: u in professionals ==> u.partner in PartnerSet(professionals);
    seq(|recs|, i requires 0 <= i < |recs| => Thread(professionals, recs[i].followers + toSubscribe))
  }

  /** Two injuries get the same professional; the professional's partner already follows the
      first, so as written it is never subscribed to the second. */
  lemma BatchWriteAsWrittenMissesPartner()
    ensures var pro := User(1, 7);
      var r := BatchWriteAsWritten([Thread([], [7]), Thread([], [])], [pro]);
      |r| == 2 && pro in r[1].professionals && pro.partner !in r[1].followers
  {
  }

  /** The same write, synced record by record as `create` does: every record keeps its
      followers in place, gains exactly the professionals' partners it lacked, duplicates none,
      and ends up followed by every professional's partner. */
  function BatchWrite(recs: seq<Thread>, professionals: seq<User>): (r: seq<Thread>)
    ensures |r| == |recs|
    ensures forall i :: 0 <= i < |recs| ==>
      r[i].professionals == professionals
      && |r[i].followers| >= |recs[i].followers| && r[i].followers[..|recs[i].followers|] == recs[i].followers
    ensures forall i, u :: 0 <= i < |recs| && u in professionals ==> u.partner in r[i].followers
    ensures forall i, p :: 0 <= i < |recs| ==>
      (p in r[i].followers <==> p in recs[i].followers || p in PartnerSet(professionals))
    ensures forall i :: 0 <= i < |recs| && NoDup(recs[i].followers) ==> NoDup(r[i].followers)
  {
    seq(|recs|, i requires 0 <= i < |recs| => Thread(professionals, Synced(professionals, recs[i].followers)))
  }
}

/** The identity check rows as the service writes them, and its refresh loop. */
module KycStore {
  import opened Options
  import opened Kyc
  import opened KycTheorems

  /** The check shows the answer, in every field that the answer has. */
  predicate Holds(c: Check, a: Answer) {
    && StoredStatus(c.status) == a.status
    && (a.confidence.Some? ==> c.confidence == a.confidence) && (a.message.Some? ==> c.message == a.message)
    && (a.masked.Some? ==> c.masked == a.masked) && (a.verifiedAt.Some? ==> c.verifiedAt == a.verifiedAt)
  }

  /** It is the same check: an update changes neither its provider nor its type nor its time. */
  predicate SameCheck(c: Check, before: Check) {
    c.provider == before.provider && c.kind == before.kind && c.createdAt == before.createdAt
  }

  /** Other providers' checks and profiles stay. */
  ghost predicate OthersStay(s: State, s': State, p: Id) {
    forall q | q != p ::
      Of(s'.checks, q) == Of(s.checks, q) && (q in s'.profiles <==> q in s.profiles)
      && (q in s.profiles ==> s'.profiles[q] == s.profiles[q])
  }

  lemma CreateLeavesOthers(s: State, p: Id, a: Answer, createdAt: int, now: int)
    ensures OthersStay(s, CreateCheck(s, p, a, createdAt, now).0, p)
  {
    var placed := PlaceCheck(s.checks, p, a, createdAt);
    if placed.Some? {
      var i := if Taken(s.checks, a.reference) then Find(s.checks, a.reference.value) else |s.checks|;
      forall q | q != p ensures Of(placed.value, q) == Of(s.checks, q) {
        if i < |s.checks| {
          OfIgnoresOthers(s.checks, i, placed.value[i], q);
        } else {
          assert placed.value[..i] == s.checks;
        }
      }
    }
    hide Recomputed, Of, PlaceCheck;
  }

  lemma UpdateLeavesOthers(s: State, id: nat, a: Answer, now: int)
    requires id < |s.checks|
    ensures OthersStay(s, UpdateCheck(s, id, a, now).0, s.checks[id].provider)
  {
    var row := Updated(s.checks[id], a);
    var written := row.(reference := Or(a.reference, row.reference));
    forall q | q != row.provider ensures Of(s.checks[id := written], q) == Of(s.checks, q) {
      OfIgnoresOthers(s.checks, id, written, q);
    }
    hide Recomputed, Of;
  }

  class Store {
    var checks: seq<Check>
    var profiles: map<Id, Profile>

    function Rows(): State
      reads this
    {
      State(checks, profiles)
    }

    constructor ()
      ensures Rows() == State([], map[])
    {
      checks, profiles := [], map[];
    }

    /** The newest check of each kind, read newest first; `None` when a check type makes the reader throw. */
    method LatestByKind(mine: seq<Check>) returns (latest: Option<map<Kind, Check>>)
      ensures latest.Some? <==> AllKnown(mine)
      ensures latest.Some? ==> forall k :: Newest(mine, k) == if k in latest.value then Some(latest.value[k]) else None
    {
      var found: map<Kind, Check> := map[];
      var i := |mine|;
      assert mine[..i] == mine;
      while i > 0
        invariant 0 <= i <= |mine|
        invariant forall j | i <= j < |mine| :: !ReadKind(mine[j].kind).Unknown?
        invariant forall k | k in found :: Newest(mine, k) == Some(found[k])
        invariant forall k | k !in found :: Newest(mine, k) == Newest(mine[..i], k)
      {
        i := i - 1;
        assert mine[..i + 1][..i] == mine[..i];
        var check := mine[i];
        match ReadKind(check.kind)
        case Unknown =>
          assert check in mine;
          return None;
        case Blank => continue;
        case Known(k) =>
          if k in found { continue; }
          found := found[k := check];
      }
      return Some(found);
    }

    method RefreshProviderKycProfile(p: Id, now: int) returns (ok: bool)
      modifies this`profiles
      ensures (Rows(), ok) == Refresh(old(Rows()), p, now)
    {
      var mine := Of(checks, p);
      var latest := LatestByKind(mine);
      if latest.None? { return false; }
      var nin := if NinFace in latest.value then Some(latest.value[NinFace]) else None;
      var phone := if Phone in latest.value then Some(latest.value[Phone]) else None;
      var profile := Summary(nin, phone, if |mine| > 0 then Some(mine[|mine| - 1].createdAt) else None, now);
      profiles := profiles[p := profile];
      return true;
    }

    /**
     Writes the check, then refreshes the profile; the two writes are not one transaction. From rows in order
     it succeeds exactly when no other check stands in the way of the vendor reference, and then the profile
     agrees with the checks, which hold the answer. Other providers notice nothing.
     */
    method CreateCheckAndRefreshProfile(p: Id, a: Answer, createdAt: int, now: int) returns (ok: bool)
      modifies this
      ensures (Rows(), ok) == CreateCheck(old(Rows()), p, a, createdAt, now)
      ensures old(Inv(Rows())) ==> Inv(Rows()) && (ok <==> PlaceCheck(old(checks), p, a, createdAt).Some?)
      ensures old(Inv(Rows())) && ok ==> Agrees(Rows(), p)
      ensures ok ==> exists c :: c in checks && c.provider == p && Holds(c, a)
      ensures ok && !Taken(old(checks), a.reference) ==>
                && checks == old(checks) + [checks[|checks| - 1]]
                && checks[|checks| - 1] == Check(p, KindText(a.kind), StatusText(a.status), a.reference, a.confidence,
                                                 a.message, a.masked, a.verifiedAt, createdAt)
      ensures OthersStay(old(Rows()), Rows(), p)
    {
      if Inv(Rows()) { CreateKeeps(Rows(), p, a, createdAt, now); }
      CreateLeavesOthers(Rows(), p, a, createdAt, now);
      TextReadsBack(a.kind, a.status);
      hide Inv, OthersStay, Agrees, StoredStatus, ReadKind, AllKnown;
      if p !in profiles { profiles := profiles[p := DEFAULT_PROFILE]; }
      var existing := if a.reference.Some? then Find(checks, a.reference.value) else |checks|;
      if a.reference.Some? && a.reference.value != "" && existing < |checks| && checks[existing].provider == p {
        checks := checks[existing := Updated(checks[existing], a)];
        assert checks[existing] in checks && Holds(checks[existing], a);
      } else if existing < |checks| {
        return false;
      } else {
        checks := checks + [NewCheck(p, a, createdAt)];
        assert checks[|checks| - 1] in checks && Holds(checks[|checks| - 1], a);
      }
      ok := RefreshProviderKycProfile(p, now);
    }

    /**
     Updates a check by id, then refreshes its provider's profile. From rows in order it either changes nothing
     or leaves the answer in that check, every other check as it was, and the profile in agreement.
     */
    method UpdateCheckAndRefreshProfile(id: nat, a: Answer, now: int) returns (ok: bool)
      modifies this
      ensures (Rows(), ok) == UpdateCheck(old(Rows()), id, a, now)
      ensures old(Inv(Rows())) ==>
              Inv(Rows())
                && (if ok then id < |checks| && Agrees(Rows(), checks[id].provider) else Rows() == old(Rows()))
      ensures ok ==>
                && id < |checks| == |old(checks)| && checks == old(checks)[id := checks[id]]
                && Holds(checks[id], a) && SameCheck(checks[id], old(checks)[id])
                && (a.reference.Some? ==> checks[id].reference == a.reference)
                && OthersStay(old(Rows()), Rows(), checks[id].provider)
    {
      if Inv(Rows()) { UpdateKeeps(Rows(), id, a, now); }
      if id < |checks| { UpdateLeavesOthers(Rows(), id, a, now); }
      TextReadsBack(a.kind, a.status);
      hide Inv, OthersStay, Agrees, StoredStatus, ReadKind, AllKnown;
      if id >= |checks| { return false; }
      if a.reference.Some? {
        var holder := Find(checks, a.reference.value);
        if holder < |checks| && holder != id { return false; }
      }
      var row := Updated(checks[id], a);
      checks := checks[id := row.(reference := Or(a.reference, row.reference))];
      ok := RefreshProviderKycProfile(row.provider, now);
    }
  }
}

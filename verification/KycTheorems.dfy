/** The cached profile follows from the checks after every run. */
module KycTheorems {
  import opened Options
  import opened Kyc

  datatype Call =
    | Create(p: Id, answer: Answer, createdAt: int, now: int)
    | Update(id: nat, answer: Answer, now: int)
    | RefreshOnly(p: Id, now: int)

  function Next(s: State, c: Call): State {
    match c
    case Create(p, answer, createdAt, now) => CreateCheck(s, p, answer, createdAt, now).0
    case Update(id, answer, now) => UpdateCheck(s, id, answer, now).0
    case RefreshOnly(p, now) => Refresh(s, p, now).0
  }

  function Run(s: State, calls: seq<Call>): State
    decreases |calls|
  {
    if calls == [] then s else Run(Next(s, calls[0]), calls[1..])
  }

  // ----- what a profile says

  /** The newest check of a kind is the last one that reads as that kind. */
  lemma {:induction false} NewestIsTheLast(mine: seq<Check>, k: Kind, i: nat)
    requires i < |mine| && ReadKind(mine[i].kind) == Known(k)
    requires forall j | i < j < |mine| :: ReadKind(mine[j].kind) != Known(k)
    ensures Newest(mine, k) == Some(mine[i])
  {
    if i < |mine| - 1 { NewestIsTheLast(mine[..|mine| - 1], k, i); }
  }

  lemma {:induction false} NewestIsOfItsKind(mine: seq<Check>, k: Kind)
    ensures Newest(mine, k).Some? ==> Newest(mine, k).value in mine && ReadKind(Newest(mine, k).value.kind) == Known(k)
    ensures Newest(mine, k).None? ==> forall c | c in mine :: ReadKind(c.kind) != Known(k)
  {
    if mine != [] {
      NewestIsOfItsKind(mine[..|mine| - 1], k);
      assert mine == mine[..|mine| - 1] + [mine[|mine| - 1]];
    }
  }

  predicate NewestVerified(mine: seq<Check>, k: Kind) {
    Newest(mine, k).Some? && StoredStatus(Newest(mine, k).value.status).Verified?
  }

  /** A profile is verified exactly when its level is 2, exactly when the newest check of each kind is verified. */
  lemma VerifiedMeansBothNewest(mine: seq<Check>, now: int)
    ensures var profile := Recomputed(mine, now);
            && (profile.overall.Verified? <==> profile.level == 2)
            && profile.level
                 == (if NewestVerified(mine, NinFace) then 1 else 0) + (if NewestVerified(mine, Phone) then 1 else 0)
            && (profile.overall.Unverified? <==> profile.nin.Unverified? && profile.phone.Unverified?)
            && (profile.level == 2 <==> NewestVerified(mine, NinFace) && NewestVerified(mine, Phone))
            && (profile.overall.Failed? <==>
                 !profile.overall.Verified? && (profile.nin.Failed? || profile.phone.Failed?))
  {
    hide ReadKind, StoredStatus, Newest;
    OverallOfTwo(StatusOf(Newest(mine, NinFace)), StatusOf(Newest(mine, Phone)));
  }

  /**
   The failure summary lists exactly the types whose newest check failed, and times are kept exactly for
   verified ones.
   */
  lemma SummaryIsExact(mine: seq<Check>, now: int, k: Kind)
    ensures var profile, newest := Recomputed(mine, now), Newest(mine, k);
            && (newest.Some? && StatusOf(newest).Failed? <==> exists message :: (k, message) in profile.failures)
            && (NewestVerified(mine, k) <==>
                  if k.NinFace? then profile.ninVerifiedAt.Some? else profile.phoneVerifiedAt.Some?)
            && (newest.Some? && StatusOf(newest).Failed? ==>
                  (k, if newest.value.message.Some? then newest.value.message.value else "failed") in profile.failures)
            && (NewestVerified(mine, k) ==>
                  (if k.NinFace? then profile.ninVerifiedAt else profile.phoneVerifiedAt) ==
                  if newest.value.verifiedAt.Some? then newest.value.verifiedAt else Some(now))
            && (k.NinFace? && newest.Some? ==> profile.faceConfidence == newest.value.confidence)
            && (newest.None? ==> (if k.NinFace? then profile.maskedNin else profile.maskedPhone).None?)
            && profile.syncedAt == Some(now)
            && profile.lastCheckAt == (if mine == [] then None else Some(mine[|mine| - 1].createdAt))
            && (newest.Some? ==> (if k.NinFace? then profile.maskedNin else profile.maskedPhone) == newest.value.masked)
            && profile.faceVerifiedAt == profile.ninVerifiedAt && profile.face == profile.nin
  {
    hide ReadKind, StoredStatus, OverallStatus;
    var profile, newest := Recomputed(mine, now), Newest(mine, k);
    var message := if newest.Some? && newest.value.message.Some? then newest.value.message.value else "failed";
    if newest.Some? && StatusOf(newest).Failed? { assert (k, message) in profile.failures; }
  }

  lemma OverallOfTwo(a: Status, b: Status)
    ensures OverallStatus([a, b]) ==
      if a.Verified? && b.Verified? then Verified
      else if a.Failed? || b.Failed? then Failed
      else if a.Unverified? && b.Unverified? then Unverified else Pending
  {
    assert a in [a, b] && b in [a, b];
  }

  /** Checks of known kinds in the order of their creation. */
  ghost predicate Regular(mine: seq<Check>) {
    && (forall c | c in mine :: ReadKind(c.kind).Known?)
    && (forall i, j | 0 <= i < j < |mine| :: mine[i].createdAt <= mine[j].createdAt)
  }

  function LatestOf(a: Option<Check>, b: Option<Check>): Option<int> {
    if a.None? && b.None? then None
    else if a.None? then Some(b.value.createdAt)
    else if b.None? || a.value.createdAt >= b.value.createdAt then Some(a.value.createdAt)
    else Some(b.value.createdAt)
  }

  /** A profile depends on nothing but the newest check of each kind. */
  lemma ProfileComesFromNewestChecks(mine: seq<Check>, now: int)
    requires Regular(mine)
    ensures var nin, phone := Newest(mine, NinFace), Newest(mine, Phone);
            Recomputed(mine, now) == Summary(nin, phone, LatestOf(nin, phone), now)
  {
    hide ReadKind, StoredStatus;
    if mine != [] {
      var last := mine[|mine| - 1];
      assert last in mine;
      NewestIsOfItsKind(mine, NinFace);
      NewestIsOfItsKind(mine, Phone);
      assert Newest(mine, ReadKind(last.kind).kind) == Some(last);
      forall c | c in mine ensures c.createdAt <= last.createdAt { }
      match ReadKind(last.kind).kind
      case NinFace =>
      case Phone =>
    }
  }

  // ----- agreement over runs

  predicate HasCheck(s: State, p: Id) { Of(s.checks, p) != [] }

  /** The stored profile is what a recomputation at the time of its last refresh gives. */
  predicate Agrees(s: State, p: Id) {
    p in s.profiles && s.profiles[p].syncedAt.Some?
      && s.profiles[p] == Recomputed(Of(s.checks, p), s.profiles[p].syncedAt.value)
  }

  ghost predicate Inv(s: State) {
    && (forall c | c in s.checks :: ReadKind(c.kind).Known?)
    && (forall p | HasCheck(s, p) :: Agrees(s, p))
  }

  lemma {:induction false} OfHasOwn(checks: seq<Check>, p: Id)
    ensures forall c :: c in Of(checks, p) <==> c in checks && c.provider == p
  {
    if checks != [] {
      OfHasOwn(checks[..|checks| - 1], p);
      assert checks == checks[..|checks| - 1] + [checks[|checks| - 1]];
    }
  }

  /** Another provider's check may be rewritten without a trace. */
  lemma {:induction false} OfIgnoresOthers(checks: seq<Check>, i: nat, row: Check, p: Id)
    requires i < |checks| && row.provider == checks[i].provider != p
    ensures Of(checks[i := row], p) == Of(checks, p)
  {
    var n := |checks| - 1;
    if i < n {
      OfIgnoresOthers(checks[..n], i, row, p);
      assert checks[i := row][..n] == checks[..n][i := row];
    } else {
      assert checks[i := row][..n] == checks[..n];
    }
  }

  lemma RecomputedAt(mine: seq<Check>, now: int)
    ensures Recomputed(mine, now).syncedAt == Some(now)
  {
  }

  lemma RefreshRestores(s: State, p: Id, now: int)
    requires forall c | c in s.checks :: ReadKind(c.kind).Known?
    requires forall q | q != p && HasCheck(s, q) :: Agrees(s, q)
    ensures Inv(Refresh(s, p, now).0) && Refresh(s, p, now).1 && Agrees(Refresh(s, p, now).0, p)
  {
    OfHasOwn(s.checks, p);
    assert AllKnown(Of(s.checks, p));
    RecomputedAt(Of(s.checks, p), now);
    hide ReadKind, Recomputed, Of, AllKnown;
    var s' := Refresh(s, p, now).0;
    forall q | HasCheck(s', q) ensures Agrees(s', q) {
      if q != p { assert HasCheck(s, q) && Agrees(s, q); }
    }
  }

  /** Appending or rewriting one provider's check leaves the others in agreement. */
  lemma OthersAgree(s: State, checks: seq<Check>, p: Id, q: Id)
    requires Inv(s) && q != p && Of(checks, q) == Of(s.checks, q) && HasCheck(s, q)
    ensures Agrees(State(checks, s.profiles), q) && Agrees(State(checks, Ensured(s.profiles, p)), q)
  {
    hide ReadKind, Recomputed, Of;
    assert Agrees(s, q);
  }

  lemma CreateKeeps(s: State, p: Id, a: Answer, createdAt: int, now: int)
    requires Inv(s)
    ensures Inv(CreateCheck(s, p, a, createdAt, now).0)
    ensures CreateCheck(s, p, a, createdAt, now).1 ==> Agrees(CreateCheck(s, p, a, createdAt, now).0, p)
    ensures CreateCheck(s, p, a, createdAt, now).1 <==> PlaceCheck(s.checks, p, a, createdAt).Some?
  {
    hide ReadKind, Recomputed, Refresh;
    var placed := PlaceCheck(s.checks, p, a, createdAt);
    if placed.None? {
      var s' := s.(profiles := Ensured(s.profiles, p));
      forall q | HasCheck(s', q) ensures Agrees(s', q) { assert HasCheck(s, q) && Agrees(s, q); }
    } else {
      var checks := placed.value;
      TextReadsBack(a.kind, a.status);
      var i := if Taken(s.checks, a.reference) then Find(s.checks, a.reference.value) else |s.checks|;
      forall q | q != p ensures Of(checks, q) == Of(s.checks, q) {
        if i < |s.checks| { OfIgnoresOthers(s.checks, i, checks[i], q); } else { assert checks[..i] == s.checks; }
      }
      forall q | q != p && HasCheck(State(checks, Ensured(s.profiles, p)), q)
        ensures Agrees(State(checks, Ensured(s.profiles, p)), q)
      {
        OthersAgree(s, checks, p, q);
      }
      RefreshRestores(State(checks, Ensured(s.profiles, p)), p, now);
    }
  }

  lemma UpdateKeeps(s: State, id: nat, a: Answer, now: int)
    requires Inv(s)
    ensures Inv(UpdateCheck(s, id, a, now).0)
    ensures UpdateCheck(s, id, a, now).1 ==>
            id < |s.checks| && Agrees(UpdateCheck(s, id, a, now).0, s.checks[id].provider)
    ensures !UpdateCheck(s, id, a, now).1 ==> UpdateCheck(s, id, a, now).0 == s
  {
    hide ReadKind, Recomputed, Refresh;
    if id < |s.checks| && !(Taken(s.checks, a.reference) && Find(s.checks, a.reference.value) != id) {
      var row := Updated(s.checks[id], a);
      var checks := s.checks[id := row.(reference := Or(a.reference, row.reference))];
      forall q | q != row.provider && HasCheck(s.(checks := checks), q) ensures Agrees(s.(checks := checks), q) {
        OfIgnoresOthers(s.checks, id, checks[id], q);
        OthersAgree(s, checks, row.provider, q);
      }
      RefreshRestores(s.(checks := checks), row.provider, now);
    }
  }

  lemma NextKeeps(s: State, c: Call)
    requires Inv(s)
    ensures Inv(Next(s, c))
  {
    hide CreateCheck, UpdateCheck, Refresh, ReadKind, Recomputed;
    match c
    case Create(p, answer, createdAt, now) => CreateKeeps(s, p, answer, createdAt, now);
    case Update(id, answer, now) => UpdateKeeps(s, id, answer, now);
    case RefreshOnly(p, now) => RefreshRestores(s, p, now);
  }

  lemma {:induction false} RunKeeps(s: State, calls: seq<Call>)
    requires Inv(s)
    ensures Inv(Run(s, calls))
    decreases |calls|
  {
    hide Inv;
    if calls != [] {
      NextKeeps(s, calls[0]);
      RunKeeps(Next(s, calls[0]), calls[1..]);
    }
  }

  /** After every run, the stored profile of each provider with a check is the recomputation from all its checks. */
  lemma ProfilesAgree(calls: seq<Call>, p: Id)
    ensures var s := Run(State([], map[]), calls); HasCheck(s, p) ==> Agrees(s, p)
  {
    RunKeeps(State([], map[]), calls);
  }

  /**
   A provider's first create call leaves an agreeing profile exactly when it does not throw, which is
   when no check has the vendor reference; otherwise the profile keeps its column defaults.
   */
  lemma FirstCreateAgreesExactlyWhenPlaced(calls: seq<Call>, p: Id, a: Answer, createdAt: int, now: int)
    requires var s := Run(State([], map[]), calls); p !in s.profiles
    ensures var s := Run(State([], map[]), calls);
            Agrees(CreateCheck(s, p, a, createdAt, now).0, p) <==> !Taken(s.checks, a.reference)
    ensures var s := Run(State([], map[]), calls);
            Taken(s.checks, a.reference) ==>
              && p in CreateCheck(s, p, a, createdAt, now).0.profiles
              && CreateCheck(s, p, a, createdAt, now).0.profiles[p].overall.Pending?
              && Recomputed([], now).overall.Unverified?
  {
    RunKeeps(State([], map[]), calls);
    hide Run;
    FirstCreate(Run(State([], map[]), calls), p, a, createdAt, now);
  }

  lemma FirstCreate(s: State, p: Id, a: Answer, createdAt: int, now: int)
    requires Inv(s) && p !in s.profiles
    ensures Agrees(CreateCheck(s, p, a, createdAt, now).0, p) <==> !Taken(s.checks, a.reference)
    ensures Taken(s.checks, a.reference) ==>
              && p in CreateCheck(s, p, a, createdAt, now).0.profiles
              && CreateCheck(s, p, a, createdAt, now).0.profiles[p].overall.Pending?
              && Recomputed([], now).overall.Unverified?
  {
    assert Unverified in [Unverified, Unverified];
    assert Recomputed([], now).overall.Unverified?;
    CreateKeeps(s, p, a, createdAt, now);
    OfHasOwn(s.checks, p);
    assert !HasCheck(s, p);
    assert forall c | c in s.checks :: c.provider != p;
    hide ReadKind, Inv, Refresh, Recomputed, Of;
  }

  // ----- refreshes that come late

  /** The columns of a profile that come from the newest check of a kind, at the time of a refresh. */
  function Shown(k: Kind, c: Option<Check>, now: int)
    : (Status, Option<int>, Option<real>, Option<string>, seq<(Kind, string)>)
  {
    (StatusOf(c), VerifiedTime(c, now),
     if k.NinFace? && c.Some? then c.value.confidence else None,
     if c.Some? then c.value.masked else None,
     FailureOf(k, c))
  }

  /** The upsert of a refresh that read the provider's checks as `mine`, whatever they are by now. */
  function LateRefresh(s: State, p: Id, mine: seq<Check>, now: int): State {
    s.(profiles := s.profiles[p := Recomputed(mine, now)])
  }

  /**
   A refresh whose read was overtaken stores a profile that disagrees exactly when, since the read, the newest
   check of a type has changed in a column that the profile shows, or a check has been created.
   */
  lemma LateRefreshDisagreesExactly(s: State, p: Id, mine: seq<Check>, now: int)
    ensures var current := Of(s.checks, p);
            Agrees(LateRefresh(s, p, mine, now), p) <==>
            && Shown(NinFace, Newest(mine, NinFace), now) == Shown(NinFace, Newest(current, NinFace), now)
            && Shown(Phone, Newest(mine, Phone), now) == Shown(Phone, Newest(current, Phone), now)
            && LastCreated(mine) == LastCreated(current)
  {
    hide ReadKind, StoredStatus, Newest, Of;
    var current := Of(s.checks, p);
    SummariesEqualExactly(Newest(mine, NinFace), Newest(mine, Phone), LastCreated(mine),
                          Newest(current, NinFace), Newest(current, Phone), LastCreated(current), now);
    RecomputedAt(mine, now);
    hide Summary, Shown;
  }

  lemma SummariesEqualExactly(nin: Option<Check>, phone: Option<Check>, last: Option<int>,
                              nin': Option<Check>, phone': Option<Check>, last': Option<int>, now: int)
    ensures Summary(nin, phone, last, now) == Summary(nin', phone', last', now) <==>
            Shown(NinFace, nin, now) == Shown(NinFace, nin', now)
              && Shown(Phone, phone, now) == Shown(Phone, phone', now)
            && last == last'
  {
    hide StoredStatus, VerifiedTime;
    FailuresSplit(nin, phone, nin', phone');
    hide FailureOf;
  }

  lemma FailuresSplit(nin: Option<Check>, phone: Option<Check>, nin': Option<Check>, phone': Option<Check>)
    ensures (FailureOf(NinFace, nin) + FailureOf(Phone, phone) == FailureOf(NinFace, nin') + FailureOf(Phone, phone'))
       <==> FailureOf(NinFace, nin) == FailureOf(NinFace, nin') && FailureOf(Phone, phone) == FailureOf(Phone, phone')
  {
    var a, b := FailureOf(NinFace, nin), FailureOf(Phone, phone);
    var c, d := FailureOf(NinFace, nin'), FailureOf(Phone, phone');
    FailuresAreTagged(NinFace, nin);
    FailuresAreTagged(NinFace, nin');
    FailuresAreTagged(Phone, phone);
    FailuresAreTagged(Phone, phone');
    hide FailureOf;
    if a + b == c + d {
      assert forall x | x in a :: x in a + b;
      assert forall x | x in c :: x in c + d;
      SameSmallSequence(a, c);
      assert (a + b)[|a|..] == b && (c + d)[|c|..] == d;
    }
  }

  lemma FailuresAreTagged(k: Kind, c: Option<Check>)
    ensures |FailureOf(k, c)| <= 1 && forall x | x in FailureOf(k, c) :: x.0 == k
  {
  }

  lemma SameSmallSequence(a: seq<(Kind, string)>, c: seq<(Kind, string)>)
    requires |a| <= 1 && |c| <= 1 && forall x :: x in a <==> x in c
    ensures a == c
  {
    assert a == [] || a[0] in c;
    assert c == [] || c[0] in a;
  }
}

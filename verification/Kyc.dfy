/** Identity checks of a provider, and the profile that caches what they amount to. */
module Kyc {
  import opened Options

  type Id = nat

  datatype Kind = NinFace | Phone

  datatype Status = Unverified | Pending | Verified | Failed

  // ----- stored text

  predicate IsBlankChar(c: char) { c == ' ' || c == '\t' || c == '\n' || c == '\r' }

  function Trim(s: string): string {
    if s == [] then []
    else if IsBlankChar(s[0]) then Trim(s[1..])
    else if IsBlankChar(s[|s| - 1]) then Trim(s[..|s| - 1])
    else s
  }

  function Lower(s: string): string {
    seq(|s|, i requires 0 <= i < |s| => if 'A' <= s[i] <= 'Z' then s[i] - 'A' + 'a' else s[i])
  }

  function DashesToUnderscores(s: string): string {
    seq(|s|, i requires 0 <= i < |s| => if s[i] == '-' then '_' else s[i])
  }

  function StoredStatus(text: string): Status {
    var s := Lower(Trim(text));
    if s == "unverified" then Unverified
    else if s == "pending" then Pending
    else if s == "verified" || s == "success" then Verified
    else if s == "failed" || s == "error" || s == "rejected" then Failed
    else Unverified
  }

  /** A stored check type is blank, one of the two kinds, or makes the reader throw. */
  datatype KindRead = Blank | Known(kind: Kind) | Unknown

  function ReadKind(text: string): KindRead {
    if Trim(text) == "" then Blank
    else
      var s := DashesToUnderscores(Lower(Trim(text)));
      if s == "nin_face" then Known(NinFace) else if s == "phone" then Known(Phone) else Unknown
  }

  function KindText(k: Kind): string {
    match k case NinFace => "nin_face" case Phone => "phone"
  }

  function StatusText(s: Status): string {
    match s
    case Unverified => "unverified"
    case Pending => "pending"
    case Verified => "verified"
    case Failed => "failed"
  }

  /** What each stored status means, up to its letter case and the blanks around it. */
  lemma StoredStatusTable(text: string)
    ensures StoredStatus(text).Verified? <==> Lower(Trim(text)) in {"verified", "success"}
    ensures StoredStatus(text).Failed? <==> Lower(Trim(text)) in {"failed", "error", "rejected"}
    ensures StoredStatus(text).Pending? <==> Lower(Trim(text)) == "pending"
    ensures Lower(Trim(" Verified ")) == "verified"
  {
    Spelled(text);
    assert " Verified "[1..] == "Verified ";
    assert "Verified "[..8] == "Verified";
    assert Trim("Verified") == "Verified";
    assert Trim("Verified ") == "Verified";
    assert Lower("Verified") == ['v', 'e', 'r', 'i', 'f', 'i', 'e', 'd'];
  }

  /** The words for the statuses are different words. */
  lemma Spelled(text: string)
    ensures |"unverified"| == 10 && |"pending"| == 7 && |"verified"| == 8 && |"success"| == 7
    ensures |"failed"| == 6 && |"error"| == 5 && |"rejected"| == 8
    ensures "pending"[0] == 'p' && "success"[0] == 's' && "verified"[0] == 'v' && "rejected"[0] == 'r'
  {
  }

  /** A blank type is passed over, the two known ones may be written with dashes or capitals, any other one throws. */
  lemma KindTable(text: string)
    ensures ReadKind(text).Blank? <==> Trim(text) == ""
    ensures ReadKind(text) == Known(NinFace) <==>
            DashesToUnderscores(Lower(Trim(text))) == "nin_face" && Trim(text) != ""
    ensures ReadKind(text) == Known(Phone) <==> DashesToUnderscores(Lower(Trim(text))) == "phone" && Trim(text) != ""
    ensures ReadKind("NIN-face") == Known(NinFace)
  {
    assert |"nin_face"| == 8 && |"phone"| == 5;
    assert Trim("NIN-face") == "NIN-face";
    assert Lower("NIN-face") == ['n', 'i', 'n', '-', 'f', 'a', 'c', 'e'];
    assert DashesToUnderscores(Lower("NIN-face")) == ['n', 'i', 'n', '_', 'f', 'a', 'c', 'e'];
  }

  /** What the service stores it reads back. */
  lemma TextReadsBack(k: Kind, s: Status)
    ensures ReadKind(KindText(k)) == Known(k) && StoredStatus(StatusText(s)) == s
  {
    assert Lower(KindText(k)) == KindText(k) == DashesToUnderscores(KindText(k));
    assert Lower(StatusText(s)) == StatusText(s);
  }

  // ----- rows

  datatype Check = Check(provider: Id, kind: string, status: string, reference: Option<string>,
                         confidence: Option<real>, message: Option<string>, masked: Option<string>,
                         verifiedAt: Option<int>, createdAt: int)

  /** A vendor's answer, normalized; a missing field leaves the stored one as it is. */
  datatype Answer = Answer(kind: Kind, status: Status, reference: Option<string>, confidence: Option<real>,
                           message: Option<string>, masked: Option<string>, verifiedAt: Option<int>)

  datatype Profile = Profile(overall: Status, level: nat, nin: Status, phone: Status, face: Status,
                             ninVerifiedAt: Option<int>, phoneVerifiedAt: Option<int>, faceVerifiedAt: Option<int>,
                             faceConfidence: Option<real>, maskedNin: Option<string>, maskedPhone: Option<string>,
                             failures: seq<(Kind, string)>, syncedAt: Option<int>, lastCheckAt: Option<int>)

  /** The column defaults of a profile that was inserted but never refreshed. */
  const DEFAULT_PROFILE :=
    Profile(Pending, 0, Unverified, Unverified, Unverified, None, None, None, None, None, None, [], None, None)

  /** Checks stand in the order in which they were created. */
  datatype State = State(checks: seq<Check>, profiles: map<Id, Profile>)

  /** The checks of one provider. */
  function Of(checks: seq<Check>, p: Id): seq<Check> {
    if checks == [] then []
    else
      var last := checks[|checks| - 1];
      Of(checks[..|checks| - 1], p) + (if last.provider == p then [last] else [])
  }

  // ----- the recomputation

  predicate AllKnown(mine: seq<Check>) { forall c | c in mine :: !ReadKind(c.kind).Unknown? }

  /** The newest check of a kind. */
  function Newest(mine: seq<Check>, k: Kind): Option<Check> {
    if mine == [] then None
    else if ReadKind(mine[|mine| - 1].kind) == Known(k) then Some(mine[|mine| - 1])
    else Newest(mine[..|mine| - 1], k)
  }

  function StatusOf(c: Option<Check>): Status {
    if c.Some? then StoredStatus(c.value.status) else Unverified
  }

  function OverallStatus(required: seq<Status>): Status {
    if forall s | s in required :: s == Verified then Verified
    else if exists s | s in required :: s == Failed then Failed
    else if exists s | s in required :: s == Pending || s == Verified then Pending
    else Unverified
  }

  function Level(nin: Status, face: Status, phone: Status): nat {
    (if nin.Verified? && face.Verified? then 1 else 0) + (if phone.Verified? then 1 else 0)
  }

  function VerifiedTime(c: Option<Check>, now: int): Option<int> {
    if !StatusOf(c).Verified? then None
    else if c.Some? && c.value.verifiedAt.Some? then c.value.verifiedAt else Some(now)
  }

  function FailureOf(k: Kind, c: Option<Check>): seq<(Kind, string)> {
    if c.None? || !StatusOf(c).Failed? then []
    else [(k, if c.value.message.Some? then c.value.message.value else "failed")]
  }

  /** The profile as it follows from the newest checks and the time of the newest of all. */
  function Summary(nin: Option<Check>, phone: Option<Check>, lastCheckAt: Option<int>, now: int): Profile {
    Profile(OverallStatus([StatusOf(nin), StatusOf(phone)]),
            Level(StatusOf(nin), StatusOf(nin), StatusOf(phone)),
            StatusOf(nin), StatusOf(phone), StatusOf(nin),
            VerifiedTime(nin, now), VerifiedTime(phone, now), VerifiedTime(nin, now),
            if nin.Some? then nin.value.confidence else None,
            if nin.Some? then nin.value.masked else None,
            if phone.Some? then phone.value.masked else None,
            FailureOf(NinFace, nin) + FailureOf(Phone, phone),
            Some(now), lastCheckAt)
  }

  function LastCreated(mine: seq<Check>): Option<int> {
    if mine == [] then None else Some(mine[|mine| - 1].createdAt)
  }

  function Recomputed(mine: seq<Check>, now: int): Profile {
    Summary(Newest(mine, NinFace), Newest(mine, Phone), LastCreated(mine), now)
  }

  function Refresh(s: State, p: Id, now: int): (State, bool) {
    if AllKnown(Of(s.checks, p)) then (s.(profiles := s.profiles[p := Recomputed(Of(s.checks, p), now)]), true)
    else (s, false)
  }

  // ----- the writing calls

  function Or<T>(given: Option<T>, stored: Option<T>): Option<T> { if given.Some? then given else stored }

  function NewCheck(p: Id, a: Answer, createdAt: int): Check {
    Check(p, KindText(a.kind), StatusText(a.status), a.reference,
          a.confidence, a.message, a.masked, a.verifiedAt, createdAt)
  }

  function Updated(c: Check, a: Answer): Check {
    c.(status := StatusText(a.status), confidence := Or(a.confidence, c.confidence),
      message := Or(a.message, c.message),
       masked := Or(a.masked, c.masked), verifiedAt := Or(a.verifiedAt, c.verifiedAt))
  }

  /** Where the check with a vendor reference stands; the number of checks if there is none. */
  function Find(checks: seq<Check>, reference: string): (i: nat)
    ensures i <= |checks| && (i < |checks| ==> checks[i].reference == Some(reference))
    ensures forall j | 0 <= j < i :: checks[j].reference != Some(reference)
  {
    if checks == [] then 0
    else if checks[0].reference == Some(reference) then 0
    else 1 + Find(checks[1..], reference)
  }

  predicate Taken(checks: seq<Check>, reference: Option<string>) {
    reference.Some? && Find(checks, reference.value) < |checks|
  }

  /** Writes a check: the same provider's check with the reference is reused, any other one makes the insert throw. */
  function PlaceCheck(checks: seq<Check>, p: Id, a: Answer, createdAt: int): Option<seq<Check>> {
    if !Taken(checks, a.reference) then Some(checks + [NewCheck(p, a, createdAt)])
    else
      var i := Find(checks, a.reference.value);
      if a.reference.value != "" && checks[i].provider == p then Some(checks[i := Updated(checks[i], a)]) else None
  }

  function Ensured(profiles: map<Id, Profile>, p: Id): map<Id, Profile> {
    if p in profiles then profiles else profiles[p := DEFAULT_PROFILE]
  }

  function CreateCheck(s: State, p: Id, a: Answer, createdAt: int, now: int): (State, bool) {
    var placed := PlaceCheck(s.checks, p, a, createdAt);
    if placed.None? then (s.(profiles := Ensured(s.profiles, p)), false)
    else Refresh(State(placed.value, Ensured(s.profiles, p)), p, now)
  }

  /** An update by check id; it throws when there is no such check or its new reference belongs to another. */
  function UpdateCheck(s: State, id: nat, a: Answer, now: int): (State, bool) {
    if id >= |s.checks| then (s, false)
    else if Taken(s.checks, a.reference) && Find(s.checks, a.reference.value) != id then (s, false)
    else
      var row := Updated(s.checks[id], a);
      Refresh(s.(checks := s.checks[id := row.(reference := Or(a.reference, row.reference))]), row.provider, now)
  }
}

/** What the request hash buys the idempotency lock, with the hash represented by its canonical text. */
module WalletPayloads {
  import opened Options
  import opened WalletTables
  import opened WalletProtocol
  import opened WalletInvariant
  import opened WalletTheorems
  import opened WalletOutcomes
  import Canonical = CanonicalJson
  import Text = CanonicalJsonTheorems

  /** The caller sends this payload. */
  predicate Sends(s: State, pid: nat, payload: Canonical.Json) {
    && pid in s.procs && IsCall(s.procs[pid].request)
    && Canonical.IsJson(payload) && s.procs[pid].request.hash == Canonical.Stringify(payload)
  }

  /** The step in which a caller inserts the key row of a payload. */
  predicate TakesLockWith(s: State, e: Event, pid: nat, payload: Canonical.Json) {
    && e.Advance? && e.pid == pid && !e.oracle.fails && Sends(s, pid, payload)
    && s.procs[pid].pc.InsertKey? && KeyOf(s.procs[pid].request) !in s.t.keys
  }

  /** A caller that meets an existing key row in its next step. */
  predicate MeetsKey(s: State, e: Event, pid: nat, k: Key) {
    && e.Advance? && e.pid == pid && !e.oracle.fails && pid in s.procs
    && IsCall(s.procs[pid].request) && KeyOf(s.procs[pid].request) == k
    && (s.procs[pid].pc.CheckKey? || s.procs[pid].pc.ReadRaced?)
  }

  /**
   Once a caller has taken the lock of a key with one payload, any later caller is refused as sending a
   different payload exactly when its payload is not the first one up to key order.
   */
  lemma RefusedExactlyWhenDifferent(s: State, take: Event, a: nat, first: Canonical.Json, events: seq<Event>,
                                    meet: Event, b: nat, second: Canonical.Json)
    requires IsReachable(s) && TakesLockWith(s, take, a, first)
    requires var s' := Run(Next(s, take), events);
             Sends(s', b, second) && MeetsKey(s', meet, b, KeyOf(s.procs[a].request))
    ensures var s' := Run(Next(s, take), events);
            Next(s', meet).procs[b].pc == Done(InConflict(DifferentPayload)) <==> !Canonical.Same(first, second)
  {
    var k := KeyOf(s.procs[a].request);
    TakingRecords(s, take, a, first);
    KeyRowsAreFinal(Next(s, take), events, k);
    var s' := Run(Next(s, take), events);
    hide Run, Next, IsReachable, Inv;
    MeetingDecides(s', meet, b, k);
    Text.CanonicalTextIdentifies(first, second);
  }

  lemma TakingRecords(s: State, take: Event, a: nat, first: Canonical.Json)
    requires IsReachable(s) && TakesLockWith(s, take, a, first)
    ensures var s1, k := Next(s, take), KeyOf(s.procs[a].request);
            Inv(s1) && k in s1.t.keys && s1.t.keys[k].hash == Canonical.Stringify(first)
  {
    ReachableInv(s);
    NextKeeps(s, take);
    hide Inv, IsReachable;
    InsertSteps(s.t, s.procs[a], take.oracle);
    AdvanceMoves(s, a, take.oracle);
    hide Next, Step;
  }

  lemma MeetingDecides(s: State, meet: Event, b: nat, k: Key)
    requires MeetsKey(s, meet, b, k) && k in s.t.keys
    ensures Next(s, meet).procs[b].pc == Verdict(s.t.keys[k], s.procs[b].request.hash)
    ensures Next(s, meet).procs[b].pc == Done(InConflict(DifferentPayload)) <==>
            s.procs[b].request.hash != s.t.keys[k].hash
  {
    AdvanceMoves(s, b, meet.oracle);
    CheckSteps(s.t, s.procs[b], meet.oracle);
    hide Next, Step;
  }

  /** Callers that got a successful reply under one key sent the same payload and got the same answer. */
  lemma RepliesSharePayload(s: State, a: nat, b: nat, first: Canonical.Json, second: Canonical.Json)
    requires IsReachable(s) && a in s.procs && b in s.procs
    requires IsCall(s.procs[a].request) && IsCall(s.procs[b].request)
    requires KeyOf(s.procs[a].request) == KeyOf(s.procs[b].request)
    requires s.procs[a].pc.Done? && s.procs[a].pc.outcome.Ok?
    requires s.procs[b].pc.Done? && s.procs[b].pc.outcome.Ok?
    requires Canonical.IsJson(first) && s.procs[a].request.hash == Canonical.Stringify(first)
    requires Canonical.IsJson(second) && s.procs[b].request.hash == Canonical.Stringify(second)
    ensures Canonical.Same(first, second)
    ensures s.procs[a].pc.outcome == s.procs[b].pc.outcome
  {
    RepliesAgree(s, a, b);
    Text.CanonicalTextIdentifies(first, second);
  }
}

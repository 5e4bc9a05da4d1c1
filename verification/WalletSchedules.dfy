/** Schedules that show which assumptions the wallet theorems need. */
module WalletSchedules {
  import opened Options
  import opened WalletTables
  import opened WalletProtocol
  import opened WalletInvariant
  import opened WalletTheorems

  lemma {:induction false} RunAppends(s: State, events: seq<Event>, e: Event)
    ensures Run(s, events + [e]) == Next(Run(s, events), e)
    decreases |events|
  {
    if events == [] {
      assert Run(s, [e]) == Run(Next(s, e), []);
    } else {
      assert (events + [e])[1..] == events[1..] + [e];
      RunAppends(Next(s, events[0]), events[1..], e);
    }
  }

  lemma {:induction false} RunConcatenates(s: State, a: seq<Event>, b: seq<Event>)
    ensures Run(s, a + b) == Run(Run(s, a), b)
    decreases |a|
  {
    if a == [] {
      assert a + b == b;
    } else {
      assert (a + b)[1..] == a[1..] + b;
      RunConcatenates(Next(s, a[0]), a[1..], b);
    }
  }

  const ANY_DATA := Verification(None, None, None)

  function Quiet(id: Id, suffix: string): Oracle {
    Oracle(id, suffix, TransferAccepted(false), ANY_DATA, false)
  }

  /** A caller with a fresh key whose wallet covers the amount. */
  predicate CanDebit(s: State, pid: nat, r: Request, wallet: Id) {
    && r.WithdrawalCall? && r.amount > 0 && r.key != ""
    && pid !in s.procs && KeyOf(r) !in s.t.keys
    && r.profile in s.t.walletOf && s.t.walletOf[r.profile] == wallet
    && wallet in s.t.balances && s.t.balances[wallet] >= r.amount
  }

  function BeforeDebit(s: State, pid: nat, r: Request, wallet: Id): State
    requires CanDebit(s, pid, r, wallet)
  {
    State(SetKey(s.t, KeyOf(r), KeyRow(r.hash, InProgress, None)),
          s.procs[pid := Process(r, WriteDebit(wallet, s.t.balances[wallet]))],
          s.started + multiset{KeyOf(r)}, s.lost, s.stuck)
  }

  function Locked(s: State, pid: nat, r: Request, wallet: Id): State
    requires CanDebit(s, pid, r, wallet)
  {
    State(SetKey(s.t, KeyOf(r), KeyRow(r.hash, InProgress, None)), s.procs[pid := Process(r, OpenWallet)],
          s.started + multiset{KeyOf(r)}, s.lost, s.stuck)
  }

  /** Such a caller, left alone, takes the lock of its key. */
  lemma TakesLock(s: State, pid: nat, r: Request, wallet: Id, step: Event)
    requires CanDebit(s, pid, r, wallet) && step.Advance? && step.pid == pid && !step.oracle.fails
    ensures Next(Next(Next(s, Arrive(pid, r)), step), step) == Locked(s, pid, r, wallet)
  {
    hide StepWork, StepDebit, StepCharge, StepRecordTransfer, CreateWallet, Verdict, ReplayOutcome;
    var s1 := Next(s, Arrive(pid, r));
    var s2 := Next(s1, step);
    assert s2.procs == s.procs[pid := Process(r, InsertKey)] && s2.t == s.t;
  }

  lemma ReadsBalance(s: State, pid: nat, r: Request, wallet: Id, step: Event)
    requires CanDebit(s, pid, r, wallet) && step.Advance? && step.pid == pid && !step.oracle.fails
    ensures Next(Next(Locked(s, pid, r, wallet), step), step) == BeforeDebit(s, pid, r, wallet)
  {
    hide StepWork, StepDebit, StepCharge, StepRecordTransfer, CreateWallet, Verdict, ReplayOutcome;
    var s3 := Locked(s, pid, r, wallet);
    var s4 := Next(s3, step);
    assert s4.procs == s.procs[pid := Process(r, ReadBalance(wallet))] && s4.t == s3.t;
  }

  /** It then reads its balance and stands before its debit. */
  lemma RunToDebit(s: State, pid: nat, r: Request, wallet: Id) returns (events: seq<Event>)
    requires CanDebit(s, pid, r, wallet)
    ensures Run(s, events) == BeforeDebit(s, pid, r, wallet)
  {
    hide Next, CanDebit, BeforeDebit, Locked;
    var step := Advance(pid, Quiet("", ""));
    TakesLock(s, pid, r, wallet, step);
    ReadsBalance(s, pid, r, wallet, step);
    events := [Arrive(pid, r)];
    assert Run(s, []) == s;
    RunAppends(s, [], Arrive(pid, r));
    assert [] + [Arrive(pid, r)] == events;
    RunAppends(s, events, step);
    RunAppends(s, events + [step], step);
    RunAppends(s, events + [step] + [step], step);
    RunAppends(s, events + [step] + [step] + [step], step);
    events := events + [step] + [step] + [step] + [step];
  }

  /** The debit commits on fresh ids. */
  lemma DebitCommits(s: State, pid: nat, wallet: Id, id: Id, suffix: string)
    requires Inv(s) && pid in s.procs && s.procs[pid].request.WithdrawalCall?
    requires s.procs[pid].pc.WriteDebit? && s.procs[pid].pc.wallet == wallet && wallet in s.t.balances
    requires id !in s.t.withdrawals && "WDR_" + suffix !in s.t.withdrawalByRef
    ensures var s' := Next(s, Advance(pid, Quiet(id, suffix)));
            && s'.procs == s.procs[pid := s.procs[pid].(pc := Transfer(id))]
            && s'.t.balances == s.t.balances[wallet := s.t.balances[wallet] - s.procs[pid].request.amount]
            && s'.t.withdrawals.Keys == s.t.withdrawals.Keys + {id}
            && s'.t.withdrawalByRef.Keys == s.t.withdrawalByRef.Keys + {"WDR_" + suffix}
  {
    hide TablesOk, KeysOk, OneHolder, StartedOnce, ProcessOk;
    NoWithdrawalNoEntries(s.t, id);
  }

  /**
   The balance test takes no lock: from every reachable state with a funded wallet, two interleaved
   withdrawals of the whole balance drive that wallet below zero.
   */
  lemma InterleavedDebitsOverdraw(s: State, a: nat, b: nat, ra: Request, rb: Request, wallet: Id,
                                  ids: (Id, Id), suffixes: (string, string))
    returns (events: seq<Event>)
    requires IsReachable(s) && a != b
    requires CanDebit(s, a, ra, wallet) && CanDebit(s, b, rb, wallet) && KeyOf(ra) != KeyOf(rb)
    requires ra.amount == rb.amount == s.t.balances[wallet]
    requires ids.0 != ids.1 && ids.0 !in s.t.withdrawals && ids.1 !in s.t.withdrawals
    requires "WDR_" + suffixes.0 != "WDR_" + suffixes.1
    requires "WDR_" + suffixes.0 !in s.t.withdrawalByRef && "WDR_" + suffixes.1 !in s.t.withdrawalByRef
    ensures wallet in Run(s, events).t.balances && Run(s, events).t.balances[wallet] < 0
  {
    hide Inv, Next, Run;
    ReachableInv(s);
    var first := RunToDebit(s, a, ra, wallet);
    var s1 := Run(s, first);
    RunKeeps(s, first);
    var second := RunToDebit(s1, b, rb, wallet);
    RunConcatenates(s, first, second);
    var both := first + second;
    var s2 := Run(s, both);
    RunKeeps(s, both);
    DebitCommits(s2, a, wallet, ids.0, suffixes.0);
    var debitA := Advance(a, Quiet(ids.0, suffixes.0));
    RunAppends(s, both, debitA);
    var s3 := Run(s, both + [debitA]);
    RunKeeps(s, both + [debitA]);
    DebitCommits(s3, b, wallet, ids.1, suffixes.1);
    var debitB := Advance(b, Quiet(ids.1, suffixes.1));
    RunAppends(s, both + [debitA], debitB);
    events := both + [debitA] + [debitB];
  }

  /**
   The completion write of a key is not part of the debit transaction: when it throws, the key reads
   failed although its withdrawal was debited and never reversed.
   */
  lemma LostCompletionLeavesDebit(s: State, pid: nat, r: Request, wallet: Id, id: Id, suffix: string)
    returns (events: seq<Event>)
    requires IsReachable(s) && CanDebit(s, pid, r, wallet)
    requires id !in s.t.withdrawals && "WDR_" + suffix !in s.t.withdrawalByRef
    ensures var s' := Run(s, events);
            && KeyOf(r) in s'.t.keys && s'.t.keys[KeyOf(r)].status.Broken?
            && id in WithdrawalsOf(s'.t, KeyOf(r))
            && DebitRef(id) in s'.t.ledger && NetEffect(s'.t, id) == -r.amount
            && KeyOf(r) in s'.lost
  {
    ReachableInv(s);
    var before := RunToDebit(s, pid, r, wallet);
    RunKeeps(s, before);
    var s1 := Run(s, before);
    var debit := Advance(pid, Quiet(id, suffix));
    var s2 := DebitedState(s, s1, pid, r, wallet, id, suffix);
    RunAppends(s, before, debit);
    var e3, e4, e5, e6 := debit, debit, Advance(pid, Quiet(id, suffix).(fails := true)), debit;
    FailsToClose(s2, pid, r, id, e3, e4, e5, e6);
    RunAppends(s, before + [debit], e3);
    RunAppends(s, before + [debit] + [e3], e4);
    RunAppends(s, before + [debit] + [e3] + [e4], e5);
    RunAppends(s, before + [debit] + [e3] + [e4] + [e5], e6);
    events := before + [debit] + [e3] + [e4] + [e5] + [e6];
  }

  lemma DebitedState(s: State, s1: State, pid: nat, r: Request, wallet: Id, id: Id, suffix: string) returns (s2: State)
    requires Inv(s) && Inv(s1) && CanDebit(s, pid, r, wallet) && s1 == BeforeDebit(s, pid, r, wallet)
    requires id !in s.t.withdrawals && "WDR_" + suffix !in s.t.withdrawalByRef
    ensures s2 == Next(s1, Advance(pid, Quiet(id, suffix)))
    ensures pid in s2.procs && s2.procs[pid] == Process(r, Transfer(id))
    ensures KeyOf(r) in s2.t.keys && id in s2.t.withdrawals && s2.t.withdrawals[id].origin == KeyOf(r)
    ensures DebitRef(id) in s2.t.ledger && s2.t.ledger[DebitRef(id)] == Entry(wallet, Debit, Payout, r.amount, None)
    ensures ReversalRef(id) !in s2.t.ledger && s2.lost == s.lost
  {
    hide TablesOk, KeysOk, OneHolder, StartedOnce, ProcessOk;
    NoWithdrawalNoEntries(s1.t, id);
    DebitCommits(s1, pid, wallet, id, suffix);
    s2 := Next(s1, Advance(pid, Quiet(id, suffix)));
  }

  lemma FailsToClose(s2: State, pid: nat, r: Request, id: Id, e3: Event, e4: Event, e5: Event, e6: Event)
    requires pid in s2.procs && s2.procs[pid] == Process(r, Transfer(id)) && r.WithdrawalCall?
    requires KeyOf(r) in s2.t.keys && id in s2.t.withdrawals
    requires e3.Advance? && e4 == e3 && e6 == e3 && e3.pid == pid
    requires !e3.oracle.fails && e3.oracle.transfer == TransferAccepted(false)
    requires e5 == Advance(pid, e3.oracle.(fails := true))
    ensures var s6 := Next(Next(Next(Next(s2, e3), e4), e5), e6);
            && s6.t.ledger == s2.t.ledger
            && id in s6.t.withdrawals && s6.t.withdrawals[id].origin == s2.t.withdrawals[id].origin
            && KeyOf(r) in s6.t.keys && s6.t.keys[KeyOf(r)].status.Broken? && KeyOf(r) in s6.lost
  {
    hide Step, OnFailure, Sticks, Loses, Begins, SetTransferStatus;
    AcceptedTransferSteps(s2.t, r, id, e3.oracle);
    var s3 := Next(s2, e3);
    assert s3.procs[pid] == Process(r, RecordTransfer(id, false)) && s3.t == s2.t;
    RecordingSteps(s2.t, r, id, e4.oracle);
    var s4 := Next(s3, e4);
    assert s4.procs[pid] == Process(r, CloseKey(WithdrawalId(id))) && s4.t == SetTransferStatus(s2.t, id, InTransfer);
    assert s4.t.keys == s2.t.keys && s4.t.ledger == s2.t.ledger;
    ThrowingCompletionSteps(s4.t, r, id, e5.oracle);
    var s5 := Next(s4, e5);
    assert s5.procs[pid] == Process(r, BreakKey) && s5.t == s4.t && KeyOf(r) in s5.lost;
    BreakSteps(s5.t, Process(r, BreakKey), e6.oracle);
    BreakingRecordsNothing(s5.t, r, e6.oracle);
  }

  lemma AcceptedTransferSteps(t: Tables, r: Request, id: Id, o: Oracle)
    requires r.WithdrawalCall? && !o.fails && o.transfer == TransferAccepted(false)
    ensures Step(t, Process(r, Transfer(id)), o) == (t, RecordTransfer(id, false))
  {
    hide StepWork;
  }

  lemma RecordingSteps(t: Tables, r: Request, id: Id, o: Oracle)
    requires r.WithdrawalCall? && !o.fails && id in t.withdrawals
    ensures Step(t, Process(r, RecordTransfer(id, false)), o) ==
            (SetTransferStatus(t, id, InTransfer), CloseKey(WithdrawalId(id)))
    ensures var t' := SetTransferStatus(t, id, InTransfer);
            && t'.keys == t.keys && t'.ledger == t.ledger
            && id in t'.withdrawals && t'.withdrawals[id].origin == t.withdrawals[id].origin
  {
    hide StepWork;
  }

  lemma ThrowingCompletionSteps(t: Tables, r: Request, id: Id, o: Oracle)
    requires r.WithdrawalCall? && o.fails
    ensures var p := Process(r, CloseKey(WithdrawalId(id)));
            Step(t, p, o) == (t, BreakKey) && Loses(p, BreakKey)
  {
  }

  /**
   Compensation can fail as well: when the transfer is refused and both attempts to compensate throw, the
   key reads failed although its withdrawal was debited and never reversed, and no completion write was lost.
   */
  lemma FailedCompensationLeavesDebit(s: State, pid: nat, r: Request, wallet: Id, id: Id, suffix: string)
    returns (events: seq<Event>)
    requires IsReachable(s) && CanDebit(s, pid, r, wallet) && KeyOf(r) !in s.lost
    requires id !in s.t.withdrawals && "WDR_" + suffix !in s.t.withdrawalByRef
    ensures var s' := Run(s, events);
            && KeyOf(r) in s'.t.keys && s'.t.keys[KeyOf(r)].status.Broken?
            && id in WithdrawalsOf(s'.t, KeyOf(r))
            && DebitRef(id) in s'.t.ledger && NetEffect(s'.t, id) == -r.amount
            && KeyOf(r) in s'.stuck && KeyOf(r) !in s'.lost
  {
    ReachableInv(s);
    var before := RunToDebit(s, pid, r, wallet);
    RunKeeps(s, before);
    var s1 := Run(s, before);
    var debit := Advance(pid, Quiet(id, suffix));
    var s2 := DebitedState(s, s1, pid, r, wallet, id, suffix);
    RunAppends(s, before, debit);
    var refused := Advance(pid, Quiet(id, suffix).(transfer := TransferFailed));
    var throws := Advance(pid, Quiet(id, suffix).(fails := true));
    FailsToCompensate(s2, pid, r, id, refused, throws, debit);
    RunAppends(s, before + [debit], refused);
    RunAppends(s, before + [debit] + [refused], throws);
    RunAppends(s, before + [debit] + [refused] + [throws], throws);
    RunAppends(s, before + [debit] + [refused] + [throws] + [throws], debit);
    events := before + [debit] + [refused] + [throws] + [throws] + [debit];
  }

  lemma FailsToCompensate(s2: State, pid: nat, r: Request, id: Id, refused: Event, throws: Event, quiet: Event)
    requires pid in s2.procs && s2.procs[pid] == Process(r, Transfer(id)) && r.WithdrawalCall?
    requires KeyOf(r) in s2.t.keys && id in s2.t.withdrawals && ReversalRef(id) !in s2.t.ledger
    requires refused.Advance? && refused.pid == pid && !refused.oracle.fails
             && refused.oracle.transfer == TransferFailed
    requires throws.Advance? && throws.pid == pid && throws.oracle.fails
    requires quiet.Advance? && quiet.pid == pid && !quiet.oracle.fails
    ensures var s6 := Next(Next(Next(Next(s2, refused), throws), throws), quiet);
            && s6.t.ledger == s2.t.ledger && s6.t.withdrawals == s2.t.withdrawals && s6.lost == s2.lost
            && KeyOf(r) in s6.t.keys && s6.t.keys[KeyOf(r)].status.Broken? && KeyOf(r) in s6.stuck
  {
    hide Step, OnFailure, Sticks, Loses, Begins;
    RefusedTransferSteps(s2.t, r, id, refused.oracle);
    var s3 := Next(s2, refused);
    assert s3.procs[pid] == Process(r, ReadReversal(id, false)) && s3.t == s2.t && s3.lost == s2.lost;
    ThrowingReversalSteps(s2.t, r, id, false, throws.oracle);
    var s4 := Next(s3, throws);
    assert s4.procs[pid] == Process(r, ReadReversal(id, true)) && s4.t == s2.t && s4.lost == s2.lost;
    ThrowingReversalSteps(s2.t, r, id, true, throws.oracle);
    var s5 := Next(s4, throws);
    assert s5.procs[pid] == Process(r, BreakKey) && s5.t == s2.t && KeyOf(r) in s5.stuck && s5.lost == s2.lost;
    BreakSteps(s2.t, Process(r, BreakKey), quiet.oracle);
    BreakingRecordsNothing(s2.t, r, quiet.oracle);
  }

  lemma RefusedTransferSteps(t: Tables, r: Request, id: Id, o: Oracle)
    requires r.WithdrawalCall? && !o.fails && o.transfer == TransferFailed
    ensures var p := Process(r, Transfer(id));
            var (t', next) := Step(t, p, o);
            t' == t && next == ReadReversal(id, false) && !Begins(p, next) && !Loses(p, next) && !Sticks(t', p, next)
  {
    hide StepWork;
  }

  lemma ThrowingReversalSteps(t: Tables, r: Request, id: Id, inCatch: bool, o: Oracle)
    requires r.WithdrawalCall? && o.fails && ReversalRef(id) !in t.ledger
    ensures var p := Process(r, ReadReversal(id, inCatch));
            var (t', next) := Step(t, p, o);
            && t' == t && next == (if inCatch then BreakKey else ReadReversal(id, true))
            && !Begins(p, next) && !Loses(p, next) && (Sticks(t', p, next) <==> inCatch)
  {
  }

  lemma BreakingRecordsNothing(t: Tables, r: Request, o: Oracle)
    requires r.WithdrawalCall? && !o.fails && KeyOf(r) in t.keys
    ensures var p := Process(r, BreakKey);
            var (t', next) := Step(t, p, o);
            !Begins(p, next) && !Loses(p, next) && !Sticks(t', p, next)
  {
    hide StepWork;
  }
}

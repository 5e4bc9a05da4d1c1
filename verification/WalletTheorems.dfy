/** What holds in every state that any schedule of wallet calls, confirmations and webhooks reaches. */
module WalletTheorems {
  import opened Options
  import opened WalletTables
  import opened WalletProtocol
  import opened WalletInvariant
  import opened WalletReferences

  ghost predicate IsReachable(s: State) {
    exists events :: s == Run(INITIAL_STATE, events)
  }

  lemma ReachableInv(s: State)
    requires IsReachable(s)
    ensures Inv(s)
  {
    var events :| s == Run(INITIAL_STATE, events);
    Reachable(events);
  }

  // ----- money

  /** Each balance is completed credits minus completed debits. */
  lemma LedgerConservation(s: State, wallet: Id)
    requires IsReachable(s) && wallet in s.t.balances
    ensures s.t.balances[wallet] == Total(s.t.ledger, wallet)
  {
    ReachableInv(s);
  }

  /** The ledger rows that credit a payment intent. */
  function CreditsOf(t: Tables, i: Id): set<LedgerRef> {
    set r | r in t.ledger && t.ledger[r].intent == Some(i) && t.ledger[r].direction == Credit
  }

  /** However many finalizers race, an intent is credited at most once, in full, and exactly once when confirmed. */
  lemma TopupExactlyOnce(s: State, i: Id)
    requires IsReachable(s) && i in s.t.intents
    ensures |CreditsOf(s.t, i)| <= 1
    ensures s.t.intents[i].confirmed ==> |CreditsOf(s.t, i)| == 1
    ensures forall r | r in CreditsOf(s.t, i) ::
              s.t.ledger[r].wallet == s.t.intents[i].wallet && s.t.ledger[r].amount == s.t.intents[i].amount
  {
    ReachableInv(s);
    forall r | r in CreditsOf(s.t, i) ensures r == TopupRef(i) && EntryMatches(s.t, r, s.t.ledger[r]) {
      assert EntryMatches(s.t, r, s.t.ledger[r]);
    }
    assert IntentOk(s.t, i);
    if TopupRef(i) in s.t.ledger {
      assert EntryMatches(s.t, TopupRef(i), s.t.ledger[TopupRef(i)]);
      assert CreditsOf(s.t, i) == {TopupRef(i)};
    } else {
      assert CreditsOf(s.t, i) == {};
    }
  }

  /** What a withdrawal has done to the balance of its wallet so far. */
  function NetEffect(t: Tables, w: Id): int
    requires DebitRef(w) in t.ledger
  {
    Signed(t.ledger[DebitRef(w)]) + if ReversalRef(w) in t.ledger then Signed(t.ledger[ReversalRef(w)]) else 0
  }

  /** The ledger rows whose unique reference column holds this text. */
  function RowsWith(t: Tables, reference: string): set<LedgerRef> {
    set r | r in t.ledger && Render(r) == reference
  }

  /** Ids are generated UUIDs. */
  ghost predicate HasUuids(t: Tables) { forall r | r in t.ledger :: IsUuid(IdOf(r)) }

  /**
   One debit, at most one reversal, both of the withdrawal's amount on the withdrawal's wallet: of the
   ledger rows, one has its debit reference and at most one its reversal reference.
   */
  lemma CompensationAtMostOnce(s: State, w: Id)
    requires IsReachable(s) && w in s.t.withdrawals
    ensures DebitRef(w) in s.t.ledger
    ensures forall r | r in s.t.ledger && r in {DebitRef(w), ReversalRef(w)} ::
              s.t.ledger[r].wallet == s.t.withdrawals[w].wallet && s.t.ledger[r].amount == s.t.withdrawals[w].amount
    ensures NetEffect(s.t, w) == if ReversalRef(w) in s.t.ledger then 0 else -s.t.withdrawals[w].amount
    ensures s.t.withdrawals[w].status.Reversed? ==> NetEffect(s.t, w) == 0
    ensures s.t.withdrawals[w].amount > 0
    ensures HasUuids(s.t) ==> |RowsWith(s.t, "WLT_WITHDRAW_" + w)| == 1 && |RowsWith(s.t, "WLT_WITHDRAW_REV_" + w)| <= 1
  {
    ReachableInv(s);
    assert WithdrawalOk(s.t, w);
    assert EntryMatches(s.t, DebitRef(w), s.t.ledger[DebitRef(w)]);
    if ReversalRef(w) in s.t.ledger { assert EntryMatches(s.t, ReversalRef(w), s.t.ledger[ReversalRef(w)]); }
    if HasUuids(s.t) {
      hide Inv, TablesOk, WithdrawalOk, EntryMatches;
      RowsAreTheReference(s.t, DebitRef(w));
      RowsAreTheReference(s.t, ReversalRef(w));
    }
  }

  /** On UUID ids a reference text stands in the row of its own builder and id, or in none. */
  lemma RowsAreTheReference(t: Tables, r: LedgerRef)
    requires HasUuids(t) && (exists q | q in t.ledger :: IdOf(q) == IdOf(r))
    ensures RowsWith(t, Render(r)) == if r in t.ledger then {r} else {}
  {
    forall q | q in RowsWith(t, Render(r)) ensures q == r {
      UuidReferencesAreDistinct(q, r);
    }
    hide Render, HasUuids;
  }

  /** Money leaves the ledger only through the debit of an existing withdrawal. */
  lemma OnlyWithdrawalsDebit(s: State, r: LedgerRef)
    requires IsReachable(s) && r in s.t.ledger && s.t.ledger[r].direction == Debit
    ensures r.DebitRef? && r.withdrawal in s.t.withdrawals
  {
    ReachableInv(s);
    assert EntryMatches(s.t, r, s.t.ledger[r]);
  }

  // ----- end-to-end atomicity of a withdrawal request

  function WithdrawalsOf(t: Tables, k: Key): set<Id> {
    set w | w in t.withdrawals && t.withdrawals[w].origin == k
  }

  /**
   A key debits at most once; a completed key names the one withdrawal it made; a failed key leaves its
   withdrawal debited exactly when its completion write or its last compensation threw and nobody has
   reversed the withdrawal since.
   */
  lemma WithdrawalAtomicity(s: State, k: Key)
    requires IsReachable(s) && k in s.t.keys && k.operation.Withdrawing?
    ensures |WithdrawalsOf(s.t, k)| <= 1
    ensures forall w | w in WithdrawalsOf(s.t, k) ::
              s.t.withdrawals[w].profile == k.profile && DebitRef(w) in s.t.ledger
    ensures s.t.keys[k].status.Broken? ==>
              forall w | w in WithdrawalsOf(s.t, k) ::
                && DebitRef(w) in s.t.ledger
                && (NetEffect(s.t, w) != 0 <==> (k in s.lost || k in s.stuck) && ReversalRef(w) !in s.t.ledger)
    ensures s.t.keys[k].status.Completed? ==>
              s.t.keys[k].response.Some? && s.t.keys[k].response.value.WithdrawalId?
              && WithdrawalsOf(s.t, k) == {s.t.keys[k].response.value.id}
  {
    ReachableInv(s);
    assert KeyRowOk(s.t, Excused(s), k, s.t.keys[k]);
    forall w | w in WithdrawalsOf(s.t, k) ensures s.t.withdrawals[w].profile == k.profile {
      assert WithdrawalOk(s.t, w);
    }
    if w :| w in WithdrawalsOf(s.t, k) {
      assert WithdrawalsOf(s.t, k) == {w};
      CompensationAtMostOnce(s, w);
    }
  }

  /** The withdrawal of the key is debited and not reversed. */
  ghost predicate LeftDebited(t: Tables, k: Key) {
    exists w | w in WithdrawalsOf(t, k) :: DebitRef(w) in t.ledger && ReversalRef(w) !in t.ledger
  }

  /** The caller of `k` is about to mark its key failed, and the write will succeed. */
  predicate MarksFailed(s: State, e: Event, k: Key) {
    && e.Advance? && e.pid in s.procs && !e.oracle.fails
    && IsCall(s.procs[e.pid].request) && KeyOf(s.procs[e.pid].request) == k && s.procs[e.pid].pc.BreakKey?
  }

  /**
   The write that marks a key failed leaves its withdrawal debited exactly when the caller comes from a
   completion write that threw, or from compensations that threw, and no reversal has been committed.
   */
  lemma FailedKeyLeavesDebitExactly(s: State, e: Event, k: Key)
    requires IsReachable(s) && MarksFailed(s, e, k) && k.operation.Withdrawing?
    ensures k in Next(s, e).t.keys && Next(s, e).t.keys[k].status.Broken?
    ensures LeftDebited(Next(s, e).t, k) <==>
            (k in s.lost || k in s.stuck) && exists w | w in WithdrawalsOf(s.t, k) :: ReversalRef(w) !in s.t.ledger
  {
    ReachableInv(s);
    BreakerRelies(s, e.pid);
    BreakSteps(s.t, s.procs[e.pid], e.oracle);
    hide Inv, Step, IsReachable;
    var t' := Next(s, e).t;
    assert t' == SetKey(s.t, k, s.t.keys[k].(status := Broken));
    assert WithdrawalsOf(t', k) == WithdrawalsOf(s.t, k);
  }

  /** A caller that marks its key failed has compensated, or comes from a write that threw. */
  lemma BreakerRelies(s: State, pid: nat)
    requires Inv(s) && pid in s.procs && IsCall(s.procs[pid].request) && s.procs[pid].pc.BreakKey?
    ensures var k := KeyOf(s.procs[pid].request);
            && k in s.t.keys
            && (k in s.lost || k in s.stuck || forall w | w in WithdrawalsOf(s.t, k) :: ReversalRef(w) in s.t.ledger)
            && (forall w | w in WithdrawalsOf(s.t, k) :: DebitRef(w) in s.t.ledger)
  {
    assert ProcessOk(s.t, Excused(s), s.procs[pid]);
    forall w | w in s.t.withdrawals ensures DebitRef(w) in s.t.ledger { assert WithdrawalOk(s.t, w); }
  }

  /** A failing step of the caller of `k`. */
  predicate Throws(s: State, e: Event, k: Key) {
    && e.Advance? && e.pid in s.procs && e.oracle.fails
    && IsCall(s.procs[e.pid].request) && KeyOf(s.procs[e.pid].request) == k
  }

  /** The compensation that a caller makes last, in its catch block. */
  predicate LastCompensation(pc: Pc) { (pc.ReadReversal? || pc.Reverse?) && pc.inCatch }

  /** The two histories record exactly the completion writes and the last compensations that throw. */
  lemma HistoriesAreExact(s: State, e: Event, k: Key)
    requires IsReachable(s)
    ensures k in Next(s, e).lost <==> k in s.lost || (Throws(s, e, k) && s.procs[e.pid].pc.CloseKey?)
    ensures k in Next(s, e).stuck <==>
            || k in s.stuck
            || (Throws(s, e, k) && LastCompensation(s.procs[e.pid].pc)
                && ReversalRef(s.procs[e.pid].pc.withdrawal) !in s.t.ledger)
  {
    ReachableInv(s);
    if e.Advance? && e.pid in s.procs && IsCall(s.procs[e.pid].request) {
      var p := s.procs[e.pid];
      assert ProcessOk(s.t, Excused(s), p);
      assert p.pc.Reverse? ==> WithdrawalOk(s.t, p.pc.withdrawal);
      AdvanceMoves(s, e.pid, e.oracle);
      hide TablesOk, KeysOk, OneHolder, StartedOnce;
      if e.oracle.fails {
        FailuresRecord(s.t, p, e.oracle);
      } else {
        QuietStepsRecordNothing(s.t, Excused(s), p, e.oracle);
      }
      hide Step, ProcessOk, Loses, Sticks;
    }
  }

  lemma FailuresRecord(t: Tables, p: Process, o: Oracle)
    requires IsCall(p.request) && o.fails
    ensures var (t', next) := Step(t, p, o);
            && (Loses(p, next) <==> p.pc.CloseKey?)
            && (Sticks(t', p, next) <==> LastCompensation(p.pc) && ReversalRef(p.pc.withdrawal) !in t.ledger)
  {
  }

  lemma QuietStepsRecordNothing(t: Tables, excused: set<Key>, p: Process, o: Oracle)
    requires IsCall(p.request) && ProcessOk(t, excused, p) && !o.fails
    requires p.pc.Reverse? ==> p.pc.withdrawal in t.withdrawals && t.withdrawals[p.pc.withdrawal].wallet in t.balances
    ensures var (t', next) := Step(t, p, o); !Loses(p, next) && !Sticks(t', p, next)
  {
    if p.pc.Reverse? {
      ReverseLeavesReversal(t, p, o);
      hide Step;
    } else {
      hide ReverseWrite, FinalizeWrite, HasTopup, DebitWrite, CreateIntent;
    }
  }

  // ----- the idempotency lock

  /** The wrapped action begins at most once per key, whatever the number of callers. */
  lemma ActionStartsOnce(s: State, k: Key)
    requires IsReachable(s)
    ensures s.started[k] <= 1
    ensures s.started[k] == 1 <==> k in s.t.keys
  {
    ReachableInv(s);
  }

  /** A request hash never changes and a finished key row is final. */
  lemma {:induction false} KeyRowsAreFinal(s: State, events: seq<Event>, k: Key)
    requires Inv(s) && k in s.t.keys
    ensures var t' := Run(s, events).t;
            k in t'.keys && t'.keys[k].hash == s.t.keys[k].hash
            && (!s.t.keys[k].status.InProgress? ==> t'.keys[k] == s.t.keys[k])
    decreases |events|
  {
    if events != [] {
      var e := events[0];
      NextKeeps(s, e);
      KeyRowStep(s, e, k);
      KeyRowsAreFinal(Next(s, e), events[1..], k);
    }
  }

  lemma KeyRowStep(s: State, e: Event, k: Key)
    requires Inv(s) && k in s.t.keys
    ensures var t' := Next(s, e).t;
            k in t'.keys && t'.keys[k].hash == s.t.keys[k].hash
            && (!s.t.keys[k].status.InProgress? ==> t'.keys[k] == s.t.keys[k])
  {
    hide TablesOk, KeysOk, ProcessOk, OneHolder, StartedOnce, Step;
    if e.Advance? && e.pid in s.procs {
      StepMoves(s.t, Excused(s), s.procs[e.pid], e.oracle);
    }
  }

  /** All successful replies for one key carry one response, and were given to one payload. */
  lemma RepliesAgree(s: State, a: nat, b: nat)
    requires IsReachable(s) && a in s.procs && b in s.procs
    requires IsCall(s.procs[a].request) && IsCall(s.procs[b].request)
    requires KeyOf(s.procs[a].request) == KeyOf(s.procs[b].request)
    requires s.procs[a].pc.Done? && s.procs[a].pc.outcome.Ok?
    requires s.procs[b].pc.Done? && s.procs[b].pc.outcome.Ok?
    ensures s.procs[a].pc.outcome == s.procs[b].pc.outcome
    ensures s.procs[a].request.hash == s.procs[b].request.hash
    ensures Names(s.t, KeyOf(s.procs[a].request), s.procs[a].pc.outcome.response)
  {
    ReachableInv(s);
    assert ProcessOk(s.t, Excused(s), s.procs[a]) && ProcessOk(s.t, Excused(s), s.procs[b]);
    var k := KeyOf(s.procs[a].request);
    assert KeyRowOk(s.t, Excused(s), k, s.t.keys[k]);
  }

  /** No caller ever meets a recorded response that it cannot resolve, or a raced key that is gone. */
  lemma ReplaysResolve(s: State, pid: nat)
    requires IsReachable(s) && pid in s.procs && s.procs[pid].pc.Done? && IsCall(s.procs[pid].request)
    ensures s.procs[pid].pc.outcome !in {UnableToReplay, InvalidReplay, InConflict(Vanished)}
  {
    ReachableInv(s);
    assert ProcessOk(s.t, Excused(s), s.procs[pid]);
  }

  // ----- the reversed status

  /** The one write that takes a withdrawal out of `reversed`: a caller recording its transfer answer. */
  predicate Overwrites(s: State, e: Event, w: Id) {
    && e.Advance? && e.pid in s.procs
    && IsCall(s.procs[e.pid].request)
    && s.procs[e.pid].pc.RecordTransfer? && s.procs[e.pid].pc.withdrawal == w
    && !e.oracle.fails
  }

  predicate IsReversed(t: Tables, w: Id) {
    w in t.withdrawals && t.withdrawals[w].status.Reversed?
  }

  lemma WorkKeepsReversed(t: Tables, r: Request, pc: Pc, o: Oracle, w: Id)
    requires IsReversed(t, w)
    ensures IsReversed(StepWork(t, r, pc, o).0, w)
  {
    hide FinalizeWrite, ReverseWrite, StepVerify;
    match pc
    case Finalize(i, row, saw, data) => FinalizeFrame(t, i, row, saw, data);
    case Reverse(v, row, saw, _) => ReverseFrame(t, v, row, saw, w);
    case Verify(i) => VerifyFrame(t, i, o);
    case _ =>
  }

  lemma CallKeepsReversed(t: Tables, r: Request, pc: Pc, o: Oracle, w: Id)
    requires IsReversed(t, w) && IsCall(r) && !(pc.RecordTransfer? && pc.withdrawal == w)
    ensures IsReversed(StepCall(t, r, pc, o).0, w)
  {
    hide StepWork;
    WorkKeepsReversed(t, r, pc, o, w);
  }

  /** A withdrawal leaves `reversed` exactly when a late completion overwrites it; webhooks never do it. */
  lemma ReversedIsLeftExactly(s: State, e: Event, w: Id)
    requires IsReversed(s.t, w)
    ensures !IsReversed(Next(s, e).t, w) <==> Overwrites(s, e, w)
  {
    hide StepWork, StepCall;
    if e.Advance? && e.pid in s.procs {
      var p := s.procs[e.pid];
      WorkKeepsReversed(s.t, p.request, p.pc, e.oracle, w);
      if IsCall(p.request) {
        if p.pc.RecordTransfer? && p.pc.withdrawal == w {
          RecordingWrites(s.t, p, e.oracle);
        } else {
          CallKeepsReversed(s.t, p.request, p.pc, e.oracle, w);
        }
      }
    }
  }

  lemma RecordingWrites(t: Tables, p: Process, o: Oracle)
    requires IsCall(p.request) && p.pc.RecordTransfer? && IsReversed(t, p.pc.withdrawal)
    ensures IsReversed(Step(t, p, o).0, p.pc.withdrawal) <==> o.fails
  {
  }

  // ----- balances below zero

  ghost predicate NonNegative(t: Tables) {
    forall w | w in t.balances :: t.balances[w] >= 0
  }

  /** The generated ids of a debit are not taken. */
  predicate FreshDebit(t: Tables, o: Oracle) {
    o.id !in t.withdrawals && "WDR_" + o.suffix !in t.withdrawalByRef
  }

  /** A debit reaches its writes, on fresh ids, when the wallet no longer covers it. */
  predicate Overdraws(s: State, e: Event) {
    && e.Advance? && e.pid in s.procs && !e.oracle.fails
    && var p := s.procs[e.pid];
       && p.request.WithdrawalCall? && p.pc.WriteDebit? && p.pc.wallet in s.t.balances
       && FreshDebit(s.t, e.oracle)
       && s.t.balances[p.pc.wallet] < p.request.amount
  }

  /** The debit transaction writes what it read: nothing moved the balance in between. */
  predicate Serial(s: State, e: Event) {
    e.Advance? && e.pid in s.procs && s.procs[e.pid].pc.WriteDebit? && s.procs[e.pid].pc.wallet in s.t.balances
    ==> s.t.balances[s.procs[e.pid].pc.wallet] == s.procs[e.pid].pc.seen
  }

  predicate SerialRun(s: State, events: seq<Event>)
    decreases |events|
  {
    events == [] || (Serial(s, events[0]) && SerialRun(Next(s, events[0]), events[1..]))
  }

  lemma ReverseLowersNothing(t: Tables, w: Id, row: Withdrawal, saw: bool)
    requires NonNegative(t) && row.amount > 0 && ReverseWrite(t, w, row, saw).Some?
    ensures NonNegative(ReverseWrite(t, w, row, saw).value)
  {
  }

  lemma FinalizeLowersNothing(t: Tables, i: Id, row: Intent, saw: bool, data: Verification)
    requires NonNegative(t) && row.amount > 0 && FinalizeWrite(t, i, row, saw, data).Some?
    ensures NonNegative(FinalizeWrite(t, i, row, saw, data).value)
  {
  }

  lemma VerifyingMovesNoMoney(t: Tables, i: Id, o: Oracle)
    ensures StepVerify(t, i, o).0.balances == t.balances
  {
  }

  lemma WithdrawalIsPositive(t: Tables, w: Id)
    requires TablesOk(t) && w in t.withdrawals
    ensures t.withdrawals[w].amount > 0
  {
    assert WithdrawalOk(t, w);
  }

  lemma IntentIsPositive(t: Tables, i: Id)
    requires TablesOk(t) && i in t.intents
    ensures t.intents[i].amount > 0
  {
    assert IntentOk(t, i);
  }

  lemma WorkLowersNothing(t: Tables, r: Request, pc: Pc, o: Oracle)
    requires NonNegative(t) && TablesOk(t) && ReadsOk(t, r, pc)
    ensures NonNegative(StepWork(t, r, pc, o).0)
  {
    hide TablesOk, ReverseWrite, FinalizeWrite, HasTopup, StepFindIntent, StepVerify;
    match pc
    case Reverse(w, row, saw, _) =>
      WithdrawalIsPositive(t, w);
      if ReverseWrite(t, w, row, saw).Some? { ReverseLowersNothing(t, w, row, saw); }
    case Finalize(i, row, saw, data) =>
      IntentIsPositive(t, i);
      if FinalizeWrite(t, i, row, saw, data).Some? { FinalizeLowersNothing(t, i, row, saw, data); }
    case Verify(i) => VerifyingMovesNoMoney(t, i, o);
    case _ =>
  }

  lemma OtherCallsLowerNothing(t: Tables, excused: set<Key>, r: Request, pc: Pc, o: Oracle)
    requires NonNegative(t) && TablesOk(t) && IsCall(r) && ProcessOk(t, excused, Process(r, pc)) && !pc.WriteDebit?
    ensures NonNegative(StepCall(t, r, pc, o).0)
  {
    hide TablesOk, StepWork;
    WorkLowersNothing(t, r, pc, o);
  }

  lemma DebitLowersExactly(t: Tables, r: Request, wallet: Id, o: Oracle)
    requires NonNegative(t) && TablesOk(t) && IsCall(r)
    ensures NonNegative(StepDebit(t, r, wallet, o).0) <==>
            !(wallet in t.balances && FreshDebit(t, o) && t.balances[wallet] < r.amount)
  {
    if o.id !in t.withdrawals { NoWithdrawalNoEntries(t, o.id); }
    hide TablesOk;
    var t' := StepDebit(t, r, wallet, o).0;
    if wallet in t.balances && FreshDebit(t, o) {
      assert t'.balances == t.balances[wallet := t.balances[wallet] - r.amount];
      assert t'.balances[wallet] == t.balances[wallet] - r.amount;
    }
  }

  /** From balances at or above zero, a step makes one negative exactly when it overdraws. */
  lemma NegativeExactlyWhenOverdrawn(s: State, e: Event)
    requires Inv(s) && NonNegative(s.t)
    ensures NonNegative(Next(s, e).t) <==> !Overdraws(s, e)
  {
    hide TablesOk, KeysOk, OneHolder, StartedOnce, StepWork, StepDebit, ReadsOk;
    if e.Advance? && e.pid in s.procs {
      var p := s.procs[e.pid];
      assert ProcessOk(s.t, Excused(s), p);
      WorkLowersNothing(s.t, p.request, p.pc, e.oracle);
      if IsCall(p.request) {
        if p.pc.WriteDebit? {
          DebitLowersExactly(s.t, p.request, p.pc.wallet, e.oracle);
        } else {
          OtherCallsLowerNothing(s.t, Excused(s), p.request, p.pc, e.oracle);
        }
      }
    }
  }

  lemma SerialNeverOverdraws(s: State, e: Event)
    requires Inv(s) && Serial(s, e)
    ensures !Overdraws(s, e)
  {
    if e.Advance? && e.pid in s.procs { assert ProcessOk(s.t, Excused(s), s.procs[e.pid]); }
  }

  /** With serialized debit transactions no schedule drives a wallet below zero. */
  lemma {:induction false} SerialRunsStayNonNegative(s: State, events: seq<Event>)
    requires Inv(s) && NonNegative(s.t) && SerialRun(s, events)
    ensures NonNegative(Run(s, events).t)
    decreases |events|
  {
    hide Inv, Overdraws, Serial;
    if events != [] {
      SerialNeverOverdraws(s, events[0]);
      NegativeExactlyWhenOverdrawn(s, events[0]);
      NextKeeps(s, events[0]);
      SerialRunsStayNonNegative(Next(s, events[0]), events[1..]);
    }
  }
}

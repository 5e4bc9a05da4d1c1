/**
 What a request achieves when its process is advanced alone, from any reachable state and with steps that do
 not throw: payments are credited, transfers debited or compensated, and repeated requests replayed.
 */
module WalletOutcomes {
  import opened Options
  import opened WalletTables
  import opened WalletProtocol
  import opened WalletInvariant
  import opened WalletTheorems
  import opened WalletStore

  // ----- advancing one process alone

  /** `n` steps of one process, with the oracles from `i` on. */
  function Solo(t: Tables, p: Process, os: nat -> Oracle, i: nat, n: nat): (Tables, Process)
    decreases n
  {
    if n == 0 then (t, p)
    else var (t', next) := Step(t, p, os(i)); Solo(t', p.(pc := next), os, i + 1, n - 1)
  }

  function Advances(pid: nat, os: nat -> Oracle, i: nat, n: nat): seq<Event>
    decreases n
  {
    if n == 0 then [] else [Advance(pid, os(i))] + Advances(pid, os, i + 1, n - 1)
  }

  ghost predicate NoneThrows(os: nat -> Oracle) { forall i :: !os(i).fails }

  /** In a run that advances one process, only that process and the tables change, as if it were alone. */
  lemma {:induction false} SoloIsARun(s: State, pid: nat, os: nat -> Oracle, i: nat, n: nat)
    requires pid in s.procs
    ensures var s', (t', p') := Run(s, Advances(pid, os, i, n)), Solo(s.t, s.procs[pid], os, i, n);
            s'.t == t' && s'.procs == s.procs[pid := p']
    decreases n
  {
    if n > 0 {
      AdvanceMoves(s, pid, os(i));
      hide Next, Step;
      var s1 := Next(s, Advance(pid, os(i)));
      SoloIsARun(s1, pid, os, i + 1, n - 1);
      assert Advances(pid, os, i, n)[1..] == Advances(pid, os, i + 1, n - 1);
    }
  }

  lemma {:induction false} DoneIdles(t: Tables, p: Process, os: nat -> Oracle, i: nat, n: nat)
    requires p.pc.Done?
    ensures Solo(t, p, os, i, n) == (t, p)
    decreases n
  {
    if n > 0 { DoneIdles(t, p, os, i + 1, n - 1); }
  }

  /** One step of a process that does not throw. */
  lemma SoloStep(t: Tables, p: Process, os: nat -> Oracle, i: nat, n: nat, t': Tables, next: Pc)
    requires n > 0 && Step(t, p, os(i)) == (t', next)
    ensures Solo(t, p, os, i, n) == Solo(t', p.(pc := next), os, i + 1, n - 1)
  {
    hide Step;
  }

  // ----- webhooks

  lemma FindWithdrawalSteps(t: Tables, reference: string, o: Oracle)
    requires !o.fails
    ensures Step(t, Process(TransferFailedWebhook(reference), FindWithdrawal), o) ==
            (t, if reference in t.withdrawalByRef
              then ReadReversal(t.withdrawalByRef[reference], false) else Done(Handled))
  {
  }

  lemma ReadReversalSteps(t: Tables, r: Request, w: Id, inCatch: bool, o: Oracle)
    requires !o.fails && w in t.withdrawals
    ensures Step(t, Process(r, ReadReversal(w, inCatch)), o) ==
            (t, Reverse(w, t.withdrawals[w], ReversalRef(w) in t.ledger, inCatch))
  {
  }

  /** A compensation that reads and writes without interference. */
  lemma ReversalAlone(t: Tables, r: Request, w: Id, inCatch: bool, os: nat -> Oracle, i: nat, n: nat)
    requires NoneThrows(os) && w in t.withdrawals && n >= 2
    ensures Solo(t, Process(r, ReadReversal(w, inCatch)), os, i, n) ==
            Solo(ReverseTransaction(t, w), Process(r, AfterReverse(r, w, inCatch)), os, i + 2, n - 2)
  {
    hide Step, ReverseWrite, AfterReverse;
    var p := Process(r, Reverse(w, t.withdrawals[w], ReversalRef(w) in t.ledger, inCatch));
    ReadReversalSteps(t, r, w, inCatch, os(i));
    SoloStep(t, Process(r, ReadReversal(w, inCatch)), os, i, n, t, p.pc);
    ReverseSteps(t, p, os(i + 1));
    SoloStep(t, p, os, i + 1, n - 1, ReverseTransaction(t, w), AfterReverse(r, w, inCatch));
  }

  lemma FailureWebhookAlone(t: Tables, reference: string, os: nat -> Oracle, n: nat)
    requires NoneThrows(os) && n >= 3
    requires reference in t.withdrawalByRef ==> t.withdrawalByRef[reference] in t.withdrawals
    ensures var r := TransferFailedWebhook(reference);
            Solo(t, Process(r, FindWithdrawal), os, 0, n) ==
            (if reference in t.withdrawalByRef then ReverseTransaction(t, t.withdrawalByRef[reference]) else t,
             Process(r, Done(Handled)))
  {
    hide Step, ReverseTransaction;
    var p := Process(TransferFailedWebhook(reference), FindWithdrawal);
    FindWithdrawalSteps(t, reference, os(0));
    if reference in t.withdrawalByRef {
      var w := t.withdrawalByRef[reference];
      SoloStep(t, p, os, 0, n, t, ReadReversal(w, false));
      ReversalAlone(t, p.request, w, false, os, 1, n - 1);
      DoneIdles(ReverseTransaction(t, w), p.(pc := Done(Handled)), os, 3, n - 3);
    } else {
      SoloStep(t, p, os, 0, n, t, Done(Handled));
      DoneIdles(t, p.(pc := Done(Handled)), os, 1, n - 1);
    }
  }

  /** Only this process has moved, and it has ended with this outcome. */
  predicate Ends(s: State, s': State, pid: nat, outcome: Outcome) {
    pid in s.procs && s'.procs == s.procs[pid := s.procs[pid].(pc := Done(outcome))]
  }

  lemma ReachableIndex(s: State)
    requires IsReachable(s)
    ensures TablesOk(s.t)
    ensures forall r | r in s.t.withdrawalByRef :: s.t.withdrawalByRef[r] in s.t.withdrawals
    ensures forall r | r in s.t.intentByRef :: s.t.intentByRef[r] in s.t.intents
  {
    ReachableInv(s);
  }

  /**
   A transfer.failed or transfer.reversed webhook ends handled: the withdrawal of its reference is reversed, its
   wallet raised by the amount exactly when it was not credited back before, and nothing else has changed.
   */
  lemma FailedTransferIsCompensated(s: State, pid: nat, reference: string, os: nat -> Oracle, n: nat)
    requires IsReachable(s) && NoneThrows(os) && n >= 3
    requires pid in s.procs && s.procs[pid] == Process(TransferFailedWebhook(reference), FindWithdrawal)
    ensures var s' := Run(s, Advances(pid, os, 0, n));
            && Ends(s, s', pid, Handled)
            && if reference in s.t.withdrawalByRef
               then s.t.withdrawalByRef[reference] in s.t.withdrawals
                 && Compensates(s.t, s'.t, s.t.withdrawalByRef[reference])
               else s'.t == s.t
  {
    ReachableIndex(s);
    SoloIsARun(s, pid, os, 0, n);
    hide Run, Solo, IsReachable, Compensates, ReverseTransaction, TablesOk;
    FailureWebhookAlone(s.t, reference, os, n);
    if reference in s.t.withdrawalByRef { ReversalCompensates(s.t, s.t.withdrawalByRef[reference]); }
  }

  /** A transfer.success webhook completes the withdrawal of its reference exactly while it is processing. */
  lemma SucceededTransferIsRecorded(s: State, reference: string, w: Id)
    requires IsReachable(s) && w in s.t.withdrawals
    ensures var s', row := Next(s, TransferSucceededWebhook(reference)), s.t.withdrawals[w];
            && s'.t == s.t.(withdrawals := s'.t.withdrawals) && s'.procs == s.procs && w in s'.t.withdrawals
            && s'.t.withdrawals[w] == if row.reference == reference && row.status in {InTransfer, PendingTransfer}
                                      then row.(status := Transferred) else row
  {
    ReachableIndex(s);
    ReferenceLeadsHome(s.t, w);
    hide IsReachable, TablesOk, Step;
    MarkingSucceeds(s.t, reference, w);
    hide MarkSucceeded;
  }

  lemma MarkingSucceeds(t: Tables, reference: string, w: Id)
    requires w in t.withdrawals
    requires t.withdrawals[w].reference == reference <==>
             reference in t.withdrawalByRef && t.withdrawalByRef[reference] == w
    ensures var t', row := MarkSucceeded(t, reference), t.withdrawals[w];
            && t' == t.(withdrawals := t'.withdrawals) && w in t'.withdrawals
            && t'.withdrawals[w] == if row.reference == reference && row.status in {InTransfer, PendingTransfer}
                                    then row.(status := Transferred) else row
  {
  }

  lemma ReferenceLeadsHome(t: Tables, w: Id)
    requires TablesOk(t) && w in t.withdrawals
    ensures forall r :: r == t.withdrawals[w].reference <==> r in t.withdrawalByRef && t.withdrawalByRef[r] == w
  {
    assert WithdrawalOk(t, w);
    assert IndexOk(t);
  }

  lemma FindIntentSteps(t: Tables, r: Request, o: Oracle)
    requires !o.fails && !IsCall(r)
    ensures Step(t, Process(r, FindIntent), o) == (t, StepFindIntent(t, r))
  {
    hide StepFindIntent;
  }

  lemma ReadIntentSteps(t: Tables, r: Request, i: Id, data: Verification, o: Oracle)
    requires !o.fails && i in t.intents
    ensures Step(t, Process(r, ReadIntent(i, data)), o) == (t, Finalize(i, t.intents[i], HasTopup(t, i), data))
  {
    hide HasTopup;
  }

  predicate Commits(t: Tables, i: Id, data: Verification) {
    i in t.intents && FinalizeWrite(t, i, t.intents[i], HasTopup(t, i), data).Some?
  }

  /** A finalization that reads and writes without interference. */
  lemma FinalizationAlone(t: Tables, r: Request, j: Id, data: Verification, os: nat -> Oracle, i: nat, n: nat)
    requires NoneThrows(os) && j in t.intents && n >= 2
    ensures Solo(t, Process(r, ReadIntent(j, data)), os, i, n) ==
            Solo(FinalizeTransaction(t, j, data), Process(r, AfterFinalize(r, t.intents[j], Commits(t, j, data))), os,
              i + 2, n - 2)
  {
    hide Step, FinalizeWrite, HasTopup, AfterFinalize;
    var p := Process(r, Finalize(j, t.intents[j], HasTopup(t, j), data));
    ReadIntentSteps(t, r, j, data, os(i));
    SoloStep(t, Process(r, ReadIntent(j, data)), os, i, n, t, p.pc);
    FinalizeSteps(t, p, os(i + 1));
    SoloStep(t, p, os, i + 1, n - 1, FinalizeTransaction(t, j, data),
      AfterFinalize(r, t.intents[j], Commits(t, j, data)));
  }

  lemma ChargeWebhookAlone(t: Tables, reference: string, data: Verification, os: nat -> Oracle, n: nat)
    requires NoneThrows(os) && n >= 3
    requires reference in t.intentByRef ==> t.intentByRef[reference] in t.intents
    ensures var r := ChargeWebhook(reference, data);
            Solo(t, Process(r, FindIntent), os, 0, n) ==
            if reference !in t.intentByRef then (t, Process(r, Done(Handled)))
            else
              (FinalizeTransaction(t, t.intentByRef[reference], data),
               Process(r, Done(if Commits(t, t.intentByRef[reference], data) then Handled else Rejected)))
  {
    hide Step, FinalizeTransaction, Commits;
    var p := Process(ChargeWebhook(reference, data), FindIntent);
    FindIntentSteps(t, p.request, os(0));
    if reference in t.intentByRef {
      var i := t.intentByRef[reference];
      SoloStep(t, p, os, 0, n, t, ReadIntent(i, data));
      FinalizationAlone(t, p.request, i, data, os, 1, n - 1);
      DoneIdles(FinalizeTransaction(t, i, data), p.(pc := Done(if Commits(t, i, data) then Handled else Rejected)), os,
        3, n - 3);
    } else {
      SoloStep(t, p, os, 0, n, t, Done(Handled));
      DoneIdles(t, p.(pc := Done(Handled)), os, 1, n - 1);
    }
  }

  /** The reply to a finalization: it is refused exactly when a successful charge is in another amount or currency. */
  function SettlementOutcome(row: Intent, data: Verification): Outcome {
    if VerifiedInFull(row, data) || data.status != Some("success") then Handled else Rejected
  }

  /**
   A charge.success webhook settles the intent of its reference: verified in full, the intent ends confirmed with
   its one credit; an unknown reference is ignored.
   */
  lemma ChargeWebhookSettles(s: State, pid: nat, reference: string, data: Verification, os: nat -> Oracle, n: nat)
    requires IsReachable(s) && NoneThrows(os) && n >= 3
    requires pid in s.procs && s.procs[pid] == Process(ChargeWebhook(reference, data), FindIntent)
    ensures var s' := Run(s, Advances(pid, os, 0, n));
            if reference in s.t.intentByRef
            then var i := s.t.intentByRef[reference];
                 i in s.t.intents && Settles(s.t, s'.t, i, data)
                 && Ends(s, s', pid, SettlementOutcome(s.t.intents[i], data))
            else s'.t == s.t && Ends(s, s', pid, Handled)
  {
    ReachableIndex(s);
    SoloIsARun(s, pid, os, 0, n);
    hide Run, Solo, IsReachable, Settles, FinalizeTransaction, FinalizeWrite, HasTopup, TablesOk, VerifiedInFull;
    ChargeWebhookAlone(s.t, reference, data, os, n);
    if reference in s.t.intentByRef { FinalizationSettles(s.t, s.t.intentByRef[reference], data); }
  }

  // ----- confirmations

  lemma VerifySteps(t: Tables, r: Request, i: Id, o: Oracle)
    requires !o.fails && !IsCall(r) && i in t.intents
    ensures Step(t, Process(r, Verify(i)), o) ==
            if o.data.status != Some("success")
            then (t.(intents := t.intents[i := t.intents[i].(status := Failed)]), Done(Handled))
            else (t, ReadIntent(i, o.data))
  {
    PaystackStatusTable(o.data.status);
    hide MapPaystackStatus;
  }

  lemma ConfirmAlone(t: Tables, profile: Id, reference: string, os: nat -> Oracle, n: nat)
    requires NoneThrows(os) && n >= 4
    ensures var r, data := ConfirmCall(profile, reference), os(1).data;
            Solo(t, Process(r, FindIntent), os, 0, n) ==
            (ConfirmTransaction(t, profile, reference, data),
             Process(r, Done(if !OwnsIntent(t, profile, reference) then Rejected
                             else if IsSettled(t.intents[t.intentByRef[reference]]) || data.status != Some("success")
                                 then Handled
                             else if Commits(t, t.intentByRef[reference], data) then Handled else Rejected)))
  {
    hide Step, FinalizeTransaction, Commits;
    var p := Process(ConfirmCall(profile, reference), FindIntent);
    FindIntentSteps(t, p.request, os(0));
    PaystackStatusTable(os(1).data.status);
    hide MapPaystackStatus;
    if !OwnsIntent(t, profile, reference) {
      SoloStep(t, p, os, 0, n, t, Done(Rejected));
      DoneIdles(t, p.(pc := Done(Rejected)), os, 1, n - 1);
    } else if IsSettled(t.intents[t.intentByRef[reference]]) {
      SoloStep(t, p, os, 0, n, t, Done(Handled));
      DoneIdles(t, p.(pc := Done(Handled)), os, 1, n - 1);
    } else {
      var i := t.intentByRef[reference];
      SoloStep(t, p, os, 0, n, t, Verify(i));
      VerifySteps(t, p.request, i, os(1));
      VerificationAlone(t, p.request, i, os, 1, n - 1);
    }
  }

  /** From the answer to a verification on. */
  lemma VerificationAlone(t: Tables, r: Request, j: Id, os: nat -> Oracle, i: nat, n: nat)
    requires NoneThrows(os) && !IsCall(r) && j in t.intents && n >= 3
    ensures var data := os(i).data;
            Solo(t, Process(r, Verify(j)), os, i, n) ==
            if data.status != Some("success")
            then (t.(intents := t.intents[j := t.intents[j].(status := Failed)]), Process(r, Done(Handled)))
            else (FinalizeTransaction(t, j, data), Process(r, Done(if Commits(t, j, data) then Handled else Rejected)))
  {
    hide Step, FinalizeTransaction, Commits;
    var p, data := Process(r, Verify(j)), os(i).data;
    VerifySteps(t, r, j, os(i));
    if data.status != Some("success") {
      var t' := t.(intents := t.intents[j := t.intents[j].(status := Failed)]);
      SoloStep(t, p, os, i, n, t', Done(Handled));
      DoneIdles(t', p.(pc := Done(Handled)), os, i + 1, n - 1);
    } else {
      SoloStep(t, p, os, i, n, t, ReadIntent(j, data));
      FinalizationAlone(t, r, j, data, os, i + 1, n - 1);
      DoneIdles(FinalizeTransaction(t, j, data), p.(pc := Done(if Commits(t, j, data) then Handled else Rejected)), os,
        i + 3, n - 3);
    }
  }

  /**
   A confirmation settles its owner's intent with the answer that Paystack gives; a settled intent is left alone,
   and a reference that is not the profile's is refused.
   */
  lemma ConfirmationSettles(s: State, pid: nat, profile: Id, reference: string, os: nat -> Oracle, n: nat)
    requires IsReachable(s) && NoneThrows(os) && n >= 4
    requires pid in s.procs && s.procs[pid] == Process(ConfirmCall(profile, reference), FindIntent)
    ensures var s', data := Run(s, Advances(pid, os, 0, n)), os(1).data;
            if reference !in s.t.intentByRef || profile !in s.t.walletOf || s.t.intentByRef[reference] !in s.t.intents
               || s.t.intents[s.t.intentByRef[reference]].wallet != s.t.walletOf[profile]
            then s'.t == s.t && Ends(s, s', pid, Rejected)
            else
              var i := s.t.intentByRef[reference];
              if s.t.intents[i].status == Succeeded && s.t.intents[i].confirmed
              then s'.t == s.t && Ends(s, s', pid, Handled)
              else Settles(s.t, s'.t, i, data) && Ends(s, s', pid, SettlementOutcome(s.t.intents[i], data))
  {
    ReachableIndex(s);
    SoloIsARun(s, pid, os, 0, n);
    ConfirmAlone(s.t, profile, reference, os, n);
    hide Run, Solo, IsReachable, Settles, ConfirmTransaction, FinalizeWrite, HasTopup, TablesOk, VerifiedInFull;
    if OwnsIntent(s.t, profile, reference) {
      ConfirmationCreditsExactly(s.t, profile, reference, os(1).data);
      FinalizationSettles(s.t, s.t.intentByRef[reference], os(1).data);
    }
  }

  // ----- repeated requests

  lemma CheckSteps(t: Tables, p: Process, o: Oracle)
    requires !o.fails && IsCall(p.request) && (p.pc.CheckKey? || p.pc.ReadRaced?) && KeyOf(p.request) in t.keys
    ensures Step(t, p, o) == (t, Verdict(t.keys[KeyOf(p.request)], p.request.hash))
  {
    hide Verdict;
  }

  lemma KnownKeyAlone(t: Tables, p: Process, os: nat -> Oracle, n: nat) returns (outcome: Outcome)
    requires NoneThrows(os) && n >= 2 && IsCall(p.request) && (p.pc.CheckKey? || p.pc.ReadRaced?)
    requires KeyOf(p.request) in t.keys
    ensures Solo(t, p, os, 0, n) == (t, p.(pc := Done(outcome)))
    ensures match Verdict(t.keys[KeyOf(p.request)], p.request.hash)
            case Replay(response) => outcome == ReplayOutcome(t, p.request, response)
            case pc => pc == Done(outcome)
  {
    CheckSteps(t, p, os(0));
    var verdict := Verdict(t.keys[KeyOf(p.request)], p.request.hash);
    hide Step, ReplayOutcome;
    SoloStep(t, p, os, 0, n, t, verdict);
    if verdict.Replay? {
      outcome := ReplayOutcome(t, p.request, verdict.response);
      ReplaySteps(t, p.(pc := verdict), os(1));
      SoloStep(t, p.(pc := verdict), os, 1, n - 1, t, Done(outcome));
      DoneIdles(t, p.(pc := Done(outcome)), os, 2, n - 2);
    } else {
      outcome := verdict.outcome;
      DoneIdles(t, p.(pc := verdict), os, 1, n - 1);
    }
  }

  lemma ReachableSound(s: State)
    requires IsReachable(s)
    ensures TablesOk(s.t) && KeysOk(s.t, Excused(s))
  {
    ReachableInv(s);
  }

  /**
   A caller that meets an existing key row, at its first read or after losing the race to insert it, is told what
   the row records: the response of a completed key, or that the payload differs, the request failed or is running.
   */
  lemma KnownKeyIsAnswered(s: State, pid: nat, os: nat -> Oracle, n: nat) returns (outcome: Outcome)
    requires IsReachable(s) && NoneThrows(os) && n >= 2
    requires pid in s.procs && IsCall(s.procs[pid].request) && (s.procs[pid].pc.CheckKey? || s.procs[pid].pc.ReadRaced?)
    requires KeyOf(s.procs[pid].request) in s.t.keys
    ensures var s', r := Run(s, Advances(pid, os, 0, n)), s.procs[pid].request;
            && s'.t == s.t && Ends(s, s', pid, outcome)
            && RepliesAsRecorded(s.t.keys[KeyOf(r)], r.hash, outcome)
  {
    ReachableSound(s);
    SoloIsARun(s, pid, os, 0, n);
    hide Run, Solo, IsReachable, RepliesAsRecorded, ReplayOutcome, TablesOk, KeysOk;
    VerdictReplies(s.t, Excused(s), s.procs[pid].request);
    outcome := KnownKeyAlone(s.t, s.procs[pid], os, n);
  }

  // ----- new requests

  /** Requests are taken up exactly with a positive amount and a key. */
  lemma ValidRequestsStart(r: Request)
    requires IsCall(r)
    ensures FirstPc(r) == if r.amount > 0 && r.key != "" then CheckKey else Done(Rejected)
  {
  }

  /** A caller with a fresh key takes its lock. */
  lemma LockAlone(t: Tables, r: Request, os: nat -> Oracle, n: nat)
    requires NoneThrows(os) && IsCall(r) && KeyOf(r) !in t.keys && n >= 2
    ensures Solo(t, Process(r, CheckKey), os, 0, n) ==
            Solo(SetKey(t, KeyOf(r), KeyRow(r.hash, InProgress, None)), Process(r, OpenWallet), os, 2, n - 2)
  {
    FreshKeySteps(t, r, os(0));
    InsertSteps(t, Process(r, InsertKey), os(1));
    hide Step, SetKey;
    SoloStep(t, Process(r, CheckKey), os, 0, n, t, InsertKey);
    SoloStep(t, Process(r, InsertKey), os, 1, n - 1, SetKey(t, KeyOf(r), KeyRow(r.hash, InProgress, None)), OpenWallet);
  }

  lemma FreshKeySteps(t: Tables, r: Request, o: Oracle)
    requires !o.fails && IsCall(r) && KeyOf(r) !in t.keys
    ensures Step(t, Process(r, CheckKey), o) == (t, InsertKey)
  {
    hide StepWork, Verdict;
  }

  lemma OpenSteps(t: Tables, r: Request, o: Oracle)
    requires !o.fails && IsCall(r)
    ensures Step(t, Process(r, OpenWallet), o) ==
            (t, if r.profile in t.walletOf then WithWallet(r, t.walletOf[r.profile]) else InsertWallet)
    ensures r.profile !in t.walletOf && o.id !in t.balances ==>
            CreateWallet(t, r.profile, o.id).Some?
            && Step(t, Process(r, InsertWallet), o) == (CreateWallet(t, r.profile, o.id).value, WithWallet(r, o.id))
  {
    hide StepWork, WithWallet;
  }

  lemma BalanceSteps(t: Tables, r: Request, wallet: Id, o: Oracle)
    requires !o.fails && r.WithdrawalCall? && wallet in t.balances
    ensures Step(t, Process(r, ReadBalance(wallet)), o) ==
            (t, if t.balances[wallet] < r.amount then BreakKey else WriteDebit(wallet, t.balances[wallet]))
  {
    hide StepWork;
  }

  lemma DebitSteps(t: Tables, r: Request, wallet: Id, seen: int, o: Oracle)
    requires !o.fails && r.WithdrawalCall?
    ensures Step(t, Process(r, WriteDebit(wallet, seen)), o) == StepDebit(t, r, wallet, o)
  {
    hide StepWork, StepDebit;
  }

  lemma TransferSteps(t: Tables, r: Request, w: Id, o: Oracle)
    requires !o.fails && r.WithdrawalCall?
    ensures Step(t, Process(r, Transfer(w)), o) ==
            (t, if o.transfer.TransferFailed? then ReadReversal(w, false) else RecordTransfer(w, o.transfer.succeeded))
  {
    hide StepWork;
  }

  lemma RecordSteps(t: Tables, r: Request, w: Id, succeeded: bool, o: Oracle)
    requires !o.fails && r.WithdrawalCall? && w in t.withdrawals
    ensures Step(t, Process(r, RecordTransfer(w, succeeded)), o) ==
            (SetTransferStatus(t, w, if succeeded then Transferred else InTransfer), CloseKey(WithdrawalId(w)))
  {
    hide StepWork, SetTransferStatus;
  }

  /** A caller at its completion write ends with its response. */
  lemma CloseAlone(t: Tables, r: Request, response: Response, os: nat -> Oracle, i: nat, n: nat)
    requires NoneThrows(os) && IsCall(r) && KeyOf(r) in t.keys && n >= 1
    ensures var row := t.keys[KeyOf(r)].(status := Completed, response := Some(response));
            Solo(t, Process(r, CloseKey(response)), os, i, n)
              == (SetKey(t, KeyOf(r), row), Process(r, Done(Ok(response))))
  {
    CloseSteps(t, Process(r, CloseKey(response)), os(i));
    hide Step, SetKey;
    var t' := SetKey(t, KeyOf(r), t.keys[KeyOf(r)].(status := Completed, response := Some(response)));
    SoloStep(t, Process(r, CloseKey(response)), os, i, n, t', Done(Ok(response)));
    DoneIdles(t', Process(r, Done(Ok(response))), os, i + 1, n - 1);
  }

  lemma BreakAlone(t: Tables, r: Request, os: nat -> Oracle, i: nat, n: nat)
    requires NoneThrows(os) && IsCall(r) && KeyOf(r) in t.keys && n >= 1
    ensures Solo(t, Process(r, BreakKey), os, i, n) ==
            (SetKey(t, KeyOf(r), t.keys[KeyOf(r)].(status := Broken)), Process(r, Done(Rejected)))
  {
    BreakSteps(t, Process(r, BreakKey), os(i));
    hide Step, SetKey;
    var t' := SetKey(t, KeyOf(r), t.keys[KeyOf(r)].(status := Broken));
    SoloStep(t, Process(r, BreakKey), os, i, n, t', Done(Rejected));
    DoneIdles(t', Process(r, Done(Rejected)), os, i + 1, n - 1);
  }

  /** The tables with the lock of a call taken. */
  function Locked(t: Tables, r: Request): Tables
    requires IsCall(r)
  {
    SetKey(t, KeyOf(r), KeyRow(r.hash, InProgress, None))
  }

  // ----- withdrawals

  /** A withdrawal with a fresh key, new ids and a wallet, whose steps all meet the same oracle. */
  ghost predicate NewWithdrawal(t: Tables, r: Request, wallet: Id, os: nat -> Oracle, o: Oracle) {
    && r.WithdrawalCall? && KeyOf(r) !in t.keys
    && r.profile in t.walletOf && t.walletOf[r.profile] == wallet && wallet in t.balances
    && (forall i :: os(i) == o) && !o.fails
  }

  /** Up to the balance test. */
  lemma BalanceAlone(t: Tables, r: Request, wallet: Id, os: nat -> Oracle, o: Oracle, n: nat)
    requires NewWithdrawal(t, r, wallet, os, o) && n >= 4
    ensures Solo(t, Process(r, CheckKey), os, 0, n) ==
            Solo(Locked(t, r),
                 Process(r, if t.balances[wallet] < r.amount then BreakKey else WriteDebit(wallet, t.balances[wallet])),
                 os, 4, n - 4)
  {
    hide Step;
    LockAlone(t, r, os, n);
    var locked := Locked(t, r);
    OpenSteps(locked, r, os(2));
    BalanceSteps(locked, r, wallet, os(3));
    SoloStep(locked, Process(r, OpenWallet), os, 2, n - 2, locked, ReadBalance(wallet));
    SoloStep(locked, Process(r, ReadBalance(wallet)), os, 3, n - 3, locked,
             if t.balances[wallet] < r.amount then BreakKey else WriteDebit(wallet, t.balances[wallet]));
  }

  /** A withdrawal that its wallet does not cover fails, and moves nothing. */
  lemma UncoveredWithdrawalFails(s: State, pid: nat, wallet: Id, os: nat -> Oracle, o: Oracle, n: nat)
    requires pid in s.procs && s.procs[pid].pc.CheckKey? && n >= 5
    requires NewWithdrawal(s.t, s.procs[pid].request, wallet, os, o)
    requires s.t.balances[wallet] < s.procs[pid].request.amount
    ensures var s', r := Run(s, Advances(pid, os, 0, n)), s.procs[pid].request;
            && Ends(s, s', pid, Rejected)
            && s'.t == s.t.(keys := s.t.keys[KeyOf(r) := KeyRow(r.hash, Broken, None)])
  {
    var r := s.procs[pid].request;
    SoloIsARun(s, pid, os, 0, n);
    hide Run, Solo;
    BalanceAlone(s.t, r, wallet, os, o, n);
    BreakAlone(Locked(s.t, r), r, os, 4, n - 4);
  }

  /** The tables with the lock taken and the debit written. */
  function Debited(t: Tables, r: Request, wallet: Id, o: Oracle): Tables
    requires r.WithdrawalCall? && wallet in t.balances
  {
    var row := Withdrawal(wallet, r.profile, r.amount, "WDR_" + o.suffix, InTransfer, KeyOf(r));
    t.(keys := t.keys[KeyOf(r) := KeyRow(r.hash, InProgress, None)],
       withdrawals := t.withdrawals[o.id := row],
       withdrawalByRef := t.withdrawalByRef["WDR_" + o.suffix := o.id],
       ledger := t.ledger[DebitRef(o.id) := Entry(wallet, Debit, Payout, r.amount, None)],
       balances := t.balances[wallet := t.balances[wallet] - r.amount])
  }

  /** The debit is on new ids, and covered. */
  ghost predicate DebitsFreshly(t: Tables, r: Request, wallet: Id, o: Oracle)
    requires r.WithdrawalCall?
  {
    && wallet in t.balances && t.balances[wallet] >= r.amount && FreshDebit(t, o)
    && DebitRef(o.id) !in t.ledger && ReversalRef(o.id) !in t.ledger
  }

  /** The wallet covers the amount, and the generated ids are new. */
  predicate IsCovered(t: Tables, r: Request, wallet: Id, o: Oracle)
    requires r.WithdrawalCall?
  {
    wallet in t.balances && t.balances[wallet] >= r.amount && FreshDebit(t, o)
  }

  lemma CoveredDebitsFreshly(t: Tables, r: Request, wallet: Id, o: Oracle)
    requires TablesOk(t) && r.WithdrawalCall? && IsCovered(t, r, wallet, o)
    ensures DebitsFreshly(t, r, wallet, o)
  {
    NoWithdrawalNoEntries(t, o.id);
    hide TablesOk;
  }

  lemma DebitAlone(t: Tables, r: Request, wallet: Id, os: nat -> Oracle, o: Oracle, n: nat)
    requires NewWithdrawal(t, r, wallet, os, o) && IsCall(r) && DebitsFreshly(t, r, wallet, o) && n >= 6
    ensures Solo(t, Process(r, CheckKey), os, 0, n) ==
            Solo(Debited(t, r, wallet, o),
                 Process(r, if o.transfer.TransferFailed? then ReadReversal(o.id, false)
                            else RecordTransfer(o.id, o.transfer.succeeded)),
                 os, 6, n - 6)
  {
    hide Step, DebitWrite;
    BalanceAlone(t, r, wallet, os, o, n);
    var locked, debited := Locked(t, r), Debited(t, r, wallet, o);
    DebitSteps(locked, r, wallet, t.balances[wallet], os(4));
    DebitWrites(t, r, wallet, o);
    TransferSteps(debited, r, o.id, os(5));
    hide StepDebit, Locked, Debited;
    SoloStep(locked, Process(r, WriteDebit(wallet, t.balances[wallet])), os, 4, n - 4, debited, Transfer(o.id));
    SoloStep(debited, Process(r, Transfer(o.id)), os, 5, n - 5, debited,
             if o.transfer.TransferFailed?
                 then ReadReversal(o.id, false) else RecordTransfer(o.id, o.transfer.succeeded));
  }

  lemma DebitWrites(t: Tables, r: Request, wallet: Id, o: Oracle)
    requires r.WithdrawalCall? && DebitsFreshly(t, r, wallet, o)
    ensures StepDebit(Locked(t, r), r, wallet, o) == (Debited(t, r, wallet, o), Transfer(o.id))
  {
  }

  /** The withdrawal stands in this status, debited once, under a key that has ended like this. */
  predicate Withdrawn(t: Tables, t': Tables, r: Request, wallet: Id, o: Oracle, status: TransferStatus, row: KeyRow)
    requires r.WithdrawalCall?
  {
    && t'.keys == t.keys[KeyOf(r) := row]
    && t'.withdrawals == t.withdrawals[o.id :=
         Withdrawal(wallet, r.profile, r.amount, "WDR_" + o.suffix, status, KeyOf(r))]
  }

  /** The completed key: the wallet is lowered by the amount, with one debit row. */
  predicate PaidOut(t: Tables, t': Tables, r: Request, wallet: Id, o: Oracle)
    requires r.WithdrawalCall? && wallet in t.balances && o.transfer.TransferAccepted?
  {
    && Withdrawn(t, t', r, wallet, o, if o.transfer.succeeded then Transferred else InTransfer,
                 KeyRow(r.hash, Completed, Some(WithdrawalId(o.id))))
    && t'.balances == t.balances[wallet := t.balances[wallet] - r.amount]
    && t'.ledger == t.ledger[DebitRef(o.id) := Entry(wallet, Debit, Payout, r.amount, None)]
  }

  lemma AcceptedAlone(t: Tables, r: Request, wallet: Id, os: nat -> Oracle, o: Oracle, n: nat)
    requires NewWithdrawal(t, r, wallet, os, o) && DebitsFreshly(t, r, wallet, o) && n >= 8
             && o.transfer.TransferAccepted?
    ensures var (t', p') := Solo(t, Process(r, CheckKey), os, 0, n);
            p' == Process(r, Done(Ok(WithdrawalId(o.id)))) && PaidOut(t, t', r, wallet, o)
  {
    hide Solo, PaidOut, NewWithdrawal, DebitsFreshly, Debited, SetTransferStatus, SetKey, KeyOf;
    NewFacts(t, r, wallet, os, o);
    RecordingPaysOut(t, r, wallet, o);
    DebitAlone(t, r, wallet, os, o, n);
    RecordAlone(Debited(t, r, wallet, o), r, o.id, o.transfer.succeeded, os, 6, n - 6);
  }

  lemma NewFacts(t: Tables, r: Request, wallet: Id, os: nat -> Oracle, o: Oracle)
    requires NewWithdrawal(t, r, wallet, os, o)
    ensures NoneThrows(os) && r.WithdrawalCall? && wallet in t.balances
    ensures forall i :: os(i) == o
    ensures o.id in Debited(t, r, wallet, o).withdrawals && KeyOf(r) in Debited(t, r, wallet, o).keys
  {
  }

  lemma RecordingPaysOut(t: Tables, r: Request, wallet: Id, o: Oracle)
    requires r.WithdrawalCall? && wallet in t.balances && o.transfer.TransferAccepted?
    ensures var debited := Debited(t, r, wallet, o);
            && o.id in debited.withdrawals && KeyOf(r) in debited.keys
            && PaidOut(t,
                 SetKey(SetTransferStatus(debited, o.id, if o.transfer.succeeded then Transferred else InTransfer),
                                 KeyOf(r),
                                   debited.keys[KeyOf(r)].(status := Completed, response := Some(WithdrawalId(o.id)))),
                       r, wallet, o)
  {
    hide KeyOf;
  }

  /**
   A covered withdrawal whose transfer is accepted completes its key: the wallet is lowered by the amount, with one
   debit row, and the withdrawal is completed exactly when Paystack says so at once.
   */
  lemma AcceptedWithdrawalCompletes(s: State, pid: nat, wallet: Id, os: nat -> Oracle, o: Oracle, n: nat)
    requires IsReachable(s) && pid in s.procs && s.procs[pid].pc.CheckKey? && n >= 8 && o.transfer.TransferAccepted?
    requires NewWithdrawal(s.t, s.procs[pid].request, wallet, os, o) && IsCovered(s.t, s.procs[pid].request, wallet, o)
    ensures var s' := Run(s, Advances(pid, os, 0, n));
            Ends(s, s', pid, Ok(WithdrawalId(o.id))) && PaidOut(s.t, s'.t, s.procs[pid].request, wallet, o)
  {
    ReachableSound(s);
    CoveredDebitsFreshly(s.t, s.procs[pid].request, wallet, o);
    SoloIsARun(s, pid, os, 0, n);
    hide IsReachable, TablesOk, KeysOk, Run, Solo, PaidOut, DebitsFreshly;
    AcceptedAlone(s.t, s.procs[pid].request, wallet, os, o, n);
  }

  lemma RecordAlone(t: Tables, r: Request, w: Id, succeeded: bool, os: nat -> Oracle, i: nat, n: nat)
    requires NoneThrows(os) && r.WithdrawalCall? && w in t.withdrawals && KeyOf(r) in t.keys && n >= 2
    ensures var status := if succeeded then Transferred else InTransfer;
            var row := t.keys[KeyOf(r)].(status := Completed, response := Some(WithdrawalId(w)));
            Solo(t, Process(r, RecordTransfer(w, succeeded)), os, i, n) ==
            (SetKey(SetTransferStatus(t, w, status), KeyOf(r), row), Process(r, Done(Ok(WithdrawalId(w)))))
  {
    hide Step;
    RecordSteps(t, r, w, succeeded, os(i));
    var recorded := SetTransferStatus(t, w, if succeeded then Transferred else InTransfer);
    SoloStep(t, Process(r, RecordTransfer(w, succeeded)), os, i, n, recorded, CloseKey(WithdrawalId(w)));
    CloseAlone(recorded, r, WithdrawalId(w), os, i + 1, n - 1);
  }

  /** The compensated failure: every balance is back, and the ledger has the debit and its reversal. */
  predicate PaidBack(t: Tables, t': Tables, r: Request, wallet: Id, o: Oracle)
    requires r.WithdrawalCall?
  {
    && Withdrawn(t, t', r, wallet, o, Reversed, KeyRow(r.hash, Broken, None))
    && t'.balances == t.balances
    && t'.ledger == t.ledger[DebitRef(o.id) := Entry(wallet, Debit, Payout, r.amount, None)]
                            [ReversalRef(o.id) := Entry(wallet, Credit, Adjustment, r.amount, None)]
  }

  lemma RefusalReversesAlone(t: Tables, r: Request, wallet: Id, os: nat -> Oracle, o: Oracle, n: nat)
    requires NewWithdrawal(t, r, wallet, os, o) && DebitsFreshly(t, r, wallet, o) && n >= 10
             && o.transfer.TransferFailed?
    ensures Solo(t, Process(r, CheckKey), os, 0, n) ==
            Solo(ReverseTransaction(Debited(t, r, wallet, o), o.id), Process(r, BreakKey), os, 10, n - 10)
  {
    hide Step, Solo, ReverseTransaction, Debited, PaidBack, NewWithdrawal, DebitsFreshly, SetKey, KeyOf;
    NewFacts(t, r, wallet, os, o);
    ReversingDebited(t, r, wallet, o);
    var debited := Debited(t, r, wallet, o);
    DebitAlone(t, r, wallet, os, o, n);
    ReversalAlone(debited, r, o.id, false, os, 6, n - 6);
    ReversalAlone(ReverseTransaction(debited, o.id), r, o.id, true, os, 8, n - 8);
  }

  lemma RefusedAlone(t: Tables, r: Request, wallet: Id, os: nat -> Oracle, o: Oracle, n: nat)
    requires NewWithdrawal(t, r, wallet, os, o) && DebitsFreshly(t, r, wallet, o) && n >= 11
             && o.transfer.TransferFailed?
    ensures var (t', p') := Solo(t, Process(r, CheckKey), os, 0, n);
            p' == Process(r, Done(Rejected)) && PaidBack(t, t', r, wallet, o)
  {
    hide Step, Solo, ReverseTransaction, Debited, PaidBack, NewWithdrawal, DebitsFreshly, SetKey, KeyOf;
    NewFacts(t, r, wallet, os, o);
    ReversingDebited(t, r, wallet, o);
    RefusalReversesAlone(t, r, wallet, os, o, n);
    BreakAlone(ReverseTransaction(Debited(t, r, wallet, o), o.id), r, os, 10, n - 10);
  }

  lemma ReversingDebited(t: Tables, r: Request, wallet: Id, o: Oracle)
    requires r.WithdrawalCall? && DebitsFreshly(t, r, wallet, o)
    ensures var debited := Debited(t, r, wallet, o);
            var reversed := ReverseTransaction(debited, o.id);
            && o.id in debited.withdrawals && o.id in reversed.withdrawals
                 && ReverseTransaction(reversed, o.id) == reversed
            && KeyOf(r) in reversed.keys
            && PaidBack(t, SetKey(reversed, KeyOf(r), reversed.keys[KeyOf(r)].(status := Broken)), r, wallet, o)
  {
    hide KeyOf;
    var debited := Debited(t, r, wallet, o);
    ReverseWriteCompensates(debited, o.id);
    CompensatedIsPaidBack(t, r, wallet, o, ReverseTransaction(debited, o.id));
    ReverseWriteCompensates(ReverseTransaction(debited, o.id), o.id);
    hide ReverseTransaction, Debited, PaidBack;
    var reversed := ReverseTransaction(debited, o.id);
    assert reversed.withdrawals[o.id := reversed.withdrawals[o.id]] == reversed.withdrawals;
  }

  lemma CompensatedIsPaidBack(t: Tables, r: Request, wallet: Id, o: Oracle, reversed: Tables)
    requires r.WithdrawalCall? && DebitsFreshly(t, r, wallet, o)
    requires o.id in Debited(t, r, wallet, o).withdrawals && Compensates(Debited(t, r, wallet, o), reversed, o.id)
    ensures o.id in reversed.withdrawals && reversed.withdrawals[o.id].status.Reversed?
    ensures reversed.withdrawals[o.id].wallet in reversed.balances && ReversalRef(o.id) in reversed.ledger
    ensures KeyOf(r) in reversed.keys
    ensures PaidBack(t, SetKey(reversed, KeyOf(r), reversed.keys[KeyOf(r)].(status := Broken)), r, wallet, o)
  {
    hide KeyOf;
    assert reversed.balances == Debited(t, r, wallet, o).balances[wallet := t.balances[wallet]] == t.balances;
  }

  /**
   A covered withdrawal whose transfer is refused ends failed and compensated: every balance is back, the ledger has
   its debit and its reversal, and the withdrawal is reversed.
   */
  lemma RefusedWithdrawalIsCompensated(s: State, pid: nat, wallet: Id, os: nat -> Oracle, o: Oracle, n: nat)
    requires IsReachable(s) && pid in s.procs && s.procs[pid].pc.CheckKey? && n >= 11 && o.transfer.TransferFailed?
    requires NewWithdrawal(s.t, s.procs[pid].request, wallet, os, o) && IsCovered(s.t, s.procs[pid].request, wallet, o)
    ensures var s' := Run(s, Advances(pid, os, 0, n));
            Ends(s, s', pid, Rejected) && PaidBack(s.t, s'.t, s.procs[pid].request, wallet, o)
  {
    ReachableSound(s);
    CoveredDebitsFreshly(s.t, s.procs[pid].request, wallet, o);
    SoloIsARun(s, pid, os, 0, n);
    hide IsReachable, TablesOk, KeysOk, Run, Solo, PaidBack, DebitsFreshly;
    RefusedAlone(s.t, s.procs[pid].request, wallet, os, o, n);
  }

  // ----- fundings

  /** A funding with a fresh key and new ids, whose steps all meet the same oracle. */
  ghost predicate NewFunding(t: Tables, r: Request, os: nat -> Oracle, o: Oracle) {
    && r.FundingCall? && KeyOf(r) !in t.keys
    && (r.profile !in t.walletOf ==> o.id !in t.balances)
    && o.id !in t.intents && "WLF_" + o.suffix !in t.intentByRef
    && (forall i :: os(i) == o) && !o.fails
  }

  function Reference(o: Oracle): string { "WLF_" + o.suffix }

  function WalletFor(t: Tables, r: Request, o: Oracle): Id
    requires IsCall(r)
  {
    if r.profile in t.walletOf then t.walletOf[r.profile] else o.id
  }

  /** The tables with the lock taken, the wallet opened if there was none, and the intent recorded. */
  function WithIntent(t: Tables, r: Request, o: Oracle): Tables
    requires r.FundingCall?
  {
    var status := if r.savedCard then MapPaystackStatus(o.data.status) else Initialized;
    var isNew := r.profile !in t.walletOf;
    t.(keys := t.keys[KeyOf(r) := KeyRow(r.hash, InProgress, None)],
       walletOf := if isNew then t.walletOf[r.profile := o.id] else t.walletOf,
       balances := if isNew then t.balances[o.id := 0] else t.balances,
       intents := t.intents[o.id := Intent(WalletFor(t, r, o), r.amount, "NGN", "WLF_" + o.suffix, status, false)],
       intentByRef := t.intentByRef["WLF_" + o.suffix := o.id])
  }

  lemma ChargeSteps(t: Tables, r: Request, wallet: Id, o: Oracle)
    requires !o.fails && r.FundingCall?
    ensures Step(t, Process(r, Charge(wallet)), o) == StepCharge(t, r, wallet, o)
  {
    hide StepWork, StepCharge;
  }

  /** Where a funding goes after its intent is recorded. */
  function AfterCharge(r: Request, o: Oracle): Pc
    requires r.FundingCall?
  {
    if r.savedCard && o.data.status == Some("success") then ReadIntent(o.id, o.data)
    else CloseKey(FundingRef(Reference(o)))
  }

  lemma ReachableCaller(s: State, pid: nat)
    requires IsReachable(s) && pid in s.procs && IsCall(s.procs[pid].request) && s.procs[pid].pc.CheckKey?
    ensures TablesOk(s.t) && s.procs[pid].request.amount > 0
  {
    ReachableInv(s);
    assert ProcessOk(s.t, Excused(s), s.procs[pid]);
  }

  lemma WalletAlone(t: Tables, r: Request, os: nat -> Oracle, o: Oracle, n: nat) returns (k: nat)
    requires NewFunding(t, r, os, o) && TablesOk(t) && n >= 4
    ensures 3 <= k <= 4
    ensures var locked := Locked(t, r);
            var ready := if r.profile in t.walletOf then locked else CreateWallet(locked, r.profile, o.id).value;
            (r.profile !in t.walletOf ==> CreateWallet(locked, r.profile, o.id).Some?)
            && Solo(t, Process(r, CheckKey), os, 0, n) ==
               Solo(ready, Process(r, Charge(WalletFor(t, r, o))), os, k, n - k)
  {
    hide Step, TablesOk;
    LockAlone(t, r, os, n);
    var locked := Locked(t, r);
    OpenSteps(locked, r, o);
    if r.profile in t.walletOf {
      SoloStep(locked, Process(r, OpenWallet), os, 2, n - 2, locked, Charge(t.walletOf[r.profile]));
      k := 3;
    } else {
      hide CreateWallet;
      var ready := CreateWallet(locked, r.profile, o.id).value;
      SoloStep(locked, Process(r, OpenWallet), os, 2, n - 2, locked, InsertWallet);
      SoloStep(locked, Process(r, InsertWallet), os, 3, n - 3, ready, Charge(o.id));
      k := 4;
    }
  }

  lemma ChargeWrites(t: Tables, r: Request, os: nat -> Oracle, o: Oracle)
    requires NewFunding(t, r, os, o) && TablesOk(t)
    ensures var locked := Locked(t, r);
            var ready := if r.profile in t.walletOf then locked else CreateWallet(locked, r.profile, o.id).value;
            (r.profile !in t.walletOf ==> CreateWallet(locked, r.profile, o.id).Some?)
            && StepCharge(ready, r, WalletFor(t, r, o), o) == (WithIntent(t, r, o), AfterCharge(r, o))
  {
    assert IndexOk(t);
    PaystackStatusTable(o.data.status);
    hide MapPaystackStatus, TablesOk;
  }

  lemma ChargeAlone(t: Tables, r: Request, os: nat -> Oracle, o: Oracle, n: nat) returns (k: nat)
    requires NewFunding(t, r, os, o) && TablesOk(t) && n >= 5
    ensures 4 <= k <= 5
    ensures Solo(t, Process(r, CheckKey), os, 0, n)
            == Solo(WithIntent(t, r, o), Process(r, AfterCharge(r, o)), os, k, n - k)
  {
    hide Step, StepCharge, CreateWallet, WithIntent, AfterCharge, TablesOk, WalletFor;
    k := WalletAlone(t, r, os, o, n);
    ChargeWrites(t, r, os, o);
    var locked := Locked(t, r);
    var ready := if r.profile in t.walletOf then locked else CreateWallet(locked, r.profile, o.id).value;
    var wallet := WalletFor(t, r, o);
    ChargeSteps(ready, r, wallet, o);
    SoloStep(ready, Process(r, Charge(wallet)), os, k, n - k, WithIntent(t, r, o), AfterCharge(r, o));
    k := k + 1;
  }

  lemma WithIntentKeeps(t: Tables, r: Request, os: nat -> Oracle, o: Oracle)
    requires NewFunding(t, r, os, o) && TablesOk(t) && r.amount > 0
    ensures TablesOk(WithIntent(t, r, o)) && TopupRef(o.id) !in t.ledger
  {
    var locked := Locked(t, r);
    FreshIntentUncredited(t, o.id);
    ChargeWrites(t, r, os, o);
    hide TablesOk, CreateWallet, CreateIntent, WithIntent;
    KeysCarryNoMoney(t, locked.keys);
    if r.profile !in t.walletOf { CreateWalletKeeps(locked, r.profile, o.id); }
    var ready := if r.profile in t.walletOf then locked else CreateWallet(locked, r.profile, o.id).value;
    var status := if r.savedCard then MapPaystackStatus(o.data.status) else Initialized;
    CreateIntentKeeps(ready, o.id,
      Intent(WalletFor(t, r, o), r.amount, WALLET_CURRENCY, "WLF_" + o.suffix, status, false));
  }

  /** The key completed with the new reference, whose intent awaits its confirmation; no money has moved. */
  ghost predicate Awaiting(t: Tables, t': Tables, r: Request, o: Oracle)
    requires r.FundingCall?
  {
    && t'.keys == t.keys[KeyOf(r) := KeyRow(r.hash, Completed, Some(FundingRef(Reference(o))))]
    && t'.balances == (if r.profile in t.walletOf then t.balances else t.balances[o.id := 0])
    && t'.ledger == t.ledger && t'.withdrawals == t.withdrawals
    && t'.intents == t.intents[o.id := Intent(WalletFor(t, r, o), r.amount, "NGN", "WLF_" + o.suffix,
         if r.savedCard then MapPaystackStatus(o.data.status) else Initialized, false)]
  }

  lemma FundingFacts(t: Tables, r: Request, os: nat -> Oracle, o: Oracle)
    requires NewFunding(t, r, os, o) && TablesOk(t)
    ensures NoneThrows(os) && r.FundingCall?
    ensures var recorded := WithIntent(t, r, o);
            && KeyOf(r) in recorded.keys && o.id in recorded.intents
                 && recorded.intents[o.id].reference == "WLF_" + o.suffix
            && Awaiting(t, SetKey(recorded, KeyOf(r), recorded.keys[KeyOf(r)].(status := Completed,
                                                        response := Some(FundingRef(Reference(o))))), r, o)
  {
    hide KeyOf, TablesOk, MapPaystackStatus;
  }

  lemma AwaitingAlone(t: Tables, r: Request, os: nat -> Oracle, o: Oracle, n: nat)
    requires NewFunding(t, r, os, o) && TablesOk(t) && n >= 6 && (!r.savedCard || o.data.status != Some("success"))
    ensures var (t', p') := Solo(t, Process(r, CheckKey), os, 0, n);
            p' == Process(r, Done(Ok(FundingRef(Reference(o))))) && Awaiting(t, t', r, o)
  {
    hide Solo, NewFunding, Awaiting, WithIntent, SetKey, KeyOf, Reference, MapPaystackStatus;
    FundingFacts(t, r, os, o);
    var k := ChargeAlone(t, r, os, o, n);
    CloseAlone(WithIntent(t, r, o), r, FundingRef(Reference(o)), os, k, n - k);
  }

  /**
   A funding without a saved card, or whose charge is not successful yet, completes its key with the new reference:
   the intent awaits its confirmation, and no money moves.
   */
  lemma FundingAwaitsConfirmation(s: State, pid: nat, os: nat -> Oracle, o: Oracle, n: nat)
    requires IsReachable(s) && pid in s.procs && s.procs[pid].pc.CheckKey?
             && NewFunding(s.t, s.procs[pid].request, os, o) && n >= 6
    requires !s.procs[pid].request.savedCard || o.data.status != Some("success")
    ensures var s' := Run(s, Advances(pid, os, 0, n));
            Ends(s, s', pid, Ok(FundingRef(Reference(o)))) && Awaiting(s.t, s'.t, s.procs[pid].request, o)
  {
    ReachableCaller(s, pid);
    SoloIsARun(s, pid, os, 0, n);
    hide IsReachable, Run, Solo, Awaiting, TablesOk;
    AwaitingAlone(s.t, s.procs[pid].request, os, o, n);
  }

  /** A successful charge of a saved card in another amount or currency is not credited, and its key fails. */
  predicate InFull(r: Request, data: Verification)
    requires r.FundingCall?
  {
    (data.amount.Some? ==> data.amount.value == r.amount) && (data.currency.Some? ==> data.currency.value == "NGN")
  }

  /**
   What a charged card must leave behind: the confirmed intent and its credit, or the unconfirmed one and a
   failed key.
   */
  ghost predicate Charged(t: Tables, t': Tables, r: Request, o: Oracle)
    requires r.FundingCall?
  {
    var recorded, wallet := WithIntent(t, r, o), WalletFor(t, r, o);
    && wallet in recorded.balances && o.id in recorded.intents
    && if InFull(r, o.data) then
         && t'.keys == t.keys[KeyOf(r) := KeyRow(r.hash, Completed, Some(FundingRef(Reference(o))))]
         && t'.balances == recorded.balances[wallet := recorded.balances[wallet] + r.amount]
         && t'.ledger == t.ledger[TopupRef(o.id) := Entry(wallet, Credit, Topup, r.amount, Some(o.id))]
         && t'.intents == t.intents[o.id := Intent(wallet, r.amount, "NGN", "WLF_" + o.suffix, Succeeded, true)]
       else t' == recorded.(keys := t.keys[KeyOf(r) := KeyRow(r.hash, Broken, None)])
  }

  lemma SettledIsCharged(t: Tables, settled: Tables, r: Request, o: Oracle)
    requires r.FundingCall? && r.savedCard && o.data.status == Some("success") && TopupRef(o.id) !in t.ledger
    requires Settles(WithIntent(t, r, o), settled, o.id, o.data)
    ensures KeyOf(r) in settled.keys
    ensures var row := settled.keys[KeyOf(r)];
            var ended := if InFull(r, o.data) then row.(status := Completed, response := Some(FundingRef(Reference(o))))
                         else row.(status := Broken);
            Charged(t, SetKey(settled, KeyOf(r), ended), r, o)
  {
  }

  lemma ChargedFacts(t: Tables, r: Request, os: nat -> Oracle, o: Oracle)
    requires NewFunding(t, r, os, o) && TablesOk(t) && r.amount > 0 && r.savedCard && o.data.status == Some("success")
    ensures NoneThrows(os) && r.FundingCall?
    ensures var recorded := WithIntent(t, r, o);
            var settled := FinalizeTransaction(recorded, o.id, o.data);
            && o.id in recorded.intents && recorded.intents[o.id].reference == Reference(o)
            && (Commits(recorded, o.id, o.data) <==> InFull(r, o.data))
            && KeyOf(r) in settled.keys
            && (InFull(r, o.data) ==>
                  Charged(t, SetKey(settled, KeyOf(r), settled.keys[KeyOf(r)].(status := Completed,
                                                         response := Some(FundingRef(Reference(o))))), r, o))
            && (!InFull(r, o.data) ==>
                  Charged(t, SetKey(settled, KeyOf(r), settled.keys[KeyOf(r)].(status := Broken)), r, o))
  {
    WithIntentKeeps(t, r, os, o);
    FundingFacts(t, r, os, o);
    hide NewFunding, FinalizeTransaction, FinalizeWrite, HasTopup, Settles, TablesOk, Charged, WithIntent, SetKey,
      KeyOf;
    hide Awaiting, Reference, MapPaystackStatus;
    var recorded := WithIntent(t, r, o);
    FinalizationSettles(recorded, o.id, o.data);
    SettledIsCharged(t, FinalizeTransaction(recorded, o.id, o.data), r, o);
    InFullIsVerified(t, r, o);
    hide InFull, VerifiedInFull;
  }

  lemma ChargeSettlesAlone(t: Tables, r: Request, os: nat -> Oracle, o: Oracle, n: nat) returns (k: nat)
    requires NewFunding(t, r, os, o) && TablesOk(t) && r.amount > 0 && n >= 8
    requires r.savedCard && o.data.status == Some("success")
    ensures 6 <= k <= 7
    ensures Solo(t, Process(r, CheckKey), os, 0, n) ==
            Solo(FinalizeTransaction(WithIntent(t, r, o), o.id, o.data),
                 Process(r, if InFull(r, o.data) then CloseKey(FundingRef(Reference(o))) else BreakKey), os, k, n - k)
  {
    hide Solo, NewFunding, FinalizeTransaction, Commits, Charged, WithIntent, SetKey, KeyOf, Reference, InFull,
      TablesOk;
    ChargedFacts(t, r, os, o);
    k := ChargeAlone(t, r, os, o, n);
    FinalizationAlone(WithIntent(t, r, o), r, o.id, o.data, os, k, n - k);
    k := k + 2;
  }

  lemma ChargedCardAlone(t: Tables, r: Request, os: nat -> Oracle, o: Oracle, n: nat)
    requires NewFunding(t, r, os, o) && TablesOk(t) && r.amount > 0 && n >= 8
    requires r.savedCard && o.data.status == Some("success")
    ensures var (t', p') := Solo(t, Process(r, CheckKey), os, 0, n);
            && p' == Process(r, Done(if InFull(r, o.data) then Ok(FundingRef(Reference(o))) else Rejected))
            && Charged(t, t', r, o)
  {
    hide Solo, NewFunding, FinalizeTransaction, Commits, Charged, WithIntent, SetKey, KeyOf, Reference, InFull,
      TablesOk;
    ChargedFacts(t, r, os, o);
    var k := ChargeSettlesAlone(t, r, os, o, n);
    var settled := FinalizeTransaction(WithIntent(t, r, o), o.id, o.data);
    if InFull(r, o.data) {
      CloseAlone(settled, r, FundingRef(Reference(o)), os, k, n - k);
    } else {
      BreakAlone(settled, r, os, k, n - k);
    }
  }

  lemma InFullIsVerified(t: Tables, r: Request, o: Oracle)
    requires r.FundingCall? && o.data.status == Some("success")
    ensures var recorded := WithIntent(t, r, o);
            o.id in recorded.intents && (VerifiedInFull(recorded.intents[o.id], o.data) <==> InFull(r, o.data))
  {
    hide MapPaystackStatus;
  }

  /**
   A successful charge of a saved card is credited at once: the key completes, the intent is confirmed with its one
   credit, and the wallet, opened if need be, is raised by the amount. In another amount or currency it is not
   credited, and the key fails.
   */
  lemma SavedCardIsCredited(s: State, pid: nat, os: nat -> Oracle, o: Oracle, n: nat)
    requires IsReachable(s) && pid in s.procs && s.procs[pid].pc.CheckKey?
             && NewFunding(s.t, s.procs[pid].request, os, o) && n >= 8
    requires s.procs[pid].request.savedCard && o.data.status == Some("success")
    ensures var s', r := Run(s, Advances(pid, os, 0, n)), s.procs[pid].request;
            && Ends(s, s', pid, if InFull(r, o.data) then Ok(FundingRef(Reference(o))) else Rejected)
            && Charged(s.t, s'.t, r, o)
  {
    ReachableCaller(s, pid);
    SoloIsARun(s, pid, os, 0, n);
    hide IsReachable, Run, Solo, Charged, TablesOk;
    ChargedCardAlone(s.t, s.procs[pid].request, os, o, n);
  }
}

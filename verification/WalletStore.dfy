/**
 The wallet database as the service writes it, row by row. Each transaction method is proved against
 its specification on tables; the service calls are proved end to end for a run without interference.
 */
module WalletStore {
  import opened Options
  import opened WalletTables
  import opened WalletProtocol
  import opened WalletInvariant

  // ----- whole transactions on tables: the reads immediately followed by the writes

  function Committed(t: Tables, out: Option<Tables>): Tables {
    if out.Some? then out.value else t
  }

  function ReverseTransaction(t: Tables, w: Id): Tables {
    if w !in t.withdrawals then t
    else Committed(t, ReverseWrite(t, w, t.withdrawals[w], ReversalRef(w) in t.ledger))
  }

  function FinalizeTransaction(t: Tables, i: Id, data: Verification): Tables {
    if i !in t.intents then t
    else Committed(t, FinalizeWrite(t, i, t.intents[i], HasTopup(t, i), data))
  }

  predicate Covers(t: Tables, wallet: Id, amount: int) {
    wallet in t.balances && t.balances[wallet] >= amount
  }

  function DebitTransaction(t: Tables, id: Id, row: Withdrawal): Option<Tables> {
    if Covers(t, row.wallet, row.amount) then DebitWrite(t, id, row) else None
  }

  /** The writes of a confirmation that finds the reference, with Paystack's answer. */
  function ConfirmTransaction(t: Tables, profile: Id, reference: string, data: Verification): Tables {
    if !OwnsIntent(t, profile, reference) then t
    else
      var i := t.intentByRef[reference];
      if t.intents[i].status == Succeeded && t.intents[i].confirmed then t
      else if MapPaystackStatus(data.status) != Succeeded then
        t.(intents := t.intents[i := t.intents[i].(status := Failed)])
      else FinalizeTransaction(t, i, data)
  }

  /** The charge is verified as successful, in the intent's amount and currency where those are given. */
  predicate VerifiedInFull(row: Intent, data: Verification) {
    && data.status == Some("success")
    && (data.amount.Some? ==> data.amount.value == row.amount)
    && (data.currency.Some? ==> data.currency.value == row.currency)
  }

  /**
   What a finalization must do to its intent: a charge verified in full confirms it and is credited unless it
   was before; one that did not succeed marks it failed; one in another amount or currency is refused.
   */
  ghost predicate Settles(t: Tables, t': Tables, i: Id, data: Verification)
    requires i in t.intents
  {
    var row := t.intents[i];
    var credits := VerifiedInFull(row, data) && TopupRef(i) !in t.ledger;
    && row.wallet in t.balances
    && t'.balances == (if credits then t.balances[row.wallet := t.balances[row.wallet] + row.amount] else t.balances)
    && t'.ledger == (if credits then t.ledger[TopupRef(i) := Entry(row.wallet, Credit, Topup, row.amount, Some(i))]
                     else t.ledger)
    && t'.intents == t.intents[i := if VerifiedInFull(row, data) then row.(status := Succeeded, confirmed := true)
                                    else if data.status != Some("success") then row.(status := Failed)
                                    else row]
    && t' == t.(balances := t'.balances, ledger := t'.ledger, intents := t'.intents)
  }

  lemma FinalizeWriteSettles(t: Tables, i: Id, saw: bool, data: Verification)
    requires i in t.intents && t.intents[i].wallet in t.balances && (saw <==> TopupRef(i) in t.ledger)
    ensures var out := FinalizeWrite(t, i, t.intents[i], saw, data);
            && (out.Some? <==> VerifiedInFull(t.intents[i], data) || data.status != Some("success"))
            && Settles(t, Committed(t, out), i, data)
  {
    PaystackStatusTable(data.status);
    hide MapPaystackStatus;
    assert t.intents[i := t.intents[i]] == t.intents;
  }

  lemma FinalizationSettles(t: Tables, i: Id, data: Verification)
    ensures TablesOk(t) && i in t.intents ==>
              && Settles(t, FinalizeTransaction(t, i, data), i, data)
              && (FinalizeWrite(t, i, t.intents[i], HasTopup(t, i), data).Some? <==>
                  VerifiedInFull(t.intents[i], data) || data.status != Some("success"))
  {
    if TablesOk(t) && i in t.intents {
      assert IntentOk(t, i);
      TopupIffReference(t, i);
      hide TablesOk, HasTopup, FinalizeWrite, Settles, VerifiedInFull;
      FinalizeWriteSettles(t, i, HasTopup(t, i), data);
    }
  }

  predicate IsSettled(row: Intent) { row.status == Succeeded && row.confirmed }

  /**
   A confirmation raises the wallet by the intent's amount exactly when the charge is verified in
   full and was not credited before; otherwise it changes no balance. A settled intent is left alone.
   */
  lemma ConfirmationCreditsExactly(t: Tables, profile: Id, reference: string, data: Verification)
    requires TablesOk(t) && OwnsIntent(t, profile, reference)
    ensures var i := t.intentByRef[reference];
            var t' := ConfirmTransaction(t, profile, reference, data);
            && t.intents[i].wallet in t.balances
            && (IsSettled(t.intents[i]) ==> t' == t && TopupRef(i) in t.ledger)
            && (!IsSettled(t.intents[i]) ==> Settles(t, t', i, data))
  {
    var i := t.intentByRef[reference];
    assert IntentOk(t, i);
    FinalizationSettles(t, i, data);
    PaystackStatusTable(data.status);
    hide TablesOk, IntentOk, HasTopup, FinalizeTransaction, MapPaystackStatus;
  }

  lemma TopupIffReference(t: Tables, i: Id)
    requires TablesOk(t)
    ensures HasTopup(t, i) <==> TopupRef(i) in t.ledger
  {
    TopupQueryMatchesReference(t, i);
  }

  /** Compensating a debit restores every balance, and compensating again does nothing. */
  lemma ReversalUndoesDebit(t: Tables, id: Id, row: Withdrawal)
    requires DebitTransaction(t, id, row).Some? && !row.status.Reversed? && ReversalRef(id) !in t.ledger
    ensures var t1 := DebitTransaction(t, id, row).value;
            var t2 := ReverseTransaction(t1, id);
            && t2.balances == t.balances && t2.withdrawals == t1.withdrawals[id := row.(status := Reversed)]
            && ReverseTransaction(t2, id) == t2
    ensures var t1 := DebitTransaction(t, id, row).value;
            t1.balances == t.balances[row.wallet := t.balances[row.wallet] - row.amount]
            && t1.keys == t.keys && t1.walletOf == t.walletOf
            && ReverseTransaction(t1, id).keys == t.keys && ReverseTransaction(t1, id).walletOf == t.walletOf
  {
    var t1 := DebitTransaction(t, id, row).value;
    assert t1.balances[row.wallet] == t.balances[row.wallet] - row.amount;
    var t2 := ReverseTransaction(t1, id);
    assert t2.balances == t1.balances[row.wallet := t.balances[row.wallet]] == t.balances;
  }

  /** What a compensation must do: the withdrawal is reversed, and its amount credited back unless it was before. */
  ghost predicate Compensates(t: Tables, t': Tables, w: Id)
    requires w in t.withdrawals
  {
    var row, reversed := t.withdrawals[w], ReversalRef(w) in t.ledger;
    && row.wallet in t.balances
    && t'.withdrawals == t.withdrawals[w := row.(status := Reversed)]
    && t'.ledger == (if reversed then t.ledger
                     else t.ledger[ReversalRef(w) := Entry(row.wallet, Credit, Adjustment, row.amount, None)])
    && t'.balances == (if reversed then t.balances else t.balances[row.wallet := t.balances[row.wallet] + row.amount])
    && t' == t.(balances := t'.balances, ledger := t'.ledger, withdrawals := t'.withdrawals)
  }

  lemma ReverseWriteCompensates(t: Tables, w: Id)
    requires w in t.withdrawals && t.withdrawals[w].wallet in t.balances
    requires t.withdrawals[w].status.Reversed? ==> ReversalRef(w) in t.ledger
    ensures Compensates(t, ReverseTransaction(t, w), w)
  {
    assert t.withdrawals[w := t.withdrawals[w]] == t.withdrawals;
  }

  lemma ReversalCompensates(t: Tables, w: Id)
    ensures TablesOk(t) && w in t.withdrawals ==> Compensates(t, ReverseTransaction(t, w), w)
  {
    if TablesOk(t) && w in t.withdrawals {
      assert WithdrawalOk(t, w);
      hide TablesOk, Compensates, ReverseTransaction;
      ReverseWriteCompensates(t, w);
    }
  }

  lemma FreshIntentUncredited(t: Tables, i: Id)
    requires TablesOk(t) && i !in t.intents
    ensures TopupRef(i) !in t.ledger && !HasTopup(t, i)
  {
    assert TopupRef(i) in t.ledger ==> EntryMatches(t, TopupRef(i), t.ledger[TopupRef(i)]);
    TopupIffReference(t, i);
  }

  lemma WalletsCarryNoTopups(t: Tables, t': Tables, i: Id)
    requires t'.ledger == t.ledger
    ensures HasTopup(t', i) == HasTopup(t, i)
  {
  }

  lemma FundingIgnoresKeys(t: Tables, keys: map<Key, KeyRow>, r: Request, walletId: Id, i: Id, suffix: string,
                           data: Verification)
    requires r.FundingCall?
    ensures CanFund(t.(keys := keys), r, walletId, i, suffix, data) == CanFund(t, r, walletId, i, suffix, data)
  {
  }

  lemma WithdrawingIgnoresKeys(t: Tables, keys: map<Key, KeyRow>, r: Request, id: Id, suffix: string)
    requires r.WithdrawalCall?
    ensures CanWithdraw(t.(keys := keys), r, id, suffix) == CanWithdraw(t, r, id, suffix)
  {
  }

  lemma OwningIgnoresKeys(t: Tables, keys: map<Key, KeyRow>, profile: Id, reference: string)
    ensures OwnsIntent(t.(keys := keys), profile, reference) == OwnsIntent(t, profile, reference)
  {
  }

  /** Finalizing an uncredited intent on a successful charge credits its amount, or changes nothing. */
  lemma FinalizingCreditsOnce(t: Tables, i: Id, data: Verification)
    requires i in t.intents && t.intents[i].wallet in t.balances && !HasTopup(t, i) && TopupRef(i) !in t.ledger
    requires data.status == Some("success")
    ensures var row, t' := t.intents[i], FinalizeTransaction(t, i, data);
            if VerifiedInFull(row, data) then
              && t' == t.(balances := t'.balances, ledger := t'.ledger, intents := t'.intents)
              && t'.balances == t.balances[row.wallet := t.balances[row.wallet] + row.amount]
              && t'.intents == t.intents[i := row.(status := Succeeded, confirmed := true)]
            else t' == t
    ensures FinalizeWrite(t, i, t.intents[i], HasTopup(t, i), data).Some? <==> VerifiedInFull(t.intents[i], data)
  {
    PaystackStatusTable(data.status);
    hide HasTopup, MapPaystackStatus;
  }

  /** The reply to a call whose key row exists: a replay, or a conflict. */
  function ReplyToKnownKey(t: Tables, r: Request): Outcome
    requires IsCall(r) && KeyOf(r) in t.keys
  {
    var verdict := Verdict(t.keys[KeyOf(r)], r.hash);
    if verdict.Replay? then ReplayOutcome(t, r, verdict.response) else verdict.outcome
  }

  /** Every wallet keeps its balance. */
  ghost predicate SameBalances(before: map<Id, int>, after: map<Id, int>) {
    forall w | w in before :: w in after && after[w] == before[w]
  }

  /** One wallet's balance rises by the amount, counted from zero if the wallet is new; the others stay. */
  ghost predicate Raised(before: map<Id, int>, after: map<Id, int>, wallet: Id, amount: int) {
    && wallet in after
    && after[wallet] == (if wallet in before then before[wallet] else 0) + amount
    && (forall w | w in before && w != wallet :: w in after && after[w] == before[w])
  }

  /** One wallet's balance falls by the amount that it covered; the others stay. */
  ghost predicate Lowered(before: map<Id, int>, after: map<Id, int>, wallet: Id, amount: int) {
    wallet in before && before[wallet] >= amount && after == before[wallet := before[wallet] - amount]
  }

  /** Which statements of a call throw; each then has no effect. */
  datatype Faults = Faults(transfer: bool, record: bool, firstReversal: bool, lastReversal: bool, complete: bool,
                           mark: bool)

  /** The transfer is accepted and its answer recorded. */
  predicate IsRecorded(transfer: TransferAnswer, faults: Faults) {
    !faults.transfer && transfer.TransferAccepted? && !faults.record
  }

  /** One of the attempts to compensate commits: the one after a refused transfer, or the one in the catch block. */
  predicate IsCompensated(transfer: TransferAnswer, faults: Faults) {
    !faults.lastReversal || (!faults.transfer && transfer.TransferFailed? && !faults.firstReversal)
  }

  /**
   Nothing stands in the way of a new intent: a wallet, new ids, and a charge, if any, in the right amount and
   currency.
   */
  predicate CanFund(t: Tables, r: Request, walletId: Id, i: Id, suffix: string, data: Verification)
    requires r.FundingCall?
  {
    && (if r.profile in t.walletOf then t.walletOf[r.profile] in t.balances else walletId !in t.balances)
    && i !in t.intents && "WLF_" + suffix !in t.intentByRef
    && (r.savedCard && data.status == Some("success") ==>
          && (data.amount.Some? ==> data.amount.value == r.amount)
          && (data.currency.Some? ==> data.currency.value == "NGN"))
  }

  /** The profile has a wallet that covers the amount, and the generated ids are new. */
  predicate CanWithdraw(t: Tables, r: Request, id: Id, suffix: string)
    requires r.WithdrawalCall?
  {
    && r.profile in t.walletOf
    && t.walletOf[r.profile] in t.balances && t.balances[t.walletOf[r.profile]] >= r.amount
    && id !in t.withdrawals && "WDR_" + suffix !in t.withdrawalByRef && DebitRef(id) !in t.ledger
  }

  /** On rows in order, the reply to a known key is the one recorded. */
  lemma KnownKeyReplies(t: Tables, excused: set<Key>, r: Request)
    requires IsCall(r) && KeyOf(r) in t.keys
    ensures TablesOk(t) && KeysOk(t, excused) ==> RepliesAsRecorded(t.keys[KeyOf(r)], r.hash, ReplyToKnownKey(t, r))
  {
    if TablesOk(t) && KeysOk(t, excused) { VerdictReplies(t, excused, r); }
    hide TablesOk, KeysOk;
  }

  predicate IsProcessing(status: TransferStatus) { status.InTransfer? || status.PendingTransfer? }

  class Store {
    var walletOf: map<Id, Id>
    var balances: map<Id, int>
    var ledger: map<LedgerRef, Entry>
    var intents: map<Id, Intent>
    var intentByRef: map<string, Id>
    var withdrawals: map<Id, Withdrawal>
    var withdrawalByRef: map<string, Id>
    var keys: map<Key, KeyRow>

    function Rows(): Tables
      reads this
    {
      Tables(walletOf, balances, ledger, intents, intentByRef, withdrawals, withdrawalByRef, keys)
    }

    constructor ()
      ensures Rows() == EMPTY_TABLES && TablesOk(Rows()) && KeysOk(Rows(), {})
    {
      walletOf, balances, ledger := map[], map[], map[];
      intents, intentByRef := map[], map[];
      withdrawals, withdrawalByRef := map[], map[];
      keys := map[];
    }

    /** Finds the owner's wallet, or inserts one; a taken id makes the insert throw. */
    method GetOrCreateWallet(owner: Id, id: Id) returns (wallet: Option<Id>)
      modifies this`walletOf, this`balances
      ensures wallet == if owner in walletOf then Some(walletOf[owner]) else None
      ensures if owner in old(walletOf) || id in old(balances)
              then walletOf == old(walletOf) && balances == old(balances)
              else walletOf == old(walletOf)[owner := id] && balances == old(balances)[id := 0]
    {
      if owner in walletOf {
        return Some(walletOf[owner]);
      }
      if id in balances {
        return None;
      }
      balances := balances[id := 0];
      walletOf := walletOf[owner := id];
      return Some(id);
    }

    /** Tests the balance, inserts the withdrawal and its debit row, and lowers the balance. */
    method DebitForWithdrawal(id: Id, row: Withdrawal) returns (committed: bool)
      modifies this`withdrawals, this`withdrawalByRef, this`ledger, this`balances
      ensures committed <==> DebitTransaction(old(Rows()), id, row).Some?
      ensures committed <==>
              && row.wallet in old(balances) && old(balances)[row.wallet] >= row.amount
              && id !in old(withdrawals) && row.reference !in old(withdrawalByRef) && DebitRef(id) !in old(ledger)
      ensures Rows() == Committed(old(Rows()), DebitTransaction(old(Rows()), id, row))
    {
      if row.wallet !in balances || balances[row.wallet] < row.amount {
        return false;
      }
      if id in withdrawals || row.reference in withdrawalByRef || DebitRef(id) in ledger {
        return false;
      }
      withdrawals := withdrawals[id := row];
      withdrawalByRef := withdrawalByRef[row.reference := id];
      ledger := ledger[DebitRef(id) := Entry(row.wallet, Debit, Payout, row.amount, None)];
      balances := balances[row.wallet := balances[row.wallet] - row.amount];
      return true;
    }

    /** Credits a failed withdrawal back, once, and marks it reversed. */
    method ReverseWithdrawal(w: Id)
      modifies this`withdrawals, this`ledger, this`balances
      ensures Rows() == ReverseTransaction(old(Rows()), w)
      ensures old(TablesOk(Rows())) && w in old(withdrawals) ==> Compensates(old(Rows()), Rows(), w)
    {
      ReversalCompensates(Rows(), w);
      hide TablesOk, Compensates;
      if w !in withdrawals {
        return;
      }
      var row := withdrawals[w];
      if row.status.Reversed? || row.wallet !in balances {
        return;
      }
      if ReversalRef(w) !in ledger {
        ledger := ledger[ReversalRef(w) := Entry(row.wallet, Credit, Adjustment, row.amount, None)];
        balances := balances[row.wallet := balances[row.wallet] + row.amount];
      }
      withdrawals := withdrawals[w := row.(status := Reversed)];
    }

    /** The finalizing transaction, row by row. */
    method WriteFinalization(i: Id, data: Verification) returns (committed: bool)
      modifies this`intents, this`ledger, this`balances
      ensures Rows() == FinalizeTransaction(old(Rows()), i, data)
      ensures committed <==>
              i in old(intents) && FinalizeWrite(old(Rows()), i, old(intents)[i], HasTopup(old(Rows()), i), data).Some?
    {
      if i !in intents {
        return false;
      }
      var row := intents[i];
      if row.wallet !in balances {
        return false;
      }
      if MapPaystackStatus(data.status) != Succeeded {
        intents := intents[i := row.(status := Failed)];
        return true;
      }
      if data.amount.Some? && data.amount.value != row.amount {
        return false;
      }
      if data.currency.Some? && data.currency.value != row.currency {
        return false;
      }
      if !HasTopup(Rows(), i) && TopupRef(i) !in ledger {
        ledger := ledger[TopupRef(i) := Entry(row.wallet, Credit, Topup, row.amount, Some(i))];
        balances := balances[row.wallet := balances[row.wallet] + row.amount];
      }
      intents := intents[i := row.(status := Succeeded, confirmed := true)];
      return true;
    }

    /**
     Credits a charge verified in full, once, and confirms its intent; a charge that did not succeed marks it
     failed, one in another amount or currency is refused, and neither moves any money.
     */
    method FinalizeFunding(i: Id, data: Verification) returns (committed: bool)
      modifies this`intents, this`ledger, this`balances
      ensures Rows() == FinalizeTransaction(old(Rows()), i, data)
      ensures committed <==>
              i in old(intents) && FinalizeWrite(old(Rows()), i, old(intents)[i], HasTopup(old(Rows()), i), data).Some?
      ensures old(TablesOk(Rows())) && i in old(intents) ==>
                && Settles(old(Rows()), Rows(), i, data)
                && (committed <==> VerifiedInFull(old(intents)[i], data) || data.status != Some("success"))
    {
      hide TablesOk, Settles, VerifiedInFull, FinalizeTransaction, FinalizeWrite, HasTopup;
      FinalizationSettles(Rows(), i, data);
      committed := WriteFinalization(i, data);
    }

    /**
     A transfer.success webhook completes the withdrawal of its reference if that is still processing. It
     never touches a reversed or completed withdrawal, another withdrawal, or any money.
     */
    method MarkWithdrawalSucceeded(reference: string)
      modifies this`withdrawals
      ensures Rows() == MarkSucceeded(old(Rows()), reference)
      ensures old(TablesOk(Rows())) ==> TablesOk(Rows())
      ensures withdrawals.Keys == old(withdrawals).Keys
      ensures forall w | w in withdrawals ::
                if reference in withdrawalByRef && withdrawalByRef[reference] == w
                    && IsProcessing(old(withdrawals)[w].status)
                then withdrawals[w] == old(withdrawals)[w].(status := Transferred)
                else withdrawals[w] == old(withdrawals)[w]
    {
      hide TablesOk;
      if old(TablesOk(Rows())) { MarkSucceededKeeps(Rows(), reference); }
      if reference in withdrawalByRef && withdrawalByRef[reference] in withdrawals {
        var w := withdrawalByRef[reference];
        if withdrawals[w].status.InTransfer? || withdrawals[w].status.PendingTransfer? {
          withdrawals := withdrawals[w := withdrawals[w].(status := Transferred)];
        }
      }
    }

    /**
     Confirms a funding reference against Paystack's answer. It is refused exactly when the profile has no such
     reference or a successful charge is in another amount or currency; a settled intent is left alone.
     */
    method ConfirmFunding(profile: Id, reference: string, data: Verification) returns (outcome: Outcome)
      modifies this`intents, this`ledger, this`balances
      ensures Rows() == ConfirmTransaction(old(Rows()), profile, reference, data)
      ensures outcome == Rejected ==> Rows() == old(Rows())
      ensures old(TablesOk(Rows())) ==>
                if reference in intentByRef && profile in walletOf
                   && old(intents)[intentByRef[reference]].wallet == walletOf[profile]
                then var i := intentByRef[reference];
                     if old(intents)[i].status == Succeeded && old(intents)[i].confirmed
                     then outcome == Handled && Rows() == old(Rows())
                     else Settles(old(Rows()), Rows(), i, data)
                          && outcome == if VerifiedInFull(old(intents)[i], data) || data.status != Some("success")
                                        then Handled else Rejected
                else outcome == Rejected
    {
      if TablesOk(Rows()) {
        assert IndexOk(Rows());
        if OwnsIntent(Rows(), profile, reference) { ConfirmationCreditsExactly(Rows(), profile, reference, data); }
      }
      PaystackStatusTable(data.status);
      hide TablesOk, Settles, VerifiedInFull, MapPaystackStatus, FinalizeTransaction;
      if !OwnsIntent(Rows(), profile, reference) {
        return Rejected;
      }
      var i := intentByRef[reference];
      if intents[i].status == Succeeded && intents[i].confirmed {
        return Handled;
      }
      if MapPaystackStatus(data.status) != Succeeded {
        intents := intents[i := intents[i].(status := Failed)];
        return Handled;
      }
      var committed := FinalizeFunding(i, data);
      return if committed then Handled else Rejected;
    }

    /** Records an intent and, for a charge that already succeeded, credits it. */
    method RecordIntent(i: Id, row: Intent, data: Verification) returns (done: bool)
      requires row.wallet in balances && !row.confirmed && row.reference != ""
      requires row.status == Succeeded ==> data.status == Some("success")
      requires i !in intents ==> TopupRef(i) !in ledger && !HasTopup(Rows(), i)
      modifies this`balances, this`ledger, this`intents, this`intentByRef
      ensures done <==>
              i !in old(intents) && row.reference !in old(intentByRef)
                && (row.status == Succeeded ==> VerifiedInFull(row, data))
      ensures done ==>
                && intentByRef == old(intentByRef)[row.reference := i]
                && intents == old(intents)[i := row.(confirmed := row.status == Succeeded)]
      ensures !done && i !in old(intents) && i in intents ==> !intents[i].confirmed
      ensures balances == if done && row.status == Succeeded
                          then old(balances)[row.wallet := old(balances)[row.wallet] + row.amount]
                          else old(balances)
    {
      hide FinalizeTransaction, FinalizeWrite, HasTopup, VerifiedInFull, Settles, TablesOk;
      if i in intents || row.reference in intentByRef {
        return false;
      }
      ghost var unfunded := Rows();
      intents := intents[i := row];
      intentByRef := intentByRef[row.reference := i];
      if row.status != Succeeded {
        return true;
      }
      WalletsCarryNoTopups(unfunded, Rows(), i);
      FinalizingCreditsOnce(Rows(), i, data);
      done := FinalizeFunding(i, data);
    }

    /**
     The action under the funding lock: it records a payment intent, and raises the owner's balance by
     its amount exactly when a saved card was charged successfully and in full.
     */
    method FundUnderLock(r: Request, walletId: Id, i: Id, suffix: string, paystackAnswers: bool, data: Verification)
      returns (done: bool)
      requires r.FundingCall? && r.amount > 0
      requires i !in intents ==> TopupRef(i) !in ledger && !HasTopup(Rows(), i)
      modifies this`walletOf, this`balances, this`ledger, this`intents, this`intentByRef
      ensures done <==> paystackAnswers && CanFund(old(Rows()), r, walletId, i, suffix, data)
      ensures done ==>
                && i !in old(intents) && i in intents && intents[i].amount == r.amount
                     && intents[i].reference == "WLF_" + suffix
                && intents[i].status == (if r.savedCard then MapPaystackStatus(data.status) else Initialized)
                && r.profile in walletOf && intents[i].wallet == walletOf[r.profile]
                     && OwnsIntent(Rows(), r.profile, "WLF_" + suffix)
                && (intents[i].confirmed <==> r.savedCard && data.status == Some("success"))
      ensures done && intents[i].confirmed ==>
                VerifiedInFull(intents[i], data) && Raised(old(balances), balances, walletOf[r.profile], r.amount)
      ensures !done && i !in old(intents) && i in intents ==> !intents[i].confirmed
      ensures !done || !intents[i].confirmed ==> SameBalances(old(balances), balances)
    {
      PaystackStatusTable(data.status);
      hide FinalizeTransaction, HasTopup, MapPaystackStatus;
      var wallet := GetOrCreateWallet(r.profile, walletId);
      if wallet.None? || !paystackAnswers || wallet.value !in balances {
        return false;
      }
      var status := if r.savedCard then MapPaystackStatus(data.status) else Initialized;
      WalletsCarryNoTopups(old(Rows()), Rows(), i);
      done := RecordIntent(i, Intent(wallet.value, r.amount, WALLET_CURRENCY, "WLF_" + suffix, status, false), data);
    }

    /** The end of a locked action: its completion write, or the write that marks its key failed. */
    method FinishKey(k: Key, done: bool, response: Response, faults: Faults) returns (outcome: Outcome)
      requires k in keys
      modifies this`keys
      ensures outcome == if done && !faults.complete then Ok(response) else Rejected
      ensures keys == if done && !faults.complete
                      then old(keys)[k := old(keys)[k].(status := Completed, response := Some(response))]
                      else if faults.mark then old(keys)
                      else old(keys)[k := old(keys)[k].(status := Broken)]
    {
      if done && !faults.complete {
        keys := keys[k := keys[k].(status := Completed, response := Some(response))];
        return Ok(response);
      }
      if !faults.mark { keys := keys[k := keys[k].(status := Broken)]; }
      return Rejected;
    }

    /** A funding request under a fresh key, from taking the lock to releasing it. */
    method FundFreshKey(r: Request, walletId: Id, i: Id, suffix: string, paystackAnswers: bool, data: Verification,
                        faults: Faults)
      returns (outcome: Outcome)
      requires r.FundingCall? && r.amount > 0 && KeyOf(r) !in keys
      requires i !in intents ==> TopupRef(i) !in ledger && !HasTopup(Rows(), i)
      modifies this
      ensures outcome.Ok? <==> paystackAnswers && CanFund(old(Rows()), r, walletId, i, suffix, data) && !faults.complete
      ensures outcome.Ok? ==>
                && outcome.response == FundingRef("WLF_" + suffix) && OwnsIntent(Rows(), r.profile, "WLF_" + suffix)
                && i !in old(intents) && i in intents && intents[i].amount == r.amount && !faults.complete
                && keys == old(keys)[KeyOf(r) := KeyRow(r.hash, Completed, Some(outcome.response))]
                && (intents[i].confirmed <==> r.savedCard && data.status == Some("success"))
      ensures !outcome.Ok? ==>
                && outcome == Rejected
                && keys == old(keys)[KeyOf(r) := KeyRow(r.hash, if faults.mark then InProgress else Broken, None)]
      ensures if i !in old(intents) && i in intents && intents[i].confirmed
              then r.profile in walletOf && Raised(old(balances), balances, walletOf[r.profile], r.amount)
              else SameBalances(old(balances), balances)
    {
      hide HasTopup, Raised, SameBalances, OwnsIntent, VerifiedInFull, CanFund, MapPaystackStatus;
      var k := KeyOf(r);
      FundingIgnoresKeys(Rows(), keys[k := KeyRow(r.hash, InProgress, None)], r, walletId, i, suffix, data);
      keys := keys[k := KeyRow(r.hash, InProgress, None)];
      WalletsCarryNoTopups(old(Rows()), Rows(), i);
      var done := FundUnderLock(r, walletId, i, suffix, paystackAnswers, data);
      ghost var funded := Rows();
      outcome := FinishKey(k, done, FundingRef("WLF_" + suffix), faults);
      OwningIgnoresKeys(funded, keys, r.profile, "WLF_" + suffix);
    }

    /**
     A funding request from its idempotency check to its reply. A known key changes no row. A fresh key
     ends completed with one new intent, or failed; a balance moves exactly when a saved card was charged
     successfully and in full. A key whose completion write throws ends failed with its credit in place.
     */
    method CreateFunding(r: Request, walletId: Id, i: Id, suffix: string, paystackAnswers: bool, data: Verification,
                         faults: Faults, ghost excused: set<Key>)
      returns (outcome: Outcome)
      requires r.FundingCall? && TablesOk(Rows())
      modifies this
      ensures r.amount <= 0 || r.key == "" ==> outcome == Rejected && Rows() == old(Rows())
      ensures r.amount > 0 && r.key != "" && KeyOf(r) in old(keys) ==>
                && Rows() == old(Rows())
                && (KeysOk(Rows(), excused) ==> RepliesAsRecorded(keys[KeyOf(r)], r.hash, outcome))
      ensures r.amount > 0 && r.key != "" && KeyOf(r) !in old(keys) ==>
                (outcome.Ok? <==>
                  paystackAnswers && CanFund(old(Rows()), r, walletId, i, suffix, data) && !faults.complete)
      ensures r.amount > 0 && r.key != "" && KeyOf(r) !in old(keys) && outcome.Ok? ==>
                && outcome.response == FundingRef("WLF_" + suffix) && OwnsIntent(Rows(), r.profile, "WLF_" + suffix)
                && i !in old(intents) && i in intents && intents[i].amount == r.amount && !faults.complete
                && keys == old(keys)[KeyOf(r) := KeyRow(r.hash, Completed, Some(outcome.response))]
                && (intents[i].confirmed <==> r.savedCard && data.status == Some("success"))
      ensures r.amount > 0 && r.key != "" && KeyOf(r) !in old(keys) && !outcome.Ok? ==>
                && outcome == Rejected
                && keys == old(keys)[KeyOf(r) := KeyRow(r.hash, if faults.mark then InProgress else Broken, None)]
      ensures r.amount > 0 && r.key != "" && KeyOf(r) !in old(keys) ==>
                if i !in old(intents) && i in intents && intents[i].confirmed
                then r.profile in walletOf && Raised(old(balances), balances, walletOf[r.profile], r.amount)
                else SameBalances(old(balances), balances)
    {
      hide ReplyToKnownKey, RepliesAsRecorded, TablesOk, KeysOk, HasTopup, Raised, SameBalances, OwnsIntent;
      hide MapPaystackStatus, CanFund;
      if r.amount <= 0 || r.key == "" {
        return Rejected;
      }
      if KeyOf(r) in keys {
        KnownKeyReplies(Rows(), excused, r);
        return ReplyToKnownKey(Rows(), r);
      }
      if i !in intents { FreshIntentUncredited(Rows(), i); }
      outcome := FundFreshKey(r, walletId, i, suffix, paystackAnswers, data, faults);
    }

    /** What follows a transfer that is refused, throws, or is accepted without being recorded. */
    method Compensate(id: Id, transfer: TransferAnswer, faults: Faults)
      requires ReverseTransaction(ReverseTransaction(Rows(), id), id) == ReverseTransaction(Rows(), id)
      modifies this`withdrawals, this`ledger, this`balances
      ensures Rows() == if IsCompensated(transfer, faults) then ReverseTransaction(old(Rows()), id) else old(Rows())
    {
      hide ReverseTransaction;
      if !faults.transfer && transfer.TransferFailed? && !faults.firstReversal {
        ReverseWithdrawal(id);
      }
      if !faults.lastReversal {
        ReverseWithdrawal(id);
      }
    }

    /** Finds the wallet and debits it; from here a compensation would restore every balance. */
    method OpenWithdrawal(r: Request, walletId: Id, id: Id, suffix: string, destinationResolves: bool)
      returns (committed: bool)
      requires r.WithdrawalCall? && r.amount > 0 && (id !in withdrawals ==> ReversalRef(id) !in ledger)
      modifies this`walletOf, this`balances, this`ledger, this`withdrawals, this`withdrawalByRef
      ensures committed <==> destinationResolves && CanWithdraw(old(Rows()), r, id, suffix)
      ensures committed <==> id !in old(withdrawals) && id in withdrawals
      ensures if committed then r.profile in walletOf && Lowered(old(balances), balances, walletOf[r.profile], r.amount)
              else SameBalances(old(balances), balances)
      ensures committed ==>
                && withdrawals[id]
                     == Withdrawal(walletOf[r.profile], r.profile, r.amount, "WDR_" + suffix, InTransfer, KeyOf(r))
                && var undone := ReverseTransaction(Rows(), id);
                   && undone == ReverseTransaction(undone, id) && SameBalances(old(balances), undone.balances)
                   && undone.withdrawals == withdrawals[id := withdrawals[id].(status := Reversed)]
                   && undone.walletOf == walletOf
    {
      hide DebitTransaction, ReverseTransaction;
      var wallet := GetOrCreateWallet(r.profile, walletId);
      if wallet.None? || !destinationResolves {
        return false;
      }
      ghost var unlocked := Rows();
      var row := Withdrawal(wallet.value, r.profile, r.amount, "WDR_" + suffix, InTransfer, KeyOf(r));
      committed := DebitForWithdrawal(id, row);
      if committed {
        CommittedDebitIsFresh(unlocked, id, row);
        ReversalUndoesDebit(unlocked, id, row);
      }
    }

    /**
     The action under the lock: debit, transfer, then record or compensate. The balance of the owner's
     wallet ends lowered exactly when the debit committed and either the transfer was recorded or every
     attempt to compensate threw; otherwise no balance has moved.
     */
    method WithdrawUnderLock(r: Request, walletId: Id, id: Id, suffix: string, destinationResolves: bool,
                             transfer: TransferAnswer, faults: Faults)
      returns (done: bool)
      requires r.WithdrawalCall? && r.amount > 0
      requires id !in withdrawals ==> ReversalRef(id) !in ledger
      modifies this`walletOf, this`balances, this`ledger, this`withdrawals, this`withdrawalByRef
      ensures id !in old(withdrawals) && id in withdrawals <==>
              destinationResolves && CanWithdraw(old(Rows()), r, id, suffix)
      ensures done <==> destinationResolves && CanWithdraw(old(Rows()), r, id, suffix) && IsRecorded(transfer, faults)
      ensures done ==> withdrawals[id].status == if transfer.succeeded then Transferred else InTransfer
      ensures id !in old(withdrawals) && id in withdrawals ==>
                && withdrawals[id].origin == KeyOf(r) && withdrawals[id].amount == r.amount && r.profile in walletOf
                && (withdrawals[id].status.Reversed? <==> !done && IsCompensated(transfer, faults))
      ensures if id !in old(withdrawals) && id in withdrawals && (done || !IsCompensated(transfer, faults))
              then r.profile in walletOf && Lowered(old(balances), balances, walletOf[r.profile], r.amount)
              else SameBalances(old(balances), balances)
    {
      hide ReverseTransaction, IsCompensated, Lowered, SameBalances, CanWithdraw;
      var committed := OpenWithdrawal(r, walletId, id, suffix, destinationResolves);
      if !committed {
        return false;
      }
      if faults.transfer || !transfer.TransferAccepted? || faults.record {
        Compensate(id, transfer, faults);
        return false;
      }
      var status := if transfer.succeeded then Transferred else InTransfer;
      withdrawals := withdrawals[id := withdrawals[id].(status := status)];
      return true;
    }

    /**
     A withdrawal request from its idempotency check to its reply. A known key changes no row. A fresh
     key ends completed with the balance lowered once, or failed; a failed key's balance stays lowered
     exactly when the debit committed and the completion write, or every attempt to compensate, threw.
     */
    method CreateWithdrawal(r: Request, walletId: Id, id: Id, suffix: string, destinationResolves: bool,
                            transfer: TransferAnswer, faults: Faults, ghost excused: set<Key>)
      returns (outcome: Outcome)
      requires r.WithdrawalCall? && TablesOk(Rows())
      modifies this
      ensures r.amount <= 0 || r.key == "" ==> outcome == Rejected && Rows() == old(Rows())
      ensures r.amount > 0 && r.key != "" && KeyOf(r) in old(keys) ==>
                && Rows() == old(Rows())
                && (KeysOk(Rows(), excused) ==> RepliesAsRecorded(keys[KeyOf(r)], r.hash, outcome))
      ensures r.amount > 0 && r.key != "" && KeyOf(r) !in old(keys) ==>
                (outcome.Ok? <==> destinationResolves && CanWithdraw(old(Rows()), r, id, suffix)
                                  && IsRecorded(transfer, faults) && !faults.complete)
      ensures r.amount > 0 && r.key != "" && KeyOf(r) !in old(keys) && outcome.Ok? ==>
                && outcome.response == WithdrawalId(id) && id !in old(withdrawals) && id in withdrawals
                && withdrawals[id].origin == KeyOf(r) && withdrawals[id].amount == r.amount
                && withdrawals[id].status == (if transfer.succeeded then Transferred else InTransfer)
                && keys == old(keys)[KeyOf(r) := KeyRow(r.hash, Completed, Some(WithdrawalId(id)))]
                && r.profile in walletOf && Lowered(old(balances), balances, walletOf[r.profile], r.amount)
      ensures r.amount > 0 && r.key != "" && KeyOf(r) !in old(keys) && !outcome.Ok? ==>
                && outcome == Rejected
                && keys == old(keys)[KeyOf(r) := KeyRow(r.hash, if faults.mark then InProgress else Broken, None)]
                && if destinationResolves && CanWithdraw(old(Rows()), r, id, suffix)
                      && (if IsRecorded(transfer, faults) then faults.complete else !IsCompensated(transfer, faults))
                   then r.profile in walletOf && Lowered(old(balances), balances, walletOf[r.profile], r.amount)
                   else SameBalances(old(balances), balances)
    {
      hide ReplyToKnownKey, RepliesAsRecorded, TablesOk, KeysOk, Lowered, SameBalances, IsRecorded, IsCompensated;
      hide CanWithdraw;
      if r.amount <= 0 || r.key == "" {
        return Rejected;
      }
      var k := KeyOf(r);
      if k in keys {
        KnownKeyReplies(Rows(), excused, r);
        return ReplyToKnownKey(Rows(), r);
      }
      if id !in withdrawals { NoWithdrawalNoEntries(Rows(), id); }
      WithdrawingIgnoresKeys(Rows(), keys[k := KeyRow(r.hash, InProgress, None)], r, id, suffix);
      keys := keys[k := KeyRow(r.hash, InProgress, None)];
      var done := WithdrawUnderLock(r, walletId, id, suffix, destinationResolves, transfer, faults);
      outcome := FinishKey(k, done, WithdrawalId(id), faults);
    }
  }

  lemma CommittedDebitIsFresh(t: Tables, id: Id, row: Withdrawal)
    requires DebitTransaction(t, id, row).Some?
    ensures id !in t.withdrawals && Covers(t, row.wallet, row.amount)
    ensures var t1 := DebitTransaction(t, id, row).value;
            t1.withdrawals == t.withdrawals[id := row] && t1.walletOf == t.walletOf
  {
  }
}

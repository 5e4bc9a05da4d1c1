/**
 The rows of the wallet schema and the database transactions that write them.
 A table is a map keyed by its unique constraint; a transaction is a function from tables to
 `Some(tables)` when it commits and to `None` when it throws and rolls back.
 */
module WalletTables {
  import opened Options

  type Id = string

  /** A request hash, represented by the canonical text that is hashed. */
  type Hash = seq<int>

  // ----- rows

  datatype Direction = Credit | Debit

  datatype EntryType = Topup | Payout | Adjustment

  /** The unique `reference` column of the ledger, by the builder that writes it. */
  datatype LedgerRef =
    | TopupRef(intent: Id)
    | DebitRef(withdrawal: Id)
    | ReversalRef(withdrawal: Id)

  /** A ledger row. Every row this service writes has status COMPLETED. */
  datatype Entry = Entry(wallet: Id, direction: Direction, kind: EntryType, amount: int, intent: Option<Id>)

  datatype IntentStatus = Initialized | Pending | Succeeded | Failed | Cancelled

  datatype Intent = Intent(wallet: Id, amount: int, currency: string, reference: string, status: IntentStatus,
                           confirmed: bool)

  datatype TransferStatus = InTransfer | PendingTransfer | Transferred | Reversed

  datatype Operation = Funding | Withdrawing

  /** The unique (profile, operation, key) triple of the idempotency table. */
  datatype Key = Key(profile: Id, operation: Operation, key: string)

  /** `origin` is a history field: the idempotency key under whose lock the row was inserted. */
  datatype Withdrawal = Withdrawal(wallet: Id, profile: Id, amount: int, reference: string, status: TransferStatus,
                                   origin: Key)

  datatype KeyStatus = InProgress | Completed | Broken

  datatype Response = FundingRef(reference: string) | WithdrawalId(id: Id)

  datatype KeyRow = KeyRow(hash: Hash, status: KeyStatus, response: Option<Response>)

  datatype Tables = Tables(
    walletOf: map<Id, Id>,             // owner profile -> wallet, unique per owner
    balances: map<Id, int>,
    ledger: map<LedgerRef, Entry>,
    intents: map<Id, Intent>,
    intentByRef: map<string, Id>,      // the unique paystackReference index
    withdrawals: map<Id, Withdrawal>,
    withdrawalByRef: map<string, Id>,  // the unique reference index
    keys: map<Key, KeyRow>)

  const EMPTY_TABLES := Tables(map[], map[], map[], map[], map[], map[], map[], map[])

  const WALLET_CURRENCY := "NGN"

  // ----- the ledger total

  function Signed(e: Entry): int {
    if e.direction.Credit? then e.amount else -e.amount
  }

  function Share(e: Entry, wallet: Id): int {
    if e.wallet == wallet then Signed(e) else 0
  }

  /** Completed credits minus completed debits of one wallet. */
  ghost function Total(ledger: map<LedgerRef, Entry>, wallet: Id): int {
    if ledger == map[] then 0
    else
      var r :| r in ledger;
      Share(ledger[r], wallet) + Total(ledger - {r}, wallet)
  }

  /** The total does not depend on the order in which rows are summed. */
  lemma {:induction false} TotalSplits(ledger: map<LedgerRef, Entry>, wallet: Id, r: LedgerRef)
    requires r in ledger
    ensures Total(ledger, wallet) == Share(ledger[r], wallet) + Total(ledger - {r}, wallet)
    decreases |ledger|
  {
    var p :| p in ledger && Total(ledger, wallet) == Share(ledger[p], wallet) + Total(ledger - {p}, wallet);
    if p != r {
      assert |ledger - {p}| < |ledger| by { Shrinks(ledger, p); }
      assert |ledger - {r}| < |ledger| by { Shrinks(ledger, r); }
      TotalSplits(ledger - {p}, wallet, r);
      TotalSplits(ledger - {r}, wallet, p);
      assert ledger - {p} - {r} == ledger - {r} - {p};
    }
  }

  lemma Shrinks(ledger: map<LedgerRef, Entry>, r: LedgerRef)
    requires r in ledger
    ensures |ledger - {r}| < |ledger|
  {
    assert (ledger - {r}).Keys == ledger.Keys - {r};
  }

  lemma TotalExtends(ledger: map<LedgerRef, Entry>, wallet: Id, r: LedgerRef, e: Entry)
    requires r !in ledger
    ensures Total(ledger[r := e], wallet) == Total(ledger, wallet) + Share(e, wallet)
  {
    TotalSplits(ledger[r := e], wallet, r);
    assert ledger[r := e] - {r} == ledger;
  }

  // ----- what every reachable set of tables satisfies

  ghost predicate EntryMatches(t: Tables, r: LedgerRef, e: Entry) {
    match r
    case TopupRef(i) =>
      i in t.intents && e == Entry(t.intents[i].wallet, Credit, Topup, t.intents[i].amount, Some(i))
    case DebitRef(w) =>
      w in t.withdrawals && e == Entry(t.withdrawals[w].wallet, Debit, Payout, t.withdrawals[w].amount, None)
    case ReversalRef(w) =>
      w in t.withdrawals && e == Entry(t.withdrawals[w].wallet, Credit, Adjustment, t.withdrawals[w].amount, None)
  }

  ghost predicate LedgerOk(t: Tables) {
    forall r | r in t.ledger :: EntryMatches(t, r, t.ledger[r])
  }

  ghost predicate Conserved(t: Tables) {
    forall w | w in t.balances :: t.balances[w] == Total(t.ledger, w)
  }

  ghost predicate WithdrawalOk(t: Tables, w: Id)
    requires w in t.withdrawals
  {
    var row := t.withdrawals[w];
    && row.wallet in t.balances
    && row.amount > 0
    && row.profile == row.origin.profile
    && row.reference in t.withdrawalByRef && t.withdrawalByRef[row.reference] == w
    && DebitRef(w) in t.ledger
    && (row.status.Reversed? ==> ReversalRef(w) in t.ledger)
  }

  ghost predicate IntentOk(t: Tables, i: Id)
    requires i in t.intents
  {
    var row := t.intents[i];
    && row.wallet in t.balances
    && row.amount > 0
    && row.reference in t.intentByRef && t.intentByRef[row.reference] == i
    && (row.confirmed ==> TopupRef(i) in t.ledger)
  }

  ghost predicate IndexOk(t: Tables) {
    && (forall p | p in t.walletOf :: t.walletOf[p] in t.balances)
    && (forall r | r in t.intentByRef :: t.intentByRef[r] in t.intents && t.intents[t.intentByRef[r]].reference == r)
    && (forall r | r in t.withdrawalByRef ::
          t.withdrawalByRef[r] in t.withdrawals && t.withdrawals[t.withdrawalByRef[r]].reference == r)
  }

  ghost predicate TablesOk(t: Tables) {
    && Conserved(t)
    && LedgerOk(t)
    && IndexOk(t)
    && (forall w | w in t.withdrawals :: WithdrawalOk(t, w))
    && (forall i | i in t.intents :: IntentOk(t, i))
  }

  // ----- the transactions

  predicate SameIntent(a: Intent, b: Intent) {
    a.wallet == b.wallet && a.amount == b.amount && a.currency == b.currency && a.reference == b.reference
  }

  predicate SameWithdrawal(a: Withdrawal, b: Withdrawal) {
    a == b.(status := a.status)
  }

  /** Inserts a ledger row and moves the balance of its wallet by the signed amount. */
  function Post(t: Tables, r: LedgerRef, e: Entry): Tables
    requires e.wallet in t.balances
  {
    t.(ledger := t.ledger[r := e], balances := t.balances[e.wallet := t.balances[e.wallet] + Signed(e)])
  }

  function SetTransferStatus(t: Tables, w: Id, status: TransferStatus): Tables
    requires w in t.withdrawals
  {
    t.(withdrawals := t.withdrawals[w := t.withdrawals[w].(status := status)])
  }

  function CreateWallet(t: Tables, owner: Id, id: Id): Option<Tables> {
    if owner in t.walletOf || id in t.balances then None
    else Some(t.(walletOf := t.walletOf[owner := id], balances := t.balances[id := 0]))
  }

  function CreateIntent(t: Tables, i: Id, row: Intent): Option<Tables> {
    if i in t.intents || row.reference in t.intentByRef || row.wallet !in t.balances then None
    else Some(t.(intents := t.intents[i := row], intentByRef := t.intentByRef[row.reference := i]))
  }

  function InsertWithdrawal(t: Tables, id: Id, row: Withdrawal): Tables {
    t.(withdrawals := t.withdrawals[id := row], withdrawalByRef := t.withdrawalByRef[row.reference := id])
  }

  /** The writes of the debit transaction, after its balance test. */
  function DebitWrite(t: Tables, id: Id, row: Withdrawal): Option<Tables> {
    if id in t.withdrawals || row.reference in t.withdrawalByRef || DebitRef(id) in t.ledger
        || row.wallet !in t.balances
    then None
    else
      Some(Post(InsertWithdrawal(t, id, row), DebitRef(id), Entry(row.wallet, Debit, Payout, row.amount, None)))
  }

  /**
   The writes of the compensation transaction, given what its reads saw: the withdrawal row and
   whether a reversal existed. A reversal inserted in between makes the insert throw.
   */
  function ReverseWrite(t: Tables, w: Id, row: Withdrawal, sawReversal: bool): Option<Tables> {
    if row.status.Reversed? then Some(t)
    else if w !in t.withdrawals || row.wallet !in t.balances then None
    else if sawReversal then Some(SetTransferStatus(t, w, Reversed))
    else if ReversalRef(w) in t.ledger then None
    else
      var credit := Entry(row.wallet, Credit, Adjustment, row.amount, None);
      Some(SetTransferStatus(Post(t, ReversalRef(w), credit), w, Reversed))
  }

  /** Paystack's view of a charge: status in lower case, amount and currency when readable. */
  datatype Verification = Verification(status: Option<string>, amount: Option<int>, currency: Option<string>)

  function MapPaystackStatus(status: Option<string>): IntentStatus {
    if status == Some("success") then Succeeded
    else if status == Some("failed") || status == Some("abandoned") || status == Some("error") then Failed
    else if status == Some("cancelled") then Cancelled
    else Pending
  }

  /** What each of Paystack's charge statuses means; every other one, or none, is still pending. */
  lemma PaystackStatusTable(status: Option<string>)
    ensures MapPaystackStatus(status) == Succeeded <==> status == Some("success")
    ensures MapPaystackStatus(status) == Failed <==> status in {Some("failed"), Some("abandoned"), Some("error")}
    ensures MapPaystackStatus(status) == Cancelled <==> status == Some("cancelled")
    ensures status !in {Some("success"), Some("failed"), Some("abandoned"), Some("error"), Some("cancelled")} ==>
              MapPaystackStatus(status) == Pending
  {
    var words := ["success", "failed", "abandoned", "error", "cancelled"];
    assert |words[0]| == 7 && |words[1]| == 6 && |words[2]| == 9 && |words[3]| == 5 && |words[4]| == 9;
    assert words[2][0] != words[4][0];
  }

  /** The existing-credit query: any completed TOPUP credit related to the intent. */
  predicate HasTopup(t: Tables, i: Id) {
    exists r | r in t.ledger ::
      t.ledger[r].intent == Some(i) && t.ledger[r].direction == Credit && t.ledger[r].kind == Topup
  }

  /**
   The writes of the funding transaction, given what its reads saw. A credit inserted in between
   makes the insert violate the unique reference, which the code catches before it goes on; that
   PostgreSQL may abort the transaction then is a failure of the step.
   */
  function FinalizeWrite(t: Tables, i: Id, row: Intent, sawTopup: bool, data: Verification): Option<Tables> {
    if i !in t.intents || row.wallet !in t.balances then None
    else if MapPaystackStatus(data.status) != Succeeded then
      Some(t.(intents := t.intents[i := t.intents[i].(status := Failed)]))
    else if data.amount.Some? && data.amount.value != row.amount then None
    else if data.currency.Some? && data.currency.value != row.currency then None
    else
      var t1 := if sawTopup || TopupRef(i) in t.ledger then t
                else Post(t, TopupRef(i), Entry(row.wallet, Credit, Topup, row.amount, Some(i)));
      Some(t1.(intents := t1.intents[i := t1.intents[i].(status := Succeeded, confirmed := true)]))
  }

  /** The conditional update of a transfer.success webhook. */
  function MarkSucceeded(t: Tables, reference: string): Tables {
    if reference in t.withdrawalByRef && t.withdrawalByRef[reference] in t.withdrawals
       && (var s := t.withdrawals[t.withdrawalByRef[reference]].status; s.InTransfer? || s.PendingTransfer?)
    then SetTransferStatus(t, t.withdrawalByRef[reference], Transferred)
    else t
  }

  // ----- each transaction keeps the tables in order

  lemma PostKeeps(t: Tables, r: LedgerRef, e: Entry)
    requires r !in t.ledger && e.wallet in t.balances
    requires Conserved(t) && LedgerOk(t) && EntryMatches(t, r, e)
    ensures Conserved(Post(t, r, e)) && LedgerOk(Post(t, r, e))
  {
    var t' := Post(t, r, e);
    forall w | w in t'.balances ensures t'.balances[w] == Total(t'.ledger, w) {
      TotalExtends(t.ledger, w, r, e);
    }
    forall q | q in t'.ledger ensures EntryMatches(t', q, t'.ledger[q]) {
      assert q != r ==> EntryMatches(t, q, t.ledger[q]);
    }
  }

  lemma {:induction false} NoEntriesNoTotal(ledger: map<LedgerRef, Entry>, wallet: Id)
    requires forall r | r in ledger :: ledger[r].wallet != wallet
    ensures Total(ledger, wallet) == 0
    decreases |ledger|
  {
    if ledger != map[] {
      var r :| r in ledger;
      TotalSplits(ledger, wallet, r);
      Shrinks(ledger, r);
      NoEntriesNoTotal(ledger - {r}, wallet);
    }
  }

  lemma CreateWalletKeeps(t: Tables, owner: Id, id: Id)
    requires TablesOk(t) && CreateWallet(t, owner, id).Some?
    ensures TablesOk(CreateWallet(t, owner, id).value)
  {
    var t' := CreateWallet(t, owner, id).value;
    forall r | r in t.ledger ensures t.ledger[r].wallet != id {
      assert EntryMatches(t, r, t.ledger[r]);
      match r
      case TopupRef(i) => assert IntentOk(t, i);
      case DebitRef(w) => assert WithdrawalOk(t, w);
      case ReversalRef(w) => assert WithdrawalOk(t, w);
    }
    NoEntriesNoTotal(t.ledger, id);
    forall r | r in t'.ledger ensures EntryMatches(t', r, t'.ledger[r]) {
      assert EntryMatches(t, r, t.ledger[r]);
    }
    forall w | w in t'.withdrawals ensures WithdrawalOk(t', w) { assert WithdrawalOk(t, w); }
    forall i | i in t'.intents ensures IntentOk(t', i) { assert IntentOk(t, i); }
  }

  lemma CreateIntentKeeps(t: Tables, i: Id, row: Intent)
    requires TablesOk(t) && CreateIntent(t, i, row).Some? && row.amount > 0 && !row.confirmed
    ensures TablesOk(CreateIntent(t, i, row).value)
  {
    var t' := CreateIntent(t, i, row).value;
    forall r | r in t'.ledger ensures EntryMatches(t', r, t'.ledger[r]) { assert EntryMatches(t, r, t.ledger[r]); }
    forall w | w in t'.withdrawals ensures WithdrawalOk(t', w) { assert WithdrawalOk(t, w); }
    forall j | j in t'.intents ensures IntentOk(t', j) { assert j != i ==> IntentOk(t, j); }
  }

  /** The tables differ in nothing but statuses, and a status that promises a ledger row has it. */
  ghost predicate OnlyStatusesDiffer(t: Tables, t': Tables) {
    && t'.ledger == t.ledger && t'.balances == t.balances && t'.walletOf == t.walletOf
    && t'.intentByRef == t.intentByRef && t'.withdrawalByRef == t.withdrawalByRef
    && t'.withdrawals.Keys == t.withdrawals.Keys && t'.intents.Keys == t.intents.Keys
    && (forall w | w in t.withdrawals ::
          && SameWithdrawal(t'.withdrawals[w], t.withdrawals[w])
          && (t'.withdrawals[w].status.Reversed? ==> t.withdrawals[w].status.Reversed? || ReversalRef(w) in t.ledger))
    && (forall i | i in t.intents ::
          && SameIntent(t'.intents[i], t.intents[i])
          && (t'.intents[i].confirmed ==> t.intents[i].confirmed || TopupRef(i) in t.ledger))
  }

  lemma LedgerSurvives(t: Tables, t': Tables)
    requires LedgerOk(t) && OnlyStatusesDiffer(t, t')
    ensures LedgerOk(t')
  {
    forall r | r in t'.ledger ensures EntryMatches(t', r, t'.ledger[r]) { assert EntryMatches(t, r, t.ledger[r]); }
  }

  lemma WithdrawalsSurvive(t: Tables, t': Tables)
    requires OnlyStatusesDiffer(t, t') && forall w | w in t.withdrawals :: WithdrawalOk(t, w)
    ensures forall w | w in t'.withdrawals :: WithdrawalOk(t', w)
  {
    forall w | w in t'.withdrawals ensures WithdrawalOk(t', w) { assert WithdrawalOk(t, w); }
  }

  lemma IntentsSurvive(t: Tables, t': Tables)
    requires OnlyStatusesDiffer(t, t') && forall i | i in t.intents :: IntentOk(t, i)
    ensures forall i | i in t'.intents :: IntentOk(t', i)
  {
    forall i | i in t'.intents ensures IntentOk(t', i) { assert IntentOk(t, i); }
  }

  /** Status columns carry no money: rewriting them keeps everything but the status clauses. */
  lemma StatusesKeep(t: Tables, t': Tables)
    requires TablesOk(t) && OnlyStatusesDiffer(t, t')
    ensures TablesOk(t')
  {
    LedgerSurvives(t, t');
    WithdrawalsSurvive(t, t');
    IntentsSurvive(t, t');
    hide LedgerOk, WithdrawalOk, IntentOk, SameWithdrawal;
  }

  lemma TransferStatusKeeps(t: Tables, w: Id, status: TransferStatus)
    requires TablesOk(t) && w in t.withdrawals
    requires status.Reversed? ==> ReversalRef(w) in t.ledger
    ensures TablesOk(SetTransferStatus(t, w, status))
  {
    hide TablesOk;
    StatusesKeep(t, SetTransferStatus(t, w, status));
  }

  lemma IntentStatusKeeps(t: Tables, i: Id, status: IntentStatus, confirmed: bool)
    requires TablesOk(t) && i in t.intents
    requires confirmed ==> TopupRef(i) in t.ledger
    ensures TablesOk(t.(intents := t.intents[i := t.intents[i].(status := status, confirmed := confirmed)]))
  {
    hide TablesOk;
    StatusesKeep(t, t.(intents := t.intents[i := t.intents[i].(status := status, confirmed := confirmed)]));
  }

  lemma KeysCarryNoMoney(t: Tables, keys: map<Key, KeyRow>)
    requires TablesOk(t)
    ensures TablesOk(t.(keys := keys))
  {
    var t' := t.(keys := keys);
    forall r | r in t'.ledger ensures EntryMatches(t', r, t'.ledger[r]) { assert EntryMatches(t, r, t.ledger[r]); }
    forall v | v in t'.withdrawals ensures WithdrawalOk(t', v) { assert WithdrawalOk(t, v); }
    forall j | j in t'.intents ensures IntentOk(t', j) { assert IntentOk(t, j); }
  }

  lemma InsertWithdrawalKeeps(t: Tables, id: Id, row: Withdrawal)
    requires TablesOk(t) && id !in t.withdrawals && row.reference !in t.withdrawalByRef
    ensures var t1 := InsertWithdrawal(t, id, row); Conserved(t1) && LedgerOk(t1) && IndexOk(t1)
  {
    var t1 := InsertWithdrawal(t, id, row);
    forall r | r in t1.ledger ensures EntryMatches(t1, r, t1.ledger[r]) { assert EntryMatches(t, r, t.ledger[r]); }
  }

  lemma DebitKeeps(t: Tables, id: Id, row: Withdrawal)
    requires TablesOk(t) && DebitWrite(t, id, row).Some?
    requires row.amount > 0 && row.profile == row.origin.profile && !row.status.Reversed?
    ensures TablesOk(DebitWrite(t, id, row).value)
  {
    InsertWithdrawalKeeps(t, id, row);
    var t1 := InsertWithdrawal(t, id, row);
    PostKeeps(t1, DebitRef(id), Entry(row.wallet, Debit, Payout, row.amount, None));
    var t' := DebitWrite(t, id, row).value;
    forall w | w in t'.withdrawals ensures WithdrawalOk(t', w) { assert w != id ==> WithdrawalOk(t, w); }
    forall i | i in t'.intents ensures IntentOk(t', i) { assert IntentOk(t, i); }
    assert IndexOk(t');
  }

  lemma PostedRowsOk(t: Tables, r: LedgerRef, e: Entry)
    requires TablesOk(t) && r !in t.ledger && e.wallet in t.balances && EntryMatches(t, r, e)
    ensures TablesOk(Post(t, r, e))
  {
    PostKeeps(t, r, e);
    hide Conserved, LedgerOk, EntryMatches;
    var t1 := Post(t, r, e);
    forall v | v in t1.withdrawals ensures WithdrawalOk(t1, v) { assert WithdrawalOk(t, v); }
    forall i | i in t1.intents ensures IntentOk(t1, i) { assert IntentOk(t, i); }
  }

  lemma ReverseKeeps(t: Tables, w: Id, row: Withdrawal, saw: bool)
    requires TablesOk(t) && w in t.withdrawals && SameWithdrawal(row, t.withdrawals[w])
    requires saw ==> ReversalRef(w) in t.ledger
    requires ReverseWrite(t, w, row, saw).Some?
    ensures TablesOk(ReverseWrite(t, w, row, saw).value)
  {
    hide TablesOk;
    if !row.status.Reversed? {
      if saw {
        TransferStatusKeeps(t, w, Reversed);
      } else {
        var e := Entry(row.wallet, Credit, Adjustment, row.amount, None);
        PostedRowsOk(t, ReversalRef(w), e);
        TransferStatusKeeps(Post(t, ReversalRef(w), e), w, Reversed);
      }
    }
  }

  lemma FinalizeKeeps(t: Tables, i: Id, row: Intent, saw: bool, data: Verification)
    requires TablesOk(t) && i in t.intents && SameIntent(row, t.intents[i])
    requires saw ==> TopupRef(i) in t.ledger
    requires FinalizeWrite(t, i, row, saw, data).Some?
    ensures TablesOk(FinalizeWrite(t, i, row, saw, data).value)
  {
    assert IntentOk(t, i);
    hide TablesOk;
    if MapPaystackStatus(data.status) != Succeeded {
      IntentStatusKeeps(t, i, Failed, t.intents[i].confirmed);
    } else if saw || TopupRef(i) in t.ledger {
      IntentStatusKeeps(t, i, Succeeded, true);
    } else {
      var e := Entry(row.wallet, Credit, Topup, row.amount, Some(i));
      PostedRowsOk(t, TopupRef(i), e);
      IntentStatusKeeps(Post(t, TopupRef(i), e), i, Succeeded, true);
    }
  }

  lemma MarkSucceededKeeps(t: Tables, reference: string)
    requires TablesOk(t)
    ensures TablesOk(MarkSucceeded(t, reference))
  {
    if MarkSucceeded(t, reference) != t {
      TransferStatusKeeps(t, t.withdrawalByRef[reference], Transferred);
    }
  }

  /** The existing-credit query finds a row exactly when the reference it would use is taken. */
  lemma TopupQueryMatchesReference(t: Tables, i: Id)
    requires LedgerOk(t)
    ensures HasTopup(t, i) <==> TopupRef(i) in t.ledger
  {
    if HasTopup(t, i) {
      var r :| r in t.ledger && t.ledger[r].intent == Some(i) && t.ledger[r].kind == Topup;
      assert EntryMatches(t, r, t.ledger[r]);
    }
    if TopupRef(i) in t.ledger {
      assert EntryMatches(t, TopupRef(i), t.ledger[TopupRef(i)]);
    }
  }

  lemma NoWithdrawalNoEntries(t: Tables, id: Id)
    requires TablesOk(t) && id !in t.withdrawals
    ensures DebitRef(id) !in t.ledger && ReversalRef(id) !in t.ledger
  {
    assert forall r | r in t.ledger :: EntryMatches(t, r, t.ledger[r]);
  }
}

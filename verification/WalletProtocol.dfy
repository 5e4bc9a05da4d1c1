/**
 Any number of concurrent callers, confirmations and webhooks over one set of wallet tables.
 Each process holds a program counter; one step is one database statement or one transaction part,
 so every transaction that reads before it writes may act on a stale read.
 */
module WalletProtocol {
  import opened Options
  import opened WalletTables

  // ----- processes

  datatype Request =
    | FundingCall(profile: Id, key: string, amount: int, hash: Hash, savedCard: bool)
    | WithdrawalCall(profile: Id, key: string, amount: int, hash: Hash)
    | ConfirmCall(profile: Id, reference: string)
    | ChargeWebhook(reference: string, data: Verification)
    | TransferFailedWebhook(reference: string)

  datatype Conflict = DifferentPayload | PreviousFailed | StillProcessing | Vanished

  datatype Outcome =
    | Ok(response: Response)
    | Handled
    | Rejected
    | InConflict(conflict: Conflict)
    | InvalidReplay
    | UnableToReplay

  datatype Pc =
    | CheckKey
    | InsertKey
    | ReadRaced
    | Replay(response: Response)
    | OpenWallet
    | InsertWallet
    | ReadBalance(wallet: Id)
    | WriteDebit(wallet: Id, seen: int)
    | Transfer(withdrawal: Id)
    | ReadReversal(withdrawal: Id, inCatch: bool)
    | Reverse(withdrawal: Id, row: Withdrawal, sawReversal: bool, inCatch: bool)
    | RecordTransfer(withdrawal: Id, succeeded: bool)
    | Charge(wallet: Id)
    | ReadIntent(intent: Id, data: Verification)
    | Finalize(intent: Id, intentRow: Intent, sawTopup: bool, data: Verification)
    | FindIntent
    | Verify(intent: Id)
    | FindWithdrawal
    | CloseKey(response: Response)
    | BreakKey
    | Done(outcome: Outcome)

  datatype Process = Process(request: Request, pc: Pc)

  datatype TransferAnswer = TransferFailed | TransferAccepted(succeeded: bool)

  /**
   What the outside world supplies to a step: fresh ids, Paystack's answers, and whether the step's
   statement, transaction or call to Paystack throws.
   */
  datatype Oracle = Oracle(id: Id, suffix: string, transfer: TransferAnswer, data: Verification, fails: bool)

  /**
   `started`, `lost` and `stuck` are history: the keys whose action has begun, once per start, the keys
   whose completion write threw, and the keys whose last compensation threw before any had committed.
   */
  datatype State = State(t: Tables, procs: map<nat, Process>, started: multiset<Key>, lost: set<Key>, stuck: set<Key>)

  datatype Event =
    | Arrive(pid: nat, request: Request)
    | Advance(pid: nat, oracle: Oracle)
    | TransferSucceededWebhook(reference: string)

  const INITIAL_STATE := State(EMPTY_TABLES, map[], multiset{}, {}, {})

  predicate IsCall(r: Request) { r.FundingCall? || r.WithdrawalCall? }

  function KeyOf(r: Request): Key
    requires IsCall(r)
  {
    Key(r.profile, if r.FundingCall? then Funding else Withdrawing, r.key)
  }

  /** The process holds the idempotency lock of its key. */
  predicate Holds(p: Process) {
    && IsCall(p.request)
    && !p.pc.CheckKey? && !p.pc.InsertKey? && !p.pc.ReadRaced? && !p.pc.Replay? && !p.pc.Done?
  }

  function FirstPc(r: Request): Pc {
    match r
    case FundingCall(_, key, amount, _, _) => if amount <= 0 || key == "" then Done(Rejected) else CheckKey
    case WithdrawalCall(_, key, amount, _) => if amount <= 0 || key == "" then Done(Rejected) else CheckKey
    case ConfirmCall(_, _) => FindIntent
    case ChargeWebhook(_, _) => FindIntent
    case TransferFailedWebhook(_) => FindWithdrawal
  }

  // ----- local steps: new tables and program counter of one process

  /** What an existing idempotency record means for a caller. */
  function Verdict(row: KeyRow, hash: Hash): Pc {
    if row.hash != hash then Done(InConflict(DifferentPayload))
    else if row.status.Completed? && row.response.Some? then Replay(row.response.value)
    else if row.status.Broken? then Done(InConflict(PreviousFailed))
    else Done(InConflict(StillProcessing))
  }

  function ReplayOutcome(t: Tables, r: Request, response: Response): Outcome
    requires IsCall(r)
  {
    match response
    case WithdrawalId(w) =>
      if !r.WithdrawalCall? then InvalidReplay
      else if w in t.withdrawals && t.withdrawals[w].profile == r.profile then Ok(response)
      else UnableToReplay
    case FundingRef(ref) =>
      if !r.FundingCall? || ref == "" then InvalidReplay
      else if OwnsIntent(t, r.profile, ref) then Ok(response)
      else UnableToReplay
  }

  predicate OwnsIntent(t: Tables, profile: Id, ref: string) {
    && ref in t.intentByRef && t.intentByRef[ref] in t.intents
    && profile in t.walletOf && t.intents[t.intentByRef[ref]].wallet == t.walletOf[profile]
  }

  function WithWallet(r: Request, wallet: Id): Pc {
    if r.FundingCall? then Charge(wallet) else ReadBalance(wallet)
  }

  function SetKey(t: Tables, k: Key, row: KeyRow): Tables {
    t.(keys := t.keys[k := row])
  }

  function AfterReverse(r: Request, w: Id, inCatch: bool): Pc {
    if !IsCall(r) then Done(Handled)
    else if inCatch then BreakKey
    else ReadReversal(w, true)
  }

  function AfterFinalize(r: Request, row: Intent, committed: bool): Pc {
    if !IsCall(r) then Done(if committed then Handled else Rejected)
    else if committed then CloseKey(FundingRef(row.reference))
    else BreakKey
  }

  function StepDebit(t: Tables, r: Request, wallet: Id, o: Oracle): (Tables, Pc)
    requires IsCall(r)
  {
    var row := Withdrawal(wallet, r.profile, r.amount, "WDR_" + o.suffix, InTransfer, KeyOf(r));
    match DebitWrite(t, o.id, row)
    case None => (t, BreakKey)
    case Some(t') => (t', Transfer(o.id))
  }

  function StepRecordTransfer(t: Tables, w: Id, succeeded: bool): (Tables, Pc) {
    if w !in t.withdrawals then (t, ReadReversal(w, true))
    else (SetTransferStatus(t, w, if succeeded then Transferred else InTransfer), CloseKey(WithdrawalId(w)))
  }

  function StepCharge(t: Tables, r: Request, wallet: Id, o: Oracle): (Tables, Pc)
    requires r.FundingCall?
  {
    var status := if r.savedCard then MapPaystackStatus(o.data.status) else Initialized;
    var row := Intent(wallet, r.amount, WALLET_CURRENCY, "WLF_" + o.suffix, status, false);
    match CreateIntent(t, o.id, row)
    case None => (t, BreakKey)
    case Some(t') =>
      (t', if status == Succeeded then ReadIntent(o.id, o.data) else CloseKey(FundingRef(row.reference)))
  }

  function StepFindIntent(t: Tables, r: Request): Pc {
    match r
    case ConfirmCall(profile, ref) =>
      if !OwnsIntent(t, profile, ref) then Done(Rejected)
      else
        var i := t.intentByRef[ref];
        if t.intents[i].status == Succeeded && t.intents[i].confirmed then Done(Handled) else Verify(i)
    case ChargeWebhook(ref, data) =>
      if ref in t.intentByRef then ReadIntent(t.intentByRef[ref], data) else Done(Handled)
    case _ => Done(Rejected)
  }

  function StepVerify(t: Tables, i: Id, o: Oracle): (Tables, Pc) {
    if i !in t.intents then (t, Done(Rejected))
    else if MapPaystackStatus(o.data.status) != Succeeded then
      (t.(intents := t.intents[i := t.intents[i].(status := Failed)]), Done(Handled))
    else (t, ReadIntent(i, o.data))
  }

  /** One step of a process that is past its idempotency checks, or never had any. */
  function StepWork(t: Tables, r: Request, pc: Pc, o: Oracle): (Tables, Pc) {
    match pc
    case ReadReversal(w, inCatch) =>
      (t, if w in t.withdrawals then Reverse(w, t.withdrawals[w], ReversalRef(w) in t.ledger, inCatch)
          else AfterReverse(r, w, inCatch))
    case Reverse(w, row, saw, inCatch) =>
      (match ReverseWrite(t, w, row, saw) case None => t case Some(t') => t', AfterReverse(r, w, inCatch))
    case ReadIntent(i, data) =>
      (t, if i in t.intents then Finalize(i, t.intents[i], HasTopup(t, i), data)
          else if IsCall(r) then BreakKey else Done(Rejected))
    case Finalize(i, row, saw, data) =>
      (match FinalizeWrite(t, i, row, saw, data)
       case None => (t, AfterFinalize(r, row, false))
       case Some(t') => (t', AfterFinalize(r, row, true)))
    case FindIntent => (t, StepFindIntent(t, r))
    case Verify(i) => StepVerify(t, i, o)
    case FindWithdrawal =>
      (t, if r.TransferFailedWebhook? && r.reference in t.withdrawalByRef
          then ReadReversal(t.withdrawalByRef[r.reference], false) else Done(Handled))
    case _ => (t, pc)
  }

  /** One step of a caller. */
  function StepCall(t: Tables, r: Request, pc: Pc, o: Oracle): (Tables, Pc)
    requires IsCall(r)
  {
    var k := KeyOf(r);
    match pc
    case CheckKey => (t, if k in t.keys then Verdict(t.keys[k], r.hash) else InsertKey)
    case InsertKey =>
      if k in t.keys then (t, ReadRaced)
      else (SetKey(t, k, KeyRow(r.hash, InProgress, None)), OpenWallet)
    case ReadRaced => (t, if k in t.keys then Verdict(t.keys[k], r.hash) else Done(InConflict(Vanished)))
    case Replay(response) => (t, Done(ReplayOutcome(t, r, response)))
    case OpenWallet =>
      (t, if r.profile in t.walletOf then WithWallet(r, t.walletOf[r.profile]) else InsertWallet)
    case InsertWallet =>
      (match CreateWallet(t, r.profile, o.id)
       case Some(t') => (t', WithWallet(r, o.id))
       case None => (t, if r.profile in t.walletOf then WithWallet(r, t.walletOf[r.profile]) else BreakKey))
    case ReadBalance(wallet) =>
      (t, if wallet !in t.balances || t.balances[wallet] < r.amount then BreakKey
          else WriteDebit(wallet, t.balances[wallet]))
    case WriteDebit(wallet, _) => StepDebit(t, r, wallet, o)
    case Transfer(w) =>
      (t, match o.transfer
          case TransferFailed => ReadReversal(w, false)
          case TransferAccepted(succeeded) => RecordTransfer(w, succeeded))
    case RecordTransfer(w, succeeded) => StepRecordTransfer(t, w, succeeded)
    case Charge(wallet) => if r.FundingCall? then StepCharge(t, r, wallet, o) else (t, pc)
    case CloseKey(response) =>
      if k !in t.keys then (t, pc)
      else (SetKey(t, k, t.keys[k].(status := Completed, response := Some(response))), Done(Ok(response)))
    case BreakKey =>
      if k !in t.keys then (t, pc)
      else (SetKey(t, k, t.keys[k].(status := Broken)), Done(Rejected))
    case _ => StepWork(t, r, pc, o)
  }

  /** Where a process goes when its step throws; the step then has no effect. */
  function OnFailure(r: Request, pc: Pc): Pc {
    if pc.Done? then pc
    else if !IsCall(r) then Done(Rejected)
    else
      match pc
      case Transfer(w) => ReadReversal(w, true)
      case RecordTransfer(w, _) => ReadReversal(w, true)
      case ReadReversal(w, inCatch) => AfterReverse(r, w, inCatch)
      case Reverse(w, _, _, inCatch) => AfterReverse(r, w, inCatch)
      case _ => if Holds(Process(r, pc)) && !pc.BreakKey? then BreakKey else Done(Rejected)
  }

  function Step(t: Tables, p: Process, o: Oracle): (Tables, Pc) {
    if o.fails then (t, OnFailure(p.request, p.pc))
    else if IsCall(p.request) then StepCall(t, p.request, p.pc, o) else StepWork(t, p.request, p.pc, o)
  }

  // ----- global steps and runs

  /** The step takes the lock of its key, so the wrapped action begins. */
  predicate Begins(p: Process, next: Pc) { IsCall(p.request) && p.pc.InsertKey? && next.OpenWallet? }

  /** The step fails to record the completion of its key. */
  predicate Loses(p: Process, next: Pc) { IsCall(p.request) && p.pc.CloseKey? && next.BreakKey? }

  /** The caller gives up on its compensation, which threw, while no reversal has been committed. */
  predicate Sticks(t: Tables, p: Process, next: Pc) {
    IsCall(p.request) && (p.pc.ReadReversal? || p.pc.Reverse?) && next.BreakKey?
      && ReversalRef(p.pc.withdrawal) !in t.ledger
  }

  function Next(s: State, e: Event): State {
    match e
    case Arrive(pid, request) =>
      if pid in s.procs then s else s.(procs := s.procs[pid := Process(request, FirstPc(request))])
    case Advance(pid, o) =>
      if pid !in s.procs then s
      else
        var p := s.procs[pid];
        var (t', next) := Step(s.t, p, o);
        State(t', s.procs[pid := p.(pc := next)],
              if Begins(p, next) then s.started + multiset{KeyOf(p.request)} else s.started,
              if Loses(p, next) then s.lost + {KeyOf(p.request)} else s.lost,
              if Sticks(t', p, next) then s.stuck + {KeyOf(p.request)} else s.stuck)
    case TransferSucceededWebhook(reference) => s.(t := MarkSucceeded(s.t, reference))
  }

  function Run(s: State, events: seq<Event>): State
    decreases |events|
  {
    if events == [] then s else Run(Next(s, events[0]), events[1..])
  }

  // ----- the invariant

  /** The row that a recorded response must lead a replay to. */
  ghost predicate Names(t: Tables, k: Key, response: Response) {
    match response
    case FundingRef(ref) => k.operation.Funding? && ref != "" && OwnsIntent(t, k.profile, ref)
    case WithdrawalId(w) => k.operation.Withdrawing? && w in t.withdrawals && t.withdrawals[w].origin == k
  }

  ghost predicate Undebited(t: Tables, k: Key) {
    forall w | w in t.withdrawals :: t.withdrawals[w].origin != k
  }

  ghost predicate Compensated(t: Tables, k: Key) {
    forall w | w in t.withdrawals && t.withdrawals[w].origin == k :: ReversalRef(w) in t.ledger
  }

  /** The keys that may end up failed with their debit standing. */
  function Excused(s: State): set<Key> { s.lost + s.stuck }

  ghost predicate KeyRowOk(t: Tables, excused: set<Key>, k: Key, row: KeyRow) {
    && (row.status.Completed? ==> row.response.Some? && Names(t, k, row.response.value))
    && (row.status.Broken? ==> k in excused || Compensated(t, k))
  }

  ghost predicate KeysOk(t: Tables, excused: set<Key>) {
    && (forall k | k in t.keys :: KeyRowOk(t, excused, k, t.keys[k]))
    && (forall w | w in t.withdrawals :: t.withdrawals[w].origin in t.keys)
    && (forall v, w | v in t.withdrawals && w in t.withdrawals && t.withdrawals[v].origin == t.withdrawals[w].origin ::
         v == w)
  }

  ghost predicate HasLock(t: Tables, r: Request)
    requires IsCall(r)
  {
    var k := KeyOf(r);
    k in t.keys && t.keys[k].status.InProgress? && t.keys[k].hash == r.hash
  }

  /** The key is completed for this payload with this response. */
  ghost predicate Recorded(t: Tables, r: Request, response: Response)
    requires IsCall(r)
  {
    var k := KeyOf(r);
    k in t.keys && t.keys[k].status.Completed? && t.keys[k].response == Some(response) && t.keys[k].hash == r.hash
  }

  ghost predicate OwnsWithdrawal(t: Tables, r: Request, w: Id)
    requires IsCall(r)
  {
    r.WithdrawalCall? && w in t.withdrawals && t.withdrawals[w].origin == KeyOf(r)
  }

  ghost predicate HasWallet(t: Tables, r: Request, wallet: Id)
    requires IsCall(r)
  {
    r.profile in t.walletOf && t.walletOf[r.profile] == wallet
  }

  /** What a process may rely on about rows it has read, whoever it is. */
  ghost predicate ReadsOk(t: Tables, r: Request, pc: Pc) {
    match pc
    case ReadReversal(w, _) => w in t.withdrawals
    case Reverse(w, row, saw, _) =>
      && w in t.withdrawals && SameWithdrawal(row, t.withdrawals[w])
      && (saw || row.status.Reversed? ==> ReversalRef(w) in t.ledger)
    case ReadIntent(i, _) => i in t.intents
    case Finalize(i, row, saw, _) =>
      i in t.intents && SameIntent(row, t.intents[i]) && (saw ==> TopupRef(i) in t.ledger)
    case Verify(i) => i in t.intents
    case _ => true
  }

  ghost predicate CallOk(t: Tables, excused: set<Key>, r: Request, pc: Pc)
    requires IsCall(r)
  {
    && (pc != Done(Rejected) ==> r.amount > 0 && r.key != "")
    && (Holds(Process(r, pc)) ==> HasLock(t, r))
    && match pc
       case ReadRaced => KeyOf(r) in t.keys
       case Replay(response) => Recorded(t, r, response)
       case OpenWallet => Undebited(t, KeyOf(r))
       case InsertWallet => Undebited(t, KeyOf(r))
       case ReadBalance(wallet) => r.WithdrawalCall? && Undebited(t, KeyOf(r)) && HasWallet(t, r, wallet)
       case WriteDebit(wallet, seen) =>
         r.WithdrawalCall? && Undebited(t, KeyOf(r)) && HasWallet(t, r, wallet) && seen >= r.amount
       case Charge(wallet) => r.FundingCall? && Undebited(t, KeyOf(r)) && HasWallet(t, r, wallet)
       case Transfer(w) => OwnsWithdrawal(t, r, w)
       case ReadReversal(w, _) => OwnsWithdrawal(t, r, w)
       case Reverse(w, _, _, _) => OwnsWithdrawal(t, r, w)
       case RecordTransfer(w, _) => OwnsWithdrawal(t, r, w)
       case ReadIntent(i, _) =>
         && i in t.intents && Undebited(t, KeyOf(r)) && Names(t, KeyOf(r), FundingRef(t.intents[i].reference))
       case Finalize(i, row, _, _) => Undebited(t, KeyOf(r)) && Names(t, KeyOf(r), FundingRef(row.reference))
       case CloseKey(response) => Names(t, KeyOf(r), response)
       case BreakKey => KeyOf(r) in excused || Compensated(t, KeyOf(r))
       case Done(outcome) =>
         && (outcome.Ok? ==> Recorded(t, r, outcome.response))
         && outcome != UnableToReplay && outcome != InvalidReplay && outcome != InConflict(Vanished)
       case FindIntent => false
       case Verify(_) => false
       case FindWithdrawal => false
       case _ => true
  }

  ghost predicate ProcessOk(t: Tables, excused: set<Key>, p: Process) {
    && ReadsOk(t, p.request, p.pc)
    && (IsCall(p.request) ==> CallOk(t, excused, p.request, p.pc))
  }

  ghost predicate OneHolder(procs: map<nat, Process>) {
    forall a, b | a in procs && b in procs && Holds(procs[a]) && Holds(procs[b])
        && KeyOf(procs[a].request) == KeyOf(procs[b].request) :: a == b
  }

  ghost predicate StartedOnce(s: State) {
    forall k :: s.started[k] == if k in s.t.keys then 1 else 0
  }

  ghost predicate Inv(s: State) {
    && TablesOk(s.t)
    && KeysOk(s.t, Excused(s))
    && (forall pid | pid in s.procs :: ProcessOk(s.t, Excused(s), s.procs[pid]))
    && OneHolder(s.procs)
    && StartedOnce(s)
  }

  // ----- how tables may change under one step

  ghost predicate Grows(t: Tables, t': Tables) {
    && (forall p | p in t.walletOf :: p in t'.walletOf && t'.walletOf[p] == t.walletOf[p])
    && (forall w | w in t.balances :: w in t'.balances)
    && (forall r | r in t.ledger :: r in t'.ledger && t'.ledger[r] == t.ledger[r])
    && (forall i | i in t.intents :: i in t'.intents && SameIntent(t'.intents[i], t.intents[i]))
    && (forall r | r in t.intentByRef :: r in t'.intentByRef && t'.intentByRef[r] == t.intentByRef[r])
    && (forall w | w in t.withdrawals :: w in t'.withdrawals && SameWithdrawal(t'.withdrawals[w], t.withdrawals[w]))
  }

  /** Withdrawals appear only under the key of a step that holds its lock. */
  ghost predicate DebitsOnly(t: Tables, t': Tables, p: Process) {
    forall w | w in t'.withdrawals && w !in t.withdrawals :: Holds(p) && t'.withdrawals[w].origin == KeyOf(p.request)
  }

  /** Key rows appear when a lock is taken and change only under their holder. */
  ghost predicate KeysMove(t: Tables, t': Tables, p: Process) {
    && (forall k | k in t.keys ::
          && k in t'.keys && t'.keys[k].hash == t.keys[k].hash
          && (t'.keys[k] == t.keys[k] || (Holds(p) && k == KeyOf(p.request) && t.keys[k].status.InProgress?)))
    && (forall k | k in t'.keys && k !in t.keys :: IsCall(p.request) && k == KeyOf(p.request) && p.pc.InsertKey?)
  }

  ghost predicate Frame(t: Tables, t': Tables, p: Process) {
    Grows(t, t') && DebitsOnly(t, t', p) && KeysMove(t, t', p)
  }
}

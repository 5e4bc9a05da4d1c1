/** Every step of the wallet protocol keeps the invariant. */
module WalletInvariant {
  import opened Options
  import opened WalletTables
  import opened WalletProtocol

  // ----- facts about a process survive other processes' steps

  /** Rows a process relies on stay as they are when tables grow. */
  lemma ReadsStable(t: Tables, t': Tables, r: Request, pc: Pc)
    requires ReadsOk(t, r, pc) && Grows(t, t')
    ensures ReadsOk(t', r, pc)
  {
  }

  lemma NamesStable(t: Tables, t': Tables, k: Key, response: Response)
    requires Names(t, k, response) && Grows(t, t')
    ensures Names(t', k, response)
  {
  }

  lemma LockStable(t: Tables, t': Tables, p: Process, q: Process)
    requires Frame(t, t', p) && Holds(q) && HasLock(t, q.request)
    requires Holds(p) ==> KeyOf(p.request) != KeyOf(q.request)
    ensures HasLock(t', q.request)
    ensures Undebited(t, KeyOf(q.request)) ==> Undebited(t', KeyOf(q.request))
    ensures Compensated(t, KeyOf(q.request)) ==> Compensated(t', KeyOf(q.request))
  {
    var k := KeyOf(q.request);
    forall w | w in t'.withdrawals && t'.withdrawals[w].origin == k ensures w in t.withdrawals {}
  }

  lemma RecordStable(t: Tables, t': Tables, p: Process, r: Request, response: Response)
    requires Frame(t, t', p) && IsCall(r) && Recorded(t, r, response)
    ensures Recorded(t', r, response)
  {
    assert KeyOf(r) in t.keys;
  }

  lemma RowsStay(t: Tables, t': Tables, r: Request)
    requires Grows(t, t') && IsCall(r)
    ensures forall w :: OwnsWithdrawal(t, r, w) ==> OwnsWithdrawal(t', r, w)
    ensures forall w :: HasWallet(t, r, w) ==> HasWallet(t', r, w)
  {
  }

  lemma IntentStays(t: Tables, t': Tables, i: Id)
    requires Grows(t, t') && i in t.intents
    ensures i in t'.intents && SameIntent(t'.intents[i], t.intents[i])
  {
  }

  lemma FrameGrows(t: Tables, t': Tables, p: Process)
    requires Frame(t, t', p)
    ensures Grows(t, t') && t.keys.Keys <= t'.keys.Keys
  {
  }

  /** `q` is another process than the one that stepped, so it does not share the stepper's lock. */
  lemma OthersStable(t: Tables, t': Tables, excused: set<Key>, excused': set<Key>, p: Process, q: Process)
    requires Frame(t, t', p) && excused <= excused'
    requires ProcessOk(t, excused, q)
    requires Holds(p) && Holds(q) ==> KeyOf(p.request) != KeyOf(q.request)
    ensures ProcessOk(t', excused', q)
  {
    hide Frame, Grows, HasLock, Undebited, Compensated, Recorded, Names, OwnsWithdrawal, HasWallet;
    FrameGrows(t, t', p);
    ReadsStable(t, t', q.request, q.pc);
    if IsCall(q.request) {
      RowsStay(t, t', q.request);
      if Holds(q) { LockStable(t, t', p, q); }
      match q.pc
      case Replay(response) => RecordStable(t, t', p, q.request, response);
      case Done(outcome) => if outcome.Ok? { RecordStable(t, t', p, q.request, outcome.response); }
      case CloseKey(response) => NamesStable(t, t', KeyOf(q.request), response);
      case ReadIntent(i, _) =>
        IntentStays(t, t', i);
        NamesStable(t, t', KeyOf(q.request), FundingRef(t.intents[i].reference));
      case Finalize(_, row, _, _) => NamesStable(t, t', KeyOf(q.request), FundingRef(row.reference));
      case _ =>
    }
  }

  // ----- table writes grow the tables

  lemma GrowsTransitively(a: Tables, b: Tables, c: Tables)
    requires Grows(a, b) && Grows(b, c)
    ensures Grows(a, c)
  {
  }

  lemma StandingFrame(t: Tables, p: Process)
    ensures Frame(t, t, p)
  {
  }

  lemma PostGrows(t: Tables, r: LedgerRef, e: Entry)
    requires r !in t.ledger && e.wallet in t.balances
    ensures Grows(t, Post(t, r, e))
  {
  }

  lemma TransferStatusGrows(t: Tables, w: Id, status: TransferStatus)
    requires w in t.withdrawals
    ensures Grows(t, SetTransferStatus(t, w, status))
    ensures SetTransferStatus(t, w, status).withdrawals.Keys == t.withdrawals.Keys
  {
  }

  lemma IntentStatusGrows(t: Tables, i: Id, status: IntentStatus, confirmed: bool)
    requires i in t.intents
    ensures Grows(t, t.(intents := t.intents[i := t.intents[i].(status := status, confirmed := confirmed)]))
  {
  }

  lemma ReverseGrows(t: Tables, w: Id, row: Withdrawal, saw: bool)
    requires ReverseWrite(t, w, row, saw).Some?
    ensures var t' := ReverseWrite(t, w, row, saw).value;
            Grows(t, t') && t'.keys == t.keys && t'.withdrawals.Keys == t.withdrawals.Keys
  {
    if !row.status.Reversed? {
      if saw {
        TransferStatusGrows(t, w, Reversed);
      } else {
        var e := Entry(row.wallet, Credit, Adjustment, row.amount, None);
        PostGrows(t, ReversalRef(w), e);
        TransferStatusGrows(Post(t, ReversalRef(w), e), w, Reversed);
        GrowsTransitively(t, Post(t, ReversalRef(w), e), ReverseWrite(t, w, row, saw).value);
      }
    }
  }

  lemma FinalizeGrows(t: Tables, i: Id, row: Intent, saw: bool, data: Verification)
    requires FinalizeWrite(t, i, row, saw, data).Some?
    ensures var t' := FinalizeWrite(t, i, row, saw, data).value;
            Grows(t, t') && t'.keys == t.keys && t'.withdrawals == t.withdrawals
  {
    if MapPaystackStatus(data.status) != Succeeded {
      IntentStatusGrows(t, i, Failed, t.intents[i].confirmed);
    } else if saw || TopupRef(i) in t.ledger {
      IntentStatusGrows(t, i, Succeeded, true);
    } else {
      var e := Entry(row.wallet, Credit, Topup, row.amount, Some(i));
      PostGrows(t, TopupRef(i), e);
      IntentStatusGrows(Post(t, TopupRef(i), e), i, Succeeded, true);
      GrowsTransitively(t, Post(t, TopupRef(i), e), FinalizeWrite(t, i, row, saw, data).value);
    }
  }

  lemma DebitGrows(t: Tables, id: Id, row: Withdrawal)
    requires DebitWrite(t, id, row).Some?
    ensures var t' := DebitWrite(t, id, row).value;
            Grows(t, t') && t'.keys == t.keys && t'.withdrawals == t.withdrawals[id := row]
  {
    var t1 := InsertWithdrawal(t, id, row);
    assert Grows(t, t1);
    PostGrows(t1, DebitRef(id), Entry(row.wallet, Debit, Payout, row.amount, None));
    GrowsTransitively(t, t1, DebitWrite(t, id, row).value);
  }

  // ----- the key invariant under growth

  lemma RowKept(t: Tables, t': Tables, excused: set<Key>, k: Key, row: KeyRow)
    requires KeyRowOk(t, excused, k, row) && Grows(t, t')
    requires row.status.Broken? ==> forall w | w in t'.withdrawals && w !in t.withdrawals ::
             t'.withdrawals[w].origin != k
    ensures KeyRowOk(t', excused, k, row)
  {
    if row.status.Completed? { NamesStable(t, t', k, row.response.value); }
  }

  /** Growth without a new withdrawal or key row keeps the key invariant and is framed. */
  lemma KeysKept(t: Tables, t': Tables, excused: set<Key>, p: Process)
    requires KeysOk(t, excused) && Grows(t, t')
    requires t'.keys == t.keys && t'.withdrawals.Keys == t.withdrawals.Keys
    ensures KeysOk(t', excused) && Frame(t, t', p)
  {
    forall k | k in t'.keys ensures KeyRowOk(t', excused, k, t'.keys[k]) {
      RowKept(t, t', excused, k, t.keys[k]);
    }
    forall w | w in t'.withdrawals ensures t'.withdrawals[w].origin == t.withdrawals[w].origin {}
  }

  /** A debit inserts the only withdrawal of a key that is locked and so far undebited. */
  lemma KeysDebited(t: Tables, t': Tables, excused: set<Key>, p: Process, id: Id, row: Withdrawal)
    requires KeysOk(t, excused) && Grows(t, t') && t'.keys == t.keys
    requires id !in t.withdrawals && t'.withdrawals == t.withdrawals[id := row]
    requires Holds(p) && row.origin == KeyOf(p.request) && HasLock(t, p.request) && Undebited(t, row.origin)
    ensures KeysOk(t', excused) && Frame(t, t', p)
  {
    forall k | k in t'.keys ensures KeyRowOk(t', excused, k, t'.keys[k]) {
      RowKept(t, t', excused, k, t.keys[k]);
    }
  }

  /** Writing one key row keeps the key invariant when the new row is in order. */
  lemma KeySet(t: Tables, excused: set<Key>, k: Key, row: KeyRow)
    requires KeysOk(t, excused)
    requires KeyRowOk(t, excused, k, row)
    ensures KeysOk(SetKey(t, k, row), excused)
  {
    var t' := SetKey(t, k, row);
    forall j | j in t'.keys ensures KeyRowOk(t', excused, j, t'.keys[j]) {
      if j != k { assert KeyRowOk(t, excused, j, t.keys[j]); }
    }
  }

  lemma KeySetFrame(t: Tables, k: Key, row: KeyRow, p: Process)
    requires IsCall(p.request) && k == KeyOf(p.request)
    requires k in t.keys ==> Holds(p) && t.keys[k].status.InProgress? && row.hash == t.keys[k].hash
    requires k !in t.keys ==> p.pc.InsertKey?
    ensures Frame(t, SetKey(t, k, row), p)
  {
  }

  // ----- one step of one process: tables first, then the process itself

  ghost predicate Moves(t: Tables, excused: set<Key>, p: Process, t': Tables) {
    TablesOk(t') && KeysOk(t', excused) && Frame(t, t', p)
  }

  ghost predicate Sound(t: Tables, excused: set<Key>) {
    TablesOk(t) && KeysOk(t, excused)
  }

  lemma InsertKeyMoves(t: Tables, excused: set<Key>, p: Process, o: Oracle)
    requires Sound(t, excused) && IsCall(p.request) && p.pc.InsertKey?
    ensures Moves(t, excused, p, Step(t, p, o).0)
  {
    hide TablesOk, KeysOk, Frame;
    StandingFrame(t, p);
    var k := KeyOf(p.request);
    if k !in t.keys {
      var row := KeyRow(p.request.hash, InProgress, None);
      KeysCarryNoMoney(t, t.keys[k := row]);
      KeySet(t, excused, k, row);
      KeySetFrame(t, k, row, p);
    }
  }

  lemma InsertWalletMoves(t: Tables, excused: set<Key>, p: Process, o: Oracle)
    requires Sound(t, excused) && IsCall(p.request) && p.pc.InsertWallet?
    ensures Moves(t, excused, p, Step(t, p, o).0)
  {
    hide TablesOk, KeysOk, Frame;
    StandingFrame(t, p);
    var out := CreateWallet(t, p.request.profile, o.id);
    if out.Some? {
      CreateWalletKeeps(t, p.request.profile, o.id);
      KeysKept(t, out.value, excused, p);
    }
  }

  function DebitRow(r: Request, wallet: Id, o: Oracle): Withdrawal
    requires IsCall(r)
  {
    Withdrawal(wallet, r.profile, r.amount, "WDR_" + o.suffix, InTransfer, KeyOf(r))
  }

  lemma DebitMoves(t: Tables, excused: set<Key>, p: Process, o: Oracle)
    requires Sound(t, excused) && IsCall(p.request) && p.pc.WriteDebit?
    requires p.request.amount > 0 && HasLock(t, p.request) && Undebited(t, KeyOf(p.request))
    ensures Moves(t, excused, p, Step(t, p, o).0)
  {
    hide TablesOk, KeysOk, Frame;
    StandingFrame(t, p);
    var row := DebitRow(p.request, p.pc.wallet, o);
    var out := DebitWrite(t, o.id, row);
    if out.Some? {
      DebitKeeps(t, o.id, row);
      DebitGrows(t, o.id, row);
      KeysDebited(t, out.value, excused, p, o.id, row);
    }
  }

  lemma StatusMoves(t: Tables, excused: set<Key>, p: Process, w: Id, status: TransferStatus)
    requires Sound(t, excused) && w in t.withdrawals && !status.Reversed?
    ensures Moves(t, excused, p, SetTransferStatus(t, w, status))
  {
    hide TablesOk, KeysOk, Frame;
    TransferStatusKeeps(t, w, status);
    TransferStatusGrows(t, w, status);
    KeysKept(t, SetTransferStatus(t, w, status), excused, p);
  }

  lemma ReverseMoves(t: Tables, excused: set<Key>, p: Process, o: Oracle)
    requires Sound(t, excused) && p.pc.Reverse? && ReadsOk(t, p.request, p.pc)
    ensures Moves(t, excused, p, Step(t, p, o).0)
  {
    hide TablesOk, KeysOk, Frame;
    StandingFrame(t, p);
    var out := ReverseWrite(t, p.pc.withdrawal, p.pc.row, p.pc.sawReversal);
    if out.Some? {
      ReverseKeeps(t, p.pc.withdrawal, p.pc.row, p.pc.sawReversal);
      ReverseGrows(t, p.pc.withdrawal, p.pc.row, p.pc.sawReversal);
      KeysKept(t, out.value, excused, p);
    }
  }

  function ChargeRow(r: Request, wallet: Id, o: Oracle): Intent
    requires r.FundingCall?
  {
    var status := if r.savedCard then MapPaystackStatus(o.data.status) else Initialized;
    Intent(wallet, r.amount, WALLET_CURRENCY, "WLF_" + o.suffix, status, false)
  }

  lemma ChargeMoves(t: Tables, excused: set<Key>, p: Process, o: Oracle)
    requires Sound(t, excused) && p.request.FundingCall? && p.pc.Charge? && p.request.amount > 0
    ensures Moves(t, excused, p, Step(t, p, o).0)
  {
    hide TablesOk, KeysOk, Frame;
    StandingFrame(t, p);
    var out := CreateIntent(t, o.id, ChargeRow(p.request, p.pc.wallet, o));
    if !o.fails && out.Some? {
      CreateIntentKeeps(t, o.id, ChargeRow(p.request, p.pc.wallet, o));
      KeysKept(t, out.value, excused, p);
    }
  }

  lemma FinalizeMoves(t: Tables, excused: set<Key>, p: Process, o: Oracle)
    requires Sound(t, excused) && p.pc.Finalize? && ReadsOk(t, p.request, p.pc)
    ensures Moves(t, excused, p, Step(t, p, o).0)
  {
    hide TablesOk, KeysOk, Frame;
    StandingFrame(t, p);
    var out := FinalizeWrite(t, p.pc.intent, p.pc.intentRow, p.pc.sawTopup, p.pc.data);
    if out.Some? {
      FinalizeKeeps(t, p.pc.intent, p.pc.intentRow, p.pc.sawTopup, p.pc.data);
      FinalizeGrows(t, p.pc.intent, p.pc.intentRow, p.pc.sawTopup, p.pc.data);
      KeysKept(t, out.value, excused, p);
    }
  }

  lemma IntentFailureMoves(t: Tables, excused: set<Key>, p: Process, i: Id)
    requires Sound(t, excused) && i in t.intents
    ensures Moves(t, excused, p, t.(intents := t.intents[i := t.intents[i].(status := Failed)]))
  {
    assert IntentOk(t, i);
    hide TablesOk, KeysOk, Frame, Grows;
    IntentStatusKeeps(t, i, Failed, t.intents[i].confirmed);
    IntentStatusGrows(t, i, Failed, t.intents[i].confirmed);
    KeysKept(t, t.(intents := t.intents[i := t.intents[i].(status := Failed)]), excused, p);
  }

  lemma VerifyMoves(t: Tables, excused: set<Key>, p: Process, o: Oracle)
    requires Sound(t, excused) && p.pc.Verify?
    ensures Moves(t, excused, p, Step(t, p, o).0)
  {
    hide TablesOk, KeysOk, Frame;
    StandingFrame(t, p);
    if p.pc.intent in t.intents { IntentFailureMoves(t, excused, p, p.pc.intent); }
  }

  lemma CloseMoves(t: Tables, excused: set<Key>, p: Process, o: Oracle)
    requires Sound(t, excused) && IsCall(p.request) && (p.pc.CloseKey? || p.pc.BreakKey?)
    requires CallOk(t, excused, p.request, p.pc)
    ensures Moves(t, excused, p, Step(t, p, o).0)
  {
    hide TablesOk, KeysOk, Frame;
    StandingFrame(t, p);
    var k := KeyOf(p.request);
    var t' := Step(t, p, o).0;
    if t' != t {
      var row := t'.keys[k];
      KeysCarryNoMoney(t, t.keys[k := row]);
      KeySet(t, excused, k, row);
      KeySetFrame(t, k, row, p);
    }
  }

  lemma StandingMoves(t: Tables, excused: set<Key>, p: Process)
    requires Sound(t, excused)
    ensures Moves(t, excused, p, t)
  {
    StandingFrame(t, p);
  }

  /** The tables stay sound under any step of any process. */
  lemma StepMoves(t: Tables, excused: set<Key>, p: Process, o: Oracle)
    requires Sound(t, excused) && ProcessOk(t, excused, p)
    ensures Moves(t, excused, p, Step(t, p, o).0)
  {
    hide TablesOk, KeysOk, Frame;
    StandingMoves(t, excused, p);
    match p.pc
    case InsertKey => if IsCall(p.request) { InsertKeyMoves(t, excused, p, o); }
    case InsertWallet => if IsCall(p.request) { InsertWalletMoves(t, excused, p, o); }
    case WriteDebit(_, _) => if IsCall(p.request) { DebitMoves(t, excused, p, o); }
    case RecordTransfer(w, succeeded) =>
      if w in t.withdrawals { StatusMoves(t, excused, p, w, if succeeded then Transferred else InTransfer); }
    case Reverse(_, _, _, _) => ReverseMoves(t, excused, p, o);
    case Charge(_) => if p.request.FundingCall? { ChargeMoves(t, excused, p, o); }
    case Finalize(_, _, _, _) => FinalizeMoves(t, excused, p, o);
    case Verify(_) => VerifyMoves(t, excused, p, o);
    case CloseKey(_) => if IsCall(p.request) { CloseMoves(t, excused, p, o); }
    case BreakKey => if IsCall(p.request) { CloseMoves(t, excused, p, o); }
    case _ =>
  }

  // ----- the process that stepped

  /** The excused keys after a step of `p` to the tables `t`. */
  function ExcusedAfter(excused: set<Key>, t: Tables, p: Process, next: Pc): set<Key> {
    if Loses(p, next) || Sticks(t, p, next) then excused + {KeyOf(p.request)} else excused
  }

  ghost predicate Lands(t: Tables, excused: set<Key>, p: Process, o: Oracle) {
    var (t', next) := Step(t, p, o);
    ProcessOk(t', ExcusedAfter(excused, t', p, next), p.(pc := next))
  }

  lemma CheckLands(t: Tables, excused: set<Key>, p: Process, o: Oracle)
    requires !o.fails && IsCall(p.request) && ProcessOk(t, excused, p) && KeysOk(t, excused)
    requires p.pc.CheckKey? || p.pc.ReadRaced?
    ensures Lands(t, excused, p, o)
  {
    var k := KeyOf(p.request);
    if k in t.keys { assert KeyRowOk(t, excused, k, t.keys[k]); }
  }

  lemma RecordedResolves(t: Tables, excused: set<Key>, r: Request, response: Response)
    requires IsCall(r) && Sound(t, excused) && Recorded(t, r, response)
    ensures ReplayOutcome(t, r, response) == Ok(response)
  {
    var k := KeyOf(r);
    assert KeyRowOk(t, excused, k, t.keys[k]);
    if r.WithdrawalCall? { assert WithdrawalOk(t, response.id); }
    hide TablesOk, KeysOk;
  }

  /** What a caller that meets a key row must be told. */
  predicate RepliesAsRecorded(row: KeyRow, hash: Hash, outcome: Outcome) {
    if row.hash != hash then outcome == InConflict(DifferentPayload)
    else
      match row.status
      case Completed => row.response.Some? && outcome == Ok(row.response.value)
      case Broken => outcome == InConflict(PreviousFailed)
      case InProgress => outcome == InConflict(StillProcessing)
  }

  /** On rows in order, a verdict is the recorded answer, or a replay that resolves to it. */
  lemma VerdictReplies(t: Tables, excused: set<Key>, r: Request)
    requires IsCall(r) && Sound(t, excused) && KeyOf(r) in t.keys
    ensures var row := t.keys[KeyOf(r)];
            match Verdict(row, r.hash)
            case Replay(response) => RepliesAsRecorded(row, r.hash, ReplayOutcome(t, r, response))
            case Done(outcome) => RepliesAsRecorded(row, r.hash, outcome)
            case _ => false
  {
    var row := t.keys[KeyOf(r)];
    assert KeyRowOk(t, excused, KeyOf(r), row);
    if row.hash == r.hash && row.status.Completed? {
      hide TablesOk, KeysOk;
      RecordedResolves(t, excused, r, row.response.value);
    }
  }

  lemma ReplaySteps(t: Tables, p: Process, o: Oracle)
    requires !o.fails && IsCall(p.request) && p.pc.Replay?
    ensures Step(t, p, o) == (t, Done(ReplayOutcome(t, p.request, p.pc.response)))
  {
    hide ReplayOutcome, StepWork;
  }

  lemma ReplayIsRecorded(t: Tables, excused: set<Key>, p: Process)
    requires IsCall(p.request) && ProcessOk(t, excused, p) && p.pc.Replay?
    ensures Recorded(t, p.request, p.pc.response)
    ensures ProcessOk(t, excused, p.(pc := Done(Ok(p.pc.response))))
  {
    hide Recorded, HasLock, Names;
  }

  /** The replay branches that fail to resolve a recorded response are dead. */
  lemma ReplayLands(t: Tables, excused: set<Key>, p: Process, o: Oracle)
    requires !o.fails && IsCall(p.request) && ProcessOk(t, excused, p) && Sound(t, excused) && p.pc.Replay?
    ensures Lands(t, excused, p, o)
  {
    hide Step, ReplayOutcome, Sound, ProcessOk, Recorded;
    ReplayIsRecorded(t, excused, p);
    ReplaySteps(t, p, o);
    RecordedResolves(t, excused, p.request, p.pc.response);
  }

  lemma InsertKeyLands(t: Tables, excused: set<Key>, p: Process, o: Oracle)
    requires !o.fails && IsCall(p.request) && ProcessOk(t, excused, p) && KeysOk(t, excused) && p.pc.InsertKey?
    ensures Lands(t, excused, p, o)
  {
    var k := KeyOf(p.request);
    if k !in t.keys { assert Undebited(t, k); }
    hide KeysOk;
  }

  lemma OpenLands(t: Tables, excused: set<Key>, p: Process, o: Oracle)
    requires !o.fails && IsCall(p.request) && ProcessOk(t, excused, p)
    requires p.pc.OpenWallet? || p.pc.InsertWallet?
    ensures Lands(t, excused, p, o)
  {
  }

  lemma DebitLands(t: Tables, excused: set<Key>, p: Process, o: Oracle)
    requires !o.fails && IsCall(p.request) && ProcessOk(t, excused, p)
    requires p.pc.ReadBalance? || p.pc.WriteDebit?
    ensures Lands(t, excused, p, o)
  {
  }

  lemma TransferLands(t: Tables, excused: set<Key>, p: Process, o: Oracle)
    requires !o.fails && IsCall(p.request) && ProcessOk(t, excused, p)
    requires p.pc.Transfer? || p.pc.RecordTransfer?
    ensures Lands(t, excused, p, o)
  {
  }

  lemma ReadReversalLands(t: Tables, excused: set<Key>, p: Process, o: Oracle)
    requires !o.fails && ProcessOk(t, excused, p) && p.pc.ReadReversal? && WithdrawalOk(t, p.pc.withdrawal)
    ensures Lands(t, excused, p, o)
  {
  }

  lemma ReverseSteps(t: Tables, p: Process, o: Oracle)
    requires !o.fails && p.pc.Reverse?
    ensures var out := ReverseWrite(t, p.pc.withdrawal, p.pc.row, p.pc.sawReversal);
            Step(t, p, o)
              == (if out.Some? then out.value else t, AfterReverse(p.request, p.pc.withdrawal, p.pc.inCatch))
  {
    hide ReverseWrite, AfterReverse;
  }

  /**
   A compensation that does not throw, or meets another one's reversal, leaves the withdrawal reversed in the
   ledger.
   */
  lemma ReverseLeavesReversal(t: Tables, p: Process, o: Oracle)
    requires !o.fails && p.pc.Reverse? && ReadsOk(t, p.request, p.pc)
    requires t.withdrawals[p.pc.withdrawal].wallet in t.balances
    ensures var t' := Step(t, p, o).0;
            && ReversalRef(p.pc.withdrawal) in t'.ledger
            && Grows(t, t') && t'.withdrawals.Keys == t.withdrawals.Keys && t'.keys == t.keys
    ensures Step(t, p, o).1 == AfterReverse(p.request, p.pc.withdrawal, p.pc.inCatch)
  {
    ReverseSteps(t, p, o);
    hide Step;
    StandingFrame(t, p);
    FrameGrows(t, t, p);
    hide Grows;
    var out := ReverseWrite(t, p.pc.withdrawal, p.pc.row, p.pc.sawReversal);
    if out.Some? { ReverseGrows(t, p.pc.withdrawal, p.pc.row, p.pc.sawReversal); }
  }

  lemma SoleWithdrawalCompensated(t: Tables, t': Tables, excused: set<Key>, w: Id)
    requires KeysOk(t, excused) && Grows(t, t') && t'.withdrawals.Keys == t.withdrawals.Keys
    requires w in t.withdrawals && ReversalRef(w) in t'.ledger
    ensures w in t'.withdrawals && t'.withdrawals[w].origin == t.withdrawals[w].origin
    ensures Compensated(t', t.withdrawals[w].origin)
  {
    var k := t.withdrawals[w].origin;
    forall v | v in t'.withdrawals && t'.withdrawals[v].origin == k ensures v == w {
      assert t.withdrawals[v].origin == k;
    }
  }

  lemma ReverseLands(t: Tables, excused: set<Key>, p: Process, o: Oracle)
    requires !o.fails && ProcessOk(t, excused, p) && KeysOk(t, excused) && p.pc.Reverse?
    requires t.withdrawals[p.pc.withdrawal].wallet in t.balances
    ensures Lands(t, excused, p, o)
  {
    hide Step, KeysOk, Grows, Compensated, SameWithdrawal;
    var t' := Step(t, p, o).0;
    ReverseLeavesReversal(t, p, o);
    SoleWithdrawalCompensated(t, t', excused, p.pc.withdrawal);
    if !IsCall(p.request) {
      assert ProcessOk(t', excused, p.(pc := Done(Handled)));
    } else {
      assert HasLock(t', p.request) && OwnsWithdrawal(t', p.request, p.pc.withdrawal);
      assert CallOk(t', excused, p.request, if p.pc.inCatch then BreakKey else ReadReversal(p.pc.withdrawal, true));
    }
  }

  lemma ChargeLands(t: Tables, excused: set<Key>, p: Process, o: Oracle)
    requires !o.fails && IsCall(p.request) && ProcessOk(t, excused, p) && p.pc.Charge?
    ensures Lands(t, excused, p, o)
  {
    assert "WLF_" + o.suffix != "" by { assert |"WLF_"| == 4; }
  }

  lemma ReadIntentLands(t: Tables, excused: set<Key>, p: Process, o: Oracle)
    requires !o.fails && ProcessOk(t, excused, p) && p.pc.ReadIntent? && LedgerOk(t)
    ensures Lands(t, excused, p, o)
  {
    TopupQueryMatchesReference(t, p.pc.intent);
  }

  lemma FinalizeSteps(t: Tables, p: Process, o: Oracle)
    requires !o.fails && p.pc.Finalize?
    ensures var out := FinalizeWrite(t, p.pc.intent, p.pc.intentRow, p.pc.sawTopup, p.pc.data);
            Step(t, p, o) ==
            (if out.Some? then out.value else t, AfterFinalize(p.request, p.pc.intentRow, out.Some?))
  {
    hide FinalizeWrite, AfterFinalize;
  }

  lemma SameKeysAndWithdrawals(t: Tables, t': Tables, r: Request)
    requires IsCall(r) && t'.keys == t.keys && t'.withdrawals == t.withdrawals
    ensures HasLock(t, r) ==> HasLock(t', r)
    ensures Undebited(t, KeyOf(r)) ==> Compensated(t', KeyOf(r))
  {
  }

  lemma FinalizerRelies(t: Tables, excused: set<Key>, p: Process)
    requires IsCall(p.request) && ProcessOk(t, excused, p) && p.pc.Finalize?
    ensures HasLock(t, p.request) && Undebited(t, KeyOf(p.request)) && p.request.amount > 0 && p.request.key != ""
    ensures Names(t, KeyOf(p.request), FundingRef(p.pc.intentRow.reference))
  {
    hide HasLock, Undebited, Names, ReadsOk;
  }

  lemma FinalizerLeaves(t: Tables, excused: set<Key>, r: Request, row: Intent, committed: bool)
    requires IsCall(r) ==> HasLock(t, r) && Compensated(t, KeyOf(r)) && r.amount > 0 && r.key != ""
    requires IsCall(r) && committed ==> Names(t, KeyOf(r), FundingRef(row.reference))
    ensures ProcessOk(t, excused, Process(r, AfterFinalize(r, row, committed)))
  {
    hide HasLock, Compensated, Names;
  }

  lemma FinalizeLands(t: Tables, excused: set<Key>, p: Process, o: Oracle)
    requires !o.fails && ProcessOk(t, excused, p) && p.pc.Finalize?
    ensures Lands(t, excused, p, o)
  {
    FinalizeSteps(t, p, o);
    hide Step, FinalizeWrite, Grows, Names, HasLock, Undebited, Compensated, CallOk;
    var out := FinalizeWrite(t, p.pc.intent, p.pc.intentRow, p.pc.sawTopup, p.pc.data);
    var t' := if out.Some? then out.value else t;
    if out.Some? { FinalizeGrows(t, p.pc.intent, p.pc.intentRow, p.pc.sawTopup, p.pc.data); }
    hide ReadsOk, ProcessOk;
    if IsCall(p.request) {
      FinalizerRelies(t, excused, p);
      SameKeysAndWithdrawals(t, t', p.request);
      if out.Some? { NamesStable(t, t', KeyOf(p.request), FundingRef(p.pc.intentRow.reference)); }
    }
    FinalizerLeaves(t', excused, p.request, p.pc.intentRow, out.Some?);
  }

  lemma HookLands(t: Tables, excused: set<Key>, p: Process, o: Oracle)
    requires !o.fails && ProcessOk(t, excused, p) && IndexOk(t)
    requires p.pc.FindIntent? || p.pc.Verify? || p.pc.FindWithdrawal?
    ensures Lands(t, excused, p, o)
  {
  }

  lemma CloseLands(t: Tables, excused: set<Key>, p: Process, o: Oracle)
    requires !o.fails && IsCall(p.request) && ProcessOk(t, excused, p)
    requires p.pc.CloseKey? || p.pc.BreakKey?
    ensures Lands(t, excused, p, o)
  {
  }

  /** A failing compensation breaks its key only when its withdrawal is reversed already or the key becomes stuck. */
  lemma FailedReversalLands(t: Tables, excused: set<Key>, p: Process, o: Oracle)
    requires o.fails && IsCall(p.request) && ProcessOk(t, excused, p) && KeysOk(t, excused)
    requires p.pc.ReadReversal? || p.pc.Reverse?
    ensures Lands(t, excused, p, o)
  {
    hide KeysOk, Grows, Compensated, SameWithdrawal;
    var w := p.pc.withdrawal;
    assert Grows(t, t) by { StandingFrame(t, p); FrameGrows(t, t, p); }
    if ReversalRef(w) in t.ledger { SoleWithdrawalCompensated(t, t, excused, w); }
  }

  lemma FailureLands(t: Tables, excused: set<Key>, p: Process, o: Oracle)
    requires o.fails && ProcessOk(t, excused, p) && KeysOk(t, excused)
    ensures Lands(t, excused, p, o)
  {
    if IsCall(p.request) && (p.pc.ReadReversal? || p.pc.Reverse?) {
      FailedReversalLands(t, excused, p, o);
    }
    hide KeysOk;
  }

  lemma StepLands(t: Tables, excused: set<Key>, p: Process, o: Oracle)
    requires Sound(t, excused) && ProcessOk(t, excused, p)
    ensures Lands(t, excused, p, o)
  {
    hide KeysOk, CallOk;
    if o.fails {
      FailureLands(t, excused, p, o);
      return;
    }
    match p.pc
    case CheckKey => if IsCall(p.request) { CheckLands(t, excused, p, o); }
    case ReadRaced => if IsCall(p.request) { CheckLands(t, excused, p, o); }
    case Replay(_) => if IsCall(p.request) { ReplayLands(t, excused, p, o); }
    case InsertKey => if IsCall(p.request) { InsertKeyLands(t, excused, p, o); }
    case OpenWallet => if IsCall(p.request) { OpenLands(t, excused, p, o); }
    case InsertWallet => if IsCall(p.request) { OpenLands(t, excused, p, o); }
    case ReadBalance(_) => if IsCall(p.request) { DebitLands(t, excused, p, o); }
    case WriteDebit(_, _) => if IsCall(p.request) { DebitLands(t, excused, p, o); }
    case Transfer(_) => if IsCall(p.request) { TransferLands(t, excused, p, o); }
    case RecordTransfer(_, _) => if IsCall(p.request) { TransferLands(t, excused, p, o); }
    case ReadReversal(_, _) => ReadReversalLands(t, excused, p, o);
    case Reverse(_, _, _, _) => ReverseLands(t, excused, p, o);
    case Charge(_) => if IsCall(p.request) { ChargeLands(t, excused, p, o); }
    case ReadIntent(_, _) => ReadIntentLands(t, excused, p, o);
    case Finalize(_, _, _, _) => FinalizeLands(t, excused, p, o);
    case FindIntent => HookLands(t, excused, p, o);
    case Verify(_) => HookLands(t, excused, p, o);
    case FindWithdrawal => HookLands(t, excused, p, o);
    case CloseKey(_) => if IsCall(p.request) { CloseLands(t, excused, p, o); }
    case BreakKey => if IsCall(p.request) { CloseLands(t, excused, p, o); }
    case Done(_) =>
  }

  // ----- global steps

  lemma KeysOkMonotone(t: Tables, excused: set<Key>, excused': set<Key>)
    requires KeysOk(t, excused) && excused <= excused'
    ensures KeysOk(t, excused')
  {
    forall k | k in t.keys ensures KeyRowOk(t, excused', k, t.keys[k]) { assert KeyRowOk(t, excused, k, t.keys[k]); }
  }

  lemma HoldersStay(s: State, pid: nat, o: Oracle)
    requires Inv(s) && pid in s.procs
    ensures OneHolder(Next(s, Advance(pid, o)).procs)
  {
    var p := s.procs[pid];
    assert ProcessOk(s.t, Excused(s), p);
    var s' := Next(s, Advance(pid, o));
    var p' := s'.procs[pid];
    if Holds(p') && !Holds(p) {
      // The lock was free, so nobody else holds it.
      assert p.pc.InsertKey? && KeyOf(p.request) !in s.t.keys;
    }
    forall a, b | a in s'.procs && b in s'.procs && Holds(s'.procs[a]) && Holds(s'.procs[b])
                  && KeyOf(s'.procs[a].request) == KeyOf(s'.procs[b].request)
      ensures a == b
    {
      assert a != pid ==> ProcessOk(s.t, Excused(s), s.procs[a]);
      assert b != pid ==> ProcessOk(s.t, Excused(s), s.procs[b]);
    }
  }

  lemma StartsStay(s: State, pid: nat, o: Oracle)
    requires StartedOnce(s) && pid in s.procs
    ensures StartedOnce(Next(s, Advance(pid, o)))
  {
    KeysWhere(s.t, s.procs[pid], o);
  }

  /** What a finalization, a verification and a compensation leave alone. */
  lemma FinalizeFrame(t: Tables, i: Id, row: Intent, saw: bool, data: Verification)
    ensures var out := FinalizeWrite(t, i, row, saw, data);
            out.Some? ==> out.value.keys == t.keys && out.value.withdrawals == t.withdrawals
  {
    if FinalizeWrite(t, i, row, saw, data).Some? {
      FinalizeGrows(t, i, row, saw, data);
      hide FinalizeWrite;
    }
  }

  lemma VerifyFrame(t: Tables, i: Id, o: Oracle)
    ensures StepVerify(t, i, o).0.keys == t.keys && StepVerify(t, i, o).0.withdrawals == t.withdrawals
    ensures !StepVerify(t, i, o).1.OpenWallet?
  {
  }

  lemma ReverseFrame(t: Tables, w: Id, row: Withdrawal, saw: bool, other: Id)
    ensures var out := ReverseWrite(t, w, row, saw);
            out.Some? ==>
              && out.value.keys == t.keys
              && (other in t.withdrawals && t.withdrawals[other].status.Reversed? ==>
                    other in out.value.withdrawals && out.value.withdrawals[other].status.Reversed?)
  {
  }

  lemma WorkLeavesKeys(t: Tables, r: Request, pc: Pc, o: Oracle)
    ensures StepWork(t, r, pc, o).0.keys == t.keys
    ensures StepWork(t, r, pc, o).1.OpenWallet? ==> pc.OpenWallet?
  {
    hide FinalizeWrite, ReverseWrite, StepVerify;
    match pc
    case Finalize(i, row, saw, data) => FinalizeFrame(t, i, row, saw, data);
    case Reverse(w, row, saw, _) => ReverseFrame(t, w, row, saw, w);
    case Verify(i) => VerifyFrame(t, i, o);
    case _ =>
  }

  lemma CallLeavesKeys(t: Tables, r: Request, pc: Pc, o: Oracle)
    requires IsCall(r) && !pc.InsertKey? && !pc.CloseKey? && !pc.BreakKey?
    ensures StepCall(t, r, pc, o).0.keys == t.keys
  {
    WorkLeavesKeys(t, r, pc, o);
    hide StepWork;
  }

  ghost predicate KeysAdded(t: Tables, p: Process, o: Oracle) {
    var (t', next) := Step(t, p, o);
    && (forall k :: k in t'.keys <==> k in t.keys || (Begins(p, next) && k == KeyOf(p.request)))
    && (Begins(p, next) ==> KeyOf(p.request) !in t.keys)
  }

  lemma InsertSteps(t: Tables, p: Process, o: Oracle)
    requires !o.fails && IsCall(p.request) && p.pc.InsertKey?
    ensures var k := KeyOf(p.request);
            Step(t, p, o) ==
            if k in t.keys then (t, ReadRaced) else (SetKey(t, k, KeyRow(p.request.hash, InProgress, None)), OpenWallet)
  {
    hide StepWork, KeyOf;
  }

  lemma CloseSteps(t: Tables, p: Process, o: Oracle)
    requires !o.fails && IsCall(p.request) && p.pc.CloseKey?
    ensures var k := KeyOf(p.request);
            Step(t, p, o) ==
            if k !in t.keys then (t, p.pc)
            else
              var row := t.keys[k].(status := Completed, response := Some(p.pc.response));
              (SetKey(t, k, row), Done(Ok(p.pc.response)))
  {
    hide StepWork, KeyOf, SetKey;
  }

  lemma BreakSteps(t: Tables, p: Process, o: Oracle)
    requires !o.fails && IsCall(p.request) && p.pc.BreakKey?
    ensures var k := KeyOf(p.request);
            Step(t, p, o) ==
            if k !in t.keys then (t, p.pc) else (SetKey(t, k, t.keys[k].(status := Broken)), Done(Rejected))
  {
    hide StepWork, KeyOf, SetKey;
  }

  lemma KeyPhases(t: Tables, p: Process, o: Oracle)
    requires !o.fails && IsCall(p.request) && (p.pc.InsertKey? || p.pc.CloseKey? || p.pc.BreakKey?)
    ensures KeysAdded(t, p, o)
  {
    hide Step, KeyOf;
    match p.pc
    case InsertKey => InsertSteps(t, p, o);
    case CloseKey(_) => CloseSteps(t, p, o);
    case BreakKey => BreakSteps(t, p, o);
  }

  /** A step adds the key whose action it begins, and no other. */
  lemma KeysWhere(t: Tables, p: Process, o: Oracle)
    ensures KeysAdded(t, p, o)
  {
    if o.fails {
      assert Step(t, p, o) == (t, OnFailure(p.request, p.pc));
    } else if IsCall(p.request) && (p.pc.InsertKey? || p.pc.CloseKey? || p.pc.BreakKey?) {
      KeyPhases(t, p, o);
    } else {
      WorkLeavesKeys(t, p.request, p.pc, o);
      hide StepWork, StepCall;
      if IsCall(p.request) { CallLeavesKeys(t, p.request, p.pc, o); }
    }
  }

  lemma AdvanceMoves(s: State, pid: nat, o: Oracle)
    requires pid in s.procs
    ensures var s' := Next(s, Advance(pid, o));
            && s'.t == Step(s.t, s.procs[pid], o).0
            && s'.procs == s.procs[pid := s.procs[pid].(pc := Step(s.t, s.procs[pid], o).1)]
            && Excused(s') == ExcusedAfter(Excused(s), s'.t, s.procs[pid], s'.procs[pid].pc) >= Excused(s)
  {
    hide Step, Loses, Sticks;
  }

  lemma AdvanceKeeps(s: State, pid: nat, o: Oracle)
    requires Inv(s) && pid in s.procs
    ensures Inv(Next(s, Advance(pid, o)))
  {
    var p := s.procs[pid];
    var s' := Next(s, Advance(pid, o));
    StepMoves(s.t, Excused(s), p, o);
    StepLands(s.t, Excused(s), p, o);
    HoldersStay(s, pid, o);
    StartsStay(s, pid, o);
    AdvanceMoves(s, pid, o);
    hide TablesOk, KeysOk, Step, StartedOnce, ProcessOk, Frame, Excused, ExcusedAfter, Next;
    KeysOkMonotone(s'.t, Excused(s), Excused(s'));
    forall q | q in s'.procs ensures ProcessOk(s'.t, Excused(s'), s'.procs[q]) {
      if q != pid { OthersStable(s.t, s'.t, Excused(s), Excused(s'), p, s.procs[q]); }
    }
  }

  lemma ArriveKeeps(s: State, pid: nat, r: Request)
    requires Inv(s)
    ensures Inv(Next(s, Arrive(pid, r)))
  {
    assert ProcessOk(s.t, Excused(s), Process(r, FirstPc(r)));
    hide TablesOk, KeysOk, StartedOnce;
  }

  /** A sound table write outside every process disturbs none of them. */
  lemma OutsideWriteKeeps(s: State, t': Tables, nobody: Process)
    requires Inv(s) && !IsCall(nobody.request)
    requires Moves(s.t, Excused(s), nobody, t') && t'.keys == s.t.keys
    ensures Inv(s.(t := t'))
  {
    hide TablesOk, KeysOk, ProcessOk, Frame, OneHolder;
    assert !Holds(nobody);
    forall q | q in s.procs ensures ProcessOk(t', Excused(s), s.procs[q]) {
      OthersStable(s.t, t', Excused(s), Excused(s), nobody, s.procs[q]);
    }
  }

  lemma WebhookKeeps(s: State, reference: string)
    requires Inv(s)
    ensures Inv(Next(s, TransferSucceededWebhook(reference)))
  {
    hide TablesOk, KeysOk, StartedOnce, OneHolder, ProcessOk, Step, Frame;
    var t' := MarkSucceeded(s.t, reference);
    if t' != s.t {
      var nobody := Process(TransferFailedWebhook(reference), FindWithdrawal);
      StatusMoves(s.t, Excused(s), nobody, s.t.withdrawalByRef[reference], Transferred);
      assert t'.keys == s.t.keys;
      hide MarkSucceeded, Inv, Step;
      OutsideWriteKeeps(s, t', nobody);
    }
  }

  lemma NextKeeps(s: State, e: Event)
    requires Inv(s)
    ensures Inv(Next(s, e))
  {
    hide Inv;
    match e
    case Arrive(pid, r) => ArriveKeeps(s, pid, r);
    case Advance(pid, o) => if pid in s.procs { AdvanceKeeps(s, pid, o); }
    case TransferSucceededWebhook(reference) => WebhookKeeps(s, reference);
  }

  lemma {:induction false} RunKeeps(s: State, events: seq<Event>)
    requires Inv(s)
    ensures Inv(Run(s, events))
    decreases |events|
  {
    hide Inv;
    if events != [] {
      NextKeeps(s, events[0]);
      RunKeeps(Next(s, events[0]), events[1..]);
    }
  }

  /** Every state that any schedule of callers and webhooks reaches satisfies the invariant. */
  lemma Reachable(events: seq<Event>)
    ensures Inv(Run(INITIAL_STATE, events))
  {
    assert Inv(INITIAL_STATE);
    RunKeeps(INITIAL_STATE, events);
  }
}

/**
 One accepted offer per shipment, under any interleaving. Dispatches, accepts, counters and declines are
 split into their reads and their writes, so each may act on rows that have changed since; shipment rows
 and assignment statuses are edited arbitrarily, and marketplace awards insert assignments. The row lock
 of the accepts is not assumed.
 */
module DispatchWinner {
  import opened Options
  import opened Shipments
  import opened DispatchTables

  /** A call in progress: a dispatch past its guards or past its batch read, a reply, an accept past its reads. */
  datatype Task =
    | Dispatching(s: Id, eligible: seq<Candidate>, newBatch: Id)
    | Sending(s: Id, eligible: seq<Candidate>, newBatch: Id, saw: Option<Batch>)
    | Replying(reply: Reply, stage: Stage)
    | Accepting(o: Id, counter: bool, row: Shipment, existed: bool)
    | Ended

  datatype State = State(t: Tables, tasks: map<nat, Task>)

  datatype Event =
    | Create(s: Id, row: Shipment)
    | BeginDispatch(pid: nat, s: Id, eligible: seq<Candidate>, newBatch: Id, now: int)
    | BeginAccept(pid: nat, o: Id, provider: Id, view: Option<ProviderView>, now: int)
    | BeginOwnerAccept(pid: nat, s: Id, o: Id, view: Option<ProviderView>)
    | BeginReply(pid: nat, reply: Reply)
    | Continue(pid: nat)
    | EditShipment(s: Id, row: Shipment)
    | EditAssignmentStatus(s: Id, status: AssignmentStatus)
    | AwardTo(s: Id, provider: Id, amount: int, currency: string)

  const INITIAL_STATE := State(EMPTY_TABLES, map[])

  /** The first reads of a call and the checks on them; `None` when it throws or has nothing to do. */
  function FirstReads(t: Tables, e: Event): Option<Task> {
    match e
    case BeginDispatch(_, s, eligible, newBatch, now) =>
      if PassesGuards(t, s, now) && eligible != [] then Some(Dispatching(s, eligible, newBatch)) else None
    case BeginAccept(_, o, provider, view, now) =>
      if CanAccept(t, o, provider, view, now)
      then Some(Accepting(o, false, t.shipments[t.offers[o].shipment], t.offers[o].shipment in t.assignments)) else None
    case BeginOwnerAccept(_, s, o, view) =>
      if CanOwnerAccept(t, s, o, view) then Some(Accepting(o, true, t.shipments[s], s in t.assignments)) else None
    case BeginReply(_, reply) => Some(Replying(reply, Reading))
    case _ => None
  }

  function ContinueTask(t: Tables, task: Task): (Tables, Task) {
    match task
    case Dispatching(s, eligible, newBatch) => (t, Sending(s, eligible, newBatch, BatchOf(t, s)))
    case Sending(s, eligible, newBatch, saw) =>
      (match LateDispatch(t, s, saw, eligible, newBatch) case Some(t') => t' case None => t, Ended)
    case Accepting(o, counter, row, existed) => (CommitAccept(t, o, counter, row, existed), Ended)
    case Replying(r, Reading) => (t, Replying(r, ReadOffer(t, r)))
    case Replying(r, Pricing(s)) => (t, Replying(r, if r.CounterReply? then CheckPrice(t, r, s) else Finished))
    case Replying(r, Writing(currency)) => (WriteReply(t, r, currency), Ended)
    case Replying(r, Finished) => (t, Ended)
    case Ended => (t, Ended)
  }

  function NextTables(t: Tables, e: Event): Tables {
    match e
    case Create(s, row) => CreateShipment(t, s, row)
    case EditShipment(s, row) => if s in t.shipments then t.(shipments := t.shipments[s := row]) else t
    case EditAssignmentStatus(s, status) =>
      if s in t.assignments then t.(assignments := t.assignments[s := t.assignments[s].(status := status)]) else t
    case AwardTo(s, provider, amount, currency) =>
      if s in t.assignments then t
      else t.(assignments := t.assignments[s := Assignment(provider, None, Some(amount), currency, Active)])
    case _ => t
  }

  predicate Begins(e: Event) { e.BeginDispatch? || e.BeginAccept? || e.BeginOwnerAccept? || e.BeginReply? }

  function Next(s: State, e: Event): State {
    if Begins(e) then
      if e.pid in s.tasks || FirstReads(s.t, e).None? then s
      else s.(tasks := s.tasks[e.pid := FirstReads(s.t, e).value])
    else if e.Continue? then
      if e.pid !in s.tasks then s
      else var (t', task') := ContinueTask(s.t, s.tasks[e.pid]); State(t', s.tasks[e.pid := task'])
    else s.(t := NextTables(s.t, e))
  }

  function Run(s: State, events: seq<Event>): State
    decreases |events|
  {
    if events == [] then s else Run(Next(s, events[0]), events[1..])
  }

  // ----- the invariant

  /** An accepted offer belongs to the provider its shipment is assigned to. */
  ghost predicate AcceptedIsAssigned(t: Tables) {
    forall o | o in t.offers && t.offers[o].status.Accepted? ::
      t.offers[o].shipment in t.assignments && t.assignments[t.offers[o].shipment].provider == t.offers[o].provider
  }

  /** Each offer is in the one batch of its shipment. */
  ghost predicate OffersInBatch(t: Tables) {
    forall o | o in t.offers ::
      t.offers[o].shipment in t.batches && t.batches[t.offers[o].shipment].id == t.offers[o].batch
  }

  ghost predicate OnePerProvider(offers: map<Id, Offer>) {
    forall a, b | a in offers && b in offers && offers[a].batch == offers[b].batch
        && offers[a].provider == offers[b].provider :: a == b
  }

  ghost predicate TablesOk(t: Tables) {
    AcceptedIsAssigned(t) && OffersInBatch(t) && OnePerProvider(t.offers)
  }

  /** An accept that found an assignment found the offer's own provider in it. */
  ghost predicate TaskOk(t: Tables, task: Task) {
    task.Accepting? && task.existed && task.o in t.offers ==>
      t.offers[task.o].shipment in t.assignments
      && t.assignments[t.offers[task.o].shipment].provider == t.offers[task.o].provider
  }

  ghost predicate Inv(s: State) {
    && TablesOk(s.t)
    && (forall pid | pid in s.tasks :: TaskOk(s.t, s.tasks[pid]))
    && (forall pid | pid in s.tasks && s.tasks[pid].Accepting? :: s.tasks[pid].o in s.t.offers)
  }

  /** Offers keep their shipment and provider, assignments keep their provider. */
  ghost predicate Settles(t: Tables, t': Tables) {
    && (forall o | o in t.offers ::
          o in t'.offers && t'.offers[o].shipment == t.offers[o].shipment
            && t'.offers[o].provider == t.offers[o].provider)
    && (forall s | s in t.assignments :: s in t'.assignments && t'.assignments[s].provider == t.assignments[s].provider)
  }

  lemma {:induction false} SendOffersKeeps(offers: map<Id, Offer>, batch: Id, s: Id, eligible: seq<Candidate>)
    requires OnePerProvider(offers)
    ensures var sent := SendOffers(offers, batch, s, eligible);
            && OnePerProvider(sent)
            && (forall o | o in offers :: o in sent && sent[o] == offers[o])
            && (forall o | o in sent && o !in offers ::
                  sent[o].status.Sent? && sent[o].batch == batch && sent[o].shipment == s
                    && sent[o].counterAmount.None?)
    decreases |eligible|
  {
    if eligible != [] {
      var c := eligible[0];
      if c.offer in offers || HasOffer(offers, batch, c.provider) {
        SendOffersKeeps(offers, batch, s, eligible[1..]);
      } else {
        var offer := Offer(batch, s, c.provider, Sent, None, None, None);
        SendOffersKeeps(offers[c.offer := offer], batch, s, eligible[1..]);
      }
    }
  }

  lemma CommitKeeps(t: Tables, o: Id, counter: bool, row: Shipment, existed: bool)
    requires TablesOk(t) && TaskOk(t, Accepting(o, counter, row, existed))
    ensures TablesOk(CommitAccept(t, o, counter, row, existed)) && Settles(t, CommitAccept(t, o, counter, row, existed))
  {
    if CanCommit(t, o, counter, row, existed) {
      var t' := CommitAccept(t, o, counter, row, existed);
      forall a | a in t'.offers
        ensures t'.offers[a].batch == t.offers[a].batch && t'.offers[a].provider == t.offers[a].provider
                && t'.offers[a].shipment == t.offers[a].shipment
        ensures t'.offers[a].status.Accepted? ==> a == o || t.offers[a].status.Accepted?
      {
      }
      assert AcceptedIsAssigned(t');
    }
  }

  /** A late dispatch still sends at most one offer per provider, in the one batch of the shipment. */
  lemma LateDispatchKeeps(t: Tables, s: Id, saw: Option<Batch>, eligible: seq<Candidate>, newId: Id)
    requires TablesOk(t) && LateDispatch(t, s, saw, eligible, newId).Some?
    ensures var t' := LateDispatch(t, s, saw, eligible, newId).value; TablesOk(t') && Settles(t, t')
  {
    var t' := LateDispatch(t, s, saw, eligible, newId).value;
    SendOffersKeeps(t.offers, t'.batches[s].id, s, eligible);
    hide SendOffers, OnePerProvider;
  }

  lemma WriteReplyKeeps(t: Tables, r: Reply, currency: string)
    requires TablesOk(t)
    ensures TablesOk(WriteReply(t, r, currency)) && Settles(t, WriteReply(t, r, currency))
  {
  }

  lemma TablesKeep(t: Tables, e: Event)
    requires TablesOk(t)
    ensures TablesOk(NextTables(t, e)) && Settles(t, NextTables(t, e))
  {
  }

  lemma ContinueKeeps(t: Tables, task: Task)
    requires TablesOk(t) && TaskOk(t, task)
    ensures TablesOk(ContinueTask(t, task).0) && Settles(t, ContinueTask(t, task).0)
    ensures !ContinueTask(t, task).1.Accepting?
  {
    hide TablesOk, WriteReply, CommitAccept, LateDispatch;
    match task
    case Accepting(o, counter, row, existed) => CommitKeeps(t, o, counter, row, existed);
    case Replying(r, Writing(currency)) => WriteReplyKeeps(t, r, currency);
    case Sending(s, eligible, newBatch, saw) =>
      if LateDispatch(t, s, saw, eligible, newBatch).Some? { LateDispatchKeeps(t, s, saw, eligible, newBatch); }
    case _ =>
  }

  lemma FirstReadsAreOk(t: Tables, e: Event)
    requires FirstReads(t, e).Some?
    ensures var task := FirstReads(t, e).value; TaskOk(t, task) && (task.Accepting? ==> task.o in t.offers)
  {
  }

  lemma TaskStable(t: Tables, t': Tables, task: Task)
    requires TaskOk(t, task) && Settles(t, t') && (task.Accepting? ==> task.o in t.offers)
    ensures TaskOk(t', task) && (task.Accepting? ==> task.o in t'.offers)
  {
  }

  lemma OtherTasksAreOk(t: Tables, task: Task)
    requires !task.Accepting?
    ensures TaskOk(t, task)
  {
  }

  lemma NextKeeps(s: State, e: Event)
    requires Inv(s)
    ensures Inv(Next(s, e))
  {
    hide TablesOk, NextTables, ContinueTask, TaskOk, Settles, FirstReads;
    var s' := Next(s, e);
    if Begins(e) {
      if FirstReads(s.t, e).Some? { FirstReadsAreOk(s.t, e); }
    } else {
      TablesKeep(s.t, e);
      if e.Continue? && e.pid in s.tasks {
        ContinueKeeps(s.t, s.tasks[e.pid]);
        OtherTasksAreOk(s'.t, s'.tasks[e.pid]);
      }
      forall pid | pid in s.tasks && !(e.Continue? && pid == e.pid)
        ensures TaskOk(s'.t, s.tasks[pid]) && (s.tasks[pid].Accepting? ==> s.tasks[pid].o in s'.t.offers)
      {
        if s'.t != s.t { TaskStable(s.t, s'.t, s.tasks[pid]); }
      }
    }
  }

  lemma {:induction false} RunKeeps(s: State, events: seq<Event>)
    requires Inv(s)
    ensures Inv(Run(s, events))
    decreases |events|
  {
    hide Inv;
    if events != [] {
      NextKeeps(s, events[0]);
      RunKeeps(Next(s, events[0]), events[1..]);
    }
  }

  /** No reachable state has two accepted offers for one shipment. */
  lemma OneWinnerPerShipment(events: seq<Event>, a: Id, b: Id)
    requires var t := Run(INITIAL_STATE, events).t;
             && a in t.offers && b in t.offers
             && t.offers[a].status.Accepted? && t.offers[b].status.Accepted?
             && t.offers[a].shipment == t.offers[b].shipment
    ensures a == b
  {
    RunKeeps(INITIAL_STATE, events);
  }

  /** However dispatches overlap, a provider has at most one offer of a shipment. */
  lemma OneOfferPerProvider(events: seq<Event>, a: Id, b: Id)
    requires var t := Run(INITIAL_STATE, events).t;
             && a in t.offers && b in t.offers
             && t.offers[a].shipment == t.offers[b].shipment && t.offers[a].provider == t.offers[b].provider
    ensures a == b
  {
    RunKeeps(INITIAL_STATE, events);
  }
}

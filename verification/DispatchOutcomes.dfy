/** What dispatch calls achieve: whole deliveries, and calls of the interleaved machine that nobody interrupts. */
module DispatchOutcomes {
  import opened Options
  import opened Shipments
  import opened DispatchTables
  import opened DispatchAgreement
  import Winner = DispatchWinner

  /** A dispatch opens the shipment to every provider it reached: an available one of its category can accept. */
  lemma ReachedProviderCanAccept(t: Tables, dispatch: Event, o: Id, accept: Event)
    requires Agree(t) && dispatch.DispatchTo?
             && Dispatches(t, dispatch.s, dispatch.eligible, dispatch.newBatch, dispatch.now)
    requires o in Next(t, dispatch).offers
    requires var offer := Next(t, dispatch).offers[o];
             && offer.shipment == dispatch.s && offer.status in {Sent, Viewed}
             && accept.Accept? && accept.o == o && accept.provider == offer.provider
             && (offer.expiresAt.Some? ==> offer.expiresAt.value > accept.now)
             && accept.view == Some(ProviderView(true, t.shipments[dispatch.s].category))
    ensures dispatch.s in Next(t, dispatch).shipments
    ensures IsWon(Next(t, dispatch), Next(Next(t, dispatch), accept), o, false)
  {
    var t' := Next(t, dispatch);
    assert t'.shipments[dispatch.s] == t.shipments[dispatch.s].(status := Broadcasting);
    assert MayBeAccepted(t', accept, o);
    hide Agree, Next, Dispatches, MayBeAccepted, IsWon;
    NextKeeps(t, dispatch);
    AllowedAcceptWins(t', accept, o);
  }

  // ----- whole deliveries

  /** A shipment that waits with one sent offer. */
  function Waiting(s: Id, row: Shipment, c: Candidate, batch: Id): Tables {
    Tables(map[s := row.(status := Broadcasting, openingPrice := Price(row))],
           map[s := Batch(batch, Open)],
           map[c.offer := Offer(batch, s, c.provider, Sent, None, None, None)],
           map[])
  }

  lemma DispatchReaches(s: Id, row: Shipment, c: Candidate, batch: Id, now: int)
    requires row.mode.ByDispatch? && IsDue(row.schedule, row.scheduledAt, now)
    ensures Next(Next(EMPTY_TABLES, Create(s, row)), DispatchTo(s, [c], batch, now)) == Waiting(s, row, c, batch)
  {
    var t1 := Next(EMPTY_TABLES, Create(s, row));
    assert PassesGuards(t1, s, now) && BatchOf(t1, s) == None && !BatchIdTaken(t1, batch);
    assert !HasOffer(t1.offers, batch, c.provider);
    assert SendOffers(t1.offers, batch, s, [c])
        == map[c.offer := Offer(batch, s, c.provider, Sent, None, None, None)] by {
      assert [c][1..] == [];
    }
  }

  lemma {:induction false} RunOf(t: Tables, e: Event, events: seq<Event>)
    ensures Run(t, [e] + events) == Run(Next(t, e), events)
  {
    hide Next;
    assert ([e] + events)[1..] == events;
  }

  function ProviderFor(row: Shipment): Option<ProviderView> { Some(ProviderView(true, row.category)) }

  /** A due shipment is created, dispatched, accepted and delivered at its own price. */
  lemma DeliveryRunsToCompletion(s: Id, row: Shipment, c: Candidate, batch: Id, now: int, later: int)
    requires row.mode.ByDispatch? && IsDue(row.schedule, row.scheduledAt, now)
    ensures var t := Run(EMPTY_TABLES, [Create(s, row)] + ([DispatchTo(s, [c], batch, now)]
                                       + ([Accept(c.offer, c.provider, ProviderFor(row), later)]
                                          + ([Advance(s, c.provider, MarkEnRoute)]
                                             + ([Advance(s, c.provider, ConfirmPickup)]
                                                + ([Advance(s, c.provider, ConfirmDropoff)] + []))))));
            && s in t.shipments && t.shipments[s].status.Completed?
            && s in t.batches && t.batches[s] == Batch(batch, BatchAssigned)
            && t.assignments == map[s := Assignment(c.provider, Some(c.offer),
                 if row.finalPrice.Some? then row.finalPrice else row.quotedPrice, row.currency, Fulfilled)]
  {
    DispatchReaches(s, row, c, batch, now);
    var t2 := Waiting(s, row, c, batch);
    var accept := Accept(c.offer, c.provider, ProviderFor(row), later);
    var first, second, third := Advance(s, c.provider, MarkEnRoute), Advance(s, c.provider, ConfirmPickup),
      Advance(s, c.provider, ConfirmDropoff);
    var t3 := Next(t2, accept);
    AcceptOfWaiting(s, row, c, batch, accept);
    AdvancesToTheEnd(t3, s, c.provider);
    hide Next, Waiting;
    RunOf(EMPTY_TABLES, Create(s, row),
      [DispatchTo(s, [c], batch, now)] + ([accept] + ([first] + ([second] + ([third] + [])))));
    RunOf(Next(EMPTY_TABLES, Create(s, row)), DispatchTo(s, [c], batch, now),
      [accept] + ([first] + ([second] + ([third] + []))));
    RunOf(t2, accept, [first] + ([second] + ([third] + [])));
    RunOf(t3, first, [second] + ([third] + []));
    RunOf(Next(t3, first), second, [third] + []);
    RunOf(Next(Next(t3, first), second), third, []);
  }

  lemma AcceptOfWaiting(s: Id, row: Shipment, c: Candidate, batch: Id, accept: Event)
    requires accept.Accept? && accept.o == c.offer && accept.provider == c.provider && accept.view == ProviderFor(row)
    ensures var t := Next(Waiting(s, row, c, batch), accept);
            && s in t.shipments && t.shipments[s].status.Assigned?
            && s in t.batches && t.batches[s] == Batch(batch, BatchAssigned)
            && t.assignments == map[s := Assignment(c.provider, Some(c.offer),
                 if row.finalPrice.Some? then row.finalPrice else row.quotedPrice, row.currency, Active)]
  {
  }

  lemma AdvancesToTheEnd(t: Tables, s: Id, provider: Id)
    requires s in t.shipments && t.shipments[s].status.Assigned?
    requires s in t.assignments && t.assignments[s].provider == provider && t.assignments[s].status.Active?
    ensures var t' := Next(Next(Next(t, Advance(s, provider, MarkEnRoute)), Advance(s, provider, ConfirmPickup)),
                           Advance(s, provider, ConfirmDropoff));
            && s in t'.shipments && t'.shipments[s].status.Completed?
            && t'.batches == t.batches && t'.offers == t.offers
            && t'.assignments == t.assignments[s := t.assignments[s].(status := Fulfilled)]
  {
  }

  /**
   A counter above the price that the shipper accepts is agreed at the counter's amount, in the shipment's
   currency.
   */
  lemma AcceptedCounterIsAgreed(s: Id, row: Shipment, c: Candidate, batch: Id, now: int, amount: int, later: int)
    requires row.mode.ByDispatch? && IsDue(row.schedule, row.scheduledAt, now) && row.currency != "" && amount > 0
    requires row.finalPrice.Some? ==> amount > row.finalPrice.value
    requires row.finalPrice.None? && row.quotedPrice.Some? ==> amount > row.quotedPrice.value
    ensures var t := Run(EMPTY_TABLES, [Create(s, row)] + ([DispatchTo(s, [c], batch, now)]
                                       + ([Answer(CounterReply(c.offer, c.provider, Some(amount), None, later))]
                                          + ([AcceptCounter(s, c.offer, ProviderFor(row))] + []))));
            && s in t.shipments && t.shipments[s].status.Assigned? && t.shipments[s].finalPrice == Some(amount)
            && t.assignments
                 == map[s := Assignment(c.provider, Some(c.offer), Some(amount), Upper(row.currency), Active)]
  {
    DispatchReaches(s, row, c, batch, now);
    var t2 := Waiting(s, row, c, batch);
    var counter, accept := Answer(CounterReply(c.offer, c.provider, Some(amount), None, later)),
      AcceptCounter(s, c.offer, ProviderFor(row));
    CounterOfWaiting(s, row, c, batch, counter.reply, accept);
    hide Next, Waiting, Upper;
    RunOf(EMPTY_TABLES, Create(s, row), [DispatchTo(s, [c], batch, now)] + ([counter] + ([accept] + [])));
    RunOf(Next(EMPTY_TABLES, Create(s, row)), DispatchTo(s, [c], batch, now), [counter] + ([accept] + []));
    RunOf(t2, counter, [accept] + []);
    RunOf(Next(t2, counter), accept, []);
  }

  lemma CounterOfWaiting(s: Id, row: Shipment, c: Candidate, batch: Id, r: Reply, accept: Event)
    requires r.CounterReply? && r.offer == c.offer && r.provider == c.provider && r.currency.None? && r.amount.Some?
    requires accept == AcceptCounter(s, c.offer, ProviderFor(row)) && row.mode.ByDispatch? && row.currency != ""
    requires r.amount.value > 0 && (Price(row).Some? ==> r.amount.value > Price(row).value)
    ensures var t := Next(Next(Waiting(s, row, c, batch), Answer(r)), accept);
            && s in t.shipments && t.shipments[s].status.Assigned? && t.shipments[s].finalPrice == r.amount
            && t.assignments == map[s := Assignment(c.provider, Some(c.offer), r.amount, Upper(row.currency), Active)]
  {
    assert |Upper(row.currency)| == |row.currency|;
    hide Upper;
    var t1 := Next(Waiting(s, row, c, batch), Answer(r));
    assert t1.offers
        == map[c.offer := Offer(batch, s, c.provider, Countered, None, r.amount, Some(Upper(row.currency)))];
  }

  // ----- calls that nobody interrupts

  lemma MachineRun(s: Winner.State, e: Winner.Event, events: seq<Winner.Event>)
    ensures Winner.Run(s, [e] + events) == Winner.Run(Winner.Next(s, e), events)
  {
    hide Winner.Next;
    assert ([e] + events)[1..] == events;
  }

  /** Begun and continued without interruption, a dispatch of the machine is the dispatch of the tables. */
  lemma UninterruptedDispatch(m: Winner.State, pid: nat, s: Id, eligible: seq<Candidate>, newBatch: Id, now: int)
    requires pid !in m.tasks
    ensures Winner.Run(m, [Winner.BeginDispatch(pid, s, eligible, newBatch, now)]
                          + ([Winner.Continue(pid)] + ([Winner.Continue(pid)] + []))).t ==
            Dispatch(m.t, s, eligible, newBatch, now)
  {
    var begin, go := Winner.BeginDispatch(pid, s, eligible, newBatch, now), Winner.Continue(pid);
    MachineRun(m, begin, [go] + ([go] + []));
    MachineRun(Winner.Next(m, begin), go, [go] + []);
    MachineRun(Winner.Next(Winner.Next(m, begin), go), go, []);
    hide Broadcast, BatchIdTaken;
  }

  lemma UninterruptedAccept(m: Winner.State, pid: nat, o: Id, provider: Id, view: Option<ProviderView>, now: int)
    requires pid !in m.tasks
    ensures Winner.Run(m, [Winner.BeginAccept(pid, o, provider, view, now)] + ([Winner.Continue(pid)] + [])).t ==
            AcceptOffer(m.t, o, provider, view, now)
  {
    var begin, go := Winner.BeginAccept(pid, o, provider, view, now), Winner.Continue(pid);
    MachineRun(m, begin, [go] + []);
    MachineRun(Winner.Next(m, begin), go, []);
    hide CommitAccept;
  }

  lemma UninterruptedOwnerAccept(m: Winner.State, pid: nat, s: Id, o: Id, view: Option<ProviderView>)
    requires pid !in m.tasks
    ensures Winner.Run(m, [Winner.BeginOwnerAccept(pid, s, o, view)] + ([Winner.Continue(pid)] + [])).t ==
            OwnerAccept(m.t, s, o, view)
  {
    var begin, go := Winner.BeginOwnerAccept(pid, s, o, view), Winner.Continue(pid);
    MachineRun(m, begin, [go] + []);
    MachineRun(Winner.Next(m, begin), go, []);
    hide CommitAccept;
  }

  /** A counter has three steps after it has begun, a decline two; a step more changes nothing. */
  lemma UninterruptedReply(m: Winner.State, pid: nat, r: Reply)
    requires pid !in m.tasks
    ensures Winner.Run(m, [Winner.BeginReply(pid, r)]
                          + ([Winner.Continue(pid)] + ([Winner.Continue(pid)] + ([Winner.Continue(pid)] + [])))).t ==
            Respond(m.t, r)
  {
    var begin, go := Winner.BeginReply(pid, r), Winner.Continue(pid);
    var m1 := Winner.Next(m, begin);
    var m2 := Winner.Next(m1, go);
    MachineRun(m, begin, [go] + ([go] + ([go] + [])));
    MachineRun(m1, go, [go] + ([go] + []));
    MachineRun(m2, go, [go] + []);
    MachineRun(Winner.Next(m2, go), go, []);
    hide CheckPrice, WriteReply;
    assert m2.t == m.t && m2.tasks[pid] == Winner.Replying(r, ReadOffer(m.t, r));
  }
}

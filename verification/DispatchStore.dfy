/**
 The dispatch service as it writes its tables, row by row. Each method is one call without
 interference; `None` stands for an exception, which rolls the call back.
 */
module DispatchStore {
  import opened Options
  import opened Shipments
  import opened DispatchTables
  import opened DispatchReconcile
  import opened DispatchLifecycle
  import opened DispatchReplies
  import Agreement = DispatchAgreement

  // ----- what every call keeps

  /** The tables still agree, shipments still finish with their assignments, and no shipment has moved back. */
  ghost predicate Keeps(t: Tables, t': Tables) {
    && (Agreement.Agree(t) ==> Agreement.Agree(t'))
    && (FinishTogether(t) ==> FinishTogether(t'))
    && MovesForward(t, t')
  }

  lemma CallKeeps(t: Tables, e: Agreement.Event)
    ensures Keeps(t, Agreement.Next(t, e))
  {
    hide Agreement.Agree, FinishTogether, MovesForward, Agreement.Next;
    if Agreement.Agree(t) { Agreement.NextKeeps(t, e); }
    if FinishTogether(t) { NextFinishes(t, e); }
    NextMovesForward(t, e);
  }

  /** The generated offer ids are new. */
  predicate FreshIds(offers: map<Id, Offer>, eligible: seq<Candidate>) {
    && (forall i | 0 <= i < |eligible| :: eligible[i].offer !in offers)
    && (forall i, j | 0 <= i < j < |eligible| :: eligible[i].offer != eligible[j].offer)
  }

  /** The offers after the first candidate. */
  function FirstSent(offers: map<Id, Offer>, batch: Id, s: Id, c: Candidate): map<Id, Offer> {
    if c.offer in offers || HasOffer(offers, batch, c.provider) then offers
    else offers[c.offer := Offer(batch, s, c.provider, Sent, None, None, None)]
  }

  lemma {:induction false} SendingKeeps(offers: map<Id, Offer>, batch: Id, s: Id, eligible: seq<Candidate>)
    ensures forall o | o in offers ::
              o in SendOffers(offers, batch, s, eligible) && SendOffers(offers, batch, s, eligible)[o] == offers[o]
    decreases |eligible|
  {
    if eligible != [] { SendingKeeps(FirstSent(offers, batch, s, eligible[0]), batch, s, eligible[1..]); }
  }

  lemma {:induction false} SendingReaches(offers: map<Id, Offer>, batch: Id, s: Id, eligible: seq<Candidate>)
    requires FreshIds(offers, eligible)
    ensures forall c | c in eligible :: HasOffer(SendOffers(offers, batch, s, eligible), batch, c.provider)
    decreases |eligible|
  {
    if eligible != [] {
      var c := eligible[0];
      var next := FirstSent(offers, batch, s, c);
      assert FreshIds(next, eligible[1..]);
      SendingReaches(next, batch, s, eligible[1..]);
      SendingKeeps(next, batch, s, eligible[1..]);
      FirstIsReached(offers, batch, s, c);
      FirstHasOffer(next, SendOffers(next, batch, s, eligible[1..]), batch, c.provider);
      hide HasOffer;
      assert eligible == [c] + eligible[1..];
    }
  }

  lemma FirstIsReached(offers: map<Id, Offer>, batch: Id, s: Id, c: Candidate)
    requires c.offer !in offers
    ensures HasOffer(FirstSent(offers, batch, s, c), batch, c.provider)
  {
    var next := FirstSent(offers, batch, s, c);
    if !HasOffer(offers, batch, c.provider) { assert next[c.offer].batch == batch; }
  }

  /** Sending keeps the offers there are, and on new ids every eligible provider has one afterwards. */
  lemma SendingReachesEveryone(offers: map<Id, Offer>, batch: Id, s: Id, eligible: seq<Candidate>)
    ensures var sent := SendOffers(offers, batch, s, eligible);
            && (forall o | o in offers :: o in sent && sent[o] == offers[o])
            && (FreshIds(offers, eligible) ==> forall c | c in eligible :: HasOffer(sent, batch, c.provider))
  {
    hide FreshIds, HasOffer, SendOffers;
    SendingKeeps(offers, batch, s, eligible);
    if FreshIds(offers, eligible) { SendingReaches(offers, batch, s, eligible); }
  }

  lemma FirstHasOffer(offers: map<Id, Offer>, sent: map<Id, Offer>, batch: Id, provider: Id)
    requires HasOffer(offers, batch, provider) && forall o | o in offers :: o in sent && sent[o] == offers[o]
    ensures HasOffer(sent, batch, provider)
  {
    var o :| o in offers && offers[o].batch == batch && offers[o].provider == provider;
    assert sent[o].batch == batch;
  }

  // ----- repeated and competing accepts

  /**
   The offer is the caller's own accepted one, and the checks before it still pass, so a repeated accept
   returns it.
   */
  predicate AlreadyMine(t: Tables, o: Id, provider: Id, view: Option<ProviderView>, now: int) {
    && o in t.offers
    && var offer, s := t.offers[o], t.offers[o].shipment;
       && offer.provider == provider && offer.status.Accepted?
       && (offer.expiresAt.Some? ==> offer.expiresAt.value > now)
       && s in t.shipments && t.shipments[s].status in {Created, Broadcasting, Assigned} && s in t.batches
       && view == Some(ProviderView(true, t.shipments[s].category))
       && s in t.assignments && t.assignments[s].provider == provider && t.assignments[s].status.Active?
  }

  predicate AlreadyAccepted(t: Tables, s: Id, o: Id) {
    && s in t.shipments && t.shipments[s].mode.ByDispatch?
    && o in t.offers && t.offers[o].shipment == s && t.offers[o].status.Accepted?
  }

  /** A provider may repeat its accept: it gets the same offer and changes nothing more. */
  lemma AcceptIsRepeatable(t: Tables, o: Id, provider: Id, view: Option<ProviderView>, now: int)
    requires CanAccept(t, o, provider, view, now)
    ensures var t' := AcceptOffer(t, o, provider, view, now);
            AlreadyMine(t', o, provider, view, now) && AcceptOffer(t', o, provider, view, now) == t'
  {
  }

  /** After one accept, no other offer of the shipment can be accepted, by provider or shipper, over every run. */
  lemma SecondAcceptFails(t: Tables, e: Agreement.Event, s: Id, between: seq<Agreement.Event>, other: Id, q: Id,
                          view: Option<ProviderView>, now: int)
    requires Agreement.Agree(t) && s in Agreement.Next(t, e).assignments
    requires var u := Agreement.Run(Agreement.Next(t, e), between); other in u.offers && u.offers[other].shipment == s
    ensures var u := Agreement.Run(Agreement.Next(t, e), between);
            !CanAccept(u, other, q, view, now) && !CanOwnerAccept(u, s, other, view)
  {
    Agreement.NextKeeps(t, e);
    Agreement.RunKeeps(Agreement.Next(t, e), between);
    Agreement.AssignmentIsForGood(Agreement.Next(t, e), between, s);
    var u := Agreement.Run(Agreement.Next(t, e), between);
    hide Agreement.Run, Agreement.Next;
    assert Agreement.OfferAgrees(u, other);
  }

  /** On agreeing rows the guards of an accept say exactly whether it may be made, and then it takes effect. */
  lemma AcceptDecides(t: Tables, e: Agreement.Event, o: Id)
    requires (e.Accept? || e.AcceptCounter?) && e.o == o
    ensures Agreement.Agree(t) ==>
              && (Agreement.MayBeAccepted(t, e, o) ==> Agreement.IsWon(t, Agreement.Next(t, e), o, e.AcceptCounter?))
              && (Agreement.MayBeAccepted(t, e, o) <==>
                  if e.Accept? then CanAccept(t, o, e.provider, e.view, e.now)
                  else CanOwnerAccept(t, e.s, o, e.view)
                       && CanCommit(t, o, true, t.shipments[e.s], e.s in t.assignments))
  {
    hide Agreement.Agree, Agreement.Next, Agreement.IsWon;
    if Agreement.Agree(t) {
      if o in t.offers && t.offers[o].status in {Sent, Viewed, Countered} { Agreement.OpenMeansFree(t, o); }
      if Agreement.MayBeAccepted(t, e, o) { Agreement.AllowedAcceptWins(t, e, o); }
    }
  }

  class Store {
    var shipments: map<Id, Shipment>
    var batches: map<Id, Batch>
    var offers: map<Id, Offer>
    var assignments: map<Id, Assignment>

    function Rows(): Tables
      reads this
    {
      Tables(shipments, batches, offers, assignments)
    }

    constructor ()
      ensures Rows() == EMPTY_TABLES
    {
      shipments, batches, offers, assignments := map[], map[], map[], map[];
    }

    /**
     Dispatches exactly the shipments that pass the guards, with a provider and a fresh batch id if they need
     one. Then the shipment broadcasts in an open batch in which every eligible provider has an offer; every
     earlier offer, every assignment and every other shipment stays.
     */
    method DispatchShipmentIfEligible(s: Id, call: Call) returns (dispatched: bool)
      modifies this
      ensures dispatched == DispatchesNow(old(Rows()), s, call)
      ensures Rows() == Dispatch(old(Rows()), s, call.eligible, call.newBatch, call.now)
      ensures dispatched ==>
                && s in shipments && shipments[s].status.Broadcasting?
                && s in batches && batches[s].status.Open?
                && (FreshIds(old(offers), call.eligible) ==>
                      forall c | c in call.eligible :: HasOffer(offers, batches[s].id, c.provider))
      ensures forall o | o in old(offers) :: o in offers && offers[o] == old(offers)[o]
      ensures assignments == old(assignments) && forall x | x != s :: SameShipment(old(Rows()), Rows(), x)
      ensures if dispatched then Keeps(old(Rows()), Rows()) else Rows() == old(Rows())
    {
      CallKeeps(Rows(), Agreement.DispatchTo(s, call.eligible, call.newBatch, call.now));
      hide SendOffers, Keeps, FreshIds;
      if s !in shipments { return false; }
      var shipment := shipments[s];
      if !shipment.mode.ByDispatch? { return false; }
      if !shipment.status.Created? { return false; }
      if !IsDue(shipment.schedule, shipment.scheduledAt, call.now) { return false; }
      if s in assignments { return false; }
      if s in batches && batches[s].status.BatchAssigned? { return false; }
      if |call.eligible| == 0 { return false; }
      if s !in batches {
        if BatchIdTaken(Rows(), call.newBatch) { return false; }
        batches := batches[s := Batch(call.newBatch, Open)];
      } else if !batches[s].status.Open? {
        batches := batches[s := batches[s].(status := Open)];
      }
      SendingReachesEveryone(offers, batches[s].id, s, call.eligible);
      offers := SendOffers(offers, batches[s].id, s, call.eligible);
      shipments := shipments[s := shipment.(status := Broadcasting)];
      return true;
    }

    method DispatchDueShipments(due: seq<Id>, calls: seq<Call>) returns (dispatchedCount: nat)
      requires |due| == |calls|
      modifies this
      ensures Rows() == Reconciled(old(Rows()), due, calls)
      ensures dispatchedCount == CountDispatched(old(Rows()), due, calls)
    {
      dispatchedCount := 0;
      assert due[..0] == [] && calls[..0] == [];
      for i := 0 to |due|
        invariant Rows() == Reconciled(old(Rows()), due[..i], calls[..i])
        invariant dispatchedCount == CountDispatched(old(Rows()), due[..i], calls[..i])
      {
        assert due[..i + 1][..i] == due[..i] && calls[..i + 1][..i] == calls[..i];
        var dispatched := DispatchShipmentIfEligible(due[i], calls[i]);
        if dispatched { dispatchedCount := dispatchedCount + 1; }
      }
      assert due[..|due|] == due && calls[..|calls|] == calls;
    }

    /** Accepts the caller's offer, or returns it if it already holds the shipment. */
    method AcceptDispatchOffer(o: Id, provider: Id, view: Option<ProviderView>, now: int)
      returns (accepted: Option<Offer>)
      modifies this
      ensures Rows() == AcceptOffer(old(Rows()), o, provider, view, now)
      ensures accepted.Some? <==>
              CanAccept(old(Rows()), o, provider, view, now) || AlreadyMine(old(Rows()), o, provider, view, now)
      ensures accepted.Some? ==> o in offers && offers[o] == accepted.value && accepted.value.status.Accepted?
      ensures Keeps(old(Rows()), Rows())
      ensures old(Agreement.Agree(Rows())) ==>
                var mayAccept := Agreement.MayBeAccepted(old(Rows()), Agreement.Accept(o, provider, view, now), o);
                && (accepted.Some? <==> mayAccept || AlreadyMine(old(Rows()), o, provider, view, now))
                && (mayAccept ==> Agreement.IsWon(old(Rows()), Rows(), o, false))
    {
      CallKeeps(Rows(), Agreement.Accept(o, provider, view, now));
      AcceptDecides(Rows(), Agreement.Accept(o, provider, view, now), o);
      hide Keeps, Agreement.Agree, Agreement.MayBeAccepted, Agreement.IsWon;
      if o !in offers || offers[o].provider != provider { return None; }
      var offer := offers[o];
      var s := offer.shipment;
      if offer.expiresAt.Some? && offer.expiresAt.value <= now { return None; }
      if view.None? || !view.value.available { return None; }
      if s !in shipments || s !in batches { return None; }
      var shipment := shipments[s];
      if shipment.status !in {Created, Broadcasting, Assigned} { return None; }
      if view.value.category != shipment.category { return None; }
      if !CanRespond(offer.status) {
        if offer.status.Accepted? && s in assignments && assignments[s].provider == provider
            && assignments[s].status.Active? {
          return Some(offer);
        }
        return None;
      }
      var existing := s in assignments;
      if existing && !(assignments[s].provider == provider && assignments[s].status.Active?) { return None; }
      offers := offers[o := offer.(status := Accepted)];
      if !existing {
        assignments := assignments[s := Assignment(provider, Some(o), Price(shipment), shipment.currency, Active)];
      }
      shipments := shipments[s := shipment.(status := Assigned)];
      offers := CancelOthers(offers, s, o);
      batches := batches[s := batches[s].(status := BatchAssigned)];
      return Some(offers[o]);
    }

    /** The shipper accepts a counter; the shipment takes the agreed price and currency. */
    method AcceptShipmentDispatchOffer(s: Id, o: Id, view: Option<ProviderView>) returns (accepted: Option<Offer>)
      modifies this
      ensures Rows() == OwnerAccept(old(Rows()), s, o, view)
      ensures accepted.Some? ==> o in offers && offers[o] == accepted.value && accepted.value.status.Accepted?
      ensures accepted.None? ==> Rows() == old(Rows()) && !AlreadyAccepted(Rows(), s, o)
      ensures Keeps(old(Rows()), Rows())
      ensures old(Agreement.Agree(Rows())) ==>
                var mayAccept := Agreement.MayBeAccepted(old(Rows()), Agreement.AcceptCounter(s, o, view), o);
                && (accepted.Some? <==> mayAccept || AlreadyAccepted(old(Rows()), s, o))
                && (mayAccept ==> Agreement.IsWon(old(Rows()), Rows(), o, true))
      ensures accepted.Some? && old(offers)[o].status.Countered? ==>
                && assignments[s].provider == offers[o].provider && assignments[s].offer == Some(o)
                && assignments[s].agreedPrice == shipments[s].finalPrice
                     && assignments[s].currency == shipments[s].currency
                && (old(offers)[o].counterAmount.Some? ==> assignments[s].agreedPrice == old(offers)[o].counterAmount)
                && (old(offers)[o].counterCurrency.Some? ==>
                     assignments[s].currency == old(offers)[o].counterCurrency.value)
    {
      CallKeeps(Rows(), Agreement.AcceptCounter(s, o, view));
      AcceptDecides(Rows(), Agreement.AcceptCounter(s, o, view), o);
      hide Keeps, Agreement.Agree, Agreement.MayBeAccepted, Agreement.IsWon;
      if s !in shipments || !shipments[s].mode.ByDispatch? { return None; }
      if o !in offers || offers[o].shipment != s { return None; }
      var offer := offers[o];
      if offer.status.Accepted? { return Some(offer); }
      if !offer.status.Countered? { return None; }
      var shipment := shipments[s];
      if shipment.status !in {Created, Broadcasting, Assigned} { return None; }
      if view.None? || !view.value.available { return None; }
      if view.value.category != shipment.category || s !in batches { return None; }
      if s in assignments && !(assignments[s].provider == offer.provider && assignments[s].status.Active?) {
        return None;
      }
      var agreed, currency := AgreedPrice(offer, shipment), AgreedCurrency(offer, shipment);
      if agreed.None? || currency == "" { return None; }
      offers := offers[o := offer.(status := Accepted)];
      assignments := assignments[s := Assignment(offer.provider, Some(o), agreed, currency, Active)];
      shipments := shipments[s := shipment.(status := Assigned, finalPrice := agreed, currency := currency)];
      offers := CancelOthers(offers, s, o);
      batches := batches[s := batches[s].(status := BatchAssigned)];
      return Some(offers[o]);
    }

    method CounterDispatchOffer(r: Reply) returns (countered: Option<Offer>)
      requires r.CounterReply?
      modifies this`offers
      ensures Rows() == Respond(old(Rows()), r)
      ensures countered.Some? ==>
        && r.offer in offers && offers[r.offer] == countered.value
        && countered.value.status.Countered? && countered.value.counterAmount == r.amount
      ensures countered.None? ==> Rows() == old(Rows())
      ensures countered.Some? <==> MayCounter(old(Rows()), r)
      ensures countered.Some? ==>
                && countered.value.counterCurrency == Some(WrittenCurrency(r, shipments[countered.value.shipment]))
                && forall x | x in offers && x != r.offer :: x in old(offers) && offers[x] == old(offers)[x]
      ensures Keeps(old(Rows()), Rows())
    {
      CallKeeps(Rows(), Agreement.Answer(r));
      hide Keeps;
      if r.offer !in offers || offers[r.offer].provider != r.provider { return None; }
      var offer := offers[r.offer];
      if !CanRespond(offer.status) { return None; }
      if offer.expiresAt.Some? && offer.expiresAt.value <= r.now { return None; }
      if r.amount.None? || r.amount.value <= 0 { return None; }
      if offer.shipment !in shipments { return None; }
      var shipment := shipments[offer.shipment];
      if !shipment.status.Created? && !shipment.status.Broadcasting? { return None; }
      var price := Price(shipment);
      if price.Some? && r.amount.value <= price.value { return None; }
      var currency := Upper(if r.currency.Some? then r.currency.value else shipment.currency);
      if currency == "" { return None; }
      if shipment.currency != "" && currency != Upper(shipment.currency) { return None; }
      offer := offer.(status := Countered, counterAmount := r.amount, counterCurrency := Some(currency));
      offers := offers[r.offer := offer];
      return Some(offers[r.offer]);
    }

    method DeclineDispatchOffer(r: Reply) returns (declined: Option<Offer>)
      requires r.DeclineReply?
      modifies this`offers
      ensures Rows() == Respond(old(Rows()), r)
      ensures declined.Some? ==>
              r.offer in offers && offers[r.offer] == declined.value && declined.value.status.Declined?
      ensures declined.None? ==> Rows() == old(Rows())
      ensures declined.Some? <==> MayDecline(old(Rows()), r)
      ensures declined.Some? ==> offers == old(offers)[r.offer := old(offers)[r.offer].(status := Declined)]
      ensures Keeps(old(Rows()), Rows())
    {
      CallKeeps(Rows(), Agreement.Answer(r));
      hide Keeps;
      if r.offer !in offers || offers[r.offer].provider != r.provider { return None; }
      if !CanRespond(offers[r.offer].status) { return None; }
      offers := offers[r.offer := offers[r.offer].(status := Declined)];
      return Some(offers[r.offer]);
    }

    /** The shipper turns a counter down; an offer already declined is returned as it is. */
    method DeclineShipmentDispatchOffer(r: Reply) returns (declined: Option<Offer>)
      requires r.OwnerDeclineReply?
      modifies this`offers
      ensures Rows() == Respond(old(Rows()), r)
      ensures declined.Some? ==>
              r.offer in offers && offers[r.offer] == declined.value && declined.value.status.Declined?
      ensures declined.None? ==> Rows() == old(Rows())
      ensures MayDecline(old(Rows()), r) ==> declined.Some?
      ensures declined.Some? ==>
                && (MayDecline(old(Rows()), r) || Rows() == old(Rows()))
                && offers == old(offers)[r.offer := old(offers)[r.offer].(status := Declined)]
      ensures Keeps(old(Rows()), Rows())
    {
      CallKeeps(Rows(), Agreement.Answer(r));
      hide Keeps;
      if r.shipment !in shipments || !shipments[r.shipment].mode.ByDispatch? { return None; }
      if r.offer !in offers || offers[r.offer].shipment != r.shipment { return None; }
      if offers[r.offer].status.Declined? { return Some(offers[r.offer]); }
      if !offers[r.offer].status.Countered? { return None; }
      offers := offers[r.offer := offers[r.offer].(status := Declined)];
      return Some(offers[r.offer]);
    }

    /** The provider sets out for the pickup: next comes the pickup, and no dropoff yet. */
    method MarkEnRoutePickup(s: Id, provider: Id) returns (ok: bool)
      modifies this`shipments
      ensures ok <==>
              && s in old(assignments) && old(assignments)[s].provider == provider && old(assignments)[s].status.Active?
              && s in old(shipments) && old(shipments)[s].status in {Assigned, EnRoutePickup}
      ensures Rows() == MakeProgress(old(Rows()), s, provider, MarkEnRoute)
      ensures ok ==> CanProgress(Rows(), s, provider, Progress.ConfirmPickup)
                     && !CanProgress(Rows(), s, provider, Progress.ConfirmDropoff)
      ensures forall x | x != s :: SameShipment(old(Rows()), Rows(), x)
      ensures if ok then Keeps(old(Rows()), Rows()) else Rows() == old(Rows())
    {
      CallKeeps(Rows(), Agreement.Advance(s, provider, MarkEnRoute));
      hide Keeps;
      if s !in assignments || assignments[s].provider != provider || !assignments[s].status.Active? { return false; }
      if s !in shipments || shipments[s].status !in {Assigned, EnRoutePickup} { return false; }
      shipments := shipments[s := shipments[s].(status := EnRoutePickup)];
      return true;
    }

    /** The provider has picked up: next comes the dropoff, and the way to the pickup is behind. */
    method ConfirmPickup(s: Id, provider: Id) returns (ok: bool)
      modifies this`shipments
      ensures ok <==>
              && s in old(assignments) && old(assignments)[s].provider == provider && old(assignments)[s].status.Active?
              && s in old(shipments) && old(shipments)[s].status in {Assigned, EnRoutePickup, PickedUp}
      ensures Rows() == MakeProgress(old(Rows()), s, provider, Progress.ConfirmPickup)
      ensures ok ==> CanProgress(Rows(), s, provider, Progress.ConfirmDropoff)
                     && !CanProgress(Rows(), s, provider, MarkEnRoute)
      ensures forall x | x != s :: SameShipment(old(Rows()), Rows(), x)
      ensures if ok then Keeps(old(Rows()), Rows()) else Rows() == old(Rows())
    {
      CallKeeps(Rows(), Agreement.Advance(s, provider, Progress.ConfirmPickup));
      hide Keeps;
      if s !in assignments || assignments[s].provider != provider || !assignments[s].status.Active? { return false; }
      if s !in shipments || shipments[s].status !in {Assigned, EnRoutePickup, PickedUp} { return false; }
      shipments := shipments[s := shipments[s].(status := PickedUp)];
      return true;
    }

    /** The dropoff completes shipment and assignment together, and nobody can progress or cancel it any more. */
    method ConfirmDropoff(s: Id, provider: Id) returns (ok: bool)
      modifies this`shipments, this`assignments
      ensures ok <==>
              && s in old(assignments) && old(assignments)[s].provider == provider && old(assignments)[s].status.Active?
              && s in old(shipments) && old(shipments)[s].status in {PickedUp, EnRouteDropoff, Delivered, Completed}
      ensures Rows() == MakeProgress(old(Rows()), s, provider, Progress.ConfirmDropoff)
      ensures ok ==>
              IsCompleted(Rows(), s) && IsFulfilled(Rows(), s) && DispatchTables.CancelShipment(Rows(), s) == Rows()
      ensures ok ==> forall q, p :: !CanProgress(Rows(), s, q, p)
      ensures forall x | x != s ::
                SameShipment(old(Rows()), Rows(), x) && (x in assignments <==> x in old(assignments))
                && (x in assignments ==> assignments[x] == old(assignments)[x])
      ensures if ok then Keeps(old(Rows()), Rows()) else Rows() == old(Rows())
    {
      CallKeeps(Rows(), Agreement.Advance(s, provider, Progress.ConfirmDropoff));
      hide Keeps;
      if s !in assignments || assignments[s].provider != provider || !assignments[s].status.Active? { return false; }
      if s !in shipments || shipments[s].status !in {PickedUp, EnRouteDropoff, Delivered, Completed} { return false; }
      assignments := assignments[s := assignments[s].(status := Fulfilled)];
      shipments := shipments[s := shipments[s].(status := Completed)];
      return true;
    }

    /** Cancels exactly a shipment that is not final; nobody can then accept an offer of it or progress it. */
    method CancelShipment(s: Id) returns (ok: bool)
      modifies this`shipments
      ensures Rows() == DispatchTables.CancelShipment(old(Rows()), s)
      ensures ok <==> old(s in shipments && !IsFinal(shipments[s].status))
      ensures ok ==> forall q, p :: !CanProgress(Rows(), s, q, p)
      ensures ok ==> forall q, view :: !CanAssign(Rows(), s, q, view)
      ensures forall x | x != s :: SameShipment(old(Rows()), Rows(), x)
      ensures if ok then Keeps(old(Rows()), Rows()) else Rows() == old(Rows())
    {
      CallKeeps(Rows(), Agreement.Cancel(s));
      hide Keeps;
      if s !in shipments || !IsCancellable(shipments[s].status) { return false; }
      shipments := shipments[s := shipments[s].(status := Cancelled)];
      assert forall p :: !Allows(p, Cancelled);
      return true;
    }
  }
}

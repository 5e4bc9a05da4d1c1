/**
 The four tables agree after every run in which each call happens without interference; and, when a
 reply's write comes late, exactly which late writes break the agreement.
 */
module DispatchAgreement {
  import opened Options
  import opened Shipments
  import opened DispatchTables
  import Winner = DispatchWinner

  datatype Event =
    | Create(s: Id, row: Shipment)
    | DispatchTo(s: Id, eligible: seq<Candidate>, newBatch: Id, now: int)
    | Accept(o: Id, provider: Id, view: Option<ProviderView>, now: int)
    | AcceptCounter(s: Id, o: Id, view: Option<ProviderView>)
    | Answer(reply: Reply)
    | Advance(s: Id, provider: Id, progress: Progress)
    | Cancel(s: Id)

  function Next(t: Tables, e: Event): Tables {
    match e
    case Create(s, row) => CreateShipment(t, s, row)
    case DispatchTo(s, eligible, newBatch, now) => Dispatch(t, s, eligible, newBatch, now)
    case Accept(o, provider, view, now) => AcceptOffer(t, o, provider, view, now)
    case AcceptCounter(s, o, view) => OwnerAccept(t, s, o, view)
    case Answer(reply) => Respond(t, reply)
    case Advance(s, provider, progress) => MakeProgress(t, s, provider, progress)
    case Cancel(s) => CancelShipment(t, s)
  }

  function Run(t: Tables, events: seq<Event>): Tables
    decreases |events|
  {
    if events == [] then t else Run(Next(t, events[0]), events[1..])
  }

  // ----- the agreement

  /** `price` exists and is not below `floor`, when there is a floor. */
  predicate AtLeast(price: Option<int>, floor: Option<int>) {
    floor.Some? ==> price.Some? && price.value >= floor.value
  }

  /** Neither waiting for a provider nor a draft. */
  predicate IsTaken(s: Status) { Rank(s) >= Rank(Assigned) }

  /** The assignment of `s` names an accepted offer of `s` and the price of `s`, which waits for nobody. */
  predicate AssignmentAgrees(t: Tables, s: Id)
    requires s in t.assignments
  {
    var a := t.assignments[s];
    && s in t.shipments && IsTaken(t.shipments[s].status)
    && s in t.batches && t.batches[s].status.BatchAssigned?
    && a.offer.Some? && a.offer.value in t.offers
    && t.offers[a.offer.value].shipment == s
    && t.offers[a.offer.value].status.Accepted?
    && t.offers[a.offer.value].provider == a.provider
    && a.agreedPrice == Price(t.shipments[s]) && a.currency == t.shipments[s].currency
    && AtLeast(a.agreedPrice, t.shipments[s].openingPrice)
  }

  predicate OfferAgrees(t: Tables, o: Id)
    requires o in t.offers
  {
    var offer := t.offers[o];
    var s := offer.shipment;
    && s in t.shipments
    && (offer.status.Accepted? ==> s in t.assignments && t.assignments[s].offer == Some(o))
    && (IsOpenOffer(offer.status) ==> s !in t.assignments)
    && (offer.status.Countered? ==>
         offer.counterAmount.Some? && AtLeast(offer.counterAmount, t.shipments[s].openingPrice))
  }

  predicate ShipmentAgrees(t: Tables, s: Id) {
    && (s in t.batches ==> s in t.shipments && (t.batches[s].status.BatchAssigned? ==> s in t.assignments))
    && (s in t.shipments && s !in t.assignments ==> Price(t.shipments[s]) == t.shipments[s].openingPrice)
  }

  ghost predicate AssignmentsAgree(t: Tables) { forall s | s in t.assignments :: AssignmentAgrees(t, s) }

  ghost predicate OffersAgree(t: Tables) { forall o | o in t.offers :: OfferAgrees(t, o) }

  ghost predicate ShipmentsAgree(t: Tables) { forall s :: ShipmentAgrees(t, s) }

  ghost predicate Agree(t: Tables) {
    && Winner.OffersInBatch(t) && Winner.OnePerProvider(t.offers)
    && AssignmentsAgree(t) && OffersAgree(t) && ShipmentsAgree(t)
  }

  // ----- every step keeps it

  lemma CreateKeeps(t: Tables, s: Id, row: Shipment)
    requires Agree(t)
    ensures Agree(CreateShipment(t, s, row))
  {
    var t' := CreateShipment(t, s, row);
    if s !in t.shipments {
      forall a | a in t'.assignments ensures AssignmentAgrees(t', a) { assert AssignmentAgrees(t, a); }
      forall o | o in t'.offers ensures OfferAgrees(t', o) { assert OfferAgrees(t, o); }
      forall x ensures ShipmentAgrees(t', x) { assert ShipmentAgrees(t, x); }
    }
  }

  lemma LateDispatchKeepsIndex(t: Tables, s: Id, saw: Option<Batch>, eligible: seq<Candidate>, newId: Id)
    requires Winner.OffersInBatch(t) && Winner.OnePerProvider(t.offers)
    requires LateDispatch(t, s, saw, eligible, newId).Some?
    ensures var t' := LateDispatch(t, s, saw, eligible, newId).value;
            && Winner.OffersInBatch(t') && Winner.OnePerProvider(t'.offers)
            && (forall o | o in t.offers :: o in t'.offers && t'.offers[o] == t.offers[o])
            && (forall o | o in t'.offers && o !in t.offers :: t'.offers[o].shipment == s && t'.offers[o].status.Sent?)
  {
    var t' := LateDispatch(t, s, saw, eligible, newId).value;
    Winner.SendOffersKeeps(t.offers, t'.batches[s].id, s, eligible);
    hide SendOffers, Winner.OnePerProvider;
  }

  /** A dispatch may write on agreeing tables as long as the shipment is not assigned. */
  lemma LateDispatchKeeps(t: Tables, s: Id, saw: Option<Batch>, eligible: seq<Candidate>, newId: Id)
    requires Agree(t) && LateDispatch(t, s, saw, eligible, newId).Some? && s !in t.assignments
    ensures Agree(LateDispatch(t, s, saw, eligible, newId).value)
  {
    var t' := LateDispatch(t, s, saw, eligible, newId).value;
    LateDispatchKeepsIndex(t, s, saw, eligible, newId);
    hide SendOffers, Winner.OffersInBatch, Winner.OnePerProvider;
    forall a | a in t'.assignments ensures AssignmentAgrees(t', a) { assert AssignmentAgrees(t, a); }
    forall o | o in t'.offers ensures OfferAgrees(t', o) { if o in t.offers { assert OfferAgrees(t, o); } }
    forall x ensures ShipmentAgrees(t', x) { assert ShipmentAgrees(t, x); }
  }

  lemma DispatchKeeps(t: Tables, s: Id, eligible: seq<Candidate>, newId: Id, now: int)
    requires Agree(t)
    ensures Agree(Dispatch(t, s, eligible, newId, now))
  {
    hide Agree, LateDispatch;
    if Dispatches(t, s, eligible, newId, now) { LateDispatchKeeps(t, s, BatchOf(t, s), eligible, newId); }
  }

  lemma CommitKeeps(t: Tables, o: Id, counter: bool)
    requires Agree(t) && o in t.offers && t.offers[o].shipment in t.shipments
    ensures Agree(CommitAccept(t, o, counter, t.shipments[t.offers[o].shipment], t.offers[o].shipment in t.assignments))
  {
    hide Agree;
    if CanCommit(t, o, counter, t.shipments[t.offers[o].shipment], t.offers[o].shipment in t.assignments) {
      CommittedAgrees(t, o, counter);
    }
  }

  lemma CommitKeepsIndex(t: Tables, o: Id, counter: bool, row: Shipment, existed: bool)
    requires Winner.OffersInBatch(t) && Winner.OnePerProvider(t.offers)
    ensures var t' := CommitAccept(t, o, counter, row, existed);
            Winner.OffersInBatch(t') && Winner.OnePerProvider(t'.offers)
  {
    hide AgreedPrice, AgreedCurrency, Price;
  }

  lemma CommittedAssignmentsAgree(t: Tables, o: Id, counter: bool)
    requires Agree(t) && o in t.offers && t.offers[o].shipment in t.shipments
    requires CanCommit(t, o, counter, t.shipments[t.offers[o].shipment], t.offers[o].shipment in t.assignments)
    ensures var s := t.offers[o].shipment;
            AssignmentsAgree(CommitAccept(t, o, counter, t.shipments[s], s in t.assignments))
  {
    hide Winner.OffersInBatch, Winner.OnePerProvider;
    var s := t.offers[o].shipment;
    var t' := CommitAccept(t, o, counter, t.shipments[s], s in t.assignments);
    assert OfferAgrees(t, o) && ShipmentAgrees(t, s);
    hide ShipmentsAgree;
    forall a | a in t'.assignments ensures AssignmentAgrees(t', a) { if a != s { assert AssignmentAgrees(t, a); } }
  }

  lemma CommittedAgrees(t: Tables, o: Id, counter: bool)
    requires Agree(t) && o in t.offers && t.offers[o].shipment in t.shipments
    requires CanCommit(t, o, counter, t.shipments[t.offers[o].shipment], t.offers[o].shipment in t.assignments)
    ensures Agree(CommitAccept(t, o, counter, t.shipments[t.offers[o].shipment], t.offers[o].shipment in t.assignments))
  {
    var s := t.offers[o].shipment;
    var t' := CommitAccept(t, o, counter, t.shipments[s], s in t.assignments);
    CommitKeepsIndex(t, o, counter, t.shipments[s], s in t.assignments);
    CommittedAssignmentsAgree(t, o, counter);
    hide Winner.OffersInBatch, Winner.OnePerProvider, AssignmentsAgree;
    assert OfferAgrees(t, o) && ShipmentAgrees(t, s);
    forall x | x in t'.offers ensures OfferAgrees(t', x) { assert OfferAgrees(t, x); }
    forall x ensures ShipmentAgrees(t', x) { assert ShipmentAgrees(t, x); }
  }

  lemma DeclineKeeps(t: Tables, r: Reply, currency: string)
    requires Agree(t) && r.offer in t.offers && !r.CounterReply? && !t.offers[r.offer].status.Accepted?
    ensures Agree(WriteReply(t, r, currency))
  {
    var t' := WriteReply(t, r, currency);
    forall a | a in t'.assignments ensures AssignmentAgrees(t', a) { assert AssignmentAgrees(t, a); }
    forall x | x in t'.offers ensures OfferAgrees(t', x) { assert OfferAgrees(t, x); }
    forall x ensures ShipmentAgrees(t', x) { assert ShipmentAgrees(t, x); }
  }

  lemma CounterKeeps(t: Tables, r: Reply, currency: string)
    requires Agree(t) && r.CounterReply? && r.offer in t.offers && t.offers[r.offer].shipment !in t.assignments
    requires r.amount.Some? && AtLeast(r.amount, t.shipments[t.offers[r.offer].shipment].openingPrice)
    ensures Agree(WriteReply(t, r, currency))
  {
    var t' := WriteReply(t, r, currency);
    forall a | a in t'.assignments ensures AssignmentAgrees(t', a) { assert AssignmentAgrees(t, a); }
    forall x | x in t'.offers ensures OfferAgrees(t', x) { assert OfferAgrees(t, x); }
    forall x ensures ShipmentAgrees(t', x) { assert ShipmentAgrees(t, x); }
  }

  lemma RespondKeeps(t: Tables, r: Reply)
    requires Agree(t)
    ensures Agree(Respond(t, r))
  {
    if r.offer in t.offers {
      assert OfferAgrees(t, r.offer);
      assert ShipmentAgrees(t, t.offers[r.offer].shipment);
      match ReadOffer(t, r)
      case Writing(currency) => DeclineKeeps(t, r, currency);
      case Pricing(s) => if CheckPrice(t, r, s).Writing? { CounterKeeps(t, r, CheckPrice(t, r, s).currency); }
      case Finished =>
      case Reading =>
    }
  }

  /** Status writes agree with the other tables unless an assigned shipment goes back to waiting. */
  lemma StatusEditKeeps(t: Tables, t': Tables, s: Id)
    requires Agree(t) && s in t.shipments
    requires t'.offers == t.offers && t'.batches == t.batches && t'.assignments.Keys == t.assignments.Keys
    requires s in t'.shipments && t'.shipments == t.shipments[s := t.shipments[s].(status := t'.shipments[s].status)]
    requires forall x | x in t.assignments :: t'.assignments[x] == t.assignments[x].(status := t'.assignments[x].status)
    requires s in t.assignments ==> IsTaken(t'.shipments[s].status)
    ensures Agree(t')
  {
    forall a | a in t'.assignments ensures AssignmentAgrees(t', a) { assert AssignmentAgrees(t, a); }
    forall x | x in t'.offers ensures OfferAgrees(t', x) { assert OfferAgrees(t, x); }
    forall x ensures ShipmentAgrees(t', x) { assert ShipmentAgrees(t, x); }
  }

  lemma LateProgressKeeps(t: Tables, s: Id, p: Progress)
    requires Agree(t)
    ensures Agree(LateProgress(t, s, p))
  {
    hide Agree;
    if LateProgress(t, s, p) != t { StatusEditKeeps(t, LateProgress(t, s, p), s); }
  }

  lemma LateCancelKeeps(t: Tables, s: Id)
    requires Agree(t)
    ensures Agree(LateCancel(t, s))
  {
    hide Agree;
    if s in t.shipments { StatusEditKeeps(t, LateCancel(t, s), s); }
  }

  lemma NextKeeps(t: Tables, e: Event)
    requires Agree(t)
    ensures Agree(Next(t, e))
  {
    hide Agree, CreateShipment, Dispatch, CommitAccept, Respond, LateProgress, LateCancel, CanProgress;
    match e
    case Create(s, row) => CreateKeeps(t, s, row);
    case DispatchTo(s, eligible, newBatch, now) => DispatchKeeps(t, s, eligible, newBatch, now);
    case Accept(o, provider, view, now) => if CanAccept(t, o, provider, view, now) { CommitKeeps(t, o, false); }
    case AcceptCounter(s, o, view) =>
      if CanOwnerAccept(t, s, o, view) { CommitKeeps(t, o, true); }
    case Answer(reply) => RespondKeeps(t, reply);
    case Advance(s, provider, progress) =>
      LateProgressKeeps(t, s, progress);
    case Cancel(s) =>
      LateCancelKeeps(t, s);
  }

  lemma {:induction false} RunKeeps(t: Tables, events: seq<Event>)
    requires Agree(t)
    ensures Agree(Run(t, events))
    decreases |events|
  {
    hide Agree;
    if events != [] {
      NextKeeps(t, events[0]);
      RunKeeps(Next(t, events[0]), events[1..]);
    }
  }

  // ----- main results

  ghost predicate HasAccepted(t: Tables, s: Id) {
    exists o | o in t.offers :: t.offers[o].shipment == s && t.offers[o].status.Accepted?
  }

  /** A shipment is assigned exactly when its batch is, exactly when one of its offers was accepted. */
  lemma AssignedEverywhereOrNowhere(events: seq<Event>, s: Id)
    ensures var t := Run(EMPTY_TABLES, events);
            && (s in t.assignments <==> (s in t.batches && t.batches[s].status.BatchAssigned?))
            && (s in t.assignments <==> HasAccepted(t, s))
  {
    RunKeeps(EMPTY_TABLES, events);
    var t := Run(EMPTY_TABLES, events);
    assert ShipmentAgrees(t, s);
    if s in t.assignments { assert AssignmentAgrees(t, s); }
    if HasAccepted(t, s) {
      var o :| o in t.offers && t.offers[o].shipment == s && t.offers[o].status.Accepted?;
      assert OfferAgrees(t, o);
    }
  }

  /** The assignment names the only accepted offer; every other offer of the shipment is closed. */
  lemma AssignmentNamesTheWinner(events: seq<Event>, s: Id, o: Id)
    requires var t := Run(EMPTY_TABLES, events);
             s in t.assignments && o in t.offers && t.offers[o].shipment == s
    ensures var t := Run(EMPTY_TABLES, events);
            && (t.offers[o].status.Accepted? <==> t.assignments[s].offer == Some(o))
            && (t.assignments[s].offer == Some(o) ==> t.assignments[s].provider == t.offers[o].provider)
            && t.offers[o].status !in {Sent, Viewed, Countered}
  {
    RunKeeps(EMPTY_TABLES, events);
    var t := Run(EMPTY_TABLES, events);
    assert AssignmentAgrees(t, s) && OfferAgrees(t, o);
  }

  /** The agreed price and currency are the shipment's, and the price is never below its price when it was created. */
  lemma AgreedPriceIsShipmentPrice(events: seq<Event>, s: Id)
    requires var t := Run(EMPTY_TABLES, events); s in t.assignments
    ensures var t := Run(EMPTY_TABLES, events);
            && s in t.shipments
            && t.assignments[s].agreedPrice ==
               (if t.shipments[s].finalPrice.Some? then t.shipments[s].finalPrice else t.shipments[s].quotedPrice)
            && t.assignments[s].currency == t.shipments[s].currency
            && AtLeast(t.assignments[s].agreedPrice, t.shipments[s].openingPrice)
  {
    RunKeeps(EMPTY_TABLES, events);
    assert AssignmentAgrees(Run(EMPTY_TABLES, events), s);
  }

  /** The terms of an assignment. */
  predicate SameTerms(a: Assignment, b: Assignment) { a == b.(status := a.status) }

  lemma AssignmentStays(t: Tables, e: Event, s: Id)
    requires Agree(t) && s in t.assignments
    ensures s in Next(t, e).assignments && SameTerms(Next(t, e).assignments[s], t.assignments[s])
  {
    if e.Accept? && e.o in t.offers { assert OfferAgrees(t, e.o); }
    if e.AcceptCounter? && e.o in t.offers { assert OfferAgrees(t, e.o); }
    hide Agree, SendOffers, CancelOthers, OfferAgrees, Upper, AgreedPrice, AgreedCurrency, IsDue, Price;
  }

  /** Once made, an assignment keeps its provider, offer, price and currency over every run. */
  lemma {:induction false} AssignmentIsForGood(t: Tables, events: seq<Event>, s: Id)
    requires Agree(t) && s in t.assignments
    ensures s in Run(t, events).assignments && SameTerms(Run(t, events).assignments[s], t.assignments[s])
    decreases |events|
  {
    hide Agree, Next;
    if events != [] {
      AssignmentStays(t, events[0], s);
      NextKeeps(t, events[0]);
      AssignmentIsForGood(Next(t, events[0]), events[1..], s);
    }
  }

  /**
   The offer is open to its provider and unexpired, or countered and open to its shipper on a dispatch shipment with
   a currency; the shipment still awaits its way; and the provider is available and of its category.
   */
  predicate MayBeAccepted(t: Tables, e: Event, o: Id) {
    && o in t.offers
    && var offer := t.offers[o];
       && offer.shipment in t.shipments && t.shipments[offer.shipment].status in {Created, Broadcasting, Assigned}
       && ((&& e.Accept? && e.o == o && e.provider == offer.provider && (offer.status.Sent? || offer.status.Viewed?)
            && (offer.expiresAt.Some? ==> offer.expiresAt.value > e.now)
            && e.view == Some(ProviderView(true, t.shipments[offer.shipment].category)))
           || (&& e.AcceptCounter? && e.o == o && e.s == offer.shipment && offer.status.Countered?
               && t.shipments[offer.shipment].mode.ByDispatch?
               && CounterCurrency(offer, t.shipments[offer.shipment]) != ""
               && e.view == Some(ProviderView(true, t.shipments[offer.shipment].category))))
  }

  /** The currency of a counter: its own, or else the shipment's. */
  function CounterCurrency(offer: Offer, row: Shipment): string {
    if offer.counterCurrency.Some? then offer.counterCurrency.value else row.currency
  }

  /**
   What an accept must do: the offer wins, on its counter's terms or the shipment's, and the other open offers
   close.
   */
  predicate IsWon(t: Tables, t': Tables, o: Id, counter: bool)
    requires o in t.offers && t.offers[o].shipment in t.shipments
  {
    var offer, s := t.offers[o], t.offers[o].shipment;
    var row := t.shipments[s];
    var price := if counter then offer.counterAmount else if row.finalPrice.Some?
        then row.finalPrice else row.quotedPrice;
    var currency := if counter then CounterCurrency(offer, row) else row.currency;
    && o in t'.offers && t'.offers[o] == offer.(status := Accepted)
    && s in t'.batches && t'.batches[s].status.BatchAssigned?
    && t'.assignments == t.assignments[s := Assignment(offer.provider, Some(o), price, currency, Active)]
    && t'.shipments == t.shipments[s := row.(status := Assigned, currency := currency,
                                             finalPrice := if counter then price else row.finalPrice)]
    && (forall x | x in t.offers && x != o ::
          x in t'.offers && t'.offers[x] == if t.offers[x].shipment == s
            && t.offers[x].status in {Sent, Viewed, Countered}
                                            then t.offers[x].(status := OfferCancelled) else t.offers[x])
  }

  lemma OpenMeansFree(t: Tables, o: Id)
    requires Agree(t) && o in t.offers && t.offers[o].status in {Sent, Viewed, Countered}
    ensures t.offers[o].shipment in t.batches && t.offers[o].shipment in t.shipments
            && t.offers[o].shipment !in t.assignments
    ensures t.offers[o].status.Countered? ==> t.offers[o].counterAmount.Some?
  {
    assert OfferAgrees(t, o);
  }

  lemma CommitWins(t: Tables, o: Id, counter: bool)
    requires o in t.offers && t.offers[o].shipment in t.shipments && t.offers[o].shipment in t.batches
    requires t.offers[o].shipment !in t.assignments
    requires if counter then t.offers[o].status.Countered? && t.offers[o].counterAmount.Some?
                             && CounterCurrency(t.offers[o], t.shipments[t.offers[o].shipment]) != ""
             else CanRespond(t.offers[o].status)
    ensures IsWon(t, CommitAccept(t, o, counter, t.shipments[t.offers[o].shipment], false), o, counter)
  {
  }

  lemma AllowedCommits(t: Tables, e: Event, o: Id)
    requires MayBeAccepted(t, e, o)
    requires t.offers[o].shipment in t.batches && t.offers[o].shipment !in t.assignments
    ensures Next(t, e) == CommitAccept(t, o, e.AcceptCounter?, t.shipments[t.offers[o].shipment], false)
    ensures if e.AcceptCounter?
            then t.offers[o].status.Countered? && CounterCurrency(t.offers[o], t.shipments[t.offers[o].shipment]) != ""
            else CanRespond(t.offers[o].status)
  {
    hide CommitAccept, SendOffers, Upper;
  }

  /** An accept that may be made takes effect. */
  lemma AllowedAcceptWins(t: Tables, e: Event, o: Id)
    requires Agree(t) && MayBeAccepted(t, e, o)
    ensures IsWon(t, Next(t, e), o, e.AcceptCounter?)
  {
    OpenMeansFree(t, o);
    hide Agree, Next, IsWon, CommitAccept;
    AllowedCommits(t, e, o);
    CommitWins(t, o, e.AcceptCounter?);
  }

  /** An offer becomes accepted in no other way. */
  lemma AcceptedOnlyWhenAllowed(t: Tables, e: Event, o: Id)
    requires Agree(t) && o in Next(t, e).offers && Next(t, e).offers[o].status.Accepted?
    requires o in t.offers ==> !t.offers[o].status.Accepted?
    ensures MayBeAccepted(t, e, o)
  {
    hide AssignmentsAgree, OffersAgree, ShipmentsAgree, Price, Upper, AgreedPrice, AtLeast;
    if e.DispatchTo? && Dispatches(t, e.s, e.eligible, e.newBatch, e.now) {
      Winner.SendOffersKeeps(t.offers, Next(t, e).batches[e.s].id, e.s, e.eligible);
    }
    hide SendOffers;
  }

  /** An offer becomes accepted by a call exactly when that call may accept it. */
  lemma AcceptedExactlyWhenAllowed(t: Tables, e: Event, o: Id)
    requires Agree(t) && (o in t.offers ==> !t.offers[o].status.Accepted?)
    ensures o in Next(t, e).offers && Next(t, e).offers[o].status.Accepted? <==> MayBeAccepted(t, e, o)
  {
    hide Agree, Next;
    if MayBeAccepted(t, e, o) { AllowedAcceptWins(t, e, o); }
    if o in Next(t, e).offers && Next(t, e).offers[o].status.Accepted? { AcceptedOnlyWhenAllowed(t, e, o); }
    hide MayBeAccepted;
  }

  // ----- late writes

  /** A late decline leaves the tables in agreement exactly when the offer has not been accepted meanwhile. */
  lemma LateDeclineBreaksExactlyAccepted(t: Tables, r: Reply, currency: string)
    requires Agree(t) && r.offer in t.offers && !r.CounterReply?
    ensures Agree(WriteReply(t, r, currency)) <==> !t.offers[r.offer].status.Accepted?
  {
    if t.offers[r.offer].status.Accepted? {
      var t' := WriteReply(t, r, currency);
      var s := t.offers[r.offer].shipment;
      assert OfferAgrees(t, r.offer);
      assert AssignmentAgrees(t, s);
      assert s in t'.assignments && !AssignmentAgrees(t', s);
    } else {
      DeclineKeeps(t, r, currency);
    }
  }

  /** A late counter, once checked against the opening price, breaks it exactly when the shipment is assigned. */
  lemma LateCounterBreaksExactlyAssigned(t: Tables, r: Reply, currency: string)
    requires Agree(t) && r.CounterReply? && r.offer in t.offers
    requires r.amount.Some? && t.offers[r.offer].shipment in t.shipments
             && AtLeast(r.amount, t.shipments[t.offers[r.offer].shipment].openingPrice)
    ensures Agree(WriteReply(t, r, currency)) <==> t.offers[r.offer].shipment !in t.assignments
  {
    if t.offers[r.offer].shipment in t.assignments {
      var t' := WriteReply(t, r, currency);
      assert r.offer in t'.offers && !OfferAgrees(t', r.offer);
    } else {
      CounterKeeps(t, r, currency);
    }
  }

  /**
   The writes of a dispatch that started earlier leave the tables in agreement exactly when the shipment has
   not been assigned meanwhile; otherwise they set it back to waiting and may open offers beside the winner.
   */
  lemma LateDispatchBreaksExactlyAssigned(t: Tables, s: Id, saw: Option<Batch>, eligible: seq<Candidate>, newId: Id)
    requires Agree(t) && LateDispatch(t, s, saw, eligible, newId).Some?
    ensures Agree(LateDispatch(t, s, saw, eligible, newId).value) <==> s !in t.assignments
  {
    if s in t.assignments {
      var t' := LateDispatch(t, s, saw, eligible, newId).value;
      assert s in t'.assignments && !AssignmentAgrees(t', s);
    } else {
      LateDispatchKeeps(t, s, saw, eligible, newId);
    }
  }
}

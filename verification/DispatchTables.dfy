/**
 The four dispatch tables and the writes of the dispatch service: opening a batch and sending offers,
 accepting, countering and declining them, and the progress of the assigned shipment.
 */
module DispatchTables {
  import opened Options
  import opened Shipments

  datatype BatchStatus = Open | Closed | BatchAssigned | BatchExpired | BatchCancelled

  datatype Batch = Batch(id: Id, status: BatchStatus)

  datatype OfferStatus = Sent | Viewed | Countered | Accepted | Declined | OfferExpired | OfferCancelled

  datatype Offer = Offer(batch: Id, shipment: Id, provider: Id, status: OfferStatus, expiresAt: Option<int>,
                         counterAmount: Option<int>, counterCurrency: Option<string>)

  datatype Assignment = Assignment(provider: Id, offer: Option<Id>, agreedPrice: Option<int>, currency: string,
                                   status: AssignmentStatus)

  /** `openingPrice` is a history field: the shipment's price when it was created. */
  datatype Shipment = Shipment(mode: Mode, category: VehicleCategory, schedule: Schedule, scheduledAt: Option<int>,
                               status: Status, currency: string, quotedPrice: Option<int>, finalPrice: Option<int>,
                               openingPrice: Option<int>)

  /** Batches and assignments are unique per shipment; (batch, provider) is unique among offers. */
  datatype Tables = Tables(shipments: map<Id, Shipment>, batches: map<Id, Batch>, offers: map<Id, Offer>,
                           assignments: map<Id, Assignment>)

  const EMPTY_TABLES := Tables(map[], map[], map[], map[])

  function Price(s: Shipment): Option<int> {
    if s.finalPrice.Some? then s.finalPrice else s.quotedPrice
  }

  // ----- creating and dispatching

  function CreateShipment(t: Tables, s: Id, row: Shipment): Tables {
    if s in t.shipments then t
    else t.(shipments := t.shipments[s := row.(status := Created, openingPrice := Price(row))])
  }

  /** The guards of the dispatch transaction, in its order. */
  predicate PassesGuards(t: Tables, s: Id, now: int) {
    && s in t.shipments
    && t.shipments[s].mode.ByDispatch?
    && t.shipments[s].status.Created?
    && IsDue(t.shipments[s].schedule, t.shipments[s].scheduledAt, now)
    && s !in t.assignments
    && !(s in t.batches && t.batches[s].status.BatchAssigned?)
  }

  /** The reconcile query's filter, with its nulls spelled out. */
  predicate SelectedAsDue(t: Tables, s: Id, now: int) {
    && s in t.shipments
    && var row := t.shipments[s];
       && row.mode == ByDispatch && row.status == Created
       && s !in t.assignments
       && (s !in t.batches || t.batches[s].status != BatchAssigned)
       && (|| row.schedule == Instant
           || (row.schedule == Scheduled && row.scheduledAt == None)
           || (row.schedule == Scheduled && row.scheduledAt.Some? && row.scheduledAt.value <= now))
  }

  /** The query selects precisely the shipments that pass the transaction's guards at the same time. */
  lemma QueryMatchesGuards(t: Tables, s: Id, now: int)
    ensures SelectedAsDue(t, s, now) <==> PassesGuards(t, s, now)
  {
  }

  datatype Candidate = Candidate(offer: Id, provider: Id)

  predicate HasOffer(offers: map<Id, Offer>, batch: Id, provider: Id) {
    exists o | o in offers :: offers[o].batch == batch && offers[o].provider == provider
  }

  /** createMany with skipDuplicates: one SENT offer per provider that has none in the batch. */
  function SendOffers(offers: map<Id, Offer>, batch: Id, s: Id, eligible: seq<Candidate>): map<Id, Offer>
    decreases |eligible|
  {
    if eligible == [] then offers
    else
      var c := eligible[0];
      var sent := if c.offer in offers || HasOffer(offers, batch, c.provider) then offers
                  else offers[c.offer := Offer(batch, s, c.provider, Sent, None, None, None)];
      SendOffers(sent, batch, s, eligible[1..])
  }

  predicate BatchIdTaken(t: Tables, id: Id) {
    exists s | s in t.batches :: t.batches[s].id == id
  }

  function BatchOf(t: Tables, s: Id): Option<Batch> {
    if s in t.batches then Some(t.batches[s]) else None
  }

  /** Offers to every eligible provider in an open batch, and the shipment broadcasting. */
  function Broadcast(t: Tables, s: Id, batch: Batch, eligible: seq<Candidate>): Tables
    requires s in t.shipments
  {
    Tables(t.shipments[s := t.shipments[s].(status := Broadcasting)],
           t.batches[s := batch],
           SendOffers(t.offers, batch.id, s, eligible),
           t.assignments)
  }

  /**
   The writes of a dispatch that passed its guards and then read the batch of the shipment as `saw`. It
   inserts the batch, leaves it, or reopens it by id; a batch inserted in between makes the insert throw, and
   after reading an assigned batch it gives up. The shipment is updated whatever its status is by now.
   */
  function LateDispatch(t: Tables, s: Id, saw: Option<Batch>, eligible: seq<Candidate>, newId: Id): Option<Tables> {
    if s !in t.shipments || eligible == [] then None
    else if saw.None? then
      if s in t.batches || BatchIdTaken(t, newId) then None else Some(Broadcast(t, s, Batch(newId, Open), eligible))
    else if saw.value.status.BatchAssigned? || s !in t.batches then None
    else Some(Broadcast(t, s, if saw.value.status.Open? then t.batches[s] else t.batches[s].(status := Open), eligible))
  }

  predicate Dispatches(t: Tables, s: Id, eligible: seq<Candidate>, newId: Id, now: int) {
    PassesGuards(t, s, now) && LateDispatch(t, s, BatchOf(t, s), eligible, newId).Some?
  }

  /** A dispatch whose reads and writes happen without interference. */
  function Dispatch(t: Tables, s: Id, eligible: seq<Candidate>, newId: Id, now: int): Tables {
    if Dispatches(t, s, eligible, newId, now) then LateDispatch(t, s, BatchOf(t, s), eligible, newId).value else t
  }

  // ----- replies that do not lock: read, check, then write

  datatype Reply =
    | CounterReply(offer: Id, provider: Id, amount: Option<int>, currency: Option<string>, now: int)
    | DeclineReply(offer: Id, provider: Id)
    | OwnerDeclineReply(offer: Id, shipment: Id)

  datatype Stage = Reading | Pricing(shipment: Id) | Writing(currency: string) | Finished

  predicate CanRespond(s: OfferStatus) { s.Sent? || s.Viewed? }

  /** The offer read and the checks on it. */
  function ReadOffer(t: Tables, r: Reply): Stage {
    if r.offer !in t.offers then Finished
    else
      var o := t.offers[r.offer];
      match r
      case CounterReply(_, provider, amount, _, now) =>
        if o.provider != provider || !CanRespond(o.status) then Finished
        else if o.expiresAt.Some? && o.expiresAt.value <= now then Finished
        else if amount.None? || amount.value <= 0 then Finished
        else Pricing(o.shipment)
      case DeclineReply(_, provider) =>
        if o.provider != provider || !CanRespond(o.status) then Finished else Writing("")
      case OwnerDeclineReply(_, shipment) =>
        if shipment !in t.shipments || !t.shipments[shipment].mode.ByDispatch? then Finished
        else if o.shipment != shipment || !o.status.Countered? then Finished
        else Writing("")
  }

  /** Upper case, for the letters that currency codes use. */
  function Upper(s: string): string {
    seq(|s|, i requires 0 <= i < |s| => if 'a' <= s[i] <= 'z' then s[i] - 'a' + 'A' else s[i])
  }

  /** Small letters become capitals, everything else stays. */
  lemma UpperCapitalizes(s: string, i: nat)
    requires i < |s|
    ensures |Upper(s)| == |s| && (forall c | c in Upper(s) :: !('a' <= c <= 'z'))
    ensures !('a' <= s[i] <= 'z') ==> Upper(s)[i] == s[i]
    ensures Upper("ngn") == "NGN"
  {
    assert Upper("ngn") == ['N', 'G', 'N'];
  }

  /** The shipment read of a counter and the checks against its price and currency. */
  function CheckPrice(t: Tables, r: Reply, s: Id): Stage
    requires r.CounterReply?
  {
    if s !in t.shipments || r.amount.None? then Finished
    else
      var row := t.shipments[s];
      var currency := Upper(if r.currency.Some? then r.currency.value else row.currency);
      if !row.status.Created? && !row.status.Broadcasting? then Finished
      else if Price(row).Some? && r.amount.value <= Price(row).value then Finished
      else if currency == "" then Finished
      else if row.currency != "" && currency != Upper(row.currency) then Finished
      else Writing(currency)
  }

  /** The unconditional update by offer id. */
  function WriteReply(t: Tables, r: Reply, currency: string): Tables {
    if r.offer !in t.offers then t
    else
      var o := t.offers[r.offer];
      var written := if !r.CounterReply? then o.(status := Declined)
                     else o.(status := Countered, counterAmount := r.amount, counterCurrency := Some(currency));
      t.(offers := t.offers[r.offer := written])
  }

  /** A reply whose reads and write happen without interference. */
  function Respond(t: Tables, r: Reply): Tables {
    match ReadOffer(t, r)
    case Writing(currency) => WriteReply(t, r, currency)
    case Pricing(s) =>
      (match CheckPrice(t, r, s) case Writing(currency) => WriteReply(t, r, currency) case _ => t)
    case _ => t
  }

  // ----- accepts

  datatype ProviderView = ProviderView(available: bool, category: VehicleCategory)

  predicate IsOpenOffer(s: OfferStatus) { s.Sent? || s.Viewed? || s.Countered? }

  /** Cancels the other open offers of the shipment. */
  function CancelOthers(offers: map<Id, Offer>, s: Id, winner: Id): map<Id, Offer> {
    map o | o in offers ::
      if offers[o].shipment == s && o != winner && IsOpenOffer(offers[o].status)
      then offers[o].(status := OfferCancelled)
      else offers[o]
  }

  predicate Blocks(t: Tables, s: Id, provider: Id) {
    s in t.assignments && !(t.assignments[s].provider == provider && t.assignments[s].status.Active?)
  }

  /** The common checks of both accept transactions on the shipment and the provider. */
  predicate CanAssign(t: Tables, s: Id, provider: Id, view: Option<ProviderView>) {
    && s in t.shipments && s in t.batches
    && t.shipments[s].status in {Created, Broadcasting, Assigned}
    && view.Some? && view.value.available && view.value.category == t.shipments[s].category
    && !Blocks(t, s, provider)
  }

  predicate CanAccept(t: Tables, o: Id, provider: Id, view: Option<ProviderView>, now: int) {
    && o in t.offers
    && var offer := t.offers[o];
       && offer.provider == provider
       && !(offer.expiresAt.Some? && offer.expiresAt.value <= now)
       && CanRespond(offer.status)
       && CanAssign(t, offer.shipment, provider, view)
  }

  predicate CanOwnerAccept(t: Tables, s: Id, o: Id, view: Option<ProviderView>) {
    && s in t.shipments && t.shipments[s].mode.ByDispatch?
    && o in t.offers && t.offers[o].shipment == s && t.offers[o].status.Countered?
    && CanAssign(t, s, t.offers[o].provider, view)
  }

  /** The price both sides agree on: the counter if there is one, else the price of the shipment as read. */
  function AgreedPrice(offer: Offer, row: Shipment): Option<int> {
    if offer.counterAmount.Some? then offer.counterAmount else Price(row)
  }

  function AgreedCurrency(offer: Offer, row: Shipment): string {
    if offer.counterCurrency.Some? then offer.counterCurrency.value else row.currency
  }

  /** The conditional status update still matches, and the inserts and updates by id will not throw. */
  predicate CanCommit(t: Tables, o: Id, counter: bool, row: Shipment, existed: bool) {
    && o in t.offers
    && var offer := t.offers[o];
       && (if counter then offer.status.Countered? else CanRespond(offer.status))
       && offer.shipment in t.shipments && offer.shipment in t.batches
       && existed == (offer.shipment in t.assignments)
       && (counter ==> AgreedPrice(offer, row).Some? && AgreedCurrency(offer, row) != "")
  }

  /**
   The writes of an accept, given what its reads saw: the shipment row and whether an assignment
   existed. A mismatch with the current rows rolls it back.
   */
  function CommitAccept(t: Tables, o: Id, counter: bool, row: Shipment, existed: bool): Tables {
    if !CanCommit(t, o, counter, row, existed) then t
    else
      var offer := t.offers[o];
      var s := offer.shipment;
      var agreed := if counter then AgreedPrice(offer, row) else Price(row);
      var currency := if counter then AgreedCurrency(offer, row) else row.currency;
      var current := t.shipments[s].(status := Assigned);
      Tables(t.shipments[s := if counter then current.(finalPrice := agreed, currency := currency) else current],
             t.batches[s := t.batches[s].(status := BatchAssigned)],
             CancelOthers(t.offers[o := offer.(status := Accepted)], s, o),
             if existed && !counter then t.assignments
             else t.assignments[s := Assignment(offer.provider, Some(o), agreed, currency, Active)])
  }

  /** A provider's accept without interference. */
  function AcceptOffer(t: Tables, o: Id, provider: Id, view: Option<ProviderView>, now: int): Tables {
    if !CanAccept(t, o, provider, view, now) then t
    else CommitAccept(t, o, false, t.shipments[t.offers[o].shipment], t.offers[o].shipment in t.assignments)
  }

  /** A shipper's accept of a counter without interference. */
  function OwnerAccept(t: Tables, s: Id, o: Id, view: Option<ProviderView>): Tables {
    if !CanOwnerAccept(t, s, o, view) then t
    else CommitAccept(t, o, true, t.shipments[s], s in t.assignments)
  }

  // ----- progress and cancellation

  predicate CanProgress(t: Tables, s: Id, provider: Id, p: Progress) {
    && s in t.assignments && t.assignments[s].provider == provider && t.assignments[s].status.Active?
    && s in t.shipments && Allows(p, t.shipments[s].status)
  }

  /** The updates by id of a progress action, whatever the rows are by now. */
  function LateProgress(t: Tables, s: Id, p: Progress): Tables {
    if s !in t.shipments || (p.ConfirmDropoff? && s !in t.assignments) then t
    else t.(shipments := t.shipments[s := t.shipments[s].(status := Reaches(p))],
            assignments := if !p.ConfirmDropoff? then t.assignments
                           else t.assignments[s := t.assignments[s].(status := Fulfilled)])
  }

  function MakeProgress(t: Tables, s: Id, provider: Id, p: Progress): Tables {
    if CanProgress(t, s, provider, p) then LateProgress(t, s, p) else t
  }

  /** The update by id of a cancellation, whatever the row is by now. */
  function LateCancel(t: Tables, s: Id): Tables {
    if s !in t.shipments then t else t.(shipments := t.shipments[s := t.shipments[s].(status := Cancelled)])
  }

  function CancelShipment(t: Tables, s: Id): Tables {
    if s in t.shipments && IsCancellable(t.shipments[s].status) then LateCancel(t, s) else t
  }
}

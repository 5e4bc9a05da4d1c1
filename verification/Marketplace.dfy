/**
 Bids and awards on marketplace shipments: the rows and what each call does to them, with the cancellation
 and progress of the shipment.
 */
module Marketplace {
  import opened Options
  import opened Shipments
  import opened Rows = DispatchTables

  datatype BidStatus = BidActive | BidWithdrawn | BidRejected | BidAccepted

  datatype Bid = Bid(shipment: Id, provider: Id, amount: int, currency: string, status: BidStatus)

  type BidKey = (Id, Id)

  /**
   `bidOf` is the unique index of bids on shipment and provider; `awards` maps a shipment to the bid
   awarded, and both are unique among awards.
   */
  datatype Market = Market(shipments: map<Id, Shipment>, bids: map<Id, Bid>, bidOf: map<BidKey, Id>,
                           awards: map<Id, Id>, assignments: map<Id, Assignment>)

  const EMPTY_MARKET := Market(map[], map[], map[], map[], map[])

  datatype Event =
    | Create(s: Id, row: Shipment)
    | CreateBid(newId: Id, s: Id, provider: Id, category: Option<VehicleCategory>, amount: int,
                currency: Option<string>)
    | UpdateBid(id: Id, provider: Id, newAmount: Option<int>, newCurrency: Option<string>, status: Option<BidStatus>)
    | WithdrawBid(id: Id, provider: Id)
    | Award(s: Id, id: Id)
    | Advance(s: Id, provider: Id, progress: Progress)
    | Cancel(s: Id)
    | AssignByDispatch(s: Id, assignment: Assignment)

  /** Inserts or overwrites a bid; the unique index follows. */
  function PutBid(m: Market, id: Id, bid: Bid): Market {
    m.(bids := m.bids[id := bid], bidOf := m.bidOf[(bid.shipment, bid.provider) := id])
  }

  predicate CanBid(m: Market, s: Id, category: Option<VehicleCategory>) {
    && s in m.shipments && m.shipments[s].mode.ByMarketplace?
    && (m.shipments[s].status.Created? || m.shipments[s].status.Broadcasting?)
    && category == Some(m.shipments[s].category)
  }

  function NewBid(m: Market, s: Id, provider: Id, amount: int, currency: Option<string>): Bid
    requires s in m.shipments
  {
    Bid(s, provider, amount, if currency.Some? then currency.value else m.shipments[s].currency, BidActive)
  }

  /** One bid per provider and shipment: a withdrawn or rejected bid is made anew in place. */
  function PlaceBid(m: Market, newId: Id, s: Id, provider: Id, category: Option<VehicleCategory>, amount: int,
                    currency: Option<string>): Market {
    if !CanBid(m, s, category) then m
    else if (s, provider) in m.bidOf then
      var id := m.bidOf[(s, provider)];
      if id in m.bids && !m.bids[id].status.BidActive? && !m.bids[id].status.BidAccepted?
      then PutBid(m, id, NewBid(m, s, provider, amount, currency)) else m
    else if newId in m.bids then m
    else PutBid(m, newId, NewBid(m, s, provider, amount, currency))
  }

  predicate CanEditBid(m: Market, id: Id, provider: Id) {
    id in m.bids && m.bids[id].provider == provider && m.bids[id].status.BidActive?
  }

  function Edited(bid: Bid, amount: Option<int>, currency: Option<string>, status: Option<BidStatus>): Bid {
    bid.(amount := if amount.Some? then amount.value else bid.amount,
         currency := if currency.Some? then currency.value else bid.currency,
         status := if status.Some? then status.value else bid.status)
  }

  function EditBid(m: Market, id: Id, provider: Id, amount: Option<int>, currency: Option<string>,
                   status: Option<BidStatus>): Market {
    if !CanEditBid(m, id, provider) then m
    else if status.Some? && !status.value.BidWithdrawn? then m
    else m.(bids := m.bids[id := Edited(m.bids[id], amount, currency, status)])
  }

  function RejectOthers(bids: map<Id, Bid>, s: Id, winner: Id): map<Id, Bid> {
    map b | b in bids ::
      if bids[b].shipment == s && b != winner && bids[b].status.BidActive? then bids[b].(status := BidRejected)
      else bids[b]
  }

  /** The guards of an award: they do not look at the status of the shipment. */
  predicate CanAward(m: Market, s: Id, id: Id) {
    && s in m.shipments && m.shipments[s].mode.ByMarketplace?
    && id in m.bids && m.bids[id].shipment == s && m.bids[id].status.BidActive?
    && s !in m.awards && id !in m.awards.Values
  }

  /**
   The writes of an award that passed its guards and read the bid as `seen`. A taken unique key makes the
   award's insert throw; bid and shipment are updated by id, whatever they are by now, and the assignment
   takes the terms that were read.
   */
  function LateAward(m: Market, s: Id, id: Id, seen: Bid): Option<Market> {
    if s !in m.shipments || id !in m.bids || s in m.awards || id in m.awards.Values then None
    else
      Some(Market(m.shipments[s := m.shipments[s].(status := Assigned)],
                  RejectOthers(m.bids[id := m.bids[id].(status := BidAccepted)], s, id),
                  m.bidOf,
                  m.awards[s := id],
                  if s in m.assignments then m.assignments
                  else m.assignments[s := Assignment(seen.provider, None, Some(seen.amount), seen.currency, Active)]))
  }

  function AwardBid(m: Market, s: Id, id: Id): Market {
    if CanAward(m, s, id) then LateAward(m, s, id, m.bids[id]).value else m
  }

  predicate CanAdvance(m: Market, s: Id, provider: Id, p: Progress) {
    && s in m.assignments && m.assignments[s].provider == provider && m.assignments[s].status.Active?
    && s in m.shipments && m.shipments[s].mode.ByMarketplace? && Allows(p, m.shipments[s].status)
  }

  /** The updates by id of a progress action, whatever the rows are by now. */
  function LateAdvance(m: Market, s: Id, p: Progress): Market {
    if s !in m.shipments || (p.ConfirmDropoff? && s !in m.assignments) then m
    else m.(shipments := m.shipments[s := m.shipments[s].(status := Reaches(p))],
            assignments := if !p.ConfirmDropoff? then m.assignments
                           else m.assignments[s := m.assignments[s].(status := Fulfilled)])
  }

  function AdvanceShipment(m: Market, s: Id, provider: Id, p: Progress): Market {
    if CanAdvance(m, s, provider, p) then LateAdvance(m, s, p) else m
  }

  /** The update by id of a cancellation, whatever the row is by now. */
  function LateCancellation(m: Market, s: Id): Market {
    if s !in m.shipments then m else m.(shipments := m.shipments[s := m.shipments[s].(status := Cancelled)])
  }

  function Next(m: Market, e: Event): Market {
    match e
    case Create(s, row) => if s in m.shipments then m else m.(shipments := m.shipments[s := row.(status := Created)])
    case CreateBid(newId, s, provider, category, amount, currency) =>
      PlaceBid(m, newId, s, provider, category, amount, currency)
    case UpdateBid(id, provider, amount, currency, status) => EditBid(m, id, provider, amount, currency, status)
    case WithdrawBid(id, provider) => EditBid(m, id, provider, None, None, Some(BidWithdrawn))
    case Award(s, id) => AwardBid(m, s, id)
    case Advance(s, provider, progress) => AdvanceShipment(m, s, provider, progress)
    case Cancel(s) =>
      if s in m.shipments && IsCancellable(m.shipments[s].status) then LateCancellation(m, s) else m
    case AssignByDispatch(s, assignment) =>
      if s !in m.shipments || !m.shipments[s].mode.ByDispatch? then m
      else m.(assignments := m.assignments[s := assignment])
  }

  function Run(m: Market, events: seq<Event>): Market
    decreases |events|
  {
    if events == [] then m else Run(Next(m, events[0]), events[1..])
  }
}

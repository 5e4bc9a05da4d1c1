/** The marketplace calls as they write their rows one after another; `None` stands for an exception. */
module MarketplaceStore {
  import opened Options
  import opened Shipments
  import opened Rows = DispatchTables
  import opened Marketplace
  import opened MarketplaceTheorems

  /** Awarding a second bid of the same shipment fails, whoever asks and whenever. */
  lemma AwardedOnce(m: Market, s: Id, id: Id, between: seq<Event>, second: Id)
    requires CanAward(m, s, id)
    ensures !CanAward(Run(AwardBid(m, s, id), between), s, second)
  {
    hide Next;
    AwardsStay(AwardBid(m, s, id), between, s);
  }

  lemma {:induction false} AwardsStay(m: Market, events: seq<Event>, s: Id)
    requires s in m.awards
    ensures s in Run(m, events).awards && Run(m, events).awards[s] == m.awards[s]
    decreases |events|
  {
    if events != [] {
      AwardStays(m, events[0], s);
      hide Next;
      AwardsStay(Next(m, events[0]), events[1..], s);
    }
  }

  lemma AwardStays(m: Market, e: Event, s: Id)
    requires s in m.awards
    ensures s in Next(m, e).awards && Next(m, e).awards[s] == m.awards[s]
  {
    hide RejectOthers;
  }

  /** A bid is placed, awarded and delivered on its own terms. */
  lemma BidRunsToCompletion(s: Id, row: Shipment, id: Id, provider: Id, amount: int, currency: string)
    requires row.mode.ByMarketplace?
    ensures var m1 := Next(EMPTY_MARKET, Create(s, row));
            var m2 := Next(m1, CreateBid(id, s, provider, Some(row.category), amount, Some(currency)));
            var m3 := Next(m2, Award(s, id));
            var m4 := Next(m3, Advance(s, provider, MarkEnRoute));
            var m5 := Next(m4, Advance(s, provider, ConfirmPickup));
            var m6 := Next(m5, Advance(s, provider, ConfirmDropoff));
            && m2.bids == map[id := Bid(s, provider, amount, currency, BidActive)]
            && m3.awards == map[s := id] && m3.bids == map[id := Bid(s, provider, amount, currency, BidAccepted)]
            && s in m6.shipments && m6.shipments[s].status.Completed?
            && m6.assignments == map[s := Assignment(provider, None, Some(amount), currency, Fulfilled)]
  {
    var m2 := Next(Next(EMPTY_MARKET, Create(s, row)),
        CreateBid(id, s, provider, Some(row.category), amount, Some(currency)));
    assert m2.bids == map[id := Bid(s, provider, amount, currency, BidActive)];
    assert CanAward(m2, s, id);
    var m3 := Next(m2, Award(s, id));
    assert m3.bids == map[id := Bid(s, provider, amount, currency, BidAccepted)];
    assert m3.assignments == map[s := Assignment(provider, None, Some(amount), currency, Active)];
  }

  /** Every bid but this one is as it was. */
  predicate OtherBidsStay(m: Market, m': Market, id: Id) {
    m'.bids.Keys == m.bids.Keys && forall b | b in m.bids && b != id :: m'.bids[b] == m.bids[b]
  }

  lemma CallKeeps(m: Market, e: Event)
    ensures Consistent(m) ==> Consistent(Next(m, e))
  {
    hide Consistent, Next;
    if Consistent(m) { NextKeeps(m, e); }
  }

  /** What an award means for its shipment. */
  predicate IsAwarded(m: Market, s: Id, id: Id) {
    && s in m.awards && m.awards[s] == id && id in m.bids && m.bids[id].status.BidAccepted?
    && (forall b | b in m.bids && m.bids[b].shipment == s :: !m.bids[b].status.BidActive?)
    && s in m.shipments && m.shipments[s].status.Assigned? && s in m.assignments
  }

  lemma AwardTakesEffect(m: Market, s: Id, id: Id)
    requires CanAward(m, s, id)
    ensures var m' := AwardBid(m, s, id);
            && IsAwarded(m', s, id)
            && (forall b :: !CanAward(m', s, b))
            && (forall b | b in m.bids && b != id ::
                  b in m'.bids && m'.bids[b] == if m.bids[b].shipment == s && m.bids[b].status.BidActive?
                                                then m.bids[b].(status := BidRejected) else m.bids[b])
            && m'.bids[id] == m.bids[id].(status := BidAccepted)
            && (s !in m.assignments ==>
                  m'.assignments[s]
                    == Assignment(m'.bids[id].provider, None, Some(m'.bids[id].amount), m'.bids[id].currency, Active))
  {
  }

  lemma PlacingKeeps(m: Market, newId: Id, s: Id, provider: Id, category: Option<VehicleCategory>, amount: int,
                     currency: Option<string>)
    ensures Consistent(m) ==> Consistent(PlaceBid(m, newId, s, provider, category, amount, currency))
  {
    if Consistent(m) { PlaceBidKeeps(m, newId, s, provider, category, amount, currency); }
    hide Consistent;
  }

  class Store {
    var shipments: map<Id, Shipment>
    var bids: map<Id, Bid>
    var bidOf: map<BidKey, Id>
    var awards: map<Id, Id>
    var assignments: map<Id, Assignment>

    function Rows(): Market
      reads this
    {
      Market(shipments, bids, bidOf, awards, assignments)
    }

    constructor ()
      ensures Rows() == EMPTY_MARKET
    {
      shipments, bids, bidOf, awards, assignments := map[], map[], map[], map[], map[];
    }

    /** Makes a bid, or makes a withdrawn or rejected one anew. */
    method CreateShipmentBid(newId: Id, s: Id, provider: Id, category: Option<VehicleCategory>, amount: int,
                             currency: Option<string>)
      returns (placed: Option<Id>)
      requires IndexOk(Rows())
      modifies this`bids, this`bidOf
      ensures Rows() == PlaceBid(old(Rows()), newId, s, provider, category, amount, currency)
      ensures placed.Some? <==>
              && s in shipments && shipments[s].mode.ByMarketplace? && shipments[s].status in {Created, Broadcasting}
              && category == Some(shipments[s].category)
              && if (s, provider) in old(bidOf)
                   then old(bids)[old(bidOf)[(s, provider)]].status in {BidWithdrawn, BidRejected}
                 else newId !in old(bids)
      ensures placed.Some? ==>
        && placed.value in bids && IsBidOf(Rows(), (s, provider), placed.value)
        && bids[placed.value] == Bid(s, provider, amount,
                                     if currency.Some? then currency.value else shipments[s].currency, BidActive)
        && forall b | b in old(bids) && b != placed.value :: b in bids && bids[b] == old(bids)[b]
      ensures placed.None? ==> Rows() == old(Rows())
      ensures old(Consistent(Rows())) ==> Consistent(Rows())
    {
      PlacingKeeps(Rows(), newId, s, provider, category, amount, currency);
      hide Consistent;
      if s !in shipments { return None; }
      var shipment := shipments[s];
      if !shipment.mode.ByMarketplace? { return None; }
      if !shipment.status.Created? && !shipment.status.Broadcasting? { return None; }
      if category != Some(shipment.category) { return None; }
      var chosen := if currency.Some? then currency.value else shipment.currency;
      if (s, provider) in bidOf {
        var existing := bidOf[(s, provider)];
        if bids[existing].status.BidActive? || bids[existing].status.BidAccepted? { return None; }
        bids := bids[existing := bids[existing].(amount := amount, currency := chosen, status := BidActive)];
        assert bidOf[(s, provider) := existing] == bidOf;
        return Some(existing);
      }
      if newId in bids { return None; }
      bids := bids[newId := Bid(s, provider, amount, chosen, BidActive)];
      bidOf := bidOf[(s, provider) := newId];
      return Some(newId);
    }

    /** Edits an active bid of the provider: given terms replace the old ones, and a withdrawn bid cannot be awarded. */
    method UpdateShipmentBid(id: Id, provider: Id, amount: Option<int>, currency: Option<string>,
                             status: Option<BidStatus>)
      returns (ok: bool)
      modifies this`bids
      ensures Rows() == EditBid(old(Rows()), id, provider, amount, currency, status)
      ensures ok <==>
              && id in old(bids) && old(bids)[id].provider == provider && old(bids)[id].status.BidActive?
              && (status.Some? ==> status.value.BidWithdrawn?)
      ensures ok ==>
                && OtherBidsStay(old(Rows()), Rows(), id)
                && (amount.Some? ==> bids[id].amount == amount.value)
                     && (currency.Some? ==> bids[id].currency == currency.value)
                && (bids[id].status.BidWithdrawn? <==> status.Some?)
      ensures ok && status.Some? ==> forall s :: !CanAward(Rows(), s, id)
      ensures ok && amount.None? && currency.None? && status.None? ==> Rows() == old(Rows())
      ensures !ok ==> Rows() == old(Rows())
      ensures old(Consistent(Rows())) ==> Consistent(Rows())
    {
      CallKeeps(Rows(), UpdateBid(id, provider, amount, currency, status));
      hide Consistent;
      if id !in bids || bids[id].provider != provider { return false; }
      var bid := bids[id];
      if !bid.status.BidActive? { return false; }
      if status.Some? && status.value != BidWithdrawn { return false; }
      bids := bids[id := bid.(amount := if amount.Some? then amount.value else bid.amount,
                              currency := if currency.Some? then currency.value else bid.currency,
                              status := if status.Some? then status.value else bid.status)];
      return true;
    }

    /** Withdraws an active bid of the provider: it keeps its terms and cannot be edited or awarded any more. */
    method WithdrawBid(id: Id, provider: Id) returns (ok: bool)
      modifies this`bids
      ensures Rows() == EditBid(old(Rows()), id, provider, None, None, Some(BidWithdrawn))
      ensures ok <==> id in old(bids) && old(bids)[id].provider == provider && old(bids)[id].status.BidActive?
      ensures ok ==> OtherBidsStay(old(Rows()), Rows(), id) && bids[id] == old(bids)[id].(status := BidWithdrawn)
      ensures ok ==> !CanEditBid(Rows(), id, provider) && forall s :: !CanAward(Rows(), s, id)
      ensures !ok ==> Rows() == old(Rows())
      ensures old(Consistent(Rows())) ==> Consistent(Rows())
    {
      CallKeeps(Rows(), Event.WithdrawBid(id, provider));
      hide Consistent;
      if id !in bids || bids[id].provider != provider { return false; }
      if !bids[id].status.BidActive? { return false; }
      bids := bids[id := bids[id].(status := BidWithdrawn)];
      return true;
    }

    /**
     Awards an active bid: it is accepted, no bid of the shipment stays active, no further award of the
     shipment is possible, and bids of other shipments stay.
     */
    method AwardShipmentBid(s: Id, id: Id) returns (ok: bool)
      modifies this
      ensures Rows() == AwardBid(old(Rows()), s, id)
      ensures ok <==>
              && s in old(shipments) && old(shipments)[s].mode.ByMarketplace?
              && id in old(bids) && old(bids)[id].shipment == s && old(bids)[id].status.BidActive?
              && s !in old(awards) && id !in old(awards).Values
      ensures ok ==>
                && IsAwarded(Rows(), s, id) && (forall b :: !CanAward(Rows(), s, b))
                && (forall b | b in old(bids) && b != id ::
                      b in bids && bids[b] == if old(bids)[b].shipment == s && old(bids)[b].status.BidActive?
                                              then old(bids)[b].(status := BidRejected) else old(bids)[b])
                && bids[id] == old(bids)[id].(status := BidAccepted)
      ensures ok && s !in old(assignments) ==>
                assignments[s] == Assignment(bids[id].provider, None, Some(bids[id].amount), bids[id].currency, Active)
      ensures !ok ==> Rows() == old(Rows())
      ensures old(Consistent(Rows())) ==> Consistent(Rows())
    {
      CallKeeps(Rows(), Award(s, id));
      ghost var before := Rows();
      hide Consistent, IsAwarded, RejectOthers;
      if s !in shipments || !shipments[s].mode.ByMarketplace? { return false; }
      if id !in bids || bids[id].shipment != s { return false; }
      var bid := bids[id];
      if !bid.status.BidActive? { return false; }
      if s in awards || id in awards.Values { return false; }
      awards := awards[s := id];
      bids := bids[id := bid.(status := BidAccepted)];
      bids := RejectOthers(bids, s, id);
      if s !in assignments {
        assignments := assignments[s := Assignment(bid.provider, None, Some(bid.amount), bid.currency, Active)];
      }
      shipments := shipments[s := shipments[s].(status := Assigned)];
      assert CanAward(before, s, id) && Rows() == AwardBid(before, s, id);
      hide CanAward, AwardBid;
      AwardTakesEffect(before, s, id);
      return true;
    }

    /**
     The body of the provider progress calls: the shipment moves forward, and a dropoff finishes shipment and
     assignment together, after which nobody can progress the shipment.
     */
    method UpdateProviderMarketplaceShipmentStatus(s: Id, provider: Id, p: Progress) returns (ok: bool)
      modifies this`shipments, this`assignments
      ensures Rows() == AdvanceShipment(old(Rows()), s, provider, p)
      ensures ok <==>
              && s in old(assignments) && old(assignments)[s].provider == provider && old(assignments)[s].status.Active?
              && s in old(shipments) && old(shipments)[s].mode.ByMarketplace?
              && old(shipments)[s].status in (match p
                                              case MarkEnRoute => {Assigned, EnRoutePickup}
                                              case ConfirmPickup => {Assigned, EnRoutePickup, PickedUp}
                                              case ConfirmDropoff => {PickedUp, EnRouteDropoff, Delivered, Completed})
      ensures ok ==>
                && Forward(old(shipments)[s].status, shipments[s].status)
                && (shipments[s].status.Completed? <==> assignments[s].status.Fulfilled?)
      ensures ok && p.ConfirmDropoff? ==> forall q, next :: !CanAdvance(Rows(), s, q, next)
      ensures forall x | x in old(shipments) && x != s :: x in shipments && shipments[x] == old(shipments)[x]
      ensures forall x | x in old(assignments) && x != s :: x in assignments && assignments[x] == old(assignments)[x]
      ensures !ok ==> Rows() == old(Rows())
      ensures old(Consistent(Rows())) ==> Consistent(Rows())
    {
      CallKeeps(Rows(), Advance(s, provider, p));
      hide Consistent;
      if s !in assignments || assignments[s].provider != provider || !assignments[s].status.Active? { return false; }
      if s !in shipments || !shipments[s].mode.ByMarketplace? { return false; }
      if !Allows(p, shipments[s].status) { return false; }
      OvertakenExactly(p, shipments[s].status);
      if p.ConfirmDropoff? { assignments := assignments[s := assignments[s].(status := Fulfilled)]; }
      shipments := shipments[s := shipments[s].(status := Reaches(p))];
      return true;
    }
  }
}

/** Awards, bids and assignments of marketplace shipments stay consistent over every run. */
module MarketplaceTheorems {
  import opened Options
  import opened Shipments
  import opened Rows = DispatchTables
  import opened Marketplace

  predicate BidOk(m: Market, id: Id)
    requires id in m.bids
  {
    var s := m.bids[id].shipment;
    && s in m.shipments && m.shipments[s].mode.ByMarketplace?
    && (m.bids[id].status.BidAccepted? ==> s in m.awards && m.awards[s] == id)
    && (m.bids[id].status.BidActive? ==> s !in m.awards)
  }

  /** The award's bid is accepted, and the assignment repeats its provider, amount and currency. */
  predicate AwardOk(m: Market, s: Id)
    requires s in m.awards
  {
    && s in m.shipments && m.shipments[s].mode.ByMarketplace?
    && m.awards[s] in m.bids
    && var bid := m.bids[m.awards[s]];
       && bid.shipment == s && bid.status.BidAccepted?
       && s in m.assignments && !m.assignments[s].status.Withdrawn?
       && m.assignments[s] == Assignment(bid.provider, None, Some(bid.amount), bid.currency, m.assignments[s].status)
  }

  predicate ShipmentOk(m: Market, s: Id)
    requires s in m.shipments
  {
    m.shipments[s].mode.ByMarketplace? ==>
      var status := m.shipments[s].status;
      && (s in m.assignments ==> s in m.awards)
      && (s !in m.awards ==> status in {Created, Broadcasting, Cancelled})
      && (s in m.awards ==>
           status in {Assigned, EnRoutePickup, PickedUp, EnRouteDropoff, Delivered, Completed, Cancelled})
      && (status.Completed? <==> s in m.assignments && m.assignments[s].status.Fulfilled?)
  }

  /** The unique index leads to every bid and to nothing else. */
  ghost predicate IndexOk(m: Market) {
    && (forall id | id in m.bids :: IsBidOf(m, (m.bids[id].shipment, m.bids[id].provider), id))
    && (forall k | k in m.bidOf ::
         m.bidOf[k] in m.bids && m.bids[m.bidOf[k]].shipment == k.0 && m.bids[m.bidOf[k]].provider == k.1)
  }

  predicate IsBidOf(m: Market, k: BidKey, id: Id) { k in m.bidOf && m.bidOf[k] == id }

  /** Writing this bid under this id does not clash with another bid of the same provider and shipment. */
  predicate FitsIndex(m: Market, id: Id, bid: Bid) {
    if id in m.bids then m.bids[id].shipment == bid.shipment && m.bids[id].provider == bid.provider
    else (bid.shipment, bid.provider) !in m.bidOf
  }

  ghost predicate BidsOk(m: Market) { forall id | id in m.bids :: BidOk(m, id) }

  ghost predicate AwardsOk(m: Market) { forall s | s in m.awards :: AwardOk(m, s) }

  ghost predicate ShipmentsOk(m: Market) {
    (forall s | s in m.shipments :: ShipmentOk(m, s)) && (forall s | s in m.assignments :: s in m.shipments)
  }

  ghost predicate Consistent(m: Market) { IndexOk(m) && BidsOk(m) && AwardsOk(m) && ShipmentsOk(m) }

  // ----- every step keeps it

  lemma BidWriteKeepsIndex(m: Market, id: Id, bid: Bid)
    requires IndexOk(m) && FitsIndex(m, id, bid)
    ensures IndexOk(PutBid(m, id, bid))
  {
    var m' := PutBid(m, id, bid);
    assert id in m.bids ==> IsBidOf(m, (m.bids[id].shipment, m.bids[id].provider), id);
    forall b | b in m'.bids ensures IsBidOf(m', (m'.bids[b].shipment, m'.bids[b].provider), b) {
      if b != id { assert IsBidOf(m, (m.bids[b].shipment, m.bids[b].provider), b); }
    }
  }

  /** A bid that is not accepted may be written, as an active one only while the shipment has no award. */
  lemma BidWriteKeeps(m: Market, id: Id, bid: Bid)
    requires Consistent(m) && bid.shipment in m.shipments && m.shipments[bid.shipment].mode.ByMarketplace?
    requires !bid.status.BidAccepted? && (bid.status.BidActive? ==> bid.shipment !in m.awards)
    requires FitsIndex(m, id, bid) && (id in m.bids ==> !m.bids[id].status.BidAccepted?)
    ensures Consistent(PutBid(m, id, bid))
  {
    var m' := PutBid(m, id, bid);
    BidWriteKeepsIndex(m, id, bid);
    BidWriteKeepsAwards(m, id, bid);
    hide IndexOk, FitsIndex, AwardsOk;
    forall b | b in m'.bids ensures BidOk(m', b) { if b != id { assert BidOk(m, b); } }
    forall s | s in m'.shipments ensures ShipmentOk(m', s) { assert ShipmentOk(m, s); }
  }

  lemma BidWriteKeepsAwards(m: Market, id: Id, bid: Bid)
    requires AwardsOk(m) && (id in m.bids ==> !m.bids[id].status.BidAccepted?)
    ensures AwardsOk(PutBid(m, id, bid))
  {
    var m' := PutBid(m, id, bid);
    forall s | s in m'.awards ensures AwardOk(m', s) { assert AwardOk(m, s); }
  }

  lemma PlaceBidKeeps(m: Market, newId: Id, s: Id, provider: Id, category: Option<VehicleCategory>, amount: int,
                      currency: Option<string>)
    requires Consistent(m)
    ensures Consistent(PlaceBid(m, newId, s, provider, category, amount, currency))
  {
    if CanBid(m, s, category) {
      assert ShipmentOk(m, s);
      hide BidsOk, AwardsOk, ShipmentsOk;
      var bid := NewBid(m, s, provider, amount, currency);
      if (s, provider) in m.bidOf {
        var id := m.bidOf[(s, provider)];
        if !m.bids[id].status.BidActive? && !m.bids[id].status.BidAccepted? { BidWriteKeeps(m, id, bid); }
      } else if newId !in m.bids {
        BidWriteKeeps(m, newId, bid);
      }
    }
  }

  lemma EditPutsBid(m: Market, id: Id, provider: Id, amount: Option<int>, currency: Option<string>,
                    status: Option<BidStatus>)
    requires IndexOk(m) && EditBid(m, id, provider, amount, currency, status) != m
    ensures id in m.bids && m.bids[id].status.BidActive? && (status.Some? ==> status.value.BidWithdrawn?)
    ensures EditBid(m, id, provider, amount, currency, status)
            == PutBid(m, id, Edited(m.bids[id], amount, currency, status))
  {
    var bid := m.bids[id];
    assert IsBidOf(m, (bid.shipment, bid.provider), id);
    assert m.bidOf[(bid.shipment, bid.provider) := id] == m.bidOf;
  }

  lemma EditBidKeeps(m: Market, id: Id, provider: Id, amount: Option<int>, currency: Option<string>,
                     status: Option<BidStatus>)
    requires Consistent(m)
    ensures Consistent(EditBid(m, id, provider, amount, currency, status))
  {
    if EditBid(m, id, provider, amount, currency, status) != m {
      EditPutsBid(m, id, provider, amount, currency, status);
      assert BidOk(m, id);
      hide Consistent, EditBid, PutBid;
      BidWriteKeeps(m, id, Edited(m.bids[id], amount, currency, status));
    }
  }

  lemma AwardKeepsBids(m: Market, s: Id, id: Id, seen: Bid)
    requires BidsOk(m) && s in m.shipments && m.shipments[s].mode.ByMarketplace? && LateAward(m, s, id, seen).Some?
    requires m.bids[id].shipment == s
    ensures BidsOk(LateAward(m, s, id, seen).value)
  {
    var m' := LateAward(m, s, id, seen).value;
    forall b | b in m'.bids ensures BidOk(m', b) { assert BidOk(m, b); }
  }

  lemma AwardKeepsAwards(m: Market, s: Id, id: Id, seen: Bid)
    requires AwardsOk(m) && ShipmentsOk(m) && LateAward(m, s, id, seen).Some? && m.shipments[s].mode.ByMarketplace?
    requires m.bids[id].shipment == s && seen == m.bids[id].(status := seen.status)
    ensures AwardsOk(LateAward(m, s, id, seen).value)
  {
    var m' := LateAward(m, s, id, seen).value;
    assert ShipmentOk(m, s);
    hide ShipmentsOk;
    forall x | x in m'.awards ensures AwardOk(m', x) { if x != s { assert AwardOk(m, x); } }
  }

  lemma AwardKeepsShipments(m: Market, s: Id, id: Id, seen: Bid)
    requires ShipmentsOk(m) && LateAward(m, s, id, seen).Some? && m.shipments[s].mode.ByMarketplace?
    ensures ShipmentsOk(LateAward(m, s, id, seen).value)
  {
    hide RejectOthers;
    var m' := LateAward(m, s, id, seen).value;
    forall x | x in m'.shipments ensures ShipmentOk(m', x) { assert ShipmentOk(m, x); }
  }

  /** An award is consistent as long as the terms it read still stand. */
  lemma LateAwardKeeps(m: Market, s: Id, id: Id, seen: Bid)
    requires Consistent(m) && LateAward(m, s, id, seen).Some? && m.shipments[s].mode.ByMarketplace?
    requires m.bids[id].shipment == s && seen == m.bids[id].(status := seen.status)
    ensures Consistent(LateAward(m, s, id, seen).value)
  {
    AwardKeepsIndex(m, s, id, seen);
    AwardKeepsBids(m, s, id, seen);
    AwardKeepsAwards(m, s, id, seen);
    AwardKeepsShipments(m, s, id, seen);
    hide IndexOk, BidsOk, AwardsOk, ShipmentsOk, LateAward;
  }

  lemma AwardKeepsIndex(m: Market, s: Id, id: Id, seen: Bid)
    requires IndexOk(m) && LateAward(m, s, id, seen).Some?
    ensures IndexOk(LateAward(m, s, id, seen).value)
  {
    var m' := LateAward(m, s, id, seen).value;
    forall b | b in m'.bids ensures IsBidOf(m', (m'.bids[b].shipment, m'.bids[b].provider), b) {
      assert IsBidOf(m, (m.bids[b].shipment, m.bids[b].provider), b);
    }
  }

  lemma AwardKeeps(m: Market, s: Id, id: Id)
    requires Consistent(m)
    ensures Consistent(AwardBid(m, s, id))
  {
    hide Consistent, LateAward;
    if CanAward(m, s, id) {
      AwardCommits(m, s, id);
      LateAwardKeeps(m, s, id, m.bids[id]);
    }
  }

  lemma AwardCommits(m: Market, s: Id, id: Id)
    requires CanAward(m, s, id)
    ensures LateAward(m, s, id, m.bids[id]).Some?
  {
  }

  lemma BidsUntouched(m: Market, m': Market)
    requires IndexOk(m) && BidsOk(m) && m'.bids == m.bids && m'.bidOf == m.bidOf && m'.awards == m.awards
    requires forall s | s in m.shipments :: s in m'.shipments && m'.shipments[s].mode == m.shipments[s].mode
    ensures IndexOk(m') && BidsOk(m')
  {
    forall b | b in m'.bids ensures BidOk(m', b) { assert BidOk(m, b); }
    forall b | b in m'.bids ensures IsBidOf(m', (m'.bids[b].shipment, m'.bids[b].provider), b) {
      assert IsBidOf(m, (m.bids[b].shipment, m.bids[b].provider), b);
    }
  }

  /** Awards survive writes that leave bids and awards and keep every assignment's terms. */
  lemma AwardsSurvive(m: Market, m': Market)
    requires AwardsOk(m) && ShipmentsOk(m) && m'.bids == m.bids && m'.awards == m.awards
    requires forall s | s in m.shipments :: s in m'.shipments && m'.shipments[s].mode == m.shipments[s].mode
    requires forall s | s in m.assignments && m.shipments[s].mode.ByMarketplace? ::
               && s in m'.assignments && !m'.assignments[s].status.Withdrawn?
               && m'.assignments[s] == m.assignments[s].(status := m'.assignments[s].status)
    ensures AwardsOk(m')
  {
    hide ShipmentOk;
    forall x | x in m'.awards ensures AwardOk(m', x) { assert AwardOk(m, x); }
  }

  lemma AssignmentsStand(m: Market)
    requires AwardsOk(m) && ShipmentsOk(m)
    ensures forall s | s in m.assignments && m.shipments[s].mode.ByMarketplace? :: !m.assignments[s].status.Withdrawn?
  {
    forall s | s in m.assignments && m.shipments[s].mode.ByMarketplace? ensures !m.assignments[s].status.Withdrawn? {
      assert ShipmentOk(m, s) && AwardOk(m, s);
    }
  }

  lemma CreateKeeps(m: Market, e: Event)
    requires Consistent(m) && e.Create?
    ensures Consistent(Next(m, e))
  {
    AssignmentsStand(m);
    hide PlaceBid, EditBid, AwardBid, AdvanceShipment, LateCancellation, IndexOk, BidsOk, AwardsOk;
    var m' := Next(m, e);
    BidsUntouched(m, m');
    AwardsSurvive(m, m');
    forall s | s in m'.shipments ensures ShipmentOk(m', s) { if s in m.shipments { assert ShipmentOk(m, s); } }
  }

  lemma AssignKeeps(m: Market, e: Event)
    requires Consistent(m) && e.AssignByDispatch?
    ensures Consistent(Next(m, e))
  {
    AssignmentsStand(m);
    hide PlaceBid, EditBid, AwardBid, AdvanceShipment, LateCancellation, IndexOk, BidsOk, AwardsOk;
    var m' := Next(m, e);
    BidsUntouched(m, m');
    AwardsSurvive(m, m');
    hide AwardOk, BidOk;
    forall s | s in m'.shipments ensures ShipmentOk(m', s) { assert ShipmentOk(m, s); }
  }

  /** A progress write is consistent unless it reopens a completed shipment. */
  lemma LateAdvanceKeeps(m: Market, s: Id, p: Progress)
    requires Consistent(m) && s in m.assignments && s in m.shipments && m.shipments[s].mode.ByMarketplace?
    requires p.ConfirmDropoff? || !m.shipments[s].status.Completed?
    ensures Consistent(LateAdvance(m, s, p))
  {
    AssignmentsStand(m);
    hide IndexOk, BidsOk, AwardsOk;
    var m' := LateAdvance(m, s, p);
    BidsUntouched(m, m');
    AwardsSurvive(m, m');
    forall x | x in m'.shipments ensures ShipmentOk(m', x) { assert ShipmentOk(m, x); }
  }

  /** A cancellation is consistent unless it cancels a completed shipment. */
  lemma LateCancelKeeps(m: Market, s: Id)
    requires Consistent(m)
             && (s in m.shipments && m.shipments[s].mode.ByMarketplace? ==> !m.shipments[s].status.Completed?)
    ensures Consistent(LateCancellation(m, s))
  {
    AssignmentsStand(m);
    hide IndexOk, BidsOk, AwardsOk;
    var m' := LateCancellation(m, s);
    BidsUntouched(m, m');
    AwardsSurvive(m, m');
    forall x | x in m'.shipments ensures ShipmentOk(m', x) { assert ShipmentOk(m, x); }
  }

  lemma NextKeeps(m: Market, e: Event)
    requires Consistent(m)
    ensures Consistent(Next(m, e))
  {
    hide Consistent, PlaceBid, EditBid, AwardBid, LateAdvance, LateCancellation;
    match e
    case CreateBid(newId, s, provider, category, amount, currency) =>
      PlaceBidKeeps(m, newId, s, provider, category, amount, currency);
    case UpdateBid(id, provider, amount, currency, status) => EditBidKeeps(m, id, provider, amount, currency, status);
    case WithdrawBid(id, provider) => EditBidKeeps(m, id, provider, None, None, Some(BidWithdrawn));
    case Award(s, id) => AwardKeeps(m, s, id);
    case Create(_, _) => CreateKeeps(m, e);
    case Advance(s, provider, progress) =>
      if CanAdvance(m, s, provider, progress) { LateAdvanceKeeps(m, s, progress); }
    case Cancel(s) =>
      if s in m.shipments && IsCancellable(m.shipments[s].status) { LateCancelKeeps(m, s); }
    case AssignByDispatch(_, _) => AssignKeeps(m, e);
  }

  lemma {:induction false} RunKeeps(m: Market, events: seq<Event>)
    requires Consistent(m)
    ensures Consistent(Run(m, events))
    decreases |events|
  {
    hide Consistent;
    if events != [] {
      NextKeeps(m, events[0]);
      RunKeeps(Next(m, events[0]), events[1..]);
    }
  }

  // ----- main results

  /** A bid is accepted exactly when its shipment's award names it, and no bid of an awarded shipment stays active. */
  lemma AwardNamesTheAcceptedBid(events: seq<Event>, id: Id)
    requires id in Run(EMPTY_MARKET, events).bids
    ensures var m := Run(EMPTY_MARKET, events); var s := m.bids[id].shipment;
            && (m.bids[id].status.BidAccepted? <==> s in m.awards && m.awards[s] == id)
            && (s in m.awards ==> !m.bids[id].status.BidActive?)
  {
    RunKeeps(EMPTY_MARKET, events);
    var m := Run(EMPTY_MARKET, events);
    assert BidOk(m, id);
    if m.bids[id].shipment in m.awards { assert AwardOk(m, m.bids[id].shipment); }
  }

  /** A marketplace shipment is assigned exactly when it is awarded, on the terms of the awarded bid. */
  lemma AssignmentFollowsAward(events: seq<Event>, s: Id)
    requires s in Run(EMPTY_MARKET, events).shipments && Run(EMPTY_MARKET, events).shipments[s].mode.ByMarketplace?
    ensures var m := Run(EMPTY_MARKET, events);
            && (s in m.assignments <==> s in m.awards)
            && (s in m.awards ==>
                  && m.awards[s] in m.bids
                  && var bid := m.bids[m.awards[s]];
                     m.assignments[s].provider == bid.provider && m.assignments[s].agreedPrice == Some(bid.amount)
                     && m.assignments[s].currency == bid.currency)
  {
    RunKeeps(EMPTY_MARKET, events);
    var m := Run(EMPTY_MARKET, events);
    assert ShipmentOk(m, s);
    if s in m.awards { assert AwardOk(m, s); }
  }

  lemma CompletedWithItsAssignment(events: seq<Event>, s: Id)
    requires s in Run(EMPTY_MARKET, events).shipments && Run(EMPTY_MARKET, events).shipments[s].mode.ByMarketplace?
    ensures var m := Run(EMPTY_MARKET, events);
            m.shipments[s].status.Completed? <==> s in m.assignments && m.assignments[s].status.Fulfilled?
  {
    RunKeeps(EMPTY_MARKET, events);
    assert ShipmentOk(Run(EMPTY_MARKET, events), s);
  }

  // ----- the missing status guard of an award

  predicate MovesBack(m: Market, e: Event, s: Id)
    requires s in m.shipments
  {
    s in Next(m, e).shipments && Rank(Next(m, e).shipments[s].status) < Rank(m.shipments[s].status)
  }

  lemma OnlyAwardsMoveBack(m: Market, e: Event, s: Id)
    requires s in m.shipments && MovesBack(m, e, s)
    ensures e.Award? && e.s == s && CanAward(m, s, e.id)
  {
    hide RejectOthers;
  }

  /** A reachable shipment ever moves back exactly when it was cancelled and one of its bids is then awarded. */
  lemma MovesBackExactlyWhenRevived(events: seq<Event>, e: Event, s: Id)
    requires s in Run(EMPTY_MARKET, events).shipments
    ensures var m := Run(EMPTY_MARKET, events);
            MovesBack(m, e, s) <==> e.Award? && e.s == s && CanAward(m, s, e.id) && m.shipments[s].status.Cancelled?
  {
    RunKeeps(EMPTY_MARKET, events);
    var m := Run(EMPTY_MARKET, events);
    assert ShipmentOk(m, s);
    hide Run, Consistent, ShipmentOk, MovesBack, CanAward;
    if MovesBack(m, e, s) { OnlyAwardsMoveBack(m, e, s); }
    if e.Award? && e.s == s && CanAward(m, s, e.id) { AwardMovesBackExactly(m, e); }
  }

  lemma AwardMovesBackExactly(m: Market, e: Event)
    requires e.Award? && CanAward(m, e.s, e.id) && ShipmentOk(m, e.s)
    ensures MovesBack(m, e, e.s) <==> m.shipments[e.s].status.Cancelled?
  {
    hide RejectOthers;
  }

  /** A shipment that is bid on, cancelled and then awarded ends up assigned. */
  lemma CancelledShipmentIsRevived(s: Id, id: Id, provider: Id, row: Shipment, amount: int)
    requires row.mode.ByMarketplace?
    ensures var m := Run(EMPTY_MARKET,
            [Create(s, row), CreateBid(id, s, provider, Some(row.category), amount, None), Cancel(s), Award(s, id)]);
            s in m.shipments && m.shipments[s].status.Assigned? && s in m.awards && m.awards[s] == id
  {
    var m1 := Next(EMPTY_MARKET, Create(s, row));
    var m2 := Next(m1, CreateBid(id, s, provider, Some(row.category), amount, None));
    assert m2.bids == map[id := Bid(s, provider, amount, row.currency, BidActive)];
    var m3 := Next(m2, Cancel(s));
    var m4 := Next(m3, Award(s, id));
    var events := [Create(s, row), CreateBid(id, s, provider, Some(row.category), amount, None), Cancel(s),
        Award(s, id)];
    assert Run(EMPTY_MARKET, events) == Run(m1, events[1..]) == Run(m2, events[2..]);
    assert Run(m2, events[2..]) == Run(m3, events[3..]) == Run(m4, []);
  }

  // ----- bid writes that come late, after the shipment has moved on

  /**
   A withdrawal whose check was overtaken leaves the market consistent exactly when the bid has not been
   accepted meanwhile.
   */
  lemma LateWithdrawalBreaksExactlyAccepted(m: Market, id: Id)
    requires Consistent(m) && id in m.bids
    ensures Consistent(PutBid(m, id, m.bids[id].(status := BidWithdrawn))) <==> !m.bids[id].status.BidAccepted?
  {
    var m' := PutBid(m, id, m.bids[id].(status := BidWithdrawn));
    assert BidOk(m, id);
    if m.bids[id].status.BidAccepted? {
      assert m.bids[id].shipment in m'.awards && !AwardOk(m', m.bids[id].shipment);
    } else {
      hide Consistent;
      BidWriteKeeps(m, id, m.bids[id].(status := BidWithdrawn));
    }
  }

  /** A late change of amount or currency breaks it exactly when it really changes the accepted bid. */
  lemma LateEditBreaksExactlyAcceptedTerms(m: Market, id: Id, amount: Option<int>, currency: Option<string>)
    requires Consistent(m) && id in m.bids
    ensures var edited := Edited(m.bids[id], amount, currency, None);
            Consistent(PutBid(m, id, edited)) <==> (m.bids[id].status.BidAccepted? ==> edited == m.bids[id])
  {
    var edited := Edited(m.bids[id], amount, currency, None);
    var s := m.bids[id].shipment;
    assert BidOk(m, id);
    assert IsBidOf(m, (s, edited.provider), id);
    hide IndexOk, BidsOk, ShipmentsOk;
    if edited == m.bids[id] {
      assert m.bidOf[(s, edited.provider) := id] == m.bidOf;
      assert PutBid(m, id, edited) == m;
    } else if m.bids[id].status.BidAccepted? {
      assert AwardOk(m, s);
      assert s in PutBid(m, id, edited).awards && !AwardOk(PutBid(m, id, edited), s);
    } else {
      BidWriteKeeps(m, id, edited);
    }
  }

  /** A late bid breaks it exactly when the shipment has been awarded meanwhile. */
  lemma LateBidBreaksExactlyAwarded(m: Market, id: Id, bid: Bid)
    requires Consistent(m) && bid.shipment in m.shipments && m.shipments[bid.shipment].mode.ByMarketplace?
             && bid.status.BidActive?
    requires FitsIndex(m, id, bid)
    ensures Consistent(PutBid(m, id, bid)) <==> bid.shipment !in m.awards
  {
    if bid.shipment in m.awards {
      var m' := PutBid(m, id, bid);
      assert id in m'.bids && !BidOk(m', id);
    } else {
      BidWriteKeeps(m, id, bid);
    }
  }

  // ----- awards, progress and cancellations that come late

  /**
   An award whose read of the bid was overtaken breaks consistency exactly when the bid's amount or currency has
   been changed meanwhile: the assignment then takes the old terms.
   */
  lemma LateAwardBreaksExactlyChangedTerms(m: Market, s: Id, id: Id, seen: Bid)
    requires Consistent(m) && LateAward(m, s, id, seen).Some? && m.shipments[s].mode.ByMarketplace?
    requires m.bids[id].shipment == seen.shipment == s && m.bids[id].provider == seen.provider
    ensures Consistent(LateAward(m, s, id, seen).value) <==>
            seen.amount == m.bids[id].amount && seen.currency == m.bids[id].currency
  {
    if seen.amount == m.bids[id].amount && seen.currency == m.bids[id].currency {
      LateAwardKeeps(m, s, id, seen);
    } else {
      var m' := LateAward(m, s, id, seen).value;
      assert ShipmentOk(m, s);
      assert s in m'.awards && !AwardOk(m', s);
    }
  }

  /** It moves the shipment back exactly when that is past being assigned, or cancelled. */
  lemma LateAwardMovesBackExactly(m: Market, s: Id, id: Id, seen: Bid)
    requires LateAward(m, s, id, seen).Some?
    ensures Forward(m.shipments[s].status, LateAward(m, s, id, seen).value.shipments[s].status) <==>
            m.shipments[s].status in {Draft, Created, Broadcasting, Assigned}
  {
    hide RejectOthers;
  }

  /** A late progress write breaks consistency exactly when it reopens a completed shipment. */
  lemma LateAdvanceBreaksExactlyCompleted(m: Market, s: Id, p: Progress)
    requires Consistent(m) && s in m.assignments && s in m.shipments && m.shipments[s].mode.ByMarketplace?
    ensures Consistent(LateAdvance(m, s, p)) <==> p.ConfirmDropoff? || !m.shipments[s].status.Completed?
  {
    if p.ConfirmDropoff? || !m.shipments[s].status.Completed? {
      LateAdvanceKeeps(m, s, p);
    } else {
      assert ShipmentOk(m, s);
      assert s in LateAdvance(m, s, p).shipments && !ShipmentOk(LateAdvance(m, s, p), s);
    }
  }

  /** A late cancellation breaks it exactly when the shipment has been completed meanwhile. */
  lemma LateCancelBreaksExactlyCompleted(m: Market, s: Id)
    requires Consistent(m) && s in m.shipments && m.shipments[s].mode.ByMarketplace?
    ensures Consistent(LateCancellation(m, s)) <==> !m.shipments[s].status.Completed?
  {
    if m.shipments[s].status.Completed? {
      assert ShipmentOk(m, s);
      assert s in LateCancellation(m, s).shipments && !ShipmentOk(LateCancellation(m, s), s);
    } else {
      LateCancelKeeps(m, s);
    }
  }
}

/** When counters and declines of dispatch offers go through, and what they write. */
module DispatchReplies {
  import opened Options
  import opened Shipments
  import opened DispatchTables

  /** The currency that a counter is written in: the given one or else the shipment's, in capitals. */
  function WrittenCurrency(r: Reply, row: Shipment): string
    requires r.CounterReply?
  {
    Upper(if r.currency.Some? then r.currency.value else row.currency)
  }

  /**
   The provider's own offer is sent or viewed and unexpired, the amount is positive and above the price of a
   shipment that still waits, and the currency is the shipment's up to its letter case.
   */
  predicate MayCounter(t: Tables, r: Reply)
    requires r.CounterReply?
  {
    && r.offer in t.offers
    && var offer := t.offers[r.offer];
       && offer.provider == r.provider && offer.status in {Sent, Viewed}
       && (offer.expiresAt.Some? ==> offer.expiresAt.value > r.now)
       && r.amount.Some? && r.amount.value > 0
       && offer.shipment in t.shipments
       && var row := t.shipments[offer.shipment];
          && row.status in {Created, Broadcasting}
          && (row.finalPrice.Some? ==> r.amount.value > row.finalPrice.value)
          && (row.finalPrice.None? && row.quotedPrice.Some? ==> r.amount.value > row.quotedPrice.value)
          && WrittenCurrency(r, row) != ""
          && (row.currency != "" ==> WrittenCurrency(r, row) == Upper(row.currency))
  }

  /**
   A counter goes through exactly when it may, and then writes its amount and currency on the offer and
   nothing else.
   */
  lemma CounterGoesThroughExactly(t: Tables, r: Reply)
    requires r.CounterReply?
    ensures Respond(t, r) ==
            if !MayCounter(t, r) then t
            else
              var offer := t.offers[r.offer];
              t.(offers := t.offers[r.offer := offer.(status := Countered, counterAmount := r.amount,
                                                      counterCurrency := Some(WrittenCurrency(r,
                                                        t.shipments[offer.shipment])))])
  {
    hide Upper;
  }

  /** A provider declines its own sent or viewed offer, a shipper the counter on its dispatch shipment. */
  predicate MayDecline(t: Tables, r: Reply)
    requires !r.CounterReply?
  {
    && r.offer in t.offers
    && var offer := t.offers[r.offer];
       if r.DeclineReply? then offer.provider == r.provider && offer.status in {Sent, Viewed}
       else
         && offer.shipment == r.shipment && r.shipment in t.shipments && t.shipments[r.shipment].mode.ByDispatch?
         && offer.status.Countered?
  }

  lemma DeclineGoesThroughExactly(t: Tables, r: Reply)
    requires !r.CounterReply?
    ensures Respond(t, r) ==
            if !MayDecline(t, r) then t
            else t.(offers := t.offers[r.offer := t.offers[r.offer].(status := Declined)])
  {
  }
}

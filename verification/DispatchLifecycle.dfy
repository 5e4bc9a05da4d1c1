/**
 Shipments only move forward through the dispatch protocol, and finish together with their assignment, when
 calls do not overlap; and, for each write that is checked before it is made, exactly which late ones move a
 shipment back or part it from its assignment.
 */
module DispatchLifecycle {
  import opened Options
  import opened Shipments
  import opened DispatchTables
  import opened DispatchAgreement

  ghost predicate MovesForward(t: Tables, t': Tables) {
    forall s | s in t.shipments :: s in t'.shipments && Forward(t.shipments[s].status, t'.shipments[s].status)
  }

  /** The only shipment statuses a step can write, and from where. */
  lemma NextStatus(t: Tables, e: Event, s: Id)
    requires s in t.shipments
    ensures s in Next(t, e).shipments
    ensures var before, after := t.shipments[s].status, Next(t, e).shipments[s].status;
            || after == before
            || (before.Created? && after.Broadcasting?)
            || (before in {Created, Broadcasting} && after.Assigned?)
            || (exists p :: Allows(p, before) && after == Reaches(p))
            || (IsCancellable(before) && after.Cancelled?)
  {
    hide SendOffers, CancelOthers, Allows, Reaches;
  }

  lemma NextMovesForward(t: Tables, e: Event)
    ensures MovesForward(t, Next(t, e))
  {
    hide Next;
    forall s | s in t.shipments
      ensures s in Next(t, e).shipments && Forward(t.shipments[s].status, Next(t, e).shipments[s].status)
    {
      NextStatus(t, e, s);
    }
  }

  /** Over any continuation, a shipment's rank never falls and a final status never changes. */
  lemma {:induction false} RunMovesForward(t: Tables, events: seq<Event>)
    ensures MovesForward(t, Run(t, events))
    decreases |events|
  {
    if events != [] {
      NextMovesForward(t, events[0]);
      RunMovesForward(Next(t, events[0]), events[1..]);
      hide Next;
    }
  }

  predicate IsCompleted(t: Tables, s: Id) { s in t.shipments && t.shipments[s].status.Completed? }

  predicate IsFulfilled(t: Tables, s: Id) { s in t.assignments && t.assignments[s].status.Fulfilled? }

  /** A shipment is completed exactly when its assignment is, and an assignment is either active or completed. */
  ghost predicate FinishTogether(t: Tables) {
    && (forall s :: IsCompleted(t, s) <==> IsFulfilled(t, s))
    && (forall s | s in t.assignments :: s in t.shipments && !t.assignments[s].status.Withdrawn?)
  }

  predicate SameProgress(t: Tables, t': Tables, s: Id) {
    (IsCompleted(t', s) <==> IsCompleted(t, s)) && (s in t'.assignments <==> s in t.assignments)
    && (s in t.assignments ==> t'.assignments[s].status == t.assignments[s].status)
  }

  /** How one step can change a shipment's assignment and completion. */
  lemma NextAssignment(t: Tables, e: Event, s: Id)
    requires s in t.assignments ==> s in t.shipments
    ensures var t' := Next(t, e);
            && (s in t.shipments ==> s in t'.shipments)
            && (|| SameProgress(t, t', s)
                || (s in t'.shipments && t'.shipments[s].status.Assigned? && s in t'.assignments
                     && t'.assignments[s].status.Active?)
                || (IsCompleted(t', s) && IsFulfilled(t', s)))
  {
    hide SendOffers, CancelOthers, Upper, AgreedPrice, AgreedCurrency, IsDue, Price, ReadOffer, CheckPrice;
  }

  lemma NextFinishes(t: Tables, e: Event)
    requires FinishTogether(t)
    ensures FinishTogether(Next(t, e))
  {
    hide Next;
    forall s { NextAssignment(t, e, s); }
  }

  lemma {:induction false} RunFinishes(t: Tables, events: seq<Event>)
    requires FinishTogether(t)
    ensures FinishTogether(Run(t, events))
    decreases |events|
  {
    hide FinishTogether;
    if events != [] {
      NextFinishes(t, events[0]);
      RunFinishes(Next(t, events[0]), events[1..]);
    }
  }

  lemma CompletedTogether(events: seq<Event>, s: Id)
    ensures var t := Run(EMPTY_TABLES, events); IsCompleted(t, s) <==> IsFulfilled(t, s)
  {
    RunFinishes(EMPTY_TABLES, events);
  }

  /** Only the assigned provider completes a shipment, and only after its pickup. */
  lemma CompletionIsTheProvidersDropoff(t: Tables, e: Event, s: Id)
    requires !IsCompleted(t, s) && IsCompleted(Next(t, e), s)
    ensures e.Advance? && e.s == s && e.progress.ConfirmDropoff?
    ensures s in t.assignments && t.assignments[s].provider == e.provider && t.assignments[s].status.Active?
    ensures s in t.shipments && Rank(t.shipments[s].status) >= Rank(PickedUp)
  {
    hide SendOffers, CancelOthers;
  }

  /** The cancellation of a shipment takes effect unless it is already final, and then no later call moves it again. */
  lemma CancelledForGood(t: Tables, s: Id, events: seq<Event>)
    requires s in t.shipments && !IsFinal(t.shipments[s].status)
    ensures var t' := Run(CancelShipment(t, s), events); s in t'.shipments && t'.shipments[s].status.Cancelled?
  {
    RunMovesForward(CancelShipment(t, s), events);
  }

  // ----- late writes

  /** A progress write moves the shipment forward exactly when its status is not overtaken yet. */
  lemma LateProgressMovesBackExactly(t: Tables, s: Id, p: Progress)
    requires s in t.shipments && s in t.assignments
    ensures MovesForward(t, LateProgress(t, s, p)) <==> t.shipments[s].status !in Overtaken(p)
  {
    OvertakenExactly(p, t.shipments[s].status);
    assert LateProgress(t, s, p).shipments[s].status == Reaches(p);
  }

  /** It parts a shipment from its assignment exactly when it reopens a completed one. */
  lemma LateProgressPartsExactlyCompleted(t: Tables, s: Id, p: Progress)
    requires FinishTogether(t) && s in t.shipments && s in t.assignments
    ensures FinishTogether(LateProgress(t, s, p)) <==> p.ConfirmDropoff? || !IsCompleted(t, s)
  {
    var t' := LateProgress(t, s, p);
    assert IsCompleted(t, s) <==> IsFulfilled(t, s);
    if p.ConfirmDropoff? || !IsCompleted(t, s) {
      forall x ensures IsCompleted(t', x) <==> IsFulfilled(t', x) { assert IsCompleted(t, x) <==> IsFulfilled(t, x); }
    } else {
      assert !IsCompleted(t', s) && IsFulfilled(t', s);
    }
  }

  /** A cancellation moves the shipment forward exactly when it has not been completed or expired meanwhile. */
  lemma LateCancelMovesBackExactly(t: Tables, s: Id)
    requires s in t.shipments
    ensures MovesForward(t, LateCancel(t, s)) <==> t.shipments[s].status !in {Completed, Expired}
  {
    assert LateCancel(t, s).shipments[s].status == Cancelled;
  }

  /** It parts a shipment from its assignment exactly when that has been completed. */
  lemma LateCancelPartsExactlyCompleted(t: Tables, s: Id)
    requires FinishTogether(t) && s in t.shipments
    ensures FinishTogether(LateCancel(t, s)) <==> !IsCompleted(t, s)
  {
    var t' := LateCancel(t, s);
    assert IsCompleted(t, s) <==> IsFulfilled(t, s);
    if IsCompleted(t, s) {
      assert !IsCompleted(t', s) && IsFulfilled(t', s);
    } else {
      forall x ensures IsCompleted(t', x) <==> IsFulfilled(t', x) { assert IsCompleted(t, x) <==> IsFulfilled(t, x); }
    }
  }

  /** A dispatch moves the shipment forward exactly when it is still waiting for a provider. */
  lemma LateDispatchMovesBackExactly(t: Tables, s: Id, saw: Option<Batch>, eligible: seq<Candidate>, newId: Id)
    requires LateDispatch(t, s, saw, eligible, newId).Some?
    ensures MovesForward(t, LateDispatch(t, s, saw, eligible, newId).value) <==>
            t.shipments[s].status in {Draft, Created, Broadcasting}
  {
    hide SendOffers;
    assert LateDispatch(t, s, saw, eligible, newId).value.shipments[s].status == Broadcasting;
  }
}

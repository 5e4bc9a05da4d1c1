/** What the reconcile loop over the shipments that are due achieves. */
module DispatchReconcile {
  import opened Options
  import opened Shipments
  import opened DispatchTables
  import Agreement = DispatchAgreement
  import Lifecycle = DispatchLifecycle

  /** What one dispatch call meets: its clock, the providers it finds, and the id of a batch it may open. */
  datatype Call = Call(now: int, eligible: seq<Candidate>, newBatch: Id)

  /** The reconcile query's answer: due shipments, each once, no more than it may take. */
  predicate IsDueList(t: Tables, due: seq<Id>, take: nat, now: int) {
    && |due| <= take
    && (forall i, j | 0 <= i < j < |due| :: due[i] != due[j])
    && (forall i | 0 <= i < |due| :: SelectedAsDue(t, due[i], now))
  }

  predicate DispatchesNow(t: Tables, s: Id, c: Call) { Dispatches(t, s, c.eligible, c.newBatch, c.now) }

  /** The tables after the loop. */
  function Reconciled(t: Tables, due: seq<Id>, calls: seq<Call>): Tables
    requires |due| == |calls|
  {
    if due == [] then t
    else
      var n := |due| - 1;
      Dispatch(Reconciled(t, due[..n], calls[..n]), due[n], calls[n].eligible, calls[n].newBatch, calls[n].now)
  }

  function CountDispatched(t: Tables, due: seq<Id>, calls: seq<Call>): nat
    requires |due| == |calls|
  {
    if due == [] then 0
    else
      var n := |due| - 1;
      CountDispatched(t, due[..n], calls[..n])
      + (if DispatchesNow(Reconciled(t, due[..n], calls[..n]), due[n], calls[n]) then 1 else 0)
  }

  // ----- what the loop achieves

  /** Batch ids are generated, so they are new and distinct; clocks do not run back. */
  predicate CallsAreFresh(t: Tables, calls: seq<Call>, now: int) {
    && (forall i | 0 <= i < |calls| :: calls[i].now >= now && !BatchIdTaken(t, calls[i].newBatch))
    && (forall i, j | 0 <= i < j < |calls| :: calls[i].newBatch != calls[j].newBatch)
  }

  function CountServed(calls: seq<Call>): nat {
    if calls == [] then 0 else CountServed(calls[..|calls| - 1]) + (if calls[|calls| - 1].eligible != [] then 1 else 0)
  }

  predicate UsesBatchId(calls: seq<Call>, id: Id) { exists i | 0 <= i < |calls| :: calls[i].newBatch == id }

  /** What holds after the loop has handled `due`. */
  ghost predicate Handled(t: Tables, t': Tables, due: seq<Id>, calls: seq<Call>)
    requires |due| == |calls|
  {
    && t'.assignments == t.assignments
    && (forall i | 0 <= i < |due| && calls[i].eligible != [] ::
          due[i] in t'.shipments && t'.shipments[due[i]].status.Broadcasting? && due[i] in t'.batches)
    && (forall i | 0 <= i < |due| && calls[i].eligible == [] :: SameShipment(t, t', due[i]))
    && (forall s | s !in due :: SameShipment(t, t', s))
    && (forall id | BatchIdTaken(t', id) :: BatchIdTaken(t, id) || UsesBatchId(calls, id))
  }

  predicate SameShipment(t: Tables, t': Tables, s: Id) {
    && (s in t.shipments <==> s in t'.shipments) && (s in t.shipments ==> t'.shipments[s] == t.shipments[s])
    && (s in t.batches <==> s in t'.batches) && (s in t.batches ==> t'.batches[s] == t.batches[s])
  }

  lemma OneMoreHandled(t: Tables, u: Tables, due: seq<Id>, calls: seq<Call>, now: int)
    requires |due| == |calls| && due != []
    requires IsDueList(t, due, |due|, now) && CallsAreFresh(t, calls, now)
    requires Handled(t, u, due[..|due| - 1], calls[..|due| - 1])
    ensures var n := |due| - 1;
            && DispatchesNow(u, due[n], calls[n]) == (calls[n].eligible != [])
            && Handled(t, Dispatch(u, due[n], calls[n].eligible, calls[n].newBatch, calls[n].now), due, calls)
  {
    var n := |due| - 1;
    var s, c := due[n], calls[n];
    assert SelectedAsDue(t, s, now);
    assert due == due[..n] + [s] && calls == calls[..n] + [c];
    assert s !in due[..n];
    assert SameShipment(t, u, s);
    assert !BatchIdTaken(u, c.newBatch);
    DueIsMonotone(t.shipments[s].schedule, t.shipments[s].scheduledAt, now, c.now);
    assert PassesGuards(u, s, c.now);
    DispatchHandles(t, u, due, calls);
  }

  lemma DispatchHandles(t: Tables, u: Tables, due: seq<Id>, calls: seq<Call>)
    requires |due| == |calls| && due != [] && due[|due| - 1] !in due[..|due| - 1]
    requires Handled(t, u, due[..|due| - 1], calls[..|due| - 1])
    requires var n := |due| - 1; DispatchesNow(u, due[n], calls[n]) == (calls[n].eligible != [])
    requires SameShipment(t, u, due[|due| - 1])
    ensures var n := |due| - 1;
            Handled(t, Dispatch(u, due[n], calls[n].eligible, calls[n].newBatch, calls[n].now), due, calls)
  {
    hide SendOffers, PassesGuards, BatchIdTaken;
    var n := |due| - 1;
    var s, c := due[n], calls[n];
    var v := Dispatch(u, s, c.eligible, c.newBatch, c.now);
    forall id | BatchIdTaken(v, id) ensures BatchIdTaken(u, id) || id == c.newBatch { BatchIdsGrow(u, s, c, id); }
    forall i | 0 <= i < |due|
      ensures calls[i].eligible != [] ==>
              due[i] in v.shipments && v.shipments[due[i]].status.Broadcasting? && due[i] in v.batches
      ensures calls[i].eligible == [] ==> SameShipment(t, v, due[i])
    {
      if i < n {
        assert due[..n][i] == due[i] && calls[..n][i] == calls[i];
      }
    }
    forall x | x !in due ensures SameShipment(t, v, x) {
      assert x !in due[..n];
    }
    forall id | BatchIdTaken(v, id) ensures BatchIdTaken(t, id) || UsesBatchId(calls, id) {
      if id != c.newBatch && !BatchIdTaken(t, id) {
        var i :| 0 <= i < |calls[..n]| && calls[..n][i].newBatch == id;
        assert calls[i].newBatch == id;
      } else {
        assert id == c.newBatch ==> calls[n].newBatch == id;
      }
    }
  }

  lemma BatchIdsGrow(u: Tables, s: Id, c: Call, id: Id)
    requires BatchIdTaken(Dispatch(u, s, c.eligible, c.newBatch, c.now), id)
    ensures BatchIdTaken(u, id) || id == c.newBatch
  {
    hide SendOffers, PassesGuards;
  }

  lemma NothingHandled(t: Tables)
    ensures Handled(t, t, [], [])
  {
    hide BatchIdTaken;
  }

  lemma {:induction false} LoopHandles(t: Tables, due: seq<Id>, calls: seq<Call>, now: int)
    requires |due| == |calls| && IsDueList(t, due, |due|, now) && CallsAreFresh(t, calls, now)
    ensures Handled(t, Reconciled(t, due, calls), due, calls)
    ensures CountDispatched(t, due, calls) == CountServed(calls)
    decreases |due|
  {
    hide Handled, SelectedAsDue, BatchIdTaken, Dispatches, Dispatch;
    if due == [] {
      NothingHandled(t);
    } else {
      var n := |due| - 1;
      LoopHandles(t, due[..n], calls[..n], now);
      OneMoreHandled(t, Reconciled(t, due[..n], calls[..n]), due, calls, now);
    }
  }

  /** The count is the number of due shipments that found a provider. */
  lemma CountIsExact(t: Tables, due: seq<Id>, take: nat, calls: seq<Call>, now: int)
    requires |due| == |calls| && IsDueList(t, due, take, now) && CallsAreFresh(t, calls, now)
    ensures CountDispatched(t, due, calls) == CountServed(calls)
  {
    LoopHandles(t, due, calls, now);
  }

  /** After the loop, a handled shipment is still due exactly when it found no provider. */
  lemma StillDueExactlyWhenUnserved(t: Tables, due: seq<Id>, take: nat, calls: seq<Call>, now: int, i: nat, later: int)
    requires |due| == |calls| && IsDueList(t, due, take, now) && CallsAreFresh(t, calls, now)
    requires i < |due| && now <= later
    ensures SelectedAsDue(Reconciled(t, due, calls), due[i], later) <==> calls[i].eligible == []
  {
    hide Reconciled;
    LoopHandles(t, due, calls, now);
    assert SelectedAsDue(t, due[i], now);
    assert calls[i].eligible == [] ==> SameShipment(t, Reconciled(t, due, calls), due[i]);
  }

  /** The loop leaves every shipment it was not given alone. */
  lemma OthersUntouched(t: Tables, due: seq<Id>, take: nat, calls: seq<Call>, now: int, s: Id)
    requires |due| == |calls| && IsDueList(t, due, take, now) && CallsAreFresh(t, calls, now) && s !in due
    ensures SameShipment(t, Reconciled(t, due, calls), s)
  {
    LoopHandles(t, due, calls, now);
  }

  // ----- two dispatches of one shipment

  /** A call that reads its guards after a dispatch has committed does not pass them, whatever happened in between. */
  lemma DispatchedOnceInSequence(t: Tables, s: Id, first: Call, between: seq<Agreement.Event>, second: Call)
    requires DispatchesNow(t, s, first)
    ensures var u := Agreement.Run(Dispatch(t, s, first.eligible, first.newBatch, first.now), between);
            !PassesGuards(u, s, second.now) && !DispatchesNow(u, s, second)
  {
    hide SendOffers, Agreement.Run;
    Lifecycle.RunMovesForward(Dispatch(t, s, first.eligible, first.newBatch, first.now), between);
  }

  lemma {:induction false} BatchesStay(t: Tables, events: seq<Agreement.Event>)
    ensures forall s | s in t.batches :: s in Agreement.Run(t, events).batches
    ensures forall s | s in t.shipments :: s in Agreement.Run(t, events).shipments
    decreases |events|
  {
    if events != [] {
      BatchStays(t, events[0]);
      hide Agreement.Next;
      BatchesStay(Agreement.Next(t, events[0]), events[1..]);
    }
  }

  lemma BatchStays(t: Tables, e: Agreement.Event)
    ensures forall s | s in t.batches :: s in Agreement.Next(t, e).batches
    ensures forall s | s in t.shipments :: s in Agreement.Next(t, e).shipments
  {
    hide SendOffers, CancelOthers;
  }

  /**
   A second call that passed its guards before the first one's writes dispatches the shipment again exactly
   when it has read the first one's batch while that was not assigned. Having read no batch, its insert
   throws; having read an assigned one, it gives up.
   */
  lemma SecondDispatchExactly(t: Tables, s: Id, first: Call, between: seq<Agreement.Event>, saw: Option<Batch>,
                              second: Call)
    requires DispatchesNow(t, s, first) && second.eligible != []
    ensures var u := Agreement.Run(Dispatch(t, s, first.eligible, first.newBatch, first.now), between);
            LateDispatch(u, s, saw, second.eligible, second.newBatch).Some? <==>
            saw.Some? && !saw.value.status.BatchAssigned?
  {
    hide SendOffers, Agreement.Run;
    BatchesStay(Dispatch(t, s, first.eligible, first.newBatch, first.now), between);
  }

  /**
   So, reading the batch after the first call's writes, it dispatches again exactly when nobody has been
   assigned by then.
   */
  lemma OverlappingCallDispatchesAgainExactly(t: Tables, s: Id, first: Call, before: seq<Agreement.Event>,
                                              between: seq<Agreement.Event>, second: Call)
    requires Agreement.Agree(t) && DispatchesNow(t, s, first) && second.eligible != []
    ensures var read := Agreement.Run(Dispatch(t, s, first.eligible, first.newBatch, first.now), before);
            LateDispatch(Agreement.Run(read, between), s, BatchOf(read, s), second.eligible, second.newBatch).Some? <==>
            s !in read.assignments
  {
    hide SendOffers, Agreement.Run;
    var t1 := Dispatch(t, s, first.eligible, first.newBatch, first.now);
    var read := Agreement.Run(t1, before);
    Agreement.DispatchKeeps(t, s, first.eligible, first.newBatch, first.now);
    Agreement.RunKeeps(t1, before);
    BatchesStay(t1, before);
    BatchesStay(read, between);
    assert Agreement.ShipmentAgrees(read, s);
    assert s in read.assignments ==> Agreement.AssignmentAgrees(read, s);
  }
}

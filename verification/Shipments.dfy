/** The shipment columns that the dispatch, marketplace and dashboard services share. */
module Shipments {
  import opened Options

  type Id = nat

  datatype Mode = ByDispatch | ByMarketplace

  datatype VehicleCategory = Bike | Van | Truck

  datatype Schedule = Instant | Scheduled

  datatype Status =
    | Draft
    | Created
    | Broadcasting
    | Assigned
    | EnRoutePickup
    | PickedUp
    | EnRouteDropoff
    | Delivered
    | Completed
    | Cancelled
    | Expired

  /** How far along its life a shipment is. */
  function Rank(s: Status): nat {
    match s
    case Draft => 0
    case Created => 1
    case Broadcasting => 2
    case Assigned => 3
    case EnRoutePickup => 4
    case PickedUp => 5
    case EnRouteDropoff => 6
    case Delivered => 7
    case Completed => 8
    case Cancelled => 9
    case Expired => 9
  }

  predicate IsFinal(s: Status) { s.Completed? || s.Cancelled? || s.Expired? }

  predicate IsCancellable(s: Status) { !IsFinal(s) }

  /** The ranks follow the life of a shipment, and its three ends are the statuses that cannot be cancelled. */
  lemma LifeOfAShipment(s: Status)
    ensures Rank(Draft) < Rank(Created) < Rank(Broadcasting) < Rank(Assigned) < Rank(EnRoutePickup) < Rank(PickedUp)
    ensures Rank(PickedUp) < Rank(EnRouteDropoff) < Rank(Delivered) < Rank(Completed) < Rank(Cancelled) == Rank(Expired)
    ensures IsFinal(s) <==> s in {Completed, Cancelled, Expired}
    ensures IsCancellable(s) <==> s !in {Completed, Cancelled, Expired}
  {
  }

  datatype AssignmentStatus = Active | Fulfilled | Withdrawn

  /** The provider progress actions, shared by dispatch and marketplace shipments. */
  datatype Progress = MarkEnRoute | ConfirmPickup | ConfirmDropoff

  predicate Allows(p: Progress, s: Status) {
    match p
    case MarkEnRoute => s in {Assigned, EnRoutePickup}
    case ConfirmPickup => s in {Assigned, EnRoutePickup, PickedUp}
    case ConfirmDropoff => s in {PickedUp, EnRouteDropoff, Delivered, Completed}
  }

  function Reaches(p: Progress): Status {
    match p
    case MarkEnRoute => EnRoutePickup
    case ConfirmPickup => PickedUp
    case ConfirmDropoff => Completed
  }

  /** A progress action never moves a shipment back and never leaves a final status. */
  lemma ProgressNeverRegresses(p: Progress, s: Status)
    requires Allows(p, s)
    ensures Rank(Reaches(p)) >= Rank(s) && (IsFinal(s) ==> Reaches(p) == s)
  {
  }

  /** A later status: the rank does not fall, and a final status stays. */
  predicate Forward(before: Status, after: Status) {
    Rank(after) >= Rank(before) && (IsFinal(before) ==> after == before)
  }

  /** The statuses that a progress write, checked earlier, must no longer find. */
  function Overtaken(p: Progress): set<Status> {
    match p
    case MarkEnRoute => {PickedUp, EnRouteDropoff, Delivered, Completed, Cancelled, Expired}
    case ConfirmPickup => {EnRouteDropoff, Delivered, Completed, Cancelled, Expired}
    case ConfirmDropoff => {Cancelled, Expired}
  }

  /** A status that a progress action allows is not overtaken. */
  lemma OvertakenExactly(p: Progress, s: Status)
    ensures Forward(s, Reaches(p)) <==> s !in Overtaken(p)
    ensures Allows(p, s) ==> s !in Overtaken(p)
  {
  }

  /** From where each progress action may be made, and where it leads. */
  lemma ProgressTable(s: Status)
    ensures Allows(MarkEnRoute, s) <==> s in {Assigned, EnRoutePickup}
    ensures Allows(ConfirmPickup, s) <==> s in {Assigned, EnRoutePickup, PickedUp}
    ensures Allows(ConfirmDropoff, s) <==> s in {PickedUp, EnRouteDropoff, Delivered, Completed}
    ensures Reaches(MarkEnRoute) == EnRoutePickup && Reaches(ConfirmPickup) == PickedUp
            && Reaches(ConfirmDropoff) == Completed
  {
  }

  // ----- schedules

  /** The dispatch transaction's own dueness test; times are epoch milliseconds. */
  predicate IsDue(schedule: Schedule, scheduledAt: Option<int>, now: int) {
    if schedule.Instant? then true
    else if scheduledAt.None? then true
    else scheduledAt.value <= now
  }

  datatype Trigger = OnCreation | OnSchedule

  /** The queue job of a new dispatch shipment: its trigger and delay. */
  function DispatchJob(schedule: Schedule, scheduledAt: Option<int>, now: int): (Trigger, int) {
    if schedule.Scheduled? && scheduledAt.Some? && scheduledAt.value - now > 0
    then (OnSchedule, scheduledAt.value - now)
    else (OnCreation, 0)
  }

  /** The job fires at the first moment, not before now, at which the shipment is due. */
  lemma JobFiresWhenFirstDue(schedule: Schedule, scheduledAt: Option<int>, now: int)
    ensures var (trigger, delay) := DispatchJob(schedule, scheduledAt, now);
            && delay >= 0
            && IsDue(schedule, scheduledAt, now + delay)
            && (forall t | now <= t < now + delay :: !IsDue(schedule, scheduledAt, t))
            && (trigger == OnSchedule <==> !IsDue(schedule, scheduledAt, now))
  {
  }

  lemma DueIsMonotone(schedule: Schedule, scheduledAt: Option<int>, now: int, later: int)
    requires now <= later && IsDue(schedule, scheduledAt, now)
    ensures IsDue(schedule, scheduledAt, later)
  {
  }
}

/** The providers that a dispatch sends offers to. */
module DispatchEligibility {
  import opened Options
  import opened Shipments

  datatype Place = Place(lat: Option<real>, lng: Option<real>)

  datatype Point = Point(lat: real, lng: real)

  datatype Presence = Presence(at: Place, heartbeat: Option<int>)

  /** `ongoing` is the dropoff of a shipment the provider is already carrying. */
  datatype Provider = Provider(id: Id, category: VehicleCategory, presence: Option<Presence>, ongoing: Option<Place>)

  /** The distance between two points in kilometres is a parameter. */
  datatype Settings = Settings(km: (Point, Point) -> real, radius: real, align: real)

  predicate Located(p: Place) { p.lat.Some? && p.lng.Some? }

  function At(p: Place): Point
    requires Located(p)
  {
    Point(p.lat.value, p.lng.value)
  }

  // ----- what makes a provider eligible

  predicate IsLive(p: Provider, cutoff: int) {
    p.presence.Some? && Located(p.presence.value.at) && p.presence.value.heartbeat.Some?
      && p.presence.value.heartbeat.value >= cutoff
  }

  predicate IsNear(p: Provider, pickup: Place, settings: Settings)
    requires p.presence.Some? && Located(p.presence.value.at)
  {
    Located(pickup) ==> settings.km(At(p.presence.value.at), At(pickup)) <= settings.radius
  }

  /** The pickup is close to where the provider is going anyway. */
  predicate IsAligned(dropoff: Place, pickup: Place, settings: Settings) {
    Located(dropoff) && Located(pickup) && settings.km(At(pickup), At(dropoff)) <= settings.align
  }

  predicate OnAnAxis(p: Place) { p.lat == Some(0.0) || p.lng == Some(0.0) }

  predicate IsEligible(p: Provider, category: VehicleCategory, pickup: Place, cutoff: int, settings: Settings) {
    && p.category == category
    && IsLive(p, cutoff) && IsNear(p, pickup, settings)
    && (p.ongoing.Some? ==> IsAligned(p.ongoing.value, pickup, settings) && !OnAnAxis(p.ongoing.value))
  }

  function EligibleOf(providers: seq<Provider>, category: VehicleCategory, pickup: Place, cutoff: int,
                      settings: Settings): seq<Id> {
    if providers == [] then []
    else
      var rest := EligibleOf(providers[..|providers| - 1], category, pickup, cutoff, settings);
      var last := providers[|providers| - 1];
      if IsEligible(last, category, pickup, cutoff, settings) then rest + [last.id] else rest
  }

  // ----- the loop

  /** JavaScript's `!x`: a missing coordinate and a zero one are both falsy. */
  predicate Falsy(x: Option<real>) { x.None? || x.value == 0.0 }

  method FindEligibleProviders(providers: seq<Provider>, category: VehicleCategory, pickup: Place, cutoff: int,
                               settings: Settings)
    returns (eligible: seq<Id>)
    ensures eligible == EligibleOf(providers, category, pickup, cutoff, settings)
  {
    var hasPickup := pickup.lat.Some? && pickup.lng.Some?;
    eligible := [];
    for i := 0 to |providers|
      invariant eligible == EligibleOf(providers[..i], category, pickup, cutoff, settings)
    {
      var provider := providers[i];
      assert providers[..i + 1][..i] == providers[..i];
      if provider.category != category { continue; }
      if provider.presence.None? { continue; }
      var presence := provider.presence.value;
      if presence.at.lat.None? || presence.at.lng.None? || presence.heartbeat.None?
          || presence.heartbeat.value < cutoff {
        continue;
      }
      if hasPickup && settings.km(At(presence.at), At(pickup)) > settings.radius { continue; }
      if provider.ongoing.Some? {
        var dropoff := provider.ongoing.value;
        if Falsy(dropoff.lat) || Falsy(dropoff.lng) || !hasPickup { continue; }
        if settings.km(At(pickup), At(dropoff)) > settings.align { continue; }
      }
      eligible := eligible + [provider.id];
    }
    assert providers[..|providers|] == providers;
  }

  /** A provider gets an offer exactly when it is eligible. */
  lemma {:induction false} ChosenExactlyWhenEligible(providers: seq<Provider>, category: VehicleCategory, pickup: Place,
                                                     cutoff: int, settings: Settings, id: Id)
    ensures id in EligibleOf(providers, category, pickup, cutoff, settings)
       <==> exists p | p in providers :: p.id == id && IsEligible(p, category, pickup, cutoff, settings)
  {
    if providers != [] {
      var front, last := providers[..|providers| - 1], providers[|providers| - 1];
      ChosenExactlyWhenEligible(front, category, pickup, cutoff, settings, id);
      assert providers == front + [last];
    }
  }

  /**
   A provider that carries nothing is chosen exactly when its category fits, its heartbeat is no older than the
   cutoff and it is no further from the pickup than the radius.
   */
  lemma IdleProviderIsChosenExactly(id: Id, own: VehicleCategory, at: Point, heartbeat: int, category: VehicleCategory,
                                    pickup: Point, cutoff: int, settings: Settings)
    ensures var presence := Presence(Place(Some(at.lat), Some(at.lng)), Some(heartbeat));
            id in EligibleOf([Provider(id, own, Some(presence), None)], category,
              Place(Some(pickup.lat), Some(pickup.lng)),
                             cutoff, settings) <==>
            own == category && heartbeat >= cutoff && settings.km(at, pickup) <= settings.radius
  {
    var presence := Presence(Place(Some(at.lat), Some(at.lng)), Some(heartbeat));
    var place := Place(Some(pickup.lat), Some(pickup.lng));
    assert At(presence.at) == at && At(place) == pickup;
    ChosenExactlyWhenEligible([Provider(id, own, Some(presence), None)], category, place, cutoff, settings, id);
    hide EligibleOf;
    assert Provider(id, own, Some(presence), None) in [Provider(id, own, Some(presence), None)];
  }

  /** Nobody is chosen without a live position, and nobody busy without a known pickup and route. */
  lemma UnlocatedIsNeverChosen(p: Provider, category: VehicleCategory, pickup: Place, cutoff: int, settings: Settings)
    requires || p.presence.None? || p.presence.value.at.lat.None? || p.presence.value.at.lng.None?
             || p.presence.value.heartbeat.None?
             || (p.ongoing.Some? && (pickup.lat.None? || pickup.lng.None?
                                     || p.ongoing.value.lat.None? || p.ongoing.value.lng.None?))
    ensures p.id !in EligibleOf([p], category, pickup, cutoff, settings)
  {
    ChosenExactlyWhenEligible([p], category, pickup, cutoff, settings, p.id);
  }

  /**
   A busy provider whose route passes the pickup is passed over exactly when its dropoff lies on the
   equator or the prime meridian, because a zero coordinate reads as a missing one.
   */
  lemma AlignedIsChosenExactlyOffTheAxes(p: Provider, pickup: Place, cutoff: int, settings: Settings)
    requires p.ongoing.Some? && IsAligned(p.ongoing.value, pickup, settings)
    requires IsLive(p, cutoff) && IsNear(p, pickup, settings)
    ensures p.id in EligibleOf([p], p.category, pickup, cutoff, settings) <==> !OnAnAxis(p.ongoing.value)
  {
    ChosenExactlyWhenEligible([p], p.category, pickup, cutoff, settings, p.id);
  }
}

/** The records the views work on (Ride, RideShare, the rider and driver
    profiles of the requesting user) and the quantities derived from them. */
module Rides {
  import opened Wrappers

  type UserId = nat
  type RideId = nat

  /** The ride statuses the views read or write. */
  datatype Status = Open | Confirmed | Completed

  /** A driver's profile: seats, vehicle and the special service offered.
      The same `capacity` stands for the `maxPassengers` read by the claim. */
  datatype DriverProfile = DriverProfile(
    user: UserId, capacity: int, vehicleType: string, specialInfo: string)

  /** The authenticated requester: the rider profile, its `is_driver` flag and,
      when the user has one, the driver profile. */
  datatype Viewer = Viewer(user: UserId, isDriver: bool, driver: Option<DriverProfile>)

  /** Why a view refuses: a 404 from `get_object_or_404`, the error message
      it flashes, or the exception it raises. */
  datatype Error =
    | NotFound                // get_object_or_404 finds no matching ride
    | NotDriver               // "You are not a driver"
    | CannotEdit              // "Cannot edit this form"
    | AlreadyJoined           // the IntegrityError branch of ride_join
    | OverCapacity            // "Passengers size exceed total capacity"
    | SpecialRequestMismatch  // "Does not satisfy special request"
    | NameError               // the open board's unimported `datetime`

  /** The fields the ride request form sets; an empty tag means "no request". */
  datatype RideFields = RideFields(
    destination: string, scheduled: int, ownerPassengers: nat, canShared: bool,
    vehicleTypeRequest: string, specialRequest: string)

  datatype Ride = Ride(
    id: RideId, owner: UserId, destination: string, scheduled: int,
    ownerPassengers: nat, canShared: bool, vehicleTypeRequest: string,
    specialRequest: string, driver: Option<DriverProfile>, status: Status,
    createdAt: int)
  {
    /** The ride with its form-editable fields replaced. */
    function WithFields(f: RideFields): Ride
    {
      this.(destination := f.destination, scheduled := f.scheduled,
            ownerPassengers := f.ownerPassengers, canShared := f.canShared,
            vehicleTypeRequest := f.vehicleTypeRequest, specialRequest := f.specialRequest)
    }
  }

  /** One row of the ride-share table: `sharer` joined ride `ride` with
      `passenger` people. */
  datatype RideShare = RideShare(ride: RideId, sharer: UserId, passenger: nat)

  /** `Sum('ride_share__passenger')` for one ride, 0 when it has no shares. */
  function SharePassengers(id: RideId, shares: seq<RideShare>): nat
  {
    if shares == [] then 0
    else (if shares[0].ride == id then shares[0].passenger else 0) + SharePassengers(id, shares[1..])
  }

  /** The `total_people` annotation: the owner's party plus every sharer's. */
  function TotalPeople(r: Ride, shares: seq<RideShare>): nat
  {
    r.ownerPassengers + SharePassengers(r.id, shares)
  }

  /** A ride without share rows carries exactly the owner's party. */
  lemma {:induction false} TotalWithoutShares(r: Ride, shares: seq<RideShare>)
    requires forall k :: 0 <= k < |shares| ==> shares[k].ride != r.id
    ensures TotalPeople(r, shares) == r.ownerPassengers
  {
    if shares != [] {
      TotalWithoutShares(r, shares[1..]);
    }
  }

  /** Appending a share row adds its passengers to its own ride's total and
      leaves every other ride's total unchanged. */
  lemma {:induction false} TotalAfterShare(r: Ride, shares: seq<RideShare>, s: RideShare)
    ensures TotalPeople(r, shares + [s])
         == TotalPeople(r, shares) + (if s.ride == r.id then s.passenger else 0)
  {
    SharePassengersSnoc(r.id, shares, s);
  }

  lemma {:induction false} SharePassengersSnoc(id: RideId, shares: seq<RideShare>, s: RideShare)
    ensures SharePassengers(id, shares + [s])
         == SharePassengers(id, shares) + (if s.ride == id then s.passenger else 0)
  {
    if shares == [] {
      assert ([] + [s])[1..] == [];
    } else {
      assert (shares + [s])[1..] == shares[1..] + [s];
      SharePassengersSnoc(id, shares[1..], s);
    }
  }

  /** `ride_share.filter(sharer=user).exists()` for ride `id`: the user has a
      share row on that ride. */
  predicate Joined(shares: seq<RideShare>, id: RideId, user: UserId)
  {
    exists k :: 0 <= k < |shares| && shares[k].ride == id && shares[k].sharer == user
  }

  /** The ride's driver is the profile `d` (profiles compared by user). */
  predicate DrivenBy(r: Ride, d: DriverProfile)
  {
    r.driver.Some? && r.driver.value.user == d.user
  }

  /** A ride is OPEN exactly while it has no driver. */
  predicate OpenIffNoDriver(r: Ride)
  {
    r.status == Open <==> r.driver.None?
  }

  /** What holds of every stored ride: OPEN iff driverless, and once a driver
      is attached the party fits the driver's capacity. */
  predicate Consistent(r: Ride, shares: seq<RideShare>)
  {
    OpenIffNoDriver(r) && (r.driver.Some? ==> TotalPeople(r, shares) <= r.driver.value.capacity)
  }

  /** At most one share row per (ride, sharer): the table's unique constraint. */
  predicate UniqueShares(shares: seq<RideShare>)
  {
    forall i, j :: 0 <= i < j < |shares| ==>
      shares[i].ride != shares[j].ride || shares[i].sharer != shares[j].sharer
  }

  /** Appending a row for a pair that has no row yet keeps the constraint. */
  lemma AppendFreshShare(shares: seq<RideShare>, s: RideShare)
    requires UniqueShares(shares) && !Joined(shares, s.ride, s.sharer)
    ensures UniqueShares(shares + [s])
  {
    var t := shares + [s];
    forall i, j | 0 <= i < j < |t|
      ensures t[i].ride != t[j].ride || t[i].sharer != t[j].sharer
    {
      if j == |shares| {
        assert t[i] == shares[i];
      }
    }
  }
}

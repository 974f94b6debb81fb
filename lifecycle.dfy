/** The ride lifecycle: the views that create a ride, edit it, join it, claim
    it as a driver and complete it, over a store holding the ride table and
    the ride-share table. */
module Lifecycle {
  import opened Wrappers
  import opened Rides

  datatype Outcome = Done | Refused(reason: Error)

  function OutcomeOf(refusal: Option<Error>): Outcome
  {
    if refusal.Some? then Refused(refusal.value) else Done
  }

  /** The edit view's guard: the ride must exist and still be OPEN. */
  function EditRefusal(rides: map<RideId, Ride>, id: RideId): Option<Error>
  {
    if id !in rides then Some(NotFound)
    else if rides[id].status != Open then Some(CannotEdit)
    else None
  }

  /** The join view's guard: an OPEN, shareable ride, and no share row yet
      for this sharer (the unique constraint). Self-join and capacity are
      not checked. */
  function JoinRefusal(rides: map<RideId, Ride>, shares: seq<RideShare>, id: RideId, user: UserId): Option<Error>
  {
    if id !in rides || rides[id].status != Open || !rides[id].canShared then Some(NotFound)
    else if Joined(shares, id, user) then Some(AlreadyJoined)
    else None
  }

  /** The claim view's guards, in the order the view checks them. Vehicle
      type is not checked. */
  function ClaimRefusal(rides: map<RideId, Ride>, shares: seq<RideShare>, driver: Option<DriverProfile>, id: RideId): Option<Error>
  {
    if driver.None? then Some(NotDriver)
    else if id !in rides || rides[id].status != Open then Some(NotFound)
    else if TotalPeople(rides[id], shares) > driver.value.capacity then Some(OverCapacity)
    else if rides[id].specialRequest != "" && rides[id].specialRequest != driver.value.specialInfo then Some(SpecialRequestMismatch)
    else None
  }

  /** The complete view's guard: the caller's driver profile (reading it fails
      when there is none) must be the driver of a CONFIRMED ride. */
  function CompleteRefusal(rides: map<RideId, Ride>, driver: Option<DriverProfile>, id: RideId): Option<Error>
  {
    if driver.None? then Some(NotDriver)
    else if id !in rides || rides[id].status != Confirmed || !DrivenBy(rides[id], driver.value) then Some(NotFound)
    else None
  }

  /** The ride a successful claim by `d` stores. */
  function Claimed(r: Ride, d: DriverProfile): Ride
  {
    r.(driver := Some(d), status := Confirmed)
  }

  /** A successful claim turns an OPEN ride into a consistent CONFIRMED one:
      the driver is attached and the party fits the driver's capacity. */
  lemma ClaimEstablishesConsistency(rides: map<RideId, Ride>, shares: seq<RideShare>, d: DriverProfile, id: RideId)
    requires ClaimRefusal(rides, shares, Some(d), id) == None
    ensures id in rides && rides[id].status == Open
    ensures Consistent(Claimed(rides[id], d), shares)
    ensures rides[id].specialRequest == "" || rides[id].specialRequest == d.specialInfo
  {
    assert TotalPeople(Claimed(rides[id], d), shares) == TotalPeople(rides[id], shares);
  }

  /** The claim checks run in order: the role first, then the ride's status,
      so a non-driver is told so whatever the ride, and a driver learns of a
      capacity or special-request problem only on an OPEN ride. */
  lemma ClaimCheckOrder(rides: map<RideId, Ride>, shares: seq<RideShare>, driver: Option<DriverProfile>, id: RideId)
    ensures driver.None? ==> ClaimRefusal(rides, shares, driver, id) == Some(NotDriver)
    ensures driver.Some? && (id !in rides || rides[id].status != Open) ==>
              ClaimRefusal(rides, shares, driver, id) == Some(NotFound)
    ensures ClaimRefusal(rides, shares, driver, id) in {Some(OverCapacity), Some(SpecialRequestMismatch)} ==>
              driver.Some? && id in rides && rides[id].status == Open
    ensures ClaimRefusal(rides, shares, driver, id) == Some(SpecialRequestMismatch) ==>
              TotalPeople(rides[id], shares) <= driver.value.capacity
  {
  }

  /** A ride of two with shares of three and one carries six people: a
      driver with six seats may claim it, one with five may not. */
  lemma ClaimCapacityExample(r: Ride, d: DriverProfile)
    requires r.status == Open && r.ownerPassengers == 2 && r.specialRequest == ""
    ensures var shares := [RideShare(r.id, 7, 3), RideShare(r.id, 8, 1)];
            && TotalPeople(r, shares) == 6
            && ClaimRefusal(map[r.id := r], shares, Some(d.(capacity := 6)), r.id) == None
            && ClaimRefusal(map[r.id := r], shares, Some(d.(capacity := 5)), r.id) == Some(OverCapacity)
  {
    var shares := [RideShare(r.id, 7, 3), RideShare(r.id, 8, 1)];
    assert shares[1..] == [RideShare(r.id, 8, 1)] && shares[1..][1..] == [];
    assert SharePassengers(r.id, shares[1..]) == 1;
  }

  /** A ride that is no longer OPEN, claimed ones included, is not found by
      the join view, whoever asks. */
  lemma JoinClaimedRideNotFound(rides: map<RideId, Ride>, shares: seq<RideShare>, id: RideId, user: UserId)
    requires id in rides && rides[id].status != Open
    ensures JoinRefusal(rides, shares, id, user) == Some(NotFound)
  {
  }

  /** Only the driver of a CONFIRMED ride can complete it. */
  lemma CompleteOnlyByItsDriver(rides: map<RideId, Ride>, driver: Option<DriverProfile>, id: RideId)
    requires CompleteRefusal(rides, driver, id) == None
    ensures driver.Some? && id in rides && rides[id].status == Confirmed
    ensures rides[id].driver.Some? && rides[id].driver.value.user == driver.value.user
  {
  }

  /** Statuses only move forward: OPEN, then CONFIRMED, then COMPLETED. */
  function Rank(s: Status): nat
  {
    match s
    case Open => 0
    case Confirmed => 1
    case Completed => 2
  }

  /** No ride disappears and no ride's status moves backwards. */
  predicate Progressed(before: map<RideId, Ride>, after: map<RideId, Ride>)
  {
    forall id :: id in before ==> id in after && Rank(before[id].status) <= Rank(after[id].status)
  }

  /** The ride table (by primary key) and the ride-share table (in insertion
      order), with the next primary key to hand out. */
  class RideStore {
    var rides: map<RideId, Ride>
    var shares: seq<RideShare>
    var nextId: RideId

    /** Keys match ids, every stored ride is consistent, every share row
        points at a stored ride, and (ride, sharer) pairs are unique. */
    ghost predicate Valid()
      reads this
    {
      && (forall id :: id in rides ==> rides[id].id == id && id < nextId && Consistent(rides[id], shares))
      && (forall k :: 0 <= k < |shares| ==> shares[k].ride in rides)
      && UniqueShares(shares)
    }

    constructor ()
      ensures Valid() && rides == map[] && shares == []
    {
      rides, shares, nextId := map[], [], 0;
    }

    /** `RideCreateView.form_valid`: the requester becomes the owner and the
        status is OPEN whatever `can_shared` says; no driver is attached.
        `now` is the creation timestamp. */
    method Create(owner: UserId, f: RideFields, now: int) returns (id: RideId)
      requires Valid()
      modifies this
      ensures Valid()
      ensures id !in old(rides)
      ensures rides == old(rides)[id := Ride(id, owner, f.destination, f.scheduled, f.ownerPassengers,
                                             f.canShared, f.vehicleTypeRequest, f.specialRequest,
                                             None, Open, now)]
      ensures shares == old(shares)
      ensures Progressed(old(rides), rides)
    {
      id := nextId;
      var r := Ride(id, owner, f.destination, f.scheduled, f.ownerPassengers,
                    f.canShared, f.vehicleTypeRequest, f.specialRequest, None, Open, now);
      rides := rides[id := r];
      nextId := nextId + 1;
    }

    /** `RideEditView.form_valid`: a ride that is no longer OPEN is left as it
        is; an OPEN one takes the form's fields and keeps its owner, driver,
        status and creation time. The owner check belongs to the view's
        mixin and is the caller's obligation here. */
    method Edit(editor: UserId, id: RideId, f: RideFields) returns (res: Outcome)
      requires Valid()
      requires id in rides ==> rides[id].owner == editor
      modifies this
      ensures Valid()
      ensures res == OutcomeOf(EditRefusal(old(rides), id))
      ensures res.Refused? ==> rides == old(rides)
      ensures res.Done? ==> rides == old(rides)[id := old(rides)[id].WithFields(f)]
      ensures shares == old(shares) && nextId == old(nextId)
      ensures Progressed(old(rides), rides)
    {
      var refusal := EditRefusal(rides, id);
      res := OutcomeOf(refusal);
      if refusal.None? {
        var r := rides[id].WithFields(f);
        rides := rides[id := r];
      }
    }

    /** `ride_join` on a POST with a valid form: on an OPEN, shareable ride a
        first join by `user` appends exactly one share row; a second join
        hits the unique constraint and changes nothing. */
    method Join(user: UserId, id: RideId, passengers: nat) returns (res: Outcome)
      requires Valid()
      modifies this
      ensures Valid()
      ensures res == OutcomeOf(JoinRefusal(old(rides), old(shares), id, user))
      ensures res.Refused? ==> shares == old(shares)
      ensures res.Done? ==> shares == old(shares) + [RideShare(id, user, passengers)]
      ensures res.Done? ==> id in rides && rides[id].status == Open && rides[id].canShared
      ensures res.Done? ==> TotalPeople(rides[id], shares) == TotalPeople(rides[id], old(shares)) + passengers
      ensures rides == old(rides) && nextId == old(nextId)
      ensures Joined(shares, id, user) <==> (Joined(old(shares), id, user) || res.Done?)
    {
      var refusal := JoinRefusal(rides, shares, id, user);
      res := OutcomeOf(refusal);
      if refusal.None? {
        var s := RideShare(id, user, passengers);
        AppendFreshShare(shares, s);
        forall rid | rid in rides
          ensures TotalPeople(rides[rid], shares + [s])
               == TotalPeople(rides[rid], shares) + (if rid == id then passengers else 0)
        {
          TotalAfterShare(rides[rid], shares, s);
        }
        shares := shares + [s];
        assert shares[|shares| - 1] == s;
      }
    }

    /** `driver_claim_ride`: after the role, status, capacity and special
        request checks, the claimer becomes the driver and the ride is
        CONFIRMED; nothing else changes, and a refused claim changes nothing. */
    method Claim(viewer: Viewer, id: RideId) returns (res: Outcome)
      requires Valid()
      modifies this
      ensures Valid()
      ensures res == OutcomeOf(ClaimRefusal(old(rides), old(shares), viewer.driver, id))
      ensures res.Refused? ==> rides == old(rides)
      ensures res.Done? ==> rides == old(rides)[id := Claimed(old(rides)[id], viewer.driver.value)]
      ensures shares == old(shares) && nextId == old(nextId)
      ensures Progressed(old(rides), rides)
    {
      var refusal := ClaimRefusal(rides, shares, viewer.driver, id);
      res := OutcomeOf(refusal);
      if refusal.None? {
        ClaimEstablishesConsistency(rides, shares, viewer.driver.value, id);
        rides := rides[id := Claimed(rides[id], viewer.driver.value)];
      }
    }

    /** `driver_complete_ride` on a POST: the ride's own driver moves a
        CONFIRMED ride to COMPLETED and keeps being its driver. */
    method Complete(viewer: Viewer, id: RideId) returns (res: Outcome)
      requires Valid()
      modifies this
      ensures Valid()
      ensures res == OutcomeOf(CompleteRefusal(old(rides), viewer.driver, id))
      ensures res.Refused? ==> rides == old(rides)
      ensures res.Done? ==> rides == old(rides)[id := old(rides)[id].(status := Completed)]
      ensures shares == old(shares) && nextId == old(nextId)
      ensures Progressed(old(rides), rides)
    {
      var refusal := CompleteRefusal(rides, viewer.driver, id);
      res := OutcomeOf(refusal);
      if refusal.None? {
        rides := rides[id := rides[id].(status := Completed)];
      }
    }
  }

  /** Joining the same ride twice leaves exactly one share row for the pair,
      and the second attempt is refused as a duplicate. */
  method JoinTwice(store: RideStore, user: UserId, id: RideId, passengers: nat)
    returns (first: Outcome, second: Outcome)
    requires store.Valid()
    modifies store
    ensures store.Valid()
    ensures second != Done
    ensures first == Done ==> second == Refused(AlreadyJoined)
    ensures first == Done ==> store.shares == old(store.shares) + [RideShare(id, user, passengers)]
    ensures first != Done ==> store.shares == old(store.shares)
    ensures store.rides == old(store.rides)
  {
    first := store.Join(user, id, passengers);
    second := store.Join(user, id, passengers);
    if first == Done {
      assert store.shares[|store.shares| - 1] == RideShare(id, user, passengers);
    }
  }
}

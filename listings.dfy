/** The ride listings: the open-ride board, the "my rides" dashboard, the
    sharer search, the driver search and the detail page's `has_joined`
    flag. Each reads the ride table (in primary-key order) and the
    ride-share table; none changes them. */
module Listings {
  import opened Wrappers
  import opened Text
  import opened Seqs
  import opened Rides
  import opened Lifecycle

  // ---------------------------------------------------------------------
  // Ordering by `-created_at`

  predicate NewestFirst(s: seq<Ride>)
  {
    forall i, j :: 0 <= i < j < |s| ==> s[i].createdAt >= s[j].createdAt
  }

  function InsertByNewest(x: Ride, s: seq<Ride>): (r: seq<Ride>)
    requires NewestFirst(s)
    ensures NewestFirst(r)
    ensures multiset(r) == multiset(s) + multiset{x}
    ensures |r| == |s| + 1
    ensures forall k :: 0 <= k < |r| ==> r[k] == x || r[k] in s
  {
    if s == [] || x.createdAt >= s[0].createdAt then [x] + s
    else
      var rest := InsertByNewest(x, s[1..]);
      assert s == [s[0]] + s[1..];
      [s[0]] + rest
  }

  /** The rows reordered so that the most recently created come first. */
  function SortByNewest(s: seq<Ride>): (r: seq<Ride>)
    ensures NewestFirst(r)
    ensures multiset(r) == multiset(s)
  {
    if s == [] then []
    else
      assert s == [s[0]] + s[1..];
      InsertByNewest(s[0], SortByNewest(s[1..]))
  }

  // ---------------------------------------------------------------------
  // The open-ride board (`OpenRideListView.get_queryset`)

  /** The board's search parameters, blank ones left out; the time bounds
      are already-parsed timestamps, `None` when blank or malformed. */
  datatype BoardQuery = BoardQuery(
    destination: string, start: Option<int>, end: Option<int>, specialRequest: string)

  /** Whether a ride is listed for `viewer` (`None`: not logged in). A
      logged-in rider without the driver flag does not see the rides they
      own, nor rides that cannot be shared. */
  predicate OnBoard(r: Ride, viewer: Option<Viewer>, q: BoardQuery)
  {
    && (r.status == Open || r.status == Confirmed)
    && (q.destination == "" || IContains(r.destination, q.destination))
    && (q.start.None? || q.start.value <= r.scheduled)
    && (q.end.None? || r.scheduled <= q.end.value)
    && (q.specialRequest == "" || r.specialRequest == q.specialRequest)
    && (viewer.None? || viewer.value.isDriver || (r.owner != viewer.value.user && r.canShared))
  }

  function BoardFilter(viewer: Option<Viewer>, q: BoardQuery): Ride -> bool
  {
    r => OnBoard(r, viewer, q)
  }

  function OpenBoard(rides: seq<Ride>, viewer: Option<Viewer>, q: BoardQuery): (b: seq<Ride>)
    ensures NewestFirst(b)
    ensures multiset(b) == multiset(Filter(rides, BoardFilter(viewer, q)))
    ensures |b| <= |rides|
  {
    var listed := Filter(rides, BoardFilter(viewer, q));
    assert |multiset(listed)| == |listed|;
    SortByNewest(listed)
  }

  /** The board lists exactly the rides that pass every filter. */
  lemma OpenBoardContents(rides: seq<Ride>, viewer: Option<Viewer>, q: BoardQuery, r: Ride)
    ensures r in OpenBoard(rides, viewer, q) <==> r in rides && OnBoard(r, viewer, q)
  {
    var listed := Filter(rides, BoardFilter(viewer, q));
    assert r in OpenBoard(rides, viewer, q) <==> r in multiset(listed);
    FilterMembership(rides, BoardFilter(viewer, q), r);
  }

  /** Everything on the board is OPEN or CONFIRMED and matches each given
      search parameter; an authenticated non-driver sees only shareable rides
      of other owners; the newest ride comes first. */
  lemma OpenBoardSound(rides: seq<Ride>, viewer: Option<Viewer>, q: BoardQuery, r: Ride)
    requires r in OpenBoard(rides, viewer, q)
    ensures r in rides
    ensures r.status == Open || r.status == Confirmed
    ensures q.destination != "" ==> IContains(r.destination, q.destination)
    ensures q.start.Some? ==> q.start.value <= r.scheduled
    ensures q.end.Some? ==> r.scheduled <= q.end.value
    ensures q.specialRequest != "" ==> r.specialRequest == q.specialRequest
    ensures viewer.Some? && !viewer.value.isDriver ==> r.owner != viewer.value.user && r.canShared
  {
    OpenBoardContents(rides, viewer, q, r);
  }

  /** A driver sees their own OPEN ride on the board; the same owner without
      the driver flag does not. */
  lemma OwnRideOnBoard(rides: seq<Ride>, q: BoardQuery, r: Ride, user: UserId, driver: Option<DriverProfile>)
    requires r in rides && r.owner == user && r.status == Open
    requires q == BoardQuery("", None, None, "")
    ensures r in OpenBoard(rides, Some(Viewer(user, true, driver)), q)
    ensures r !in OpenBoard(rides, Some(Viewer(user, false, driver)), q)
  {
    OpenBoardContents(rides, Some(Viewer(user, true, driver)), q, r);
    OpenBoardContents(rides, Some(Viewer(user, false, driver)), q, r);
  }

  /** The board's query string as the view reads it: the time bounds are
      still text. */
  datatype RawBoardQuery = RawBoardQuery(
    destination: string, arrivalStart: string, arrivalEnd: string, specialRequest: string)

  /** The board as the view is written: a non-blank time bound reaches
      `datetime.strptime`, and `datetime` is never imported, so the view
      raises `NameError` (not the `ValueError` it catches). */
  function OpenBoardAsWritten(rides: seq<Ride>, viewer: Option<Viewer>, q: RawBoardQuery): (res: Result<seq<Ride>, Error>)
    ensures res.Success? ==> NewestFirst(res.value)
  {
    if q.arrivalStart != "" || q.arrivalEnd != "" then Failure(NameError)
    else Success(OpenBoard(rides, viewer, BoardQuery(q.destination, None, None, q.specialRequest)))
  }

  /** Any time bound makes the board fail, on every table: the time window
      can never take effect as written. */
  lemma TimeWindowRaises(rides: seq<Ride>, viewer: Option<Viewer>, q: RawBoardQuery)
    requires q.arrivalStart != "" || q.arrivalEnd != ""
    ensures OpenBoardAsWritten(rides, viewer, q) == Failure(NameError)
  {
  }

  /** Without time bounds the board as written is the board with an open
      window. */
  lemma NoTimeWindowAgrees(rides: seq<Ride>, viewer: Option<Viewer>, q: RawBoardQuery)
    requires q.arrivalStart == "" && q.arrivalEnd == ""
    ensures OpenBoardAsWritten(rides, viewer, q)
         == Success(OpenBoard(rides, viewer, BoardQuery(q.destination, None, None, q.specialRequest)))
  {
  }

  // ---------------------------------------------------------------------
  // The "my rides" dashboard (`MyRidesView.get_queryset`)

  /** The status filter: an explicit status, or "not COMPLETED" without one. */
  predicate StatusWanted(r: Ride, status: Option<Status>)
  {
    if status.Some? then r.status == status.value else r.status != Completed
  }

  /** `owned.union(sharer, driven)`: the union of the viewer's owned rides,
      the rides they share in, and (with a driver profile) the rides they
      drive, each under the status filter. */
  function MyRides(rides: seq<Ride>, shares: seq<RideShare>, viewer: Viewer, status: Option<Status>): (m: set<Ride>)
    ensures forall r :: r in m <==>
      && r in rides
      && StatusWanted(r, status)
      && (|| r.owner == viewer.user
          || Joined(shares, r.id, viewer.user)
          || (viewer.driver.Some? && DrivenBy(r, viewer.driver.value)))
  {
    var owned := set r | r in rides && r.owner == viewer.user && StatusWanted(r, status);
    var shared := set r | r in rides && Joined(shares, r.id, viewer.user) && StatusWanted(r, status);
    var driven :=
      if viewer.driver.None? then {}
      else set r | r in rides && DrivenBy(r, viewer.driver.value) && StatusWanted(r, status);
    owned + shared + driven
  }

  /** With a status parameter every ride has that status; without one, no
      COMPLETED ride is shown; a rider without a driver profile sees only
      rides they own or share in. */
  lemma MyRidesStatus(rides: seq<Ride>, shares: seq<RideShare>, viewer: Viewer, status: Option<Status>, r: Ride)
    requires r in MyRides(rides, shares, viewer, status)
    ensures status.Some? ==> r.status == status.value
    ensures status.None? ==> r.status != Completed
    ensures viewer.driver.None? ==> r.owner == viewer.user || Joined(shares, r.id, viewer.user)
  {
  }

  // ---------------------------------------------------------------------
  // The sharer search (`ride_search`)

  datatype SearchQuery = SearchQuery(
    destination: string, earliest: Option<int>, latest: Option<int>, passengersSize: Option<int>)

  /** `passengers_size or 1`: blank or zero means one seat. */
  function SeatsWanted(size: Option<int>): int
  {
    if size.None? || size.value == 0 then 1 else size.value
  }

  /** `driver.capacity - 1 - owner_passengers`, NULL when there is no driver. */
  function AvailableSeats(r: Ride): Option<int>
  {
    if r.driver.Some? then Some(r.driver.value.capacity - 1 - r.ownerPassengers) else None
  }

  /** A NULL seat count fails the `available_seats >= passengers_size` test. */
  predicate SharerMatch(r: Ride, q: SearchQuery)
  {
    && r.status == Open && r.canShared
    && (q.destination == "" || IContains(r.destination, q.destination))
    && (q.earliest.None? || q.earliest.value <= r.scheduled)
    && (q.latest.None? || r.scheduled <= q.latest.value)
    && AvailableSeats(r).Some? && AvailableSeats(r).value >= SeatsWanted(q.passengersSize)
  }

  function SharerFilter(q: SearchQuery): Ride -> bool
  {
    r => SharerMatch(r, q)
  }

  /** `form` is `None` when the search form is not valid: then nothing is
      listed. */
  function SharerSearch(rides: seq<Ride>, form: Option<SearchQuery>): (res: seq<Ride>)
    ensures NewestFirst(res)
    ensures form.None? ==> res == []
  {
    if form.None? then [] else SortByNewest(Filter(rides, SharerFilter(form.value)))
  }

  /** Every listed ride is OPEN, shareable, matches the search, and has a
      driver leaving enough seats. */
  lemma SharerSearchSound(rides: seq<Ride>, q: SearchQuery, r: Ride)
    requires r in SharerSearch(rides, Some(q))
    ensures r in rides && r.status == Open && r.canShared
    ensures q.destination != "" ==> IContains(r.destination, q.destination)
    ensures q.earliest.Some? ==> q.earliest.value <= r.scheduled
    ensures q.latest.Some? ==> r.scheduled <= q.latest.value
    ensures r.driver.Some? && r.driver.value.capacity - 1 - r.ownerPassengers >= SeatsWanted(q.passengersSize)
  {
    var listed := Filter(rides, SharerFilter(q));
    assert r in multiset(listed);
    FilterMembership(rides, SharerFilter(q), r);
  }

  /** A ride is listed exactly when it is stored and passes the search. */
  lemma SharerSearchContents(rides: seq<Ride>, q: SearchQuery, r: Ride)
    ensures r in SharerSearch(rides, Some(q)) <==> r in rides && SharerMatch(r, q)
  {
    var listed := Filter(rides, SharerFilter(q));
    assert r in SharerSearch(rides, Some(q)) <==> r in multiset(listed);
    FilterMembership(rides, SharerFilter(q), r);
  }

  /** Since only a claim attaches a driver, and a claim also confirms the
      ride, no OPEN ride has a driver: the sharer search never lists
      anything. */
  lemma SharerSearchAlwaysEmpty(rides: seq<Ride>, form: Option<SearchQuery>)
    requires forall k :: 0 <= k < |rides| ==> OpenIffNoDriver(rides[k])
    ensures SharerSearch(rides, form) == []
  {
    if form.Some? {
      FilterNone(rides, SharerFilter(form.value));
    }
  }

  /** The same over a valid store: a search over any of its rides lists
      nothing. */
  lemma StoreSharerSearchEmpty(store: RideStore, rides: seq<Ride>, form: Option<SearchQuery>)
    requires store.Valid()
    requires forall k :: 0 <= k < |rides| ==> rides[k] in store.rides.Values
    ensures SharerSearch(rides, form) == []
  {
    forall k | 0 <= k < |rides|
      ensures OpenIffNoDriver(rides[k])
    {
      assert rides[k] in store.rides.Values;
      var id :| id in store.rides && store.rides[id] == rides[k];
      assert Consistent(store.rides[id], store.shares);
    }
    SharerSearchAlwaysEmpty(rides, form);
  }

  // ---------------------------------------------------------------------
  // The driver search (`driver_search_ride`)

  /** The database part of the query: OPEN, shareable, destination matches. */
  predicate DriverQueryMatch(r: Ride, destination: string)
  {
    r.status == Open && r.canShared && IContains(r.destination, destination)
  }

  /** The in-loop part: vehicle type (when requested) and capacity. The
      special request is not checked. */
  predicate FitsDriver(r: Ride, shares: seq<RideShare>, d: DriverProfile)
  {
    (r.vehicleTypeRequest == "" || r.vehicleTypeRequest == d.vehicleType)
    && TotalPeople(r, shares) <= d.capacity
  }

  predicate DriverMatch(r: Ride, shares: seq<RideShare>, d: DriverProfile, destination: string)
  {
    DriverQueryMatch(r, destination) && FitsDriver(r, shares, d)
  }

  function DriverQueryFilter(destination: string): Ride -> bool
  {
    r => DriverQueryMatch(r, destination)
  }

  function FitsFilter(shares: seq<RideShare>, d: DriverProfile): Ride -> bool
  {
    r => FitsDriver(r, shares, d)
  }

  function DriverFilter(shares: seq<RideShare>, d: DriverProfile, destination: string): Ride -> bool
  {
    r => DriverMatch(r, shares, d, destination)
  }

  /** The `for` loop over the queried rides: skip a ride asking for another
      vehicle type, skip one whose party exceeds the capacity, keep the rest
      in order. */
  method KeepFitting(candidates: seq<Ride>, shares: seq<RideShare>, d: DriverProfile)
    returns (valid: seq<Ride>)
    ensures valid == Filter(candidates, FitsFilter(shares, d))
  {
    valid := [];
    var i := 0;
    while i < |candidates|
      invariant 0 <= i <= |candidates|
      invariant valid == Filter(candidates[..i], FitsFilter(shares, d))
    {
      var r := candidates[i];
      assert candidates[..i + 1] == candidates[..i] + [r];
      FilterSnoc(candidates[..i], r, FitsFilter(shares, d));
      if r.vehicleTypeRequest != "" && d.vehicleType != r.vehicleTypeRequest {
        // skipped: another vehicle type was requested
      } else if TotalPeople(r, shares) > d.capacity {
        // skipped: the party does not fit
      } else {
        valid := valid + [r];
      }
      i := i + 1;
    }
    assert candidates[..i] == candidates;
  }

  /** A viewer without a driver profile is refused. For a driver, a blank
      destination (or an invalid form, `None`) lists nothing; otherwise the
      result is the matching rides in table order. */
  method DriverSearch(rides: seq<Ride>, shares: seq<RideShare>, viewer: Viewer, form: Option<string>)
    returns (res: Result<seq<Ride>, Error>)
    ensures viewer.driver.None? <==> res == Failure(NotDriver)
    ensures viewer.driver.Some? && (form.None? || form.value == "") ==> res == Success([])
    ensures viewer.driver.Some? && form.Some? && form.value != "" ==>
              res == Success(Filter(rides, DriverFilter(shares, viewer.driver.value, form.value)))
  {
    if viewer.driver.None? {
      return Failure(NotDriver);
    }
    var d := viewer.driver.value;
    var valid: seq<Ride> := [];
    if form.Some? && form.value != "" {
      var destination := form.value;
      var candidates := Filter(rides, DriverQueryFilter(destination));
      valid := KeepFitting(candidates, shares, d);
      FilterFilter(rides, DriverQueryFilter(destination), FitsFilter(shares, d), DriverFilter(shares, d, destination));
    }
    res := Success(valid);
  }

  /** A ride is in the driver search exactly when it is OPEN, shareable,
      matches the destination, asks for no vehicle type or the driver's, and
      its party fits the driver's capacity, whatever its special request. */
  lemma DriverSearchContents(rides: seq<Ride>, shares: seq<RideShare>, d: DriverProfile, destination: string, r: Ride)
    ensures r in Filter(rides, DriverFilter(shares, d, destination)) <==>
      && r in rides && r.status == Open && r.canShared
      && IContains(r.destination, destination)
      && (r.vehicleTypeRequest == "" || r.vehicleTypeRequest == d.vehicleType)
      && TotalPeople(r, shares) <= d.capacity
  {
    FilterMembership(rides, DriverFilter(shares, d, destination), r);
  }

  // ---------------------------------------------------------------------
  // The detail page's `has_joined` flag (`RideDetailView`)

  /** True for a logged-in viewer who has a share row on the ride, and also
      for a driver looking at a ride that cannot be shared. */
  predicate HasJoined(r: Ride, shares: seq<RideShare>, viewer: Option<Viewer>)
  {
    viewer.Some?
    && (Joined(shares, r.id, viewer.value.user) || (!r.canShared && viewer.value.isDriver))
  }

  /** On an OPEN, shareable stored ride, the flag is set exactly when a join
      by the viewer would be refused as a duplicate, and clear exactly when
      the join would go through. */
  lemma HasJoinedMatchesJoin(rides: map<RideId, Ride>, shares: seq<RideShare>, id: RideId, v: Viewer)
    requires id in rides && rides[id].id == id
    requires rides[id].status == Open && rides[id].canShared
    ensures HasJoined(rides[id], shares, Some(v)) <==> JoinRefusal(rides, shares, id, v.user) == Some(AlreadyJoined)
    ensures !HasJoined(rides[id], shares, Some(v)) <==> JoinRefusal(rides, shares, id, v.user) == None
  {
  }

  /** A non-driver looking at a ride that cannot be shared sees the flag
      clear (the join button is offered) although the join is refused. */
  lemma HasJoinedUnshareable(rides: map<RideId, Ride>, shares: seq<RideShare>, id: RideId, v: Viewer)
    requires id in rides && rides[id].id == id && !rides[id].canShared
    requires !v.isDriver && !Joined(shares, id, v.user)
    ensures !HasJoined(rides[id], shares, Some(v))
    ensures JoinRefusal(rides, shares, id, v.user) == Some(NotFound)
  {
  }
}

# Ride-sharing views: lifecycle and listings

This project models the decision logic of the ride-sharing web application's
view module `web-app/rides/views.py`, with the ORM, forms and templates stripped away.

- **Lifecycle** (`lifecycle.dfy`). A `RideStore` holds the ride table (a map from
  ride id to `Ride`) and the ride-share table (a sequence of `RideShare` rows).
  Its methods are the views that change them: create a ride, edit it while OPEN,
  join it as a sharer, claim it as a driver, and complete it as its driver. Each
  guard is a pure function (`EditRefusal`, `JoinRefusal`, `ClaimRefusal`,
  `CompleteRefusal`) that returns the first check that fails, in the view's order.
  A refused operation changes nothing. Every method keeps the store invariant
  `RideStore.Valid`:
  - a ride is OPEN exactly when it has no driver;
  - a ride with a driver carries no more people than the driver's capacity;
  - every share row points at a stored ride;
  - there is at most one share row per (ride, sharer).
- **Listings** (`listings.dfy`). These are pure functions over the ride table in
  primary-key order:
  - the public open-ride board, newest first;
  - the "my rides" union of owned, shared-in and driven rides;
  - the sharer search;
  - the driver search, whose `for` loop is a method proved against a filter;
  - the detail page's `has_joined` flag.
- **Derived quantity** (`rides.dfy`). `TotalPeople` is the `total_people`
  annotation: the owner's party plus the sum of the ride's share passengers.
  It is 0-based, never absent, and also stands for `total_amount_people()`.
- **Helpers**. `text.dfy` holds the ASCII case-insensitive substring test behind
  `icontains`. `seqs.dfy` holds an order-preserving `Filter`. `wrappers.dfy`
  holds `Option` and `Result`.

What the code does, and the model with it:
- the board lists OPEN and CONFIRMED rides and does not hide rides the viewer
  already shares;
- join checks neither self-join nor capacity, and never compares the joiner with the ride's driver (a claimed ride is no longer OPEN, so joining it is a 404, `JoinClaimedRideNotFound`);
- claim does not check the vehicle type;
- there are no cancel or quit operations;
- the driver search does not check special requests.

Other quirks kept as written:
- Claim compares the party against the driver's `maxPassengers`. The searches use
  `capacity`. Both are the one field `DriverProfile.capacity` here.
- A blank destination makes the driver search list nothing.
- The sharer search needs `driver.capacity - 1 - owner_passengers` seats. OPEN rides
  have no driver, so that value is NULL and fails the comparison. Under the store
  invariant the search never lists anything (`SharerSearchAlwaysEmpty`, `StoreSharerSearchEmpty`).
- A non-driver looking at a non-shareable ride they have not joined sees `has_joined` false, but the
  join is refused with a 404 (`HasJoinedUnshareable`).

## Model

| member | source | states |
|---|---|---|
| Rides.TotalWithoutShares | web-app/rides/views.py:36-37 | `TotalPeople` (the `total_people` annotation, owner's party plus the recursive sum of the ride's share passengers) of a ride with no share rows is exactly its owner's party (the `Coalesce(..., 0)` case) |
| Rides.TotalAfterShare | web-app/rides/views.py:37 | adding a share row raises its own ride's `total_people` by that row's passengers and leaves every other ride's total unchanged |
| Rides.AppendFreshShare | web-app/rides/views.py:247-251 | inserting a row for a (ride, sharer) pair without one keeps the share table's uniqueness |
| Lifecycle.RideStore.Create | web-app/rides/views.py:182-189 | stores a new ride under a fresh id with the requester as owner, the form's fields, status OPEN whatever `can_shared` is, and no driver; shares unchanged; invariant kept |
| Lifecycle.RideStore.Edit | web-app/rides/views.py:197-202 | a missing ride is a 404; a ride that is not OPEN is refused and unchanged; an OPEN ride takes the form fields and keeps owner, driver, status and creation time |
| Lifecycle.RideStore.Join | web-app/rides/views.py:239-252 | only an OPEN, shareable ride can be joined (else 404); a second join by the same sharer is refused and leaves the share table unchanged; otherwise exactly one row (ride, sharer, passengers) is appended and the ride's total grows by that count |
| Lifecycle.JoinTwice | web-app/rides/views.py:247-251 | two joins of the same ride by the same sharer leave at most one new row: exactly one after an accepted first join, none after a refused one; the second is never accepted, and after an accepted first it is refused as a duplicate; the ride table is unchanged |
| Lifecycle.RideStore.Claim | web-app/rides/views.py:303-325 | refuses in order for no driver profile, ride not OPEN, total people over capacity, special request set and different, changing nothing; on success only `driver` (the claimer) and `status` (CONFIRMED) change |
| Lifecycle.ClaimCheckOrder | web-app/rides/views.py:304-317 | the role check comes first, then the ride's status; capacity and special request are reported only for an OPEN ride, and the special-request refusal only when the party fits |
| Lifecycle.ClaimEstablishesConsistency | web-app/rides/views.py:308-319 | an accepted claim was on an OPEN ride and yields a CONFIRMED ride with a driver whose capacity holds the party and whose special info meets the request |
| Lifecycle.ClaimCapacityExample | web-app/rides/views.py:310 | a party of 2 with shares of 3 and 1 totals 6: a six-seat driver may claim it, a five-seat driver is refused for capacity |
| Lifecycle.RideStore.Complete | web-app/rides/views.py:328-336 | only the ride's own driver, only from CONFIRMED, sets COMPLETED and keeps the driver; otherwise nothing changes |
| Lifecycle.JoinClaimedRideNotFound | web-app/rides/views.py:240 | a ride that is CONFIRMED or COMPLETED (in particular any claimed ride) cannot be joined: the lookup finds no ride |
| Lifecycle.CompleteOnlyByItsDriver | web-app/rides/views.py:330 | an accepted completion is by a driver on a CONFIRMED ride whose driver is that driver |
| Text.ContainsAt | web-app/rides/views.py:52 | an occurrence of the search text at any position is found by the substring test |
| Text.ContainsWitness | web-app/rides/views.py:52 | the substring test holds only where there is an actual occurrence |
| Text.ExactMatchIsIContains | web-app/rides/views.py:52 | every exact occurrence also satisfies `icontains` |
| Text.IContainsIgnoresCase | web-app/rides/views.py:52 | `icontains` does not depend on the case of the ride's destination or of the search text |
| Listings.SortByNewest | web-app/rides/views.py:25 | the `-created_at` ordering: the result is a permutation of its input, most recently created first |
| Listings.OpenBoard | web-app/rides/views.py:25-96 | the board is ordered newest first and is no longer than the ride table |
| Listings.OpenBoardContents | web-app/rides/views.py:27-96 | a ride is on the board exactly when it is stored and passes every filter of the view |
| Listings.OpenBoardSound | web-app/rides/views.py:28-94 | every listed ride is OPEN or CONFIRMED, contains the destination case-insensitively, lies within the inclusive time bounds, equals the special request, and for a logged-in non-driver is shareable and not the viewer's own |
| Listings.OwnRideOnBoard | web-app/rides/views.py:90-94 | with no search parameters, an owner with the driver flag sees their own OPEN ride on the board; the same owner without it does not |
| Listings.OpenBoardAsWritten | web-app/rides/views.py:50-96 | the board as the view is written: when it returns a list, the list is ordered newest first |
| Listings.TimeWindowRaises | web-app/rides/views.py:59-71 | as written, any non-blank time bound makes the board raise `NameError` |
| Listings.NoTimeWindowAgrees | web-app/rides/views.py:50-96 | without time bounds the board as written is the modelled board with an unbounded window |
| Listings.MyRides | web-app/rides/views.py:117-139 | a ride is listed exactly when it is stored, passes the status filter, and is owned by, shared by, or (with a driver profile) driven by the viewer; the result is a set, so there are no duplicates |
| Listings.MyRidesStatus | web-app/rides/views.py:121-137 | with a status parameter every listed ride has it; without one none is COMPLETED; a rider without a driver profile sees only owned or shared rides |
| Listings.SharerSearch | web-app/rides/views.py:207-235 | an invalid form lists nothing; the result is ordered newest first |
| Listings.SharerSearchSound | web-app/rides/views.py:211-234 | every listed ride is OPEN, shareable, matches destination and date bounds, and has a driver leaving at least `passengers_size or 1` seats |
| Listings.SharerSearchContents | web-app/rides/views.py:218-230 | a ride is listed exactly when it is stored and is OPEN, shareable, matches destination and date bounds, and has non-NULL available seats of at least `passengers_size or 1` |
| Listings.SharerSearchAlwaysEmpty | web-app/rides/views.py:218-230 | when every ride is OPEN exactly while driverless, the sharer search is empty |
| Listings.StoreSharerSearchEmpty | web-app/rides/views.py:218-230 | over the rides of a store that keeps the lifecycle invariant, the sharer search is empty |
| Listings.KeepFitting | web-app/rides/views.py:271-277 | the loop keeps, in order, exactly the rides whose vehicle request is empty or the driver's and whose total people fit the driver's capacity |
| Listings.DriverSearch | web-app/rides/views.py:259-281 | a viewer without a driver profile is refused; a blank destination or invalid form lists nothing; otherwise the result is the order-preserving selection of the matching rides |
| Listings.DriverSearchContents | web-app/rides/views.py:266-277 | a ride is found exactly when it is OPEN, shareable, matches the destination, asks for no vehicle type or the driver's, and fits the capacity; the special request plays no part |
| Listings.HasJoinedMatchesJoin | web-app/rides/views.py:156-165 | `HasJoined` models the flag (false when not logged in; true for an existing share row, or for a driver on a non-shareable ride). On an OPEN shareable ride, `has_joined` is set exactly when the viewer's join would be refused as a duplicate, and clear exactly when it would succeed |
| Listings.HasJoinedUnshareable | web-app/rides/views.py:158-163 | a non-driver who has not joined a non-shareable ride sees `has_joined` false, yet the join is refused as not found |

## Findings

| source | as written | input that shows it | evidently intended | confidence | as-written member | corrected member |
|---|---|---|---|---|---|---|
| web-app/rides/views.py:59-71 | a non-blank `arrival_time_start` or `arrival_time_end` calls `datetime.strptime`, but `datetime` is never imported (lines 1-18). The view raises `NameError`, which `except ValueError` does not catch | `GET ?arrival_time_start=2025-01-01T10:00` | the bound is parsed and limits `scheduled_datetime` inclusively; a malformed bound is ignored | high; not executed | Listings.TimeWindowRaises | Listings.OpenBoardSound |

## Left out

- Rendering, flash messages, redirects, `get_context_data` and pagination (`paginate_by = 5`) are presentation only.
- Form validation is not part of this model (`forms.py` is not part of this model). Cleaned form values are parameters, and `.strip()` is taken as already applied. An invalid search form is `None`. Owner passengers ≥ 1 is not enforced.
- `LoginRequiredMixin` and `OwnerRequiredMixin` are not part of this model (`mixins.py` is not part of this model). Ownership is a precondition of `RideStore.Edit`.
- `MyRidesView` has no login mixin and reads `user.userprofile`, so an anonymous request raises `AttributeError`; `MyRides` takes a `Viewer`, which is always a logged-in user, and does not model that failure.
- `send_email_for_ride` is mail I/O, and its call in the claim is commented out.
- Parsing of the board's time bounds: the corrected board takes already-parsed timestamps, with `None` for a blank or malformed bound. See Findings.
- Concurrency: two joins or claims racing. The unique constraint is a sequential membership check on the share table.
- `models.py` is not part of this model. `total_amount_people()` is taken to equal the `total_people` annotation. `maxPassengers` and `capacity` are one field. Statuses other than OPEN, CONFIRMED and COMPLETED are not modelled, so a status parameter naming any other status cannot be expressed.
- A claimed ride stores the driver's profile as it was at claim time. Later edits to a driver profile are not modelled.
- The GET branches of `ride_join` and `driver_complete_ride` only render a page and are not modelled.
- The board's `total_people` annotation is only displayed, so `OpenBoard` returns the rides without it.
- Completing a ride without a driver profile raises an exception in the view. Here it is the refusal `NotDriver`.
- Listing order among rides with equal `created_at` is left to the database in the view. Here it is fixed by the insertion sort.
- `MyRidesView` sets `ordering`, but its own `get_queryset` never applies it, so `MyRides` is an unordered set.
- The commented-out filters and the debug `print`s are dead code.

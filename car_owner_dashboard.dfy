/**
 * The car-owner dashboard: its sign-in guard, the sequential loading of the owner's rides,
 * bookings and vehicle, posting a ride (only once a vehicle is on file), cancelling a ride,
 * and what each posted-ride card shows.
 */
module CarOwnerDashboard {
  import opened Wrappers
  import opened Strings
  import opened Seqs
  import opened Domain

  const OwnerRole := "CAR_OWNER"
  const OwnerLoginPath := "/car-owner/login"
  const PassengerDashboardPath := "/user/dashboard"

  const LoadErrorMessage := "Error loading dashboard data"
  const VehicleFirstMessage := "Please add your vehicle details first!"
  const RidePostedMessage := "Ride posted successfully!"
  const RidePostFailedMessage := "Failed to post ride. Please try again."
  const RideCancelledMessage := "Ride cancelled successfully!"
  const RideCancelFailedMessage := "Failed to cancel ride."

  datatype Tab = RidesTab | PendingTab | BookingsTab | VehicleTab | ProfileTab

  /** The owner's vehicle as the backend returns it. */
  datatype Vehicle = Vehicle(car: string, model: string, licensePlate: string, capacity: int)

  /** The "post a ride" inputs, all text. */
  datatype RideForm = RideForm(
    source: string,
    destination: string,
    rideDate: string,
    rideTime: string,
    availableSeats: string,
    pricePerKm: string,
    distanceKm: string)

  const EmptyRideForm := RideForm("", "", "", "", "", "", "")

  /** The distance sent: 10 km when the field is left empty, otherwise the typed text as
      `parseFloat` reads it. */
  datatype Distance = DefaultKm(km: nat) | Typed(text: string)

  const DefaultDistanceKm := 10

  /** The ride `handleRideSubmit` posts, without its floating-point price fields. */
  datatype RidePayload = RidePayload(
    source: string,
    destination: string,
    rideDate: string,
    rideTime: string,
    availableSeats: Option<int>,
    distance: Distance)

  /** The form with the seat count read by `parseInt` (`None` for `NaN`) and the distance
      defaulted when empty. */
  function PayloadOf(f: RideForm): (d: RidePayload)
    ensures d.source == f.source && d.destination == f.destination
    ensures d.rideDate == f.rideDate && d.rideTime == f.rideTime
    ensures d.availableSeats == ParseInt(f.availableSeats)
    ensures d.distance.DefaultKm? <==> f.distanceKm == ""
    ensures d.distance.DefaultKm? ==> d.distance.km == DefaultDistanceKm
    ensures d.distance.Typed? ==> d.distance.text == f.distanceKm
  {
    RidePayload(f.source, f.destination, f.rideDate, f.rideTime, ParseInt(f.availableSeats),
                if f.distanceKm != "" then Typed(f.distanceKm) else DefaultKm(DefaultDistanceKm))
  }

  /** A seat count typed as a decimal numeral is posted as that number. */
  lemma SeatCountRoundTrip(f: RideForm, n: nat)
    requires f.availableSeats == NatToString(n)
    ensures PayloadOf(f).availableSeats == Some(n)
  {
    NatToStringRoundTrip(n);
  }

  predicate IsPending(b: Booking) {
    b.status == Pending
  }

  /** `bookings?.filter((b) => b.status === "PENDING") || []`. */
  function PendingOf(bookings: Option<seq<Booking>>): (r: seq<Booking>)
    ensures bookings.None? ==> r == []
    ensures forall i :: 0 <= i < |r| ==> r[i].status == Pending
    ensures bookings.Some? ==> IsSubsequence(r, bookings.value)
    ensures bookings.Some? ==> forall b: Booking :: b.status == Pending ==> multiset(r)[b] == multiset(bookings.value)[b]
  {
    if bookings.None? then []
    else
      FilterIsSubsequence(bookings.value, IsPending);
      Filter(bookings.value, IsPending)
  }

  /** A `null` bookings list has the pending bookings of an empty one. */
  lemma NoBookingsNonePending(bookings: Option<seq<Booking>>)
    ensures PendingOf(bookings) == PendingOf(Some(bookings.GetOr([])))
  {
    if bookings.None? {
      assert PendingOf(Some([])) == [];
    }
  }

  /** When every booking is pending, all of them await approval. */
  lemma AllPendingAwaitApproval(bookings: seq<Booking>)
    requires forall i :: 0 <= i < |bookings| ==> bookings[i].status == Pending
    ensures PendingOf(Some(bookings)) == bookings
  {
    FilterAllPass(bookings, IsPending);
  }

  /** The list after `cancelRide(rideId)` succeeds: that ride gone, the others kept in order. */
  function RemoveRide(rides: seq<Ride>, rideId: nat): (r: seq<Ride>)
    ensures forall i :: 0 <= i < |r| ==> r[i].id != rideId
    ensures forall x: Ride :: x.id != rideId ==> multiset(r)[x] == multiset(rides)[x]
    ensures IsSubsequence(r, rides)
  {
    FilterIsSubsequence(rides, (ride: Ride) => ride.id != rideId);
    Filter(rides, (ride: Ride) => ride.id != rideId)
  }

  /** Cancelling a ride that is not listed changes nothing. */
  lemma RemoveUnlistedRide(rides: seq<Ride>, rideId: nat)
    requires forall i :: 0 <= i < |rides| ==> rides[i].id != rideId
    ensures RemoveRide(rides, rideId) == rides
  {
    FilterAllPass(rides, (ride: Ride) => ride.id != rideId);
  }

  /** What a posted-ride card shows: seats left over capacity, the bookings count, and
      whether the cancel button is there. */
  datatype RideCard = RideCard(seatsLeft: int, capacity: int, bookings: int, cancelButton: bool)

  /** The card counts seats left as capacity minus booked seats, ignoring the backend's
      remaining count, and offers cancelling only an active ride. */
  function CardOf(ride: Ride): (c: RideCard)
    ensures c.capacity == ride.availableSeats
    ensures c.seatsLeft + c.bookings == c.capacity
    ensures c.bookings == (if ride.bookedSeats.Some? then ride.bookedSeats.value else 0)
    ensures c.cancelButton <==> ride.status == Active
  {
    var booked := OrZero(ride.bookedSeats);
    RideCard(ride.availableSeats - booked, ride.availableSeats, booked, ride.status == Active)
  }

  /** The owner's count of seats left is the passengers' one exactly when the backend's
      remaining count is missing or 0, or agrees with it. */
  lemma CardAgreesWithAvailability(ride: Ride)
    ensures CardOf(ride).seatsLeft == Availability(ride) <==>
      !TruthyNumber(ride.availableSeatsRemaining)
      || ride.availableSeatsRemaining.value == ride.availableSeats - OrZero(ride.bookedSeats)
  {
  }

  /** The car-owner dashboard's state. */
  class OwnerView {
    var user: Option<User>
    var activeTab: Tab
    var postedRides: seq<Ride>
    var rideBookings: seq<Booking>
    var pendingBookings: seq<Booking>
    var userVehicle: Option<Vehicle>
    var rideForm: RideForm
    var showRideForm: bool
    var loading: bool
    var initialLoading: bool
    var notification: Option<Notification>
    /** The route `navigate` was sent to, if any. */
    var redirect: Option<string>

    constructor ()
      ensures user.None? && activeTab == RidesTab && postedRides == [] && rideBookings == []
      ensures pendingBookings == [] && userVehicle.None? && rideForm == EmptyRideForm
      ensures !showRideForm && !loading && initialLoading && notification.None? && redirect.None?
    {
      user := None;
      activeTab := RidesTab;
      postedRides := [];
      rideBookings := [];
      pendingBookings := [];
      userVehicle := None;
      rideForm := EmptyRideForm;
      showRideForm := false;
      loading := false;
      initialLoading := true;
      notification := None;
      redirect := None;
    }

    /** The approval list holds exactly the pending bookings of the owner's rides. */
    predicate PendingConsistent()
      reads this
    {
      pendingBookings == PendingOf(Some(rideBookings))
    }

    /** `loadDashboardData()`: rides, then bookings, then the vehicle, each awaited in turn.
        A throw from the rides or bookings call stops the sequence with an error, keeping
        what was already set; a missing vehicle is not an error. */
    method LoadDashboardData(rides: Fetched<Option<seq<Ride>>>, bookings: Fetched<Option<seq<Booking>>>,
                             vehicle: Fetched<Option<Vehicle>>)
      modifies this
      ensures !loading
      ensures rides.Ok? ==> postedRides == rides.value.GetOr([])
      ensures rides.Failed? ==> postedRides == old(postedRides)
      ensures rides.Ok? && bookings.Ok? ==>
        rideBookings == bookings.value.GetOr([]) && pendingBookings == PendingOf(bookings.value)
        && userVehicle == (if vehicle.Ok? then vehicle.value else None)
        && notification == old(notification)
      ensures !(rides.Ok? && bookings.Ok?) ==>
        rideBookings == old(rideBookings) && pendingBookings == old(pendingBookings)
        && userVehicle == old(userVehicle) && notification == Some(Notification(LoadErrorMessage, Error))
      ensures rides.Ok? && bookings.Ok? ==> PendingConsistent()
      ensures old(PendingConsistent()) ==> PendingConsistent()
      ensures unchanged(this`user, this`activeTab, this`rideForm, this`showRideForm, this`initialLoading,
                        this`redirect)
    {
      loading := true;
      if rides.Failed? {
        notification := Some(Notification(LoadErrorMessage, Error));
        loading := false;
        return;
      }
      postedRides := rides.value.GetOr([]);
      if bookings.Failed? {
        notification := Some(Notification(LoadErrorMessage, Error));
        loading := false;
        return;
      }
      StoreBookings(bookings.value, vehicle);
      loading := false;
    }

    /** The bookings, the pending ones among them, and the vehicle (none when its call
        threw or returned nothing). */
    method StoreBookings(bookings: Option<seq<Booking>>, vehicle: Fetched<Option<Vehicle>>)
      modifies this
      ensures rideBookings == bookings.GetOr([]) && pendingBookings == PendingOf(bookings)
      ensures userVehicle == (if vehicle.Ok? then vehicle.value else None)
      ensures PendingConsistent()
      ensures unchanged(this`postedRides, this`notification, this`loading, this`user, this`activeTab,
                        this`rideForm, this`showRideForm, this`initialLoading, this`redirect)
    {
      var all := bookings.GetOr([]);
      var pending := PendingOf(bookings);
      NoBookingsNonePending(bookings);
      rideBookings := all;
      pendingBookings := pending;
      userVehicle := if vehicle.Ok? then vehicle.value else None;
    }

    /** The first effect: a visitor without a stored user or token goes to the owner login,
        a passenger to the passenger dashboard; otherwise the data is loaded. */
    method Initialize(stored: Option<User>, authenticated: bool, rides: Fetched<Option<seq<Ride>>>,
                      bookings: Fetched<Option<seq<Booking>>>, vehicle: Fetched<Option<Vehicle>>)
      modifies this
      ensures DashboardGuard(stored, authenticated, OwnerRole, OwnerLoginPath, PassengerDashboardPath).Redirect? ==>
        && redirect == Some(DashboardGuard(stored, authenticated, OwnerRole, OwnerLoginPath, PassengerDashboardPath).path)
        && unchanged(this`user, this`activeTab, this`postedRides, this`rideBookings, this`pendingBookings,
                     this`userVehicle, this`rideForm, this`showRideForm, this`loading, this`initialLoading,
                     this`notification)
      ensures DashboardGuard(stored, authenticated, OwnerRole, OwnerLoginPath, PassengerDashboardPath).Proceed? ==>
        && user == stored && !initialLoading && !loading
        && (rides.Ok? ==> postedRides == rides.value.GetOr([]))
        && (rides.Failed? ==> postedRides == old(postedRides))
        && (rides.Ok? && bookings.Ok? ==>
              rideBookings == bookings.value.GetOr([]) && pendingBookings == PendingOf(bookings.value)
              && userVehicle == (if vehicle.Ok? then vehicle.value else None)
              && notification == old(notification))
        && (!(rides.Ok? && bookings.Ok?) ==>
              rideBookings == old(rideBookings) && pendingBookings == old(pendingBookings)
              && userVehicle == old(userVehicle) && notification == Some(Notification(LoadErrorMessage, Error)))
        && unchanged(this`activeTab, this`rideForm, this`showRideForm, this`redirect)
    {
      var g := DashboardGuard(stored, authenticated, OwnerRole, OwnerLoginPath, PassengerDashboardPath);
      if g.Redirect? {
        redirect := Some(g.path);
        return;
      }
      user := stored;
      LoadDashboardData(rides, bookings, vehicle);
      initialLoading := false;
    }

    /** `handleRideSubmit`: without a vehicle on file the owner is sent to the vehicle tab
        and nothing is posted; otherwise the payload is posted and, on success, the new
        ride is listed first and the form is reset and closed. */
    method HandleRideSubmit(created: Fetched<Ride>) returns (posted: Option<RidePayload>)
      modifies this
      ensures old(userVehicle).None? ==>
        posted.None? && activeTab == VehicleTab && notification == Some(Notification(VehicleFirstMessage, Error))
        && postedRides == old(postedRides) && rideForm == old(rideForm)
        && showRideForm == old(showRideForm) && loading == old(loading)
      ensures old(userVehicle).Some? ==> posted == Some(PayloadOf(old(rideForm))) && !loading && activeTab == old(activeTab)
      ensures old(userVehicle).Some? && created.Ok? ==>
        postedRides == [created.value] + old(postedRides) && rideForm == EmptyRideForm && !showRideForm
        && notification == Some(Notification(RidePostedMessage, Success))
      ensures old(userVehicle).Some? && created.Failed? ==>
        postedRides == old(postedRides) && rideForm == old(rideForm) && showRideForm == old(showRideForm)
        && notification == Some(Notification(ErrorText(created.message, RidePostFailedMessage), Error))
      ensures unchanged(this`user, this`rideBookings, this`pendingBookings, this`userVehicle,
                        this`initialLoading, this`redirect)
    {
      if userVehicle.None? {
        notification := Some(Notification(VehicleFirstMessage, Error));
        activeTab := VehicleTab;
        posted := None;
        return;
      }
      posted := Some(PayloadOf(rideForm));
      PostRide(created);
    }

    /** Posting the form once a vehicle is on file. */
    method PostRide(created: Fetched<Ride>)
      modifies this
      ensures !loading
      ensures created.Ok? ==>
        postedRides == [created.value] + old(postedRides) && rideForm == EmptyRideForm && !showRideForm
        && notification == Some(Notification(RidePostedMessage, Success))
      ensures created.Failed? ==>
        postedRides == old(postedRides) && rideForm == old(rideForm) && showRideForm == old(showRideForm)
        && notification == Some(Notification(ErrorText(created.message, RidePostFailedMessage), Error))
      ensures unchanged(this`user, this`rideBookings, this`pendingBookings, this`userVehicle,
                        this`initialLoading, this`redirect, this`activeTab)
    {
      loading := true;
      if created.Ok? {
        postedRides := [created.value] + postedRides;
        rideForm := EmptyRideForm;
        showRideForm := false;
        notification := Some(Notification(RidePostedMessage, Success));
      } else {
        notification := Some(Notification(ErrorText(created.message, RidePostFailedMessage), Error));
      }
      loading := false;
    }

    /** `performCancelRide(rideId)`: on success the ride leaves the list. */
    method PerformCancelRide(rideId: nat, result: Fetched<()>)
      modifies this
      ensures result.Ok? ==>
        postedRides == RemoveRide(old(postedRides), rideId)
        && notification == Some(Notification(RideCancelledMessage, Success))
      ensures result.Failed? ==>
        postedRides == old(postedRides)
        && notification == Some(Notification(ErrorText(result.message, RideCancelFailedMessage), Error))
      ensures unchanged(this`user, this`activeTab, this`rideBookings, this`pendingBookings, this`userVehicle,
                        this`rideForm, this`showRideForm, this`loading, this`initialLoading, this`redirect)
    {
      if result.Ok? {
        postedRides := RemoveRide(postedRides, rideId);
        notification := Some(Notification(RideCancelledMessage, Success));
      } else {
        notification := Some(Notification(ErrorText(result.message, RideCancelFailedMessage), Error));
      }
    }
  }
}

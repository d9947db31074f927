/**
 * The passenger dashboard: its sign-in guard, loading of rides and bookings, the ride
 * search, booking a ride through its own booking modal, and cancelling a booking.
 * Every backend call is a parameter holding what the awaited call resolved to or the
 * message it threw; rendering is reduced to the values the markup derives from state.
 */
module UserDashboard {
  import opened Wrappers
  import opened Strings
  import opened Domain
  import opened RideTime
  import Api

  const PassengerRole := "PASSENGER"
  const PassengerLoginPath := "/user/login"
  const OwnerDashboardPath := "/car-owner/dashboard"

  const LoadErrorMessage := "Error loading dashboard data"
  const NoRidesMessage := "No rides found matching your criteria"
  const SearchFallbackMessage := "Search failed, showing all available rides"
  const SearchErrorPrefix := "Error searching rides: "
  const ExpiredRideMessage := "This ride has already completed. You cannot book expired rides."
  const BookingSentMessage := "Booking request sent! Your seats are temporarily held pending car owner approval."
  const BookingFailedMessage := "Failed to book ride. Please try again."
  const ConfirmedCancelledMessage :=
    "Confirmed booking cancelled successfully! Seats are now available for other passengers."
  const RequestCancelledMessage := "Booking request cancelled successfully!"
  const CancelFailedMessage := "Failed to cancel booking. Please try again."
  const ConfirmBookingLabel := "Confirm Booking"

  /** The three search inputs, always text. */
  datatype SearchForm = SearchForm(source: string, destination: string, date: string)

  const EmptySearchForm := SearchForm("", "", "")

  /** `field.trim() || null`. */
  function TrimmedOrNull(s: string): (r: Option<string>)
    ensures r.Some? <==> !Blank(s)
    ensures r.Some? ==> r.value == Trim(s) && r.value != ""
  {
    TrimEmptyIffBlank(s);
    if Trim(s) != "" then Some(Trim(s)) else None
  }

  /** The `searchParams` object `handleSearchSubmit` builds: trimmed places with blank ones
      as `null`, the date as typed (not trimmed) with "" as `null`. */
  function NormaliseSearch(f: SearchForm): (p: Api.SearchParams)
    ensures p.source.Some? <==> !Blank(f.source)
    ensures p.destination.Some? <==> !Blank(f.destination)
    ensures p.rideDate.Some? <==> f.date != ""
    ensures p.source.Some? ==> p.source.value == Trim(f.source)
    ensures p.destination.Some? ==> p.destination.value == Trim(f.destination)
    ensures p.rideDate.Some? ==> p.rideDate.value == f.date
  {
    Api.SearchParams(TrimmedOrNull(f.source), TrimmedOrNull(f.destination), if f.date != "" then Some(f.date) else None)
  }

  /** Which rides endpoint a listing or search uses. */
  datatype RidesCall = Search(params: Api.SearchParams) | AllRides | ActiveRides

  /** The listing `loadDashboardData(includeExpired)` and the search fallback use. */
  function ListingCall(includeExpired: bool): (c: RidesCall)
    ensures c.AllRides? <==> includeExpired
    ensures c.ActiveRides? <==> !includeExpired
  {
    if includeExpired then AllRides else ActiveRides
  }

  /** The call `handleSearchSubmit` makes first: a search when any parameter survives
      normalisation, otherwise the listing the "show completed rides" toggle selects. */
  function SearchDispatch(f: SearchForm, showExpired: bool): (c: RidesCall)
    ensures c.Search? <==> !Blank(f.source) || !Blank(f.destination) || f.date != ""
    ensures c.Search? ==> c.params == NormaliseSearch(f)
    ensures !c.Search? ==> c == ListingCall(showExpired)
  {
    var p := NormaliseSearch(f);
    if TruthyText(p.source) || TruthyText(p.destination) || TruthyText(p.rideDate) then Search(p)
    else ListingCall(showExpired)
  }

  /** A normalised place is sent as it is: it is already trimmed and not blank. */
  lemma NormalisedPlaceIsSent(s: string)
    ensures var p := TrimmedOrNull(s);
      (if Api.SendsPlace(p) then Some(Trim(p.value)) else None) == p
  {
    TrimIdempotent(s);
  }

  /** A dispatched search sends exactly the normalised fields: the query names the
      trimmed places that are not blank and the date as typed, and it is never empty. */
  lemma DispatchedSearchQuery(f: SearchForm, showExpired: bool)
    requires SearchDispatch(f, showExpired).Search?
    ensures var q := Api.SearchQuery(SearchDispatch(f, showExpired).params);
      && q != []
      && Api.QueryValue(q, Api.SourceParam) == (if Blank(f.source) then None else Some(Trim(f.source)))
      && Api.QueryValue(q, Api.DestinationParam) == (if Blank(f.destination) then None else Some(Trim(f.destination)))
      && Api.QueryValue(q, Api.RideDateParam) == (if f.date == "" then None else Some(f.date))
  {
    NormalisedPlaceIsSent(f.source);
    NormalisedPlaceIsSent(f.destination);
    var p := NormaliseSearch(f);
    var q := Api.SearchQuery(p);
    assert Api.QueryValue(q, Api.SourceParam) == p.source;
    assert Api.QueryValue(q, Api.DestinationParam) == p.destination;
    assert Api.QueryValue(q, Api.RideDateParam) == p.rideDate;
    assert p.source.Some? || p.destination.Some? || p.rideDate.Some?;
  }

  /** The booking marked cancelled in the list after `cancelBooking(bookingId)` succeeds. */
  function MarkCancelled(bookings: seq<Booking>, bookingId: nat): (r: seq<Booking>)
    ensures |r| == |bookings|
    ensures forall i :: 0 <= i < |r| ==> r[i].(status := bookings[i].status) == bookings[i]
    ensures forall i :: 0 <= i < |r| ==> bookings[i].id == bookingId ==> r[i].status == Cancelled
    ensures forall i :: 0 <= i < |r| ==> bookings[i].id != bookingId ==> r[i] == bookings[i]
  {
    seq(|bookings|, i requires 0 <= i < |bookings| =>
      if bookings[i].id == bookingId then bookings[i].(status := Cancelled) else bookings[i])
  }

  /** The cancel button of a booking card is shown for confirmed and pending bookings. */
  predicate CanCancelBooking(b: Booking) {
    b.status == Confirmed || b.status == Pending
  }

  /** Marking twice is marking once, and afterwards the cancelled booking offers no cancel
      button while every other booking keeps the button it had. */
  lemma MarkCancelledSettles(bookings: seq<Booking>, bookingId: nat)
    ensures MarkCancelled(MarkCancelled(bookings, bookingId), bookingId) == MarkCancelled(bookings, bookingId)
    ensures var r := MarkCancelled(bookings, bookingId);
      forall i :: 0 <= i < |r| ==>
        (bookings[i].id == bookingId ==> !CanCancelBooking(r[i]))
        && (bookings[i].id != bookingId ==> CanCancelBooking(r[i]) == CanCancelBooking(bookings[i]))
  {
  }

  /** What a ride card offers: a "Ride Completed" badge, or the book button. */
  datatype RideAction = CompletedBadge | BookButton(disabled: bool, caption: string)

  const FullLabel := "Full"
  const BookRideLabel := "Book Ride"

  /** The badge for an expired ride; otherwise a button disabled while loading or when no
      seat is shown as available, and then labelled "Full". */
  function RideCardAction(ride: Ride, loading: bool, clock: Clock,
                          parseDate: string -> Option<CivilDate>): (a: RideAction)
    ensures a.CompletedBadge? <==> IsRideExpired(ride.rideDate, ride.rideTime, clock, parseDate)
    ensures a.BookButton? ==> (a.disabled <==> loading || Availability(ride) <= 0)
    ensures a.BookButton? ==> (a.caption == FullLabel <==> Availability(ride) <= 0)
    ensures a.BookButton? ==> (a.caption == FullLabel || a.caption == BookRideLabel)
  {
    if IsRideExpired(ride.rideDate, ride.rideTime, clock, parseDate) then CompletedBadge
    else
      var full := Availability(ride) <= 0;
      BookButton(loading || full, if full then FullLabel else BookRideLabel)
  }

  /** The body of the dashboard's own booking modal for a selected ride. */
  function InlineModal(ride: Ride, form: BookingForm): (v: ModalView)
    ensures v == SeatModal(ride, form, ConfirmBookingLabel)
    ensures v.submitLabel == (if v.available <= 0 then NoSeatsLabel else ConfirmBookingLabel)
  {
    SeatModal(ride, form, ConfirmBookingLabel)
  }

  /** The toast after a search returns: none found, or how many. */
  function SearchNotice(rides: seq<Ride>): (n: Notification)
    ensures n.kind == Info <==> rides == []
    ensures n.kind != Info ==>
      n.kind == Success && n.message == "Found " + NatToString(|rides|) + " ride(s) matching your search"
    ensures rides == [] ==> n.message == NoRidesMessage
  {
    if rides == [] then Notification(NoRidesMessage, Info)
    else Notification("Found " + NatToString(|rides|) + " ride(s) matching your search", Success)
  }

  /** The rides shown, the toast and the fallback call after a search. */
  datatype SearchOutcome = SearchOutcome(rides: seq<Ride>, notice: Notification, fallbackCall: Option<RidesCall>)

  /** A search that answers shows its rides (none for `null`); one that throws is
      retried as the plain listing, whose rides are shown with a notice; when that throws
      too, the rides already `shown` stay and the first error is reported. */
  function SearchResult(first: Fetched<Option<seq<Ride>>>, fallback: Fetched<Option<seq<Ride>>>,
                        shown: seq<Ride>, showExpired: bool): (o: SearchOutcome)
    ensures o.fallbackCall.Some? <==> first.Failed?
    ensures o.fallbackCall.Some? ==> o.fallbackCall.value == ListingCall(showExpired)
    ensures first.Ok? ==> o.rides == first.value.GetOr([]) && o.notice == SearchNotice(o.rides)
    ensures first.Failed? && fallback.Ok? ==>
      o.rides == fallback.value.GetOr([]) && o.notice == Notification(SearchFallbackMessage, Info)
    ensures first.Failed? && fallback.Failed? ==>
      o.rides == shown && o.notice.kind == Error && SearchErrorPrefix <= o.notice.message
      && o.notice.message[|SearchErrorPrefix|..] == first.message
  {
    if first.Ok? then
      var rides := first.value.GetOr([]);
      SearchOutcome(rides, SearchNotice(rides), None)
    else if fallback.Ok? then
      SearchOutcome(fallback.value.GetOr([]), Notification(SearchFallbackMessage, Info), Some(ListingCall(showExpired)))
    else
      SearchOutcome(shown, Notification(SearchErrorPrefix + first.message, Error), Some(ListingCall(showExpired)))
  }

  /** What `submitBooking` posts. */
  datatype BookingRequest = BookingRequest(
    rideId: nat,
    seatsBooked: int,
    passengerName: string,
    passengerPhone: string,
    bookingNotes: string)

  /** The passenger dashboard's state. */
  class PassengerView {
    var user: Option<User>
    var availableRides: seq<Ride>
    var myBookings: seq<Booking>
    var loading: bool
    var notification: Option<Notification>
    var showBookingModal: bool
    var selectedRide: Option<Ride>
    var bookingForm: BookingForm
    var searchForm: SearchForm
    var showExpiredRides: bool
    /** The route `navigate` was sent to, if any. */
    var redirect: Option<string>

    constructor ()
      ensures user.None? && availableRides == [] && myBookings == [] && !loading
      ensures notification.None? && !showBookingModal && selectedRide.None?
      ensures bookingForm == BookingForm(1, "", "", "") && searchForm == EmptySearchForm
      ensures !showExpiredRides && redirect.None?
    {
      user := None;
      availableRides := [];
      myBookings := [];
      loading := false;
      notification := None;
      showBookingModal := false;
      selectedRide := None;
      bookingForm := BookingForm(1, "", "", "");
      searchForm := EmptySearchForm;
      showExpiredRides := false;
      redirect := None;
    }

    /** The modal rendered over the dashboard: nothing unless it is open on a ride. */
    function Modal(): (v: Option<ModalView>)
      reads this
      ensures v.Some? <==> showBookingModal && selectedRide.Some?
      ensures v.Some? ==> v.value == InlineModal(selectedRide.value, bookingForm)
    {
      if showBookingModal && selectedRide.Some? then Some(InlineModal(selectedRide.value, bookingForm)) else None
    }

    /** `loadDashboardData(includeExpired)`: both lists are fetched together; if either
        call throws, neither list changes and an error is shown. */
    method LoadDashboardData(includeExpired: bool, rides: Fetched<Option<seq<Ride>>>,
                             bookings: Fetched<Option<seq<Booking>>>) returns (call: RidesCall)
      modifies this
      ensures call == ListingCall(includeExpired)
      ensures !loading
      ensures rides.Ok? && bookings.Ok? ==>
        availableRides == rides.value.GetOr([]) && myBookings == bookings.value.GetOr([])
        && notification == old(notification)
      ensures !(rides.Ok? && bookings.Ok?) ==>
        availableRides == old(availableRides) && myBookings == old(myBookings)
        && notification == Some(Notification(LoadErrorMessage, Error))
      ensures unchanged(this`user, this`showBookingModal, this`selectedRide, this`bookingForm,
                        this`searchForm, this`showExpiredRides, this`redirect)
    {
      loading := true;
      call := ListingCall(includeExpired);
      if rides.Ok? && bookings.Ok? {
        availableRides := rides.value.GetOr([]);
        myBookings := bookings.value.GetOr([]);
      } else {
        notification := Some(Notification(LoadErrorMessage, Error));
      }
      loading := false;
    }

    /** The first effect: a visitor without a stored user or token goes to the login page,
        a car owner to the car-owner dashboard, and nothing is loaded for either. */
    method Initialize(stored: Option<User>, authenticated: bool, rides: Fetched<Option<seq<Ride>>>,
                      bookings: Fetched<Option<seq<Booking>>>) returns (call: Option<RidesCall>)
      modifies this
      ensures DashboardGuard(stored, authenticated, PassengerRole, PassengerLoginPath, OwnerDashboardPath).Redirect? ==>
        && redirect == Some(DashboardGuard(stored, authenticated, PassengerRole, PassengerLoginPath, OwnerDashboardPath).path)
        && call.None?
        && unchanged(this`user, this`availableRides, this`myBookings, this`loading, this`notification,
                     this`showBookingModal, this`selectedRide, this`bookingForm, this`searchForm,
                     this`showExpiredRides)
      ensures DashboardGuard(stored, authenticated, PassengerRole, PassengerLoginPath, OwnerDashboardPath).Proceed? ==>
        && user == stored && call == Some(ListingCall(old(showExpiredRides))) && !loading
        && (rides.Ok? && bookings.Ok? ==>
              availableRides == rides.value.GetOr([]) && myBookings == bookings.value.GetOr([])
              && notification == old(notification))
        && (!(rides.Ok? && bookings.Ok?) ==>
              availableRides == old(availableRides) && myBookings == old(myBookings)
              && notification == Some(Notification(LoadErrorMessage, Error)))
        && unchanged(this`showBookingModal, this`selectedRide, this`bookingForm, this`searchForm,
                     this`showExpiredRides, this`redirect)
    {
      var g := DashboardGuard(stored, authenticated, PassengerRole, PassengerLoginPath, OwnerDashboardPath);
      if g.Redirect? {
        redirect := Some(g.path);
        call := None;
        return;
      }
      user := stored;
      var c := LoadDashboardData(showExpiredRides, rides, bookings);
      call := Some(c);
    }

    /** Ticking "show completed rides" reloads with the new choice. */
    method ToggleShowExpired(checked: bool, rides: Fetched<Option<seq<Ride>>>,
                             bookings: Fetched<Option<seq<Booking>>>) returns (call: RidesCall)
      modifies this
      ensures showExpiredRides == checked
      ensures call == ListingCall(checked)
      ensures !loading
      ensures rides.Ok? && bookings.Ok? ==>
        availableRides == rides.value.GetOr([]) && myBookings == bookings.value.GetOr([])
        && notification == old(notification)
      ensures !(rides.Ok? && bookings.Ok?) ==>
        availableRides == old(availableRides) && myBookings == old(myBookings)
        && notification == Some(Notification(LoadErrorMessage, Error))
      ensures unchanged(this`user, this`showBookingModal, this`selectedRide, this`bookingForm,
                        this`searchForm, this`redirect)
    {
      showExpiredRides := checked;
      call := LoadDashboardData(checked, rides, bookings);
    }

    /** The call `handleSearchSubmit` makes first, read from the current form. */
    method SearchCall() returns (call: RidesCall)
      ensures call == SearchDispatch(searchForm, showExpiredRides)
    {
      call := SearchDispatch(searchForm, showExpiredRides);
    }

    /** `handleSearchSubmit` once `SearchCall()` has answered with `first`: the rides and
        toast it leaves, and the listing call it falls back to when `first` threw. */
    method HandleSearchSubmit(first: Fetched<Option<seq<Ride>>>, fallback: Fetched<Option<seq<Ride>>>)
      returns (fallbackCall: Option<RidesCall>)
      modifies this
      ensures var o := SearchResult(first, fallback, old(availableRides), showExpiredRides);
        availableRides == o.rides && notification == Some(o.notice) && fallbackCall == o.fallbackCall
      ensures !loading
      ensures unchanged(this`searchForm, this`showExpiredRides, this`myBookings, this`selectedRide,
                        this`showBookingModal, this`bookingForm, this`user, this`redirect)
    {
      loading := true;
      fallbackCall := None;
      if first.Ok? {
        availableRides := first.value.GetOr([]);
        notification := Some(SearchNotice(availableRides));
      } else {
        fallbackCall := Some(ListingCall(showExpiredRides));
        if fallback.Ok? {
          availableRides := fallback.value.GetOr([]);
          notification := Some(Notification(SearchFallbackMessage, Info));
        } else {
          notification := Some(Notification(SearchErrorPrefix + first.message, Error));
        }
      }
      loading := false;
    }

    /** `handleBookRide(ride)`: an expired ride only raises an error; any other ride is
        selected and the modal opens with one seat and the user's name and phone. */
    method HandleBookRide(ride: Ride, clock: Clock, parseDate: string -> Option<CivilDate>)
      modifies this
      ensures IsRideExpired(ride.rideDate, ride.rideTime, clock, parseDate) ==>
        notification == Some(Notification(ExpiredRideMessage, Error))
        && showBookingModal == old(showBookingModal) && selectedRide == old(selectedRide)
        && bookingForm == old(bookingForm)
      ensures !IsRideExpired(ride.rideDate, ride.rideTime, clock, parseDate) ==>
        selectedRide == Some(ride) && showBookingModal && notification == old(notification)
        && bookingForm == BookingForm(1, if user.Some? then OrEmpty(user.value.name) else "",
                                      if user.Some? then OrEmpty(user.value.phone) else "", "")
      ensures unchanged(this`user, this`availableRides, this`myBookings, this`loading, this`searchForm,
                        this`showExpiredRides, this`redirect)
    {
      if IsRideExpired(ride.rideDate, ride.rideTime, clock, parseDate) {
        notification := Some(Notification(ExpiredRideMessage, Error));
        return;
      }
      selectedRide := Some(ride);
      var name := if user.Some? then OrEmpty(user.value.name) else "";
      var phone := if user.Some? then OrEmpty(user.value.phone) else "";
      bookingForm := BookingForm(1, name, phone, "");
      showBookingModal := true;
    }

    /** `submitBooking()`, reachable only from the modal and so with a selected ride: the
        request it posts, the new booking put first, and the listing refresh it starts
        (always the active rides, whatever the toggle says). */
    method SubmitBooking(created: Fetched<Booking>) returns (request: BookingRequest, refresh: Option<RidesCall>)
      requires selectedRide.Some?
      modifies this
      ensures request == BookingRequest(old(selectedRide.value.id), bookingForm.seatsBooked, bookingForm.passengerName,
                                        bookingForm.passengerPhone, bookingForm.bookingNotes)
      ensures created.Ok? ==>
        myBookings == [created.value] + old(myBookings) && !showBookingModal
        && refresh == Some(ListingCall(false)) && notification == Some(Notification(BookingSentMessage, Success))
      ensures created.Failed? ==>
        myBookings == old(myBookings) && showBookingModal == old(showBookingModal) && refresh.None?
        && notification == Some(Notification(ErrorText(created.message, BookingFailedMessage), Error))
      ensures unchanged(this`selectedRide, this`bookingForm, this`availableRides, this`user, this`loading,
                        this`searchForm, this`showExpiredRides, this`redirect)
    {
      var ride := selectedRide.value;
      request := BookingRequest(ride.id, bookingForm.seatsBooked, bookingForm.passengerName,
                                bookingForm.passengerPhone, bookingForm.bookingNotes);
      if created.Ok? {
        myBookings := [created.value] + myBookings;
        refresh := Some(ListingCall(false));
        showBookingModal := false;
        notification := Some(Notification(BookingSentMessage, Success));
      } else {
        refresh := None;
        notification := Some(Notification(ErrorText(created.message, BookingFailedMessage), Error));
      }
    }

    /** `performCancelBooking(bookingId, status)`: on success the booking is marked
        cancelled in place and a refresh of the active rides is scheduled. */
    method PerformCancelBooking(bookingId: nat, bookingStatus: BookingStatus, result: Fetched<()>)
      returns (refresh: Option<RidesCall>)
      modifies this
      ensures result.Ok? ==>
        myBookings == MarkCancelled(old(myBookings), bookingId) && refresh == Some(ListingCall(false))
        && notification == Some(Notification(
             if bookingStatus == Confirmed then ConfirmedCancelledMessage else RequestCancelledMessage, Success))
      ensures result.Failed? ==>
        myBookings == old(myBookings) && refresh.None?
        && notification == Some(Notification(ErrorText(result.message, CancelFailedMessage), Error))
      ensures !loading
      ensures unchanged(this`availableRides, this`user, this`showBookingModal, this`selectedRide,
                        this`bookingForm, this`searchForm, this`showExpiredRides, this`redirect)
    {
      loading := true;
      if result.Ok? {
        myBookings := MarkCancelled(myBookings, bookingId);
        refresh := Some(ListingCall(false));
        var message := if bookingStatus == Confirmed then ConfirmedCancelledMessage else RequestCancelledMessage;
        notification := Some(Notification(message, Success));
      } else {
        refresh := None;
        notification := Some(Notification(ErrorText(result.message, CancelFailedMessage), Error));
      }
      loading := false;
    }
  }

  /** An enabled book button leads to an open modal whose seat selector is shown and
      whose confirm button waits only for a name and a phone number. */
  lemma EnabledBookButtonOpensBookableModal(ride: Ride, form: BookingForm, clock: Clock,
                                            parseDate: string -> Option<CivilDate>)
    requires RideCardAction(ride, false, clock, parseDate) == BookButton(false, BookRideLabel)
    ensures !IsRideExpired(ride.rideDate, ride.rideTime, clock, parseDate)
    ensures var v := InlineModal(ride, form);
      && v.picker.Selector? && v.submitLabel == ConfirmBookingLabel
      && (v.submitDisabled <==> form.passengerName == "" || form.passengerPhone == "")
  {
  }

  /** Booking from the dashboard, end to end: an enabled book button opens the modal on
      that ride, prefilled from the user, and with a name and phone on file the confirm
      button is enabled. */
  method BookFromCard(view: PassengerView, ride: Ride, clock: Clock, parseDate: string -> Option<CivilDate>)
    requires RideCardAction(ride, view.loading, clock, parseDate) == BookButton(false, BookRideLabel)
    requires view.user.Some? && TruthyText(view.user.value.name) && TruthyText(view.user.value.phone)
    modifies view
    ensures view.Modal().Some? && !view.Modal().value.submitDisabled
    ensures view.bookingForm.seatsBooked == 1
  {
    view.HandleBookRide(ride, clock, parseDate);
  }
}

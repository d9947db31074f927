/**
 * The records the dashboards receive from the backend, JavaScript truthiness of their
 * optional fields, and the seat-availability rules both booking modals share.
 */
module Domain {
  import opened Wrappers
  import opened Strings

  datatype RideStatus = Active | RideCancelled | Completed

  datatype BookingStatus = Pending | Confirmed | Rejected | Cancelled

  /** A ride as the backend returns it, with the fields the views read. */
  datatype Ride = Ride(
    id: nat,
    source: string,
    destination: string,
    rideDate: Option<string>,
    rideTime: Option<string>,
    availableSeats: int,
    availableSeatsRemaining: Option<int>,
    bookedSeats: Option<int>,
    status: RideStatus)

  datatype Booking = Booking(
    id: nat,
    rideId: nat,
    seatsBooked: int,
    passengerName: string,
    status: BookingStatus)

  /** The signed-in user as the session stores it. */
  datatype User = User(
    userId: nat,
    name: Option<string>,
    email: Option<string>,
    phone: Option<string>,
    role: string)

  /** An awaited API call: the value it resolved to, or the message of the error it threw. */
  datatype Fetched<T> = Ok(value: T) | Failed(message: string)

  datatype Kind = Success | Error | Info

  /** The toast a dashboard shows. */
  datatype Notification = Notification(message: string, kind: Kind)

  /** `error.message || fallback`. */
  function ErrorText(message: string, fallback: string): (r: string)
    ensures message != "" ==> r == message
    ensures message == "" ==> r == fallback
    ensures fallback != "" ==> r != ""
  {
    if message != "" then message else fallback
  }

  /** JavaScript truthiness of an optional number: present and not 0. */
  predicate TruthyNumber(x: Option<int>) {
    x.Some? && x.value != 0
  }

  /** JavaScript truthiness of an optional string: present and not "". */
  predicate TruthyText(x: Option<string>) {
    x.Some? && x.value != ""
  }

  /** `x || 0`. */
  function OrZero(x: Option<int>): int {
    if TruthyNumber(x) then x.value else 0
  }

  /** `x || ""`. */
  function OrEmpty(x: Option<string>): string {
    if TruthyText(x) then x.value else ""
  }

  /** `ride.availableSeatsRemaining || ride.availableSeats - (ride.bookedSeats || 0)`:
      the seat count both dashboards and both modals show and gate on. */
  function Availability(ride: Ride): int {
    if TruthyNumber(ride.availableSeatsRemaining) then ride.availableSeatsRemaining.value
    else ride.availableSeats - OrZero(ride.bookedSeats)
  }

  /** The displayed availability is the backend's remaining count unless that count is
      missing or 0; then it is the capacity minus the booked seats (0 when those are missing). */
  lemma AvailabilityCases(ride: Ride)
    ensures ride.availableSeatsRemaining.Some? && ride.availableSeatsRemaining.value != 0
      ==> Availability(ride) == ride.availableSeatsRemaining.value
    ensures (ride.availableSeatsRemaining.None? || ride.availableSeatsRemaining == Some(0))
      ==> Availability(ride) == ride.availableSeats - (if ride.bookedSeats.Some? then ride.bookedSeats.value else 0)
  {
  }

  /** Because `||` treats 0 as missing, a ride the backend reports full (remaining 0)
      is shown with seats when none are counted as booked. */
  lemma ReportedFullRideShowsSeats()
    ensures var ride := Ride(1, "A", "B", Some("10/01"), Some("09:00"), 4, Some(0), None, Active);
      Availability(ride) == 4
  {
  }

  /** The most seats one request may ask for. */
  const MaxSeatsPerRequest := 4

  function Min(a: int, b: int): int {
    if a < b then a else b
  }

  /** `{n} seat` with an `s` for more than one. */
  function SeatLabel(n: nat): string {
    NatToString(n) + " seat" + (if n > 1 then "s" else "")
  }

  /** A seat caption names its count, which `parseInt` reads back, and is plural
      exactly for more than one seat. */
  lemma SeatLabelNamesCount(n: nat)
    ensures ParseInt(SeatLabel(n)) == Some(n)
    ensures SeatLabel(n)[|SeatLabel(n)| - 1] == 's' <==> n > 1
  {
    var tail := " seat" + (if n > 1 then "s" else "");
    assert SeatLabel(n) == NatToString(n) + tail;
    ParseIntOfDigitsThen(NatToString(n), tail);
    DigitsValueOfNatToString(n);
  }

  datatype SeatOption = SeatOption(value: nat, caption: string)

  /** `[...Array(Math.min(available, 4))].map((_, i) => i + 1)`, each with its label. */
  function SeatOptions(available: int): (options: seq<SeatOption>)
    requires available > 0
    ensures |options| == Min(available, MaxSeatsPerRequest)
    ensures forall i :: 0 <= i < |options| ==> options[i].value == i + 1
  {
    var n := Min(available, MaxSeatsPerRequest);
    seq(n, i requires 0 <= i < n => SeatOption(i + 1, SeatLabel(i + 1)))
  }

  /** The selector never offers more seats than are available nor more than the cap,
      always offers one seat, and names each option by its count. */
  lemma SeatOptionsWithinLimits(available: int)
    requires available > 0
    ensures var options := SeatOptions(available);
      && options != [] && options[0].value == 1
      && (forall o :: o in options ==> 1 <= o.value <= available && o.value <= MaxSeatsPerRequest)
      && (forall o :: o in options ==> o.caption == SeatLabel(o.value))
  {
  }

  /** Every count from 1 to `min(available, 4)` is offered. */
  lemma SeatOptionsCoverRange(available: int, k: int)
    requires available > 0 && 1 <= k <= Min(available, MaxSeatsPerRequest)
    ensures SeatOption(k, SeatLabel(k)) in SeatOptions(available)
  {
    assert SeatOptions(available)[k - 1] == SeatOption(k, SeatLabel(k));
  }

  /** The entered booking details. */
  datatype BookingForm = BookingForm(
    seatsBooked: int,
    passengerName: string,
    passengerPhone: string,
    bookingNotes: string)

  datatype SeatPicker = Selector(options: seq<SeatOption>) | NoSeatsPanel

  /** What a booking modal shows for its selected ride. */
  datatype ModalView = ModalView(
    available: int,
    picker: SeatPicker,
    submitDisabled: bool,
    submitLabel: string)

  const NoSeatsLabel := "No Seats Available"

  /** The modal body shared by both booking modals; they differ only in the label of the
      submit button when seats are left. */
  function SeatModal(ride: Ride, form: BookingForm, openLabel: string): (v: ModalView)
    ensures v.available == Availability(ride)
    ensures v.picker.Selector? <==> v.available > 0
    ensures v.picker.Selector? ==> v.picker.options == SeatOptions(v.available)
    ensures v.submitDisabled <==> form.passengerName == "" || form.passengerPhone == "" || v.available <= 0
    ensures v.submitLabel == (if v.available <= 0 then NoSeatsLabel else openLabel)
  {
    var available := Availability(ride);
    ModalView(
      available,
      if available > 0 then Selector(SeatOptions(available)) else NoSeatsPanel,
      form.passengerName == "" || form.passengerPhone == "" || available <= 0,
      if available <= 0 then NoSeatsLabel else openLabel)
  }

  /** Submitting is never possible while the "no seats" panel is shown, and whenever
      it is possible the default choice of one seat is on offer. */
  lemma SubmitNeedsOfferedSeat(ride: Ride, form: BookingForm, openLabel: string)
    ensures var v := SeatModal(ride, form, openLabel);
      && (v.picker.NoSeatsPanel? ==> v.submitDisabled && v.submitLabel == NoSeatsLabel)
      && (!v.submitDisabled ==> v.picker.Selector? && SeatOption(1, SeatLabel(1)) in v.picker.options)
  {
    var v := SeatModal(ride, form, openLabel);
    if !v.submitDisabled {
      SeatOptionsCoverRange(v.available, 1);
    }
  }

  /** Where a dashboard sends a visitor before it loads anything. */
  datatype Guard = Proceed | Redirect(path: string)

  /** The check both dashboards run first: no stored user or no token sends the visitor to
      the login page, a user of another role to the other dashboard. */
  function DashboardGuard(user: Option<User>, authenticated: bool, role: string,
                          loginPath: string, otherDashboard: string): (g: Guard)
    ensures g.Proceed? <==> user.Some? && authenticated && user.value.role == role
    ensures (user.None? || !authenticated) ==> g == Redirect(loginPath)
    ensures (user.Some? && authenticated && user.value.role != role) ==> g == Redirect(otherDashboard)
  {
    if user.None? || !authenticated then Redirect(loginPath)
    else if user.value.role != role then Redirect(otherDashboard)
    else Proceed
  }
}

# Ride-sharing front-end core, modelled in Dafny

This project models the client side of a ride-sharing web application. Passengers search
for rides, book seats and cancel bookings. Car owners post rides, see the bookings they
have to approve, and cancel rides.

The model covers four parts of the front-end:

- **The request layer** (`api.dfy`, module `Api`):
  - the headers of every call, with the bearer token attached only on protected calls;
  - the verb and path of every backend endpoint;
  - the query string a ride search sends;
  - how an HTTP response becomes a value or a thrown error;
  - the token/user session kept in local storage (class `Session`).
- **Ride timing** (`ride_time.dfy`, module `RideTime`):
  - the expiry test that stops a passenger from booking a ride that has already started, which reads `D/M` dates in the current year;
  - the "Starts in … / Completed … ago" caption of a ride card.
- **The passenger dashboard** (`user_dashboard.dfy`, module `UserDashboard`):
  - a view-state class `PassengerView`, whose handlers are methods;
  - pure functions for what the page derives from its state: search normalisation and dispatch, the search outcome, the ride-card action, the in-page booking modal, and marking a booking cancelled.
- **The car-owner dashboard** (`car_owner_dashboard.dfy`, module `CarOwnerDashboard`):
  - a view-state class `OwnerView`;
  - the pending-bookings filter, the ride payload, ride removal, and the posted-ride card.

The stand-alone booking modal component is a pure render (`booking_modal.dfy`, module
`BookingModal`).

Shared values live in `domain.dfy` (module `Domain`):

- rides, bookings and users;
- JavaScript truthiness and the `x || fallback` defaults;
- the seat availability both dashboards show;
- the seat selector and the booking modal body;
- the sign-in guard both dashboards run.

`strings.dfy` (module `Strings`) models the JavaScript primitives the code relies on:

- `trim`, with the ECMAScript white-space set;
- `parseInt` on decimal text;
- number-to-text;
- `includes`;
- the first two fields of `split`.

`seqs.dfy` (module `Seqs`) defines `filter`. `wrappers.dfy` holds `Option`.

**The outside world is a parameter.** Every backend call is given as a `Fetched<T>`: the value the awaited call resolved to, or the message it threw. The current instant is a `Clock`. The browser's `Date` string parser is a function `parseDate` that the caller supplies. Handlers that start another call return which call they start (for example the listing refresh after a booking).

**JavaScript semantics are written out explicitly.** This covers:

- `||` treating 0 and "" as missing;
- `trim`;
- `parseInt` returning NaN, modelled as `None`;
- `new Date(year, month, day)` carrying an overflowing day or month into the next one;
- `setHours` on an Invalid Date;
- a NaN comparison being false.

## Model

| member | source | states |
|---|---|---|
| Api.GetItem | src/services/api.js:4-6 | reading a key gives its stored value, and null exactly when the key is absent |
| Api.CreateHeaders | src/services/api.js:9-22 | JSON content type always; `Authorization` present iff auth is asked for and a non-empty token is stored, and then it is `Bearer <token>`; no other header |
| Api.Route | src/services/api.js:40-239 | POST exactly for register, login and the three create calls; PUT exactly for updating a ride and approving or rejecting a booking; DELETE exactly for cancelling a ride or booking and deleting a vehicle; GET otherwise; every path starts with `/` |
| Api.PlacePart | src/services/api.js:83-88 | a place is appended iff it is present and not blank after trimming, and it is appended trimmed |
| Api.DatePart | src/services/api.js:89-91 | the date is appended iff it is present and non-empty, untrimmed |
| Api.SearchQuery | src/services/api.js:79-91 | the query names source, destination and rideDate at most once each, in that order, with exactly the values above |
| Api.BuildSearchQuery | src/services/api.js:80-91 | the imperative sequence of conditional appends builds exactly `SearchQuery` |
| Api.RequestFor | src/services/api.js:40-239 | every call uses its route's verb below the API base URL, sends the headers of `createHeaders(auth)` for its endpoint, and only the search carries a query |
| Api.BearerOnlyOnProtectedCalls | src/services/api.js:41-57 | register and login never carry a token; every other call carries `Bearer <token>` iff a non-empty token is stored |
| Api.HandleResponse | src/services/api.js:25-37 | a non-2xx status throws the body text, or `HTTP error! status: N` when the body is empty; a 2xx response is JSON iff its content type includes `application/json`, otherwise text; the body is passed on unchanged |
| Api.StatusErrorNamesStatus | src/services/api.js:26-29 | an error with an empty body names its status, and the status can be parsed back from the message |
| Api.JsonWithCharsetParsesAsJson | src/services/api.js:31-34 | `application/json; charset=utf-8` is still read as JSON |
| Api.StoredUser | src/services/api.js:259-262 | `getUser` yields null exactly when no user, or an empty one, is stored |
| Api.Session.SetToken | src/services/api.js:243-245 | the token key is set and every other key is unchanged |
| Api.Session.GetToken | src/services/api.js:247-249 | returns the stored token, null when there is none |
| Api.Session.RemoveToken | src/services/api.js:251-253 | only the token key is removed |
| Api.Session.SetUser | src/services/api.js:255-257 | the user key is set to the serialized user and every other key is unchanged |
| Api.Session.GetUser | src/services/api.js:259-262 | returns the stored user text, null when it is missing or empty |
| Api.Session.RemoveUser | src/services/api.js:264-266 | only the user key is removed |
| Api.Session.IsAuthenticated | src/services/api.js:268-270 | true iff a non-empty token is stored |
| Api.Session.Logout | src/services/api.js:272-275 | exactly the token and user keys are removed |
| Api.TokenRoundTrip | src/services/api.js:243-249 | a stored token reads back unchanged; it authenticates iff it is non-empty, and then protected calls carry it |
| Api.UserRoundTrip | src/services/api.js:255-262 | a stored user reads back unchanged and leaves the token alone |
| Api.LogoutClearsSession | src/services/api.js:272-275 | after logout there is no token and no user, every other key is kept, and no call carries a bearer token |
| Api.SignInSignOut | src/services/api.js:242-276 | signing in then out through the session object authenticates in between and leaves the storage without token and user |
| Strings.TrimStart | src/services/api.js:83 | removes exactly a blank prefix, leaving text that does not start with white space |
| Strings.TrimEnd | src/services/api.js:83 | removes exactly a blank suffix, leaving text that does not end with white space |
| Strings.Trim | src/services/api.js:83-88 | the result is the infix of the input left after removing blank text at both ends, and it neither starts nor ends with white space |
| Strings.TrimIdempotent | src/services/api.js:84 | trimming an already trimmed place changes nothing |
| Strings.TrimEmptyIffBlank | src/pages/DashBoards/UserDashboard.jsx:200-201 | a field trims to "" iff it is all white space |
| Strings.NatToString | src/pages/DashBoards/UserDashboard.jsx:218 | a count prints as a non-empty run of digits without a leading zero |
| Strings.ParseInt | src/pages/DashBoards/CarOwnerDashboard.jsx:200 | `parseInt` yields a number iff a digit follows the skipped white space and an optional sign |
| Strings.ParseIntOfDigits | src/pages/DashBoards/UserDashboard.jsx:250 | a run of digits parses to the number it denotes |
| Strings.ParseIntOfSignedDigits | src/pages/DashBoards/UserDashboard.jsx:250 | one leading `-` negates the value of the digits after it, one leading `+` keeps it |
| Strings.ParseIntOfDigitsThen | src/pages/DashBoards/UserDashboard.jsx:260 | `parseInt` of digits followed by a non-digit reads just the digits |
| Strings.NatToStringRoundTrip | src/pages/DashBoards/CarOwnerDashboard.jsx:200 | a printed count parses back to itself |
| Strings.ContainsIffOccurs | src/services/api.js:32 | `includes` holds iff the text occurs at some position |
| Strings.Contains | src/services/api.js:32 | `includes`: a prefix match here or further on; characterised by ContainsIffOccurs |
| Strings.BeforeFirst | src/pages/DashBoards/UserDashboard.jsx:249 | the first `split` field is the longest prefix without the separator |
| Strings.AfterFirst | src/pages/DashBoards/UserDashboard.jsx:249 | the remainder exists iff the separator occurs, and prefix, separator and remainder rebuild the text |
| Seqs.Filter | src/pages/DashBoards/CarOwnerDashboard.jsx:107 | keeps only matching elements, each exactly as often as in the input |
| Seqs.FilterIsSubsequence | src/pages/DashBoards/CarOwnerDashboard.jsx:107 | the kept elements are in their original order |
| Seqs.FilterAllPass | src/pages/DashBoards/CarOwnerDashboard.jsx:107 | filtering a list whose elements all match returns the list |
| Domain.ErrorText | src/pages/DashBoards/CarOwnerDashboard.jsx:221-226 | `error.message || fallback`: the thrown message whenever it is non-empty, the fallback exactly when it is empty, so never empty when the fallback is not |
| Domain.Availability | src/pages/DashBoards/UserDashboard.jsx:927-929 | the availability expression `remaining || capacity - (booked || 0)`; characterised by AvailabilityCases |
| Domain.AvailabilityCases | src/pages/DashBoards/UserDashboard.jsx:927-929 | availability is the backend's remaining count unless it is missing or 0, and then capacity minus booked seats (booked as 0 when missing) |
| Domain.ReportedFullRideShowsSeats | src/pages/DashBoards/UserDashboard.jsx:927-929 | a ride with remaining count 0 and no booked count is shown with all its seats |
| Domain.SeatOptions | src/pages/DashBoards/UserDashboard.jsx:1762-1771 | `min(available, 4)` options, numbered 1 upwards |
| Domain.SeatLabel | src/components/BookingModal.jsx:242 | the caption `N seat`, with an `s` for more than one |
| Domain.SeatLabelNamesCount | src/components/BookingModal.jsx:242 | a seat caption reads back to its count through `parseInt` and ends in `s` iff the count is above 1 |
| Domain.SeatOptionsWithinLimits | src/components/BookingModal.jsx:231-244 | the options start at one seat, never exceed the availability or the cap of 4, and are captioned `N seat(s)` |
| Domain.SeatOptionsCoverRange | src/components/BookingModal.jsx:231-244 | every count from 1 to `min(available, 4)` is offered |
| Domain.SeatModal | src/pages/DashBoards/UserDashboard.jsx:1755-1947 | the selector is shown iff seats are available; submit is disabled iff name or phone is empty or no seat is available, and the label then says "No Seats Available" |
| Domain.SubmitNeedsOfferedSeat | src/pages/DashBoards/UserDashboard.jsx:1934-1947 | the no-seats panel always comes with a disabled submit button; an enabled submit always has one seat on offer |
| Domain.DashboardGuard | src/pages/DashBoards/CarOwnerDashboard.jsx:61-69 | proceeds iff the user is stored, a token exists and the role matches; otherwise login, or the other dashboard for a wrong role |
| RideTime.DayNumberEpoch | src/pages/DashBoards/UserDashboard.jsx:252 | the day count starts at 1 January 1970 |
| RideTime.DayNumber | src/pages/DashBoards/UserDashboard.jsx:252 | the local day `new Date(y, m, d)` denotes, counted from 1970; fixed by `DayNumberEpoch` and `MonthLength` against the Gregorian month lengths |
| RideTime.MonthLength | src/pages/DashBoards/UserDashboard.jsx:252 | consecutive 1sts of the month, December into the next January included, lie `DaysInMonth` apart: 31/30 by month, and February 29 days iff the year is a leap year (divisible by 4 and not by 100, or by 400) |
| RideTime.YearLength | src/pages/DashBoards/UserDashboard.jsx:252 | a year has 366 days iff it is a leap year, otherwise 365 |
| RideTime.LocalMs | src/pages/DashBoards/UserDashboard.jsx:261 | `setHours(h, min, 0, 0)` on that day as local milliseconds |
| RideTime.ExpiryDay | src/pages/DashBoards/UserDashboard.jsx:246-256 | the day `isRideExpired` reads: `D/M` in the clock's year, other text through the `Date` parser; characterised by ExpiryDayOfDayMonth |
| RideTime.DayNumberDayOverflow | src/pages/DashBoards/UserDashboard.jsx:252 | `new Date(y, m, d)` counts the day on from the 1st of the month, overflowing as JavaScript does |
| RideTime.DayNumberMonthOverflow | src/pages/DashBoards/UserDashboard.jsx:252 | twelve months carry into one year |
| RideTime.DayNumberNewYear | src/pages/DashBoards/UserDashboard.jsx:252 | 1 January follows 31 December |
| RideTime.DayMonthParts | src/pages/DashBoards/UserDashboard.jsx:248-249 | only text of the shape `d{1,2}/d{1,2}` is split into day and month, and the parts rebuild the text |
| RideTime.DayMonthPartsComplete | src/pages/DashBoards/UserDashboard.jsx:248-249 | every text of that shape is recognised, with its own two fields |
| RideTime.ClockTime | src/pages/DashBoards/UserDashboard.jsx:259-261 | a time is read only when it has a `:` |
| RideTime.ClockTimeOfDigits | src/pages/DashBoards/UserDashboard.jsx:259-261 | `HH:MM` and `HH:MM:SS` give those hours and minutes |
| RideTime.AtTime | src/pages/DashBoards/UserDashboard.jsx:258-262 | the instant exists iff the date is valid and both time fields parse |
| RideTime.IsRideExpired | src/pages/DashBoards/UserDashboard.jsx:239-265 | a ride missing its date or time is never expired |
| RideTime.DayMonthRideExpiry | src/pages/DashBoards/UserDashboard.jsx:248-264 | a `D/M` ride at `HH:MM` is expired iff day D of month M of the current year at HH:MM is before now |
| RideTime.ExpiryDayOfDayMonth | src/pages/DashBoards/UserDashboard.jsx:248-251 | a `D/M` date is read as day D of month M (index M-1) of the clock's year |
| RideTime.ExpiryIsStrict | src/pages/DashBoards/UserDashboard.jsx:264 | a ride is not expired at its start instant and is expired one millisecond later |
| RideTime.InvalidDateNeverExpires | src/pages/DashBoards/UserDashboard.jsx:252-264 | a date the `Date` parser rejects never expires, since NaN compares false |
| RideTime.TenthOfJanuary | src/pages/DashBoards/UserDashboard.jsx:248-264 | "10/01" at "09:00" expires at 09:00 on 10 January of the current year |
| RideTime.DayMonthRideRevivesAtNewYear | src/pages/DashBoards/UserDashboard.jsx:248-251 | because `D/M` is read in the current year, a ride expired on 31 December 2025 becomes bookable again on 1 January 2026 |
| RideTime.ClassifyDiff | src/pages/DashBoards/UserDashboard.jsx:276-301 | "starts in" iff the difference is positive; minutes below an hour, hours below a day, else days; the amount is the floor of the absolute difference in that unit |
| RideTime.ClassifyDiffRanges | src/pages/DashBoards/UserDashboard.jsx:281-300 | minutes stay below 60, hours run from 1 to 23, and days start at 1 |
| RideTime.Render | src/pages/DashBoards/UserDashboard.jsx:281-300 | the caption is empty iff there are no times, and otherwise starts with "Starts in " or "Completed " according to direction, NaN captions included |
| RideTime.CaptionTail | src/pages/DashBoards/UserDashboard.jsx:281-300 | the words after the amount: " minutes", " hours", " day" or " days", then " ago" for a past ride |
| RideTime.SpanCaption | src/pages/DashBoards/UserDashboard.jsx:281-300 | every span caption is its direction's prefix, the amount as decimal text that `parseInt` reads back to the amount, then the unit words |
| RideTime.CaptionTailWords | src/pages/DashBoards/UserDashboard.jsx:281-300 | minutes and hours are always plural, a day count is plural iff it is above 1, and the caption ends in " ago" iff the ride is past |
| RideTime.CaptionOfInstant | src/pages/DashBoards/UserDashboard.jsx:268-301 | a ride with both fields and a valid instant is captioned by the bucket of the instant minus now |
| RideTime.StatusInstant | src/pages/DashBoards/UserDashboard.jsx:272-274 | the instant of a ride card: defined iff the `Date` parser accepts the date text and the time reads as hours and minutes, and then the parsed day at that clock time; every date text goes through the parser, with no `D/M` reading |
| RideTime.RideTimeStatus | src/pages/DashBoards/UserDashboard.jsx:268-301 | no caption iff date or time is missing; a NaN caption iff both are present and the instant is invalid; otherwise the bucket `ClassifyDiff` gives for the instant minus now |
| RideTime.GetRideTimeStatus | src/pages/DashBoards/UserDashboard.jsx:268-302 | the caption is "" iff the date or the time is missing |
| RideTime.StartsInIffFuture | src/pages/DashBoards/UserDashboard.jsx:280-301 | "Starts in" iff the start is strictly in the future; "Completed" otherwise, an invalid date included |
| RideTime.InvalidDateCaption | src/pages/DashBoards/UserDashboard.jsx:269-301 | a date the parser rejects is captioned "Completed NaN day ago" |
| RideTime.CaptionAgreesWithExpiry | src/pages/DashBoards/UserDashboard.jsx:239-302 | for non-`D/M` dates, an expired ride is captioned "Completed", a "Starts in" ride is bookable, and at the start minute the ride reads "Completed 0 minutes ago" while still bookable |
| UserDashboard.TrimmedOrNull | src/pages/DashBoards/UserDashboard.jsx:200-201 | null iff the field is blank, else the trimmed non-empty field |
| UserDashboard.NormaliseSearch | src/pages/DashBoards/UserDashboard.jsx:199-203 | each place is set iff it is not blank, and then trimmed; the date is set iff non-empty, and then as typed |
| UserDashboard.ListingCall | src/pages/DashBoards/UserDashboard.jsx:79-87 | all rides iff expired rides are included, else active rides |
| UserDashboard.SearchDispatch | src/pages/DashBoards/UserDashboard.jsx:208-211 | a search iff some place is non-blank or a date is given, with the normalised params; otherwise the listing the toggle selects |
| UserDashboard.DispatchedSearchQuery | src/pages/DashBoards/UserDashboard.jsx:199-211 | a dispatched search sends a non-empty query holding exactly the trimmed non-blank places and the typed date |
| UserDashboard.SearchNotice | src/pages/DashBoards/UserDashboard.jsx:215-220 | info "No rides found…" iff no rides, else success `Found N ride(s) matching your search` |
| UserDashboard.SearchResult | src/pages/DashBoards/UserDashboard.jsx:194-236 | a successful search shows its rides with the count notice; a failure falls back to the listing; when both fail the shown rides stay and the error names the first failure |
| UserDashboard.MarkCancelled | src/pages/DashBoards/UserDashboard.jsx:381-387 | same length; bookings with the id become cancelled; every field but the status and every other booking are unchanged |
| UserDashboard.CanCancelBooking | src/pages/DashBoards/UserDashboard.jsx:1214-1215 | the cancel button shows for confirmed and pending bookings |
| UserDashboard.MarkCancelledSettles | src/pages/DashBoards/UserDashboard.jsx:1214-1215 | marking is idempotent; the cancelled booking loses its cancel button and the others keep theirs |
| UserDashboard.RideCardAction | src/pages/DashBoards/UserDashboard.jsx:1029-1068 | the "Ride Completed" badge iff expired; otherwise a button disabled iff loading or no seat is available, captioned "Full" iff no seat is available, else "Book Ride" |
| UserDashboard.InlineModal | src/pages/DashBoards/UserDashboard.jsx:1541-1947 | the shared modal body with "Confirm Booking" while seats are left |
| UserDashboard.EnabledBookButtonOpensBookableModal | src/pages/DashBoards/UserDashboard.jsx:1047-1067 | an enabled "Book Ride" button means the ride is not expired and its modal offers seats, waiting only for a name and a phone |
| UserDashboard.BookFromCard | src/pages/DashBoards/UserDashboard.jsx:304-319 | clicking an enabled book button as a user with name and phone opens the modal on one seat with submit enabled |
| UserDashboard.PassengerView.constructor | src/pages/DashBoards/UserDashboard.jsx:11-33 | the initial state: no user, empty lists, modal closed, one seat, empty search, expired rides hidden |
| UserDashboard.PassengerView.Modal | src/pages/DashBoards/UserDashboard.jsx:1541 | a modal is rendered iff it is open on a selected ride |
| UserDashboard.PassengerView.LoadDashboardData | src/pages/DashBoards/UserDashboard.jsx:79-96 | both lists are replaced together (null as empty), or, if either call throws, neither list changes and an error is shown; loading ends false |
| UserDashboard.PassengerView.Initialize | src/pages/DashBoards/UserDashboard.jsx:52-76 | a guard redirect records the route and changes nothing else; otherwise the user is set and the listing of the current toggle is loaded with the outcome of `loadDashboardData` (both lists or neither, the error notice, loading false), the modal, form and toggle untouched |
| UserDashboard.PassengerView.ToggleShowExpired | src/pages/DashBoards/UserDashboard.jsx:722-727 | the toggle is set and the listing reloads with the new choice: both lists or neither, the error notice on a throw, loading false, everything else untouched |
| UserDashboard.PassengerView.SearchCall | src/pages/DashBoards/UserDashboard.jsx:199-211 | the first call of a search is the dispatch of the current form and toggle |
| UserDashboard.PassengerView.HandleSearchSubmit | src/pages/DashBoards/UserDashboard.jsx:194-236 | the rides, notice and fallback call are those of `SearchResult`; loading ends false; form, toggle, bookings and modal are unchanged |
| UserDashboard.PassengerView.HandleBookRide | src/pages/DashBoards/UserDashboard.jsx:304-319 | an expired ride only raises the error; otherwise the ride is selected and the modal opens on one seat, prefilled with the user's name and phone |
| UserDashboard.PassengerView.SubmitBooking | src/pages/DashBoards/UserDashboard.jsx:328-357 | posts the selected ride's id and the form; on success the booking is put first, the modal closes and the active rides are refreshed; on failure only an error is shown |
| UserDashboard.PassengerView.PerformCancelBooking | src/pages/DashBoards/UserDashboard.jsx:374-410 | on success the booking is marked cancelled, a refresh is scheduled and the message depends on whether it was confirmed; on failure the list is unchanged |
| CarOwnerDashboard.PayloadOf | src/pages/DashBoards/CarOwnerDashboard.jsx:192-203 | the form's text fields are copied, the seat count goes through `parseInt`, and the distance defaults to 10 km iff the field is empty |
| CarOwnerDashboard.SeatCountRoundTrip | src/pages/DashBoards/CarOwnerDashboard.jsx:200 | a seat count typed as a numeral is posted as that number |
| CarOwnerDashboard.PendingOf | src/pages/DashBoards/CarOwnerDashboard.jsx:107 | null gives none; otherwise exactly the pending bookings, in order, each as often as in the input |
| CarOwnerDashboard.NoBookingsNonePending | src/pages/DashBoards/CarOwnerDashboard.jsx:103-108 | a null bookings list has the pending bookings of the empty list it is stored as |
| CarOwnerDashboard.AllPendingAwaitApproval | src/pages/DashBoards/CarOwnerDashboard.jsx:107 | when every booking is pending, all of them await approval |
| CarOwnerDashboard.RemoveRide | src/pages/DashBoards/CarOwnerDashboard.jsx:280 | no ride with the id is left; every other ride is kept, in order and with its multiplicity |
| CarOwnerDashboard.RemoveUnlistedRide | src/pages/DashBoards/CarOwnerDashboard.jsx:280 | cancelling a ride that is not listed leaves the list unchanged |
| CarOwnerDashboard.CardOf | src/pages/DashBoards/CarOwnerDashboard.jsx:832-862 | seats left plus bookings equal the capacity, bookings default to 0, and cancel is offered iff the ride is active |
| CarOwnerDashboard.CardAgreesWithAvailability | src/pages/DashBoards/CarOwnerDashboard.jsx:832-835 | the owner's seats-left equals the passenger's availability iff the remaining count is missing or 0 or agrees with it |
| CarOwnerDashboard.OwnerView.constructor | src/pages/DashBoards/CarOwnerDashboard.jsx:16-46 | the initial state: rides tab, empty lists, no vehicle, empty form, initial loading |
| CarOwnerDashboard.OwnerView.LoadDashboardData | src/pages/DashBoards/CarOwnerDashboard.jsx:94-132 | rides, then bookings and pending ones, then the vehicle; a throw from rides or bookings stops with the error and keeps what was set; a failed vehicle call leaves no vehicle; pending bookings stay consistent with the bookings |
| CarOwnerDashboard.OwnerView.StoreBookings | src/pages/DashBoards/CarOwnerDashboard.jsx:103-127 | stores the bookings, exactly their pending ones, and the vehicle or none |
| CarOwnerDashboard.OwnerView.Initialize | src/pages/DashBoards/CarOwnerDashboard.jsx:58-76 | a guard redirect records the route and changes nothing else; otherwise the user is set, rides, bookings, pending ones and the vehicle are loaded as `loadDashboardData` does, and initial loading ends |
| CarOwnerDashboard.OwnerView.HandleRideSubmit | src/pages/DashBoards/CarOwnerDashboard.jsx:180-231 | without a vehicle nothing is posted and the vehicle tab opens with an error; otherwise the form's payload is posted |
| CarOwnerDashboard.OwnerView.PostRide | src/pages/DashBoards/CarOwnerDashboard.jsx:205-230 | on success the new ride is listed first and the form is reset and closed; on failure only the error is shown |
| CarOwnerDashboard.OwnerView.PerformCancelRide | src/pages/DashBoards/CarOwnerDashboard.jsx:275-286 | on success the ride leaves the list; on failure the list is unchanged and the error is shown |
| BookingModal.Render | src/components/BookingModal.jsx:3-343 | renders nothing iff closed or without a ride; otherwise the availability, selector, disabled state and "Send Booking Request" label of the shared body, and a selector offers exactly `SeatOptions` of the available seats |
| BookingModal.AgreesWithInlineModal | src/components/BookingModal.jsx:222-343 | the component and the dashboard's own modal show the same availability, choices and enabled state; the labels differ iff seats are left |
| BookingModal.RenderedChoices | src/components/BookingModal.jsx:222-244 | a rendered modal with seats offers every count from 1 to `min(available, 4)` |

## Left out

- HTTP, `fetch` and JSON parsing or serialization are not modelled. Each call is a `Fetched` parameter, `getUser` returns the stored text, and `setUser` receives the serialized text.
- The bodies of POST/PUT requests are not modelled. URL percent-encoding of the query string is not modelled either: the query is a list of name/value pairs.
- Floating-point prices are not modelled: `parseFloat` of the price and distance, the total price, and the price suffix of the seat captions (UserDashboard.jsx:1774-1779). A typed distance is kept as its text.
- `parseInt` is modelled for decimal text only. Hex prefixes and radix inference are left out.
- Time has no zone and no daylight-saving shift. The `Date` string parser is a caller-supplied function. `getRideTimeStatus` divides by exact integers where the source divides floats, which gives the same floors.
- Timers and concurrency are not modelled. The delayed refresh after cancelling a booking is returned as the call it starts. The order in which React applies asynchronous state updates is not modelled.
- The confirmation dialogs (`handleCancelBooking`, `handleCancelRide`) are not modelled. The model starts at the `perform…` handler they call.
- These parts of the dashboards are not modelled, because they sit outside the booking and posting flow: approve/reject handlers, the vehicle form and `handleVehicleSubmit`, profile editing, form-change handlers, date/time formatting, the click-outside effect, the passenger view's `initialLoading`, and its tab.
- Markup and styling are reduced to the values the markup derives: availability, badge or button, captions, disabled flags and the cancel buttons.
- Ride.availableSeats is a number in every ride. A ride sent without it would give NaN availability in the source: an enabled "Book Ride" button, the no-seats panel, and an enabled "Confirm Booking". Domain.SubmitNeedsOfferedSeat and UserDashboard.EnabledBookButtonOpensBookableModal depend on the numeric field.
- A non-string `rideDate` (UserDashboard.jsx:254-256) is not modelled: dates are text or missing.
- RideTime.IsRideExpired: its own contract only states the missing-field case. The full behaviour is stated by DayMonthRideExpiry, ExpiryOfParts, ExpiryIsStrict and InvalidDateNeverExpires. A date that is neither `D/M` nor accepted by the parser is covered only through `parseDate`.
- UserDashboard.PassengerView.SubmitBooking: requires a selected ride, because the button that calls it exists only inside the modal, which renders only with a selected ride. `seatsBooked` is held as a number. The source parses the select's string value, which is always a numeral from 1 to 4.
- UserDashboard.PassengerView.HandleSearchSubmit: takes the result of the call that `SearchCall` names. The two are separate methods, so the search parameters and the outcome are stated separately.
- CarOwnerDashboard.OwnerView.LoadDashboardData: the vehicle form prefill is not modelled. A vehicle call that returns null throws in the source and lands in the inner catch, so it is modelled as no vehicle.

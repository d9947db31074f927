/**
 * The request layer of the front-end: the headers every call sends, the route of every
 * backend endpoint, the query string of a ride search, how a response is turned into a
 * value or an error, and the token/user session kept in the browser's local storage.
 * The HTTP exchange itself is outside the model: callers receive a `Response`.
 */
module Api {
  import opened Wrappers
  import opened Strings

  const ApiBaseUrl := "http://localhost:8081/api"

  const TokenKey := "token"
  const UserKey := "user"

  /** The browser's local storage: text keys to text values. */
  type Storage = map<string, string>

  type Headers = map<string, string>

  /** `localStorage.getItem(key)`, None for `null`. */
  function GetItem(storage: Storage, key: string): (v: Option<string>)
    ensures v.Some? <==> key in storage
    ensures v.Some? ==> v.value == storage[key]
  {
    if key in storage then Some(storage[key]) else None
  }

  /** A token is stored and is not the empty string (`!!getAuthToken()`). */
  predicate HasToken(storage: Storage) {
    TokenKey in storage && storage[TokenKey] != ""
  }

  /** `createHeaders(includeAuth)`: JSON content type always, and the bearer token when
      asked for and one is stored. */
  function CreateHeaders(includeAuth: bool, storage: Storage): (h: Headers)
    ensures "Content-Type" in h && h["Content-Type"] == "application/json"
    ensures "Authorization" in h <==> includeAuth && HasToken(storage)
    ensures "Authorization" in h ==> h["Authorization"] == "Bearer " + storage[TokenKey]
    ensures h.Keys <= {"Content-Type", "Authorization"}
  {
    var headers := map["Content-Type" := "application/json"];
    var token := GetItem(storage, TokenKey);
    if includeAuth && token.Some? && token.value != "" then
      headers["Authorization" := "Bearer " + token.value]
    else
      headers
  }

  /** The fields of a ride search; None stands for `null` or `undefined`. */
  datatype SearchParams = SearchParams(
    source: Option<string>,
    destination: Option<string>,
    rideDate: Option<string>)

  /** The names a ride search may put in its query string. */
  datatype Param = SourceParam | DestinationParam | RideDateParam

  function ParamName(k: Param): string {
    match k
    case SourceParam => "source"
    case DestinationParam => "destination"
    case RideDateParam => "rideDate"
  }

  /** Position of a parameter in the fixed order source, destination, rideDate. */
  function Rank(k: Param): nat {
    match k
    case SourceParam => 0
    case DestinationParam => 1
    case RideDateParam => 2
  }

  /** `URLSearchParams` as the name/value pairs appended, in order. */
  type Query = seq<(Param, string)>

  /** A place filter is sent when it is truthy and not blank (`p && p.trim()`). */
  predicate SendsPlace(p: Option<string>) {
    p.Some? && p.value != "" && Trim(p.value) != ""
  }

  /** The value of the first pair named `key`. */
  function QueryValue(q: Query, key: Param): (v: Option<string>)
    ensures v.Some? <==> exists i :: 0 <= i < |q| && q[i].0 == key
  {
    if q == [] then None
    else if q[0].0 == key then Some(q[0].1)
    else QueryValue(q[1..], key)
  }

  /** The pair a place filter contributes: its trimmed value when it is sent. */
  function PlacePart(key: Param, p: Option<string>): (q: Query)
    ensures |q| <= 1 && (q != [] ==> q[0].0 == key)
    ensures q != [] <==> SendsPlace(p)
    ensures q != [] ==> q[0].1 == Trim(p.value)
  {
    if SendsPlace(p) then [(key, Trim(p.value))] else []
  }

  /** The pair the date contributes when it is truthy. */
  function DatePart(p: Option<string>): (q: Query)
    ensures |q| <= 1 && (q != [] ==> q[0].0 == RideDateParam)
    ensures q != [] <==> p.Some? && p.value != ""
    ensures q != [] ==> q[0].1 == p.value
  {
    if p.Some? && p.value != "" then [(RideDateParam, p.value)] else []
  }

  /** The `URLSearchParams` that `searchRides` builds: the trimmed source and destination
      when they are not blank, the date when it is truthy, in that order and each once. */
  function SearchQuery(p: SearchParams): (q: Query)
    ensures QueryValue(q, SourceParam) == (if SendsPlace(p.source) then Some(Trim(p.source.value)) else None)
    ensures QueryValue(q, DestinationParam)
      == (if SendsPlace(p.destination) then Some(Trim(p.destination.value)) else None)
    ensures QueryValue(q, RideDateParam)
      == (if p.rideDate.Some? && p.rideDate.value != "" then p.rideDate else None)
    ensures forall i, j :: 0 <= i < j < |q| ==> Rank(q[i].0) < Rank(q[j].0)
  {
    var source := PlacePart(SourceParam, p.source);
    var destination := PlacePart(DestinationParam, p.destination);
    var date := DatePart(p.rideDate);
    QueryOfParts(source, destination, date);
    source + destination + date
  }

  /** `searchRides` building its `URLSearchParams` by conditional appends. */
  method BuildSearchQuery(p: SearchParams) returns (q: Query)
    ensures q == SearchQuery(p)
  {
    q := [];
    if p.source.Some? && p.source.value != "" && Trim(p.source.value) != "" {
      q := q + [(SourceParam, Trim(p.source.value))];
    }
    assert q == PlacePart(SourceParam, p.source);
    if p.destination.Some? && p.destination.value != "" && Trim(p.destination.value) != "" {
      q := q + [(DestinationParam, Trim(p.destination.value))];
    }
    assert q == PlacePart(SourceParam, p.source) + PlacePart(DestinationParam, p.destination);
    if p.rideDate.Some? && p.rideDate.value != "" {
      q := q + [(RideDateParam, p.rideDate.value)];
    }
  }

  lemma QueryOfParts(source: Query, destination: Query, date: Query)
    requires |source| <= 1 && |destination| <= 1 && |date| <= 1
    requires source != [] ==> source[0].0 == SourceParam
    requires destination != [] ==> destination[0].0 == DestinationParam
    requires date != [] ==> date[0].0 == RideDateParam
    ensures var q := source + destination + date;
      && QueryValue(q, SourceParam) == (if source != [] then Some(source[0].1) else None)
      && QueryValue(q, DestinationParam) == (if destination != [] then Some(destination[0].1) else None)
      && QueryValue(q, RideDateParam) == (if date != [] then Some(date[0].1) else None)
      && (forall i, j :: 0 <= i < j < |q| ==> Rank(q[i].0) < Rank(q[j].0))
  {
    var q := source + destination + date;
    QueryValuesOfParts(source, destination, date);
    forall k | 0 <= k < |q|
      ensures Rank(q[k].0) == (if k < |source| then 0 else if k < |source| + |destination| then 1 else 2)
    {
      if k < |source| {
        assert q[k] == source[k];
      } else if k < |source| + |destination| {
        assert q[k] == destination[k - |source|];
      } else {
        assert q[k] == date[k - |source| - |destination|];
      }
    }
  }

  lemma QueryValuesOfParts(source: Query, destination: Query, date: Query)
    requires |source| <= 1 && |destination| <= 1 && |date| <= 1
    requires source != [] ==> source[0].0 == SourceParam
    requires destination != [] ==> destination[0].0 == DestinationParam
    requires date != [] ==> date[0].0 == RideDateParam
    ensures var q := source + destination + date;
      && QueryValue(q, SourceParam) == (if source != [] then Some(source[0].1) else None)
      && QueryValue(q, DestinationParam) == (if destination != [] then Some(destination[0].1) else None)
      && QueryValue(q, RideDateParam) == (if date != [] then Some(date[0].1) else None)
  {
    assert source + destination + date == source + (destination + date);
    QueryValueAppend(source, destination + date, SourceParam);
    QueryValueAppend(source, destination + date, DestinationParam);
    QueryValueAppend(source, destination + date, RideDateParam);
    QueryValueAppend(destination, date, SourceParam);
    QueryValueAppend(destination, date, DestinationParam);
    QueryValueAppend(destination, date, RideDateParam);
  }

  lemma {:induction false} QueryValueAppend(a: Query, b: Query, key: Param)
    ensures QueryValue(a + b, key) == if QueryValue(a, key).Some? then QueryValue(a, key) else QueryValue(b, key)
  {
    if a != [] {
      assert (a + b)[1..] == a[1..] + b;
      QueryValueAppend(a[1..], b, key);
    } else {
      assert a + b == b;
    }
  }

  datatype Verb = Get | Post | Put | Delete

  /** Every call the front-end makes; ids are the numbers the backend assigned. */
  datatype Endpoint =
    | Register | Login
    | CreateRide | GetMyRides | SearchRides(params: SearchParams) | GetActiveRides | GetAllRides
    | GetRideById(rideId: nat) | UpdateRide(rideId: nat) | CancelRide(rideId: nat)
    | CreateBooking | GetMyBookings | GetDriverBookings | GetRideBookings(rideId: nat)
    | ApproveBooking(bookingId: nat) | RejectBooking(bookingId: nat) | CancelBooking(bookingId: nat)
    | CreateOrUpdateVehicle | GetMyVehicle | GetVehicleById(vehicleId: nat) | DeleteVehicle(vehicleId: nat)

  /** The request a call sends (its JSON body is not modelled). */
  datatype Request = Request(verb: Verb, url: string, query: Query, headers: Headers)

  /** Whether the call asks `createHeaders` for the bearer token. */
  predicate WantsAuth(e: Endpoint) {
    !(e.Register? || e.Login?)
  }

  /** Verb and path below the API base of each call. */
  function Route(e: Endpoint): (r: (Verb, string))
    ensures r.0 == Post <==> e.Register? || e.Login? || e.CreateRide? || e.CreateBooking? || e.CreateOrUpdateVehicle?
    ensures r.0 == Put <==> e.UpdateRide? || e.ApproveBooking? || e.RejectBooking?
    ensures r.0 == Delete <==> e.CancelRide? || e.CancelBooking? || e.DeleteVehicle?
    ensures "/" <= r.1
  {
    match e
    case Register => (Post, "/auth/register")
    case Login => (Post, "/auth/login")
    case CreateRide => (Post, "/rides")
    case GetMyRides => (Get, "/rides/my-rides")
    case SearchRides(_) => (Get, "/rides/search")
    case GetActiveRides => (Get, "/rides/active")
    case GetAllRides => (Get, "/rides/all")
    case GetRideById(id) => (Get, "/rides/" + NatToString(id))
    case UpdateRide(id) => (Put, "/rides/" + NatToString(id))
    case CancelRide(id) => (Delete, "/rides/" + NatToString(id))
    case CreateBooking => (Post, "/bookings")
    case GetMyBookings => (Get, "/bookings/my-bookings")
    case GetDriverBookings => (Get, "/bookings/driver-bookings")
    case GetRideBookings(id) => (Get, "/bookings/ride/" + NatToString(id))
    case ApproveBooking(id) => (Put, "/bookings/" + NatToString(id) + "/approve")
    case RejectBooking(id) => (Put, "/bookings/" + NatToString(id) + "/reject")
    case CancelBooking(id) => (Delete, "/bookings/" + NatToString(id))
    case CreateOrUpdateVehicle => (Post, "/vehicles")
    case GetMyVehicle => (Get, "/vehicles/my-vehicle")
    case GetVehicleById(id) => (Get, "/vehicles/" + NatToString(id))
    case DeleteVehicle(id) => (Delete, "/vehicles/" + NatToString(id))
  }

  /** The request one call sends with the given local storage. */
  function RequestFor(e: Endpoint, storage: Storage): (r: Request)
    ensures r.verb == Route(e).0 && r.url == ApiBaseUrl + Route(e).1
    ensures ApiBaseUrl <= r.url
    ensures r.headers == CreateHeaders(WantsAuth(e), storage)
    ensures r.query == (if e.SearchRides? then SearchQuery(e.params) else [])
  {
    var (verb, path) := Route(e);
    Request(verb, ApiBaseUrl + path, if e.SearchRides? then SearchQuery(e.params) else [], CreateHeaders(WantsAuth(e), storage))
  }

  /** Registering and logging in never send a bearer token, whatever is stored; every other
      call sends exactly `Bearer <token>` when a token is stored and nothing otherwise. */
  lemma BearerOnlyOnProtectedCalls(e: Endpoint, storage: Storage)
    ensures var h := RequestFor(e, storage).headers;
      && (e.Register? || e.Login? ==> "Authorization" !in h)
      && (!(e.Register? || e.Login?) ==>
            ("Authorization" in h <==> HasToken(storage))
            && ("Authorization" in h ==> h["Authorization"] == "Bearer " + storage[TokenKey]))
      && h["Content-Type"] == "application/json"
  {
  }

  /** A fetch response: status, `content-type` header (None when absent) and body text. */
  datatype Response = Response(status: nat, contentType: Option<string>, body: string) {
    /** `response.ok`. */
    predicate Ok() {
      200 <= status <= 299
    }
  }

  /** What `handleResponse` does with a response: throws an error with a message, or
      returns the body parsed as JSON or as plain text. */
  datatype Handled = Thrown(message: string) | Json(text: string) | Text(text: string)

  const StatusErrorPrefix := "HTTP error! status: "

  /** `handleResponse(response)`. */
  function HandleResponse(r: Response): (h: Handled)
    ensures h.Thrown? <==> !r.Ok()
    ensures h.Thrown? ==> h.message != ""
    ensures h.Thrown? ==> h.message == (if r.body != "" then r.body else StatusErrorPrefix + NatToString(r.status))
    ensures h.Json? <==> r.Ok() && r.contentType.Some? && Contains(r.contentType.value, "application/json")
    ensures !h.Thrown? ==> h.text == r.body
  {
    if !r.Ok() then
      Thrown(if r.body != "" then r.body else StatusErrorPrefix + NatToString(r.status))
    else if r.contentType.Some? && Contains(r.contentType.value, "application/json") then
      Json(r.body)
    else
      Text(r.body)
  }

  /** When an error response has no body, the thrown message carries the status, and the
      status can be read back from it. */
  lemma StatusErrorNamesStatus(r: Response)
    requires !r.Ok() && r.body == ""
    ensures var m := HandleResponse(r).message;
      StatusErrorPrefix <= m && ParseInt(m[|StatusErrorPrefix|..]) == Some(r.status as int)
  {
    var m := HandleResponse(r).message;
    assert m[|StatusErrorPrefix|..] == NatToString(r.status);
    NatToStringRoundTrip(r.status);
  }

  /** A JSON content type with parameters (`application/json; charset=utf-8`) still parses as JSON. */
  lemma JsonWithCharsetParsesAsJson(status: nat, body: string)
    requires 200 <= status <= 299
    ensures HandleResponse(Response(status, Some("application/json; charset=utf-8"), body)) == Json(body)
  {
    var ct := "application/json; charset=utf-8";
    assert "application/json" <= ct;
  }

  /** The value `getToken` returns. */
  function StoredToken(storage: Storage): Option<string> {
    GetItem(storage, TokenKey)
  }

  /** The user text `getUser` hands to `JSON.parse`, None when it returns `null`. */
  function StoredUser(storage: Storage): (u: Option<string>)
    ensures u.Some? <==> UserKey in storage && storage[UserKey] != ""
  {
    if UserKey in storage && storage[UserKey] != "" then Some(storage[UserKey]) else None
  }

  /** `authUtils`, over the local storage it writes. */
  class Session {
    var storage: Storage

    constructor (initial: Storage)
      ensures storage == initial
    {
      storage := initial;
    }

    method SetToken(token: string)
      modifies this
      ensures storage == old(storage)[TokenKey := token]
    {
      storage := storage[TokenKey := token];
    }

    method GetToken() returns (token: Option<string>)
      ensures token == StoredToken(storage)
    {
      token := GetItem(storage, TokenKey);
    }

    method RemoveToken()
      modifies this
      ensures storage == old(storage) - {TokenKey}
    {
      storage := storage - {TokenKey};
    }

    /** `setUser(user)`, given the text `JSON.stringify(user)` produced. */
    method SetUser(json: string)
      modifies this
      ensures storage == old(storage)[UserKey := json]
    {
      storage := storage[UserKey := json];
    }

    method GetUser() returns (user: Option<string>)
      ensures user == StoredUser(storage)
    {
      var item := GetItem(storage, UserKey);
      user := if item.Some? && item.value != "" then item else None;
    }

    method RemoveUser()
      modifies this
      ensures storage == old(storage) - {UserKey}
    {
      storage := storage - {UserKey};
    }

    method IsAuthenticated() returns (authenticated: bool)
      ensures authenticated <==> HasToken(storage)
    {
      var token := GetItem(storage, TokenKey);
      authenticated := token.Some? && token.value != "";
    }

    method Logout()
      modifies this
      ensures storage == old(storage) - {TokenKey, UserKey}
    {
      storage := storage - {TokenKey};
      storage := storage - {UserKey};
    }
  }

  /** Storing a token and reading it back gives the token; it authenticates the session
      exactly when it is not empty, and then every protected call carries it. */
  lemma TokenRoundTrip(storage: Storage, token: string)
    ensures var s := storage[TokenKey := token];
      && StoredToken(s) == Some(token)
      && (HasToken(s) <==> token != "")
      && (token != "" ==> CreateHeaders(true, s)["Authorization"] == "Bearer " + token)
  {
  }

  /** Storing a user's text and reading it back gives that text; `JSON.stringify` never
      yields "", so this is every stored user. The token is untouched. */
  lemma UserRoundTrip(storage: Storage, json: string)
    requires json != ""
    ensures StoredUser(storage[UserKey := json]) == Some(json)
    ensures StoredToken(storage[UserKey := json]) == StoredToken(storage)
  {
  }

  /** Logging out removes the token and the user and keeps every other key; afterwards
      no call carries a bearer token. */
  lemma LogoutClearsSession(storage: Storage)
    ensures var s := storage - {TokenKey, UserKey};
      && StoredToken(s).None? && StoredUser(s).None? && !HasToken(s)
      && (forall k :: k != TokenKey && k != UserKey ==> GetItem(s, k) == GetItem(storage, k))
      && (forall e: Endpoint :: "Authorization" !in RequestFor(e, s).headers)
  {
  }

  /** A sign-in followed by a sign-out, through the session object. */
  method SignInSignOut(session: Session, token: string, json: string)
    requires token != "" && json != ""
    modifies session
    ensures session.storage == old(session.storage) - {TokenKey, UserKey}
  {
    session.SetToken(token);
    session.SetUser(json);
    var t := session.GetToken();
    assert t == Some(token);
    var u := session.GetUser();
    assert u == Some(json);
    var signedIn := session.IsAuthenticated();
    assert signedIn;
    session.Logout();
    signedIn := session.IsAuthenticated();
    assert !signedIn;
    assert session.storage == old(session.storage) - {TokenKey, UserKey};
  }
}

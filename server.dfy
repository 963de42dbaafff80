/**
 * The tracker backend: a route table and a location table, both keyed by
 * bus id. A GPS sample replaces the location entry of its bus, after the
 * nearest stop and a motion status have been worked out; a detail query joins
 * the two tables into a view with current stop, next stop and an ETA.
 */
module Server {
  import opened Wrappers
  import opened RouteData

  /**
   * The distance in kilometres from (lat1, lon1) to (lat2, lon2). The
   * haversine formula behind it is not modelled: the model only relies on the
   * distance never being negative.
   */
  type DistanceFn = f: (real, real, real, real) -> real | forall a, b, c, d :: f(a, b, c, d) >= 0.0
    witness (a: real, b: real, c: real, d: real) => 0.0

  /** The three status strings the backend stores: 'Moving', 'Stopped', 'At Stop'. */
  datatype Status = Moving | Stopped | AtStop

  /** One entry of the location table. `updated` is the opaque timestamp string. */
  datatype Location = Location(
    busId: string, lat: real, lon: real, speed: real,
    updated: string, status: Status, currentStopIndex: nat)

  /** The 400 answer to a sample without device id, latitude or longitude. */
  datatype PostError = MissingFields

  /** The ETA of a detail view: whole minutes, or the label 'Stopped' or 'Unknown'. */
  datatype Eta = EtaMinutes(minutes: int) | EtaStopped | EtaUnknown

  /** The joined view of one bus; absent stops are `None` (JavaScript's `undefined`). */
  datatype Details = Details(
    location: Location, routeName: string, currentStop: Option<string>,
    nextStop: Option<string>, eta: Eta, totalStops: nat, stops: seq<Stop>)

  // ---------------------------------------------------------------------------
  // Bus ids
  // ---------------------------------------------------------------------------

  function UpperChar(c: char): char
  {
    if 'a' <= c <= 'z' then (c as int - 32) as char else c
  }

  /** Upper-casing of a bus id, letter by letter (ASCII letters only). */
  function ToUpper(s: string): (r: string)
    ensures |r| == |s|
    ensures forall i :: 0 <= i < |s| ==> r[i] == UpperChar(s[i]) && !('a' <= r[i] <= 'z')
  {
    seq(|s|, i requires 0 <= i < |s| => UpperChar(s[i]))
  }

  /** Upper-casing an id twice is upper-casing it once. */
  lemma ToUpperIdempotent(s: string)
    ensures ToUpper(ToUpper(s)) == ToUpper(s)
  {
    var u := ToUpper(s);
    assert forall i :: 0 <= i < |u| ==> ToUpper(u)[i] == u[i];
  }

  // ---------------------------------------------------------------------------
  // Nearest stop and status
  // ---------------------------------------------------------------------------

  function StopDistance(dist: DistanceFn, lat: real, lon: real, stop: Stop): real
  {
    dist(lat, lon, stop.lat, stop.lon)
  }

  /** Index `k` is a stop at minimum distance, and no earlier stop is as close. */
  predicate IsFirstNearest(stops: seq<Stop>, lat: real, lon: real, k: int, dist: DistanceFn)
  {
    && 0 <= k < |stops|
    && (forall j :: 0 <= j < |stops| ==>
          StopDistance(dist, lat, lon, stops[k]) <= StopDistance(dist, lat, lon, stops[j]))
    && (forall j :: 0 <= j < k ==>
          StopDistance(dist, lat, lon, stops[j]) > StopDistance(dist, lat, lon, stops[k]))
  }

  /** Some stop is closer than 100 metres. */
  predicate NearSomeStop(stops: seq<Stop>, lat: real, lon: real, dist: DistanceFn)
  {
    exists j :: 0 <= j < |stops| && StopDistance(dist, lat, lon, stops[j]) < 0.1
  }

  /**
   * The proximity scan of the sample handler. `minDistance` starts as
   * Infinity, written `None`; a stop replaces the best so far only when it is
   * strictly closer, so the first of several equally near stops wins.
   */
  method NearestStop(stops: seq<Stop>, lat: real, lon: real, dist: DistanceFn)
    returns (index: nat, minDistance: Option<real>)
    ensures |stops| == 0 ==> index == 0 && minDistance.None?
    ensures |stops| > 0 ==>
      && IsFirstNearest(stops, lat, lon, index, dist)
      && minDistance == Some(StopDistance(dist, lat, lon, stops[index]))
  {
    index, minDistance := 0, None;
    var i := 0;
    while i < |stops|
      invariant 0 <= i <= |stops|
      invariant minDistance.None? <==> i == 0
      invariant i == 0 ==> index == 0
      invariant i > 0 ==> index < i && minDistance == Some(StopDistance(dist, lat, lon, stops[index]))
      invariant forall j :: 0 <= j < i ==>
        StopDistance(dist, lat, lon, stops[index]) <= StopDistance(dist, lat, lon, stops[j])
      invariant forall j :: 0 <= j < index ==>
        StopDistance(dist, lat, lon, stops[j]) > StopDistance(dist, lat, lon, stops[index])
    {
      var distance := StopDistance(dist, lat, lon, stops[i]);
      if minDistance.None? || distance < minDistance.value {
        minDistance := Some(distance);
        index := i;
      }
      i := i + 1;
    }
  }

  // ---------------------------------------------------------------------------
  // The sample handler
  // ---------------------------------------------------------------------------

  /** The handler's guard: a non-empty device id, and latitude and longitude present. */
  predicate Accepted(deviceId: Option<string>, lat: Option<real>, lon: Option<real>)
  {
    deviceId.Some? && deviceId.value != "" && lat.Some? && lon.Some?
  }

  /**
   * `loc` is the record the handler stores for an accepted sample: keyed by
   * the upper-cased id, at the sample's position, with the speed when it is
   * truthy and 0 otherwise; on a known route, at the first nearest stop and
   * 'At Stop' exactly when some stop is within 100 metres; otherwise at
   * index 0. A bus not at a stop is 'Moving' exactly when the sample's speed
   * is positive.
   */
  predicate IsUpdate(
    routes: map<string, Route>, deviceId: string, lat: real, lon: real,
    speed: Option<real>, now: string, dist: DistanceFn, loc: Location)
  {
    var busId := ToUpper(deviceId);
    && loc.busId == busId && loc.lat == lat && loc.lon == lon && loc.updated == now
    && loc.speed == (if speed.Some? && speed.value != 0.0 then speed.value else 0.0)
    && (if busId in routes && |routes[busId].stops| > 0
        then IsFirstNearest(routes[busId].stops, lat, lon, loc.currentStopIndex, dist)
        else loc.currentStopIndex == 0)
    && (loc.status == AtStop <==> busId in routes && NearSomeStop(routes[busId].stops, lat, lon, dist))
    && (loc.status != AtStop ==> (loc.status == Moving <==> speed.Some? && speed.value > 0.0))
  }

  /**
   * The body of the sample handler up to the table write: validation, id
   * normalisation, the proximity scan and the status rule. An id without a
   * route is accepted too. `now` is the server clock's timestamp.
   */
  method ComputeUpdate(
    routes: map<string, Route>, deviceId: Option<string>, lat: Option<real>,
    lon: Option<real>, speed: Option<real>, now: string, dist: DistanceFn)
    returns (r: Result<Location, PostError>)
    ensures r.Failure? <==> !Accepted(deviceId, lat, lon)
    ensures r.Success? ==> IsUpdate(routes, deviceId.value, lat.value, lon.value, speed, now, dist, r.value)
  {
    if deviceId.None? || deviceId.value == "" || lat.None? || lon.None? {
      return Failure(MissingFields);
    }
    var busId := ToUpper(deviceId.value);
    var currentStopIndex := 0;
    var status := if speed.Some? && speed.value > 0.0 then Moving else Stopped;
    if busId in routes {
      var stops := routes[busId].stops;
      var index, minDistance := NearestStop(stops, lat.value, lon.value, dist);
      currentStopIndex := index;
      if minDistance.Some? && minDistance.value < 0.1 {
        status := AtStop;
      }
      if NearSomeStop(stops, lat.value, lon.value, dist) {
        var j :| 0 <= j < |stops| && StopDistance(dist, lat.value, lon.value, stops[j]) < 0.1;
        assert minDistance.Some? && minDistance.value < 0.1;
      }
    }
    var storedSpeed := if speed.Some? && speed.value != 0.0 then speed.value else 0.0;
    r := Success(Location(busId, lat.value, lon.value, storedSpeed, now, status, currentStopIndex));
  }

  // ---------------------------------------------------------------------------
  // The detail view
  // ---------------------------------------------------------------------------

  /** `stops[i]`, or `None` when `i` is out of range. */
  function StopAt(stops: seq<Stop>, i: int): (r: Option<Stop>)
    ensures r.Some? <==> 0 <= i < |stops|
    ensures r.Some? ==> r.value == stops[i]
  {
    if 0 <= i < |stops| then Some(stops[i]) else None
  }

  function NameOf(stop: Option<Stop>): Option<string>
  {
    if stop.Some? then Some(stop.value.name) else None
  }

  /** `Math.ceil`: the least integer not below `x`. */
  function Ceil(x: real): (n: int)
    ensures x <= n as real < x + 1.0
  {
    -((-x).Floor)
  }

  /**
   * The ETA rule: minutes to the next stop when there is one and the bus moves,
   * 'Stopped' whenever the speed is 0 (even at the last stop), 'Unknown'
   * otherwise (no next stop, or a negative speed).
   */
  function EtaFor(loc: Location, next: Option<Stop>, dist: DistanceFn): (e: Eta)
    ensures e.EtaMinutes? <==> next.Some? && loc.speed > 0.0
    ensures e.EtaStopped? <==> loc.speed == 0.0
    ensures e.EtaMinutes? ==>
      var hours := StopDistance(dist, loc.lat, loc.lon, next.value) / loc.speed;
      && hours * 60.0 <= e.minutes as real < hours * 60.0 + 1.0
      && e.minutes >= 0
      && (StopDistance(dist, loc.lat, loc.lon, next.value) > 0.0 ==> e.minutes >= 1)
  {
    if next.Some? && loc.speed > 0.0 then
      var distance := StopDistance(dist, loc.lat, loc.lon, next.value);
      assert distance / loc.speed >= 0.0;
      assert distance > 0.0 ==> distance / loc.speed > 0.0;
      EtaMinutes(Ceil(distance / loc.speed * 60.0))
    else if loc.speed == 0.0 then EtaStopped
    else EtaUnknown
  }

  /**
   * The detail view of one bus: nothing when either table lacks the id;
   * otherwise the stored location with the stops at its index and the next
   * index, the ETA and the number of stops.
   */
  function BusDetails(
    locations: map<string, Location>, routes: map<string, Route>, busId: string, dist: DistanceFn)
    : (r: Option<Details>)
    ensures r.None? <==> busId !in locations || busId !in routes
    ensures r.Some? ==>
      var loc := locations[busId];
      var stops := routes[busId].stops;
      var k := loc.currentStopIndex;
      && r.value.location == loc && r.value.stops == stops && r.value.totalStops == |stops|
      && r.value.routeName == routes[busId].routeName
      && (r.value.currentStop.Some? <==> k < |stops|)
      && (k < |stops| ==> r.value.currentStop == Some(stops[k].name))
      && (r.value.nextStop.Some? <==> k + 1 < |stops|)
      && (k + 1 < |stops| ==> r.value.nextStop == Some(stops[k + 1].name))
      && r.value.eta == EtaFor(loc, StopAt(stops, k + 1), dist)
  {
    if busId !in locations || busId !in routes then None
    else
      var loc := locations[busId];
      var route := routes[busId];
      var current := StopAt(route.stops, loc.currentStopIndex);
      var next := StopAt(route.stops, loc.currentStopIndex + 1);
      Some(Details(loc, route.routeName, NameOf(current), NameOf(next),
                   EtaFor(loc, next, dist), |route.stops|, route.stops))
  }

  // ---------------------------------------------------------------------------
  // Start-up seeding
  // ---------------------------------------------------------------------------

  /** Index `i` is the last route in `data` registered under `busId`. */
  predicate LastRegistered(data: seq<Route>, busId: string, i: int)
  {
    0 <= i < |data| && data[i].busId == busId && forall j :: i < j < |data| ==> data[j].busId != busId
  }

  /** The route table after registering `data` in order: a later id replaces an earlier one. */
  function RouteTable(data: seq<Route>): (t: map<string, Route>)
    ensures forall k :: k in t ==> t[k].busId == k && t[k] in data
  {
    if data == [] then map[]
    else RouteTable(data[..|data| - 1])[data[|data| - 1].busId := data[|data| - 1]]
  }

  /** Every id registered in `data` is a key of the route table. */
  lemma {:induction false} RouteTableKeys(data: seq<Route>)
    ensures forall i :: 0 <= i < |data| ==> data[i].busId in RouteTable(data)
  {
    if data != [] {
      var n := |data| - 1;
      var prefix := data[..n];
      RouteTableKeys(prefix);
      assert RouteTable(data) == RouteTable(prefix)[data[n].busId := data[n]];
      forall i | 0 <= i < n
        ensures data[i].busId in RouteTable(data)
      {
        assert prefix[i] == data[i];
      }
    }
  }

  /** Under each id the route table holds the last route registered with that id. */
  lemma {:induction false} RouteTableLastWins(data: seq<Route>, i: int)
    requires 0 <= i < |data| && LastRegistered(data, data[i].busId, i)
    ensures data[i].busId in RouteTable(data) && RouteTable(data)[data[i].busId] == data[i]
  {
    var n := |data| - 1;
    var prefix, last := data[..n], data[n];
    assert RouteTable(data) == RouteTable(prefix)[last.busId := last];
    if i < n {
      var id := data[i].busId;
      assert prefix[i] == data[i];
      forall j | i < j < n
        ensures prefix[j].busId != id
      {
        assert prefix[j] == data[j];
      }
      RouteTableLastWins(prefix, i);
    }
  }

  /** The record seeded for a route: at its first stop, speed 0, 'Stopped', index 0. */
  function SeedLocation(route: Route, now: string): Location
    requires |route.stops| > 0
  {
    Location(route.busId, route.stops[0].lat, route.stops[0].lon, 0.0, now, Stopped, 0)
  }

  predicate AllRoutesHaveStops(routes: map<string, Route>)
  {
    forall k :: k in routes ==> |routes[k].stops| > 0
  }

  /** The location table right after start-up: one seeded record per route. */
  function SeedLocations(routes: map<string, Route>, now: string): (t: map<string, Location>)
    requires AllRoutesHaveStops(routes)
    ensures t.Keys == routes.Keys
  {
    map k | k in routes :: SeedLocation(routes[k], now)
  }

  /** Registering one more route seeds exactly its own entry. */
  lemma SeedOne(routes: map<string, Route>, route: Route, now: string)
    requires AllRoutesHaveStops(routes) && |route.stops| > 0
    ensures AllRoutesHaveStops(routes[route.busId := route])
    ensures SeedLocations(routes[route.busId := route], now)
      == SeedLocations(routes, now)[route.busId := SeedLocation(route, now)]
  {
  }

  // ---------------------------------------------------------------------------
  // The two tables
  // ---------------------------------------------------------------------------

  /**
   * What the tables keep true: each entry sits under its own bus id, every
   * route has stops and a location, and a bus with a route has a stop index
   * inside that route.
   */
  predicate TablesValid(routes: map<string, Route>, locations: map<string, Location>)
  {
    && (forall k :: k in routes ==> routes[k].busId == k && |routes[k].stops| > 0)
    && routes.Keys <= locations.Keys
    && (forall k :: k in locations ==> locations[k].busId == k)
    && (forall k :: k in locations && k in routes ==> locations[k].currentStopIndex < |routes[k].stops|)
  }

  /** Freshly seeded tables keep the table invariant. */
  lemma SeededTablesValid(routes: map<string, Route>, now: string)
    requires AllRoutesHaveStops(routes)
    requires forall k :: k in routes ==> routes[k].busId == k
    ensures TablesValid(routes, SeedLocations(routes, now))
  {
  }

  class Tracker {
    var routes: map<string, Route>
    var locations: map<string, Location>

    ghost predicate Valid()
      reads this
    {
      TablesValid(routes, locations)
    }

    /** Start-up: register every route of `data` and seed its location. */
    constructor (data: seq<Route>, now: string)
      requires forall i :: 0 <= i < |data| ==> |data[i].stops| > 0
      ensures Valid()
      ensures routes == RouteTable(data)
      ensures AllRoutesHaveStops(routes) && locations == SeedLocations(routes, now)
    {
      routes := map[];
      locations := map[];
      new;
      var i := 0;
      while i < |data|
        invariant 0 <= i <= |data|
        invariant routes == RouteTable(data[..i])
        invariant AllRoutesHaveStops(routes)
        invariant locations == SeedLocations(routes, now)
      {
        var route := data[i];
        assert data[..i + 1][..i] == data[..i];
        SeedOne(routes, route, now);
        routes := routes[route.busId := route];
        locations := locations[route.busId := SeedLocation(route, now)];
        i := i + 1;
      }
      assert data[..i] == data;
      SeededTablesValid(routes, now);
    }

    /**
     * POST of a GPS sample: a rejected sample leaves both tables alone; an
     * accepted one replaces exactly the entry of its upper-cased id.
     */
    method PostLocation(
      deviceId: Option<string>, lat: Option<real>, lon: Option<real>,
      speed: Option<real>, now: string, dist: DistanceFn)
      returns (r: Result<Location, PostError>)
      requires Valid()
      modifies this
      ensures Valid() && routes == old(routes)
      ensures r.Failure? <==> !Accepted(deviceId, lat, lon)
      ensures r.Failure? ==> locations == old(locations)
      ensures r.Success? ==>
        && IsUpdate(routes, deviceId.value, lat.value, lon.value, speed, now, dist, r.value)
        && locations == old(locations)[r.value.busId := r.value]
    {
      r := ComputeUpdate(routes, deviceId, lat, lon, speed, now, dist);
      if r.Success? {
        locations := locations[r.value.busId := r.value];
      }
    }

    /** GET of one bus: the detail view under the upper-cased id. */
    function GetLocation(busId: string, dist: DistanceFn): (r: Option<Details>)
      reads this
      ensures r.Some? <==> ToUpper(busId) in locations && ToUpper(busId) in routes
      ensures r.Some? ==> r.value.location == locations[ToUpper(busId)]
      ensures r == BusDetails(locations, routes, ToUpper(busId), dist)
    {
      BusDetails(locations, routes, ToUpper(busId), dist)
    }

    /** GET of one route under the upper-cased id. */
    function GetRoute(busId: string): (r: Option<Route>)
      reads this
      ensures r.Some? <==> ToUpper(busId) in routes
      ensures r.Some? ==> r.value == routes[ToUpper(busId)]
    {
      if ToUpper(busId) in routes then Some(routes[ToUpper(busId)]) else None
    }
  }

  // ---------------------------------------------------------------------------
  // Properties across operations
  // ---------------------------------------------------------------------------

  /**
   * A sample that leaves the tables valid: the record keyed by its bus id,
   * with a stop index inside the route when there is one.
   */
  lemma UpdateKeepsTablesValid(
    routes: map<string, Route>, locations: map<string, Location>, deviceId: string,
    lat: real, lon: real, speed: Option<real>, now: string, dist: DistanceFn, loc: Location)
    requires TablesValid(routes, locations)
    requires IsUpdate(routes, deviceId, lat, lon, speed, now, dist, loc)
    ensures TablesValid(routes, locations[loc.busId := loc])
  {
  }

  /**
   * Every bus with a route has a detail view whose current stop is the stop
   * at its index; the next stop is missing exactly at the last stop.
   */
  lemma KnownBusHasCurrentStop(
    routes: map<string, Route>, locations: map<string, Location>, busId: string, dist: DistanceFn)
    requires TablesValid(routes, locations)
    requires busId in routes
    ensures var d := BusDetails(locations, routes, busId, dist);
      && d.Some?
      && d.value.currentStop == Some(routes[busId].stops[locations[busId].currentStopIndex].name)
      && (d.value.nextStop.None? <==> locations[busId].currentStopIndex == |routes[busId].stops| - 1)
  {
  }

  /**
   * After an accepted sample for a bus with a route, a GET under the stored
   * id (or under the device id as sent) shows the stored record at the first
   * nearest stop, with ETA 'Stopped' when the sample's speed was 0 or missing.
   */
  lemma PostThenGet(
    routes: map<string, Route>, locations: map<string, Location>, deviceId: string,
    lat: real, lon: real, speed: Option<real>, now: string, dist: DistanceFn, loc: Location)
    requires TablesValid(routes, locations)
    requires IsUpdate(routes, deviceId, lat, lon, speed, now, dist, loc)
    requires ToUpper(deviceId) in routes
    ensures var stops := routes[ToUpper(deviceId)].stops;
      forall id | id == deviceId || id == loc.busId ::
        var d := BusDetails(locations[loc.busId := loc], routes, ToUpper(id), dist);
        && d.Some? && d.value.location == loc
        && IsFirstNearest(stops, lat, lon, loc.currentStopIndex, dist)
        && d.value.currentStop == Some(stops[loc.currentStopIndex].name)
        && (speed.None? || speed == Some(0.0) ==> d.value.eta == EtaStopped)
  {
    ToUpperIdempotent(deviceId);
    UpdateKeepsTablesValid(routes, locations, deviceId, lat, lon, speed, now, dist, loc);
  }

  /**
   * Right after start-up every registered bus shows its first stop as
   * current, speed 0, status 'Stopped' and ETA 'Stopped'.
   */
  lemma SeededDetails(data: seq<Route>, now: string, busId: string, dist: DistanceFn)
    requires forall i :: 0 <= i < |data| ==> |data[i].stops| > 0
    requires busId in RouteTable(data)
    ensures AllRoutesHaveStops(RouteTable(data))
    ensures var routes := RouteTable(data);
      var d := BusDetails(SeedLocations(routes, now), routes, busId, dist);
      && d.Some?
      && d.value.location.speed == 0.0 && d.value.location.status == Stopped
      && d.value.location.currentStopIndex == 0
      && d.value.location.lat == routes[busId].stops[0].lat
      && d.value.location.lon == routes[busId].stops[0].lon
      && d.value.currentStop == Some(routes[busId].stops[0].name)
      && d.value.eta == EtaStopped
  {
  }

  /** The shipped route list registers exactly BUS_001 and BUS_001_EVE, each with stops. */
  lemma StartupTables()
    ensures RouteTable(AllRoutes()).Keys == {"BUS_001", "BUS_001_EVE"}
    ensures forall i :: 0 <= i < |AllRoutes()| ==> |AllRoutes()[i].stops| > 0
  {
    var data := AllRoutes();
    RouteTableKeys(data);
  }
}

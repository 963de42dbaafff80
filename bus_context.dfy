/**
 * The client's bus store: a reducer over the bus list, the selected bus, a
 * loading flag and an error message, and the fixed action sequences that the
 * two fetch routines dispatch.
 */
module BusContext {
  import opened Wrappers

  datatype Stop = Stop(name: string, lat: real, lon: real, time: string, order: int)

  /** The `eta` field of a bus: a label such as 'Stopped', or a number of minutes. */
  datatype EtaValue = EtaText(text: string) | EtaNumber(minutes: real)

  /** A bus as the client holds it; optional fields are `Option`s. */
  datatype Bus = Bus(
    busId: string, lat: real, lon: real, speed: real, updated: string,
    status: string, currentStopIndex: int, driver: string, route: string,
    currentStop: Option<string>, nextStop: Option<string>, eta: EtaValue,
    totalStops: int, stops: Option<seq<Stop>>)

  /** A partial bus; `None` marks a field the partial record does not carry. */
  datatype BusPatch = BusPatch(
    busId: Option<string>, lat: Option<real>, lon: Option<real>, speed: Option<real>,
    updated: Option<string>, status: Option<string>, currentStopIndex: Option<int>,
    driver: Option<string>, route: Option<string>, currentStop: Option<string>,
    nextStop: Option<string>, eta: Option<EtaValue>, totalStops: Option<int>,
    stops: Option<seq<Stop>>)

  const EmptyPatch: BusPatch :=
    BusPatch(None, None, None, None, None, None, None, None, None, None, None, None, None, None)

  function Pick<T>(carried: Option<T>, current: T): T
  {
    if carried.Some? then carried.value else current
  }

  /** Every field the patch carries has the patch's value in `b`. */
  predicate Shows(b: Bus, p: BusPatch)
  {
    && (p.busId.Some? ==> b.busId == p.busId.value)
    && (p.lat.Some? ==> b.lat == p.lat.value)
    && (p.lon.Some? ==> b.lon == p.lon.value)
    && (p.speed.Some? ==> b.speed == p.speed.value)
    && (p.updated.Some? ==> b.updated == p.updated.value)
    && (p.status.Some? ==> b.status == p.status.value)
    && (p.currentStopIndex.Some? ==> b.currentStopIndex == p.currentStopIndex.value)
    && (p.driver.Some? ==> b.driver == p.driver.value)
    && (p.route.Some? ==> b.route == p.route.value)
    && (p.currentStop.Some? ==> b.currentStop == p.currentStop)
    && (p.nextStop.Some? ==> b.nextStop == p.nextStop)
    && (p.eta.Some? ==> b.eta == p.eta.value)
    && (p.totalStops.Some? ==> b.totalStops == p.totalStops.value)
    && (p.stops.Some? ==> b.stops == p.stops)
  }

  /** Every field the patch does not carry is the same in `b` and `b'`. */
  predicate KeepsUncarried(b: Bus, b': Bus, p: BusPatch)
  {
    && (p.busId.None? ==> b'.busId == b.busId)
    && (p.lat.None? ==> b'.lat == b.lat)
    && (p.lon.None? ==> b'.lon == b.lon)
    && (p.speed.None? ==> b'.speed == b.speed)
    && (p.updated.None? ==> b'.updated == b.updated)
    && (p.status.None? ==> b'.status == b.status)
    && (p.currentStopIndex.None? ==> b'.currentStopIndex == b.currentStopIndex)
    && (p.driver.None? ==> b'.driver == b.driver)
    && (p.route.None? ==> b'.route == b.route)
    && (p.currentStop.None? ==> b'.currentStop == b.currentStop)
    && (p.nextStop.None? ==> b'.nextStop == b.nextStop)
    && (p.eta.None? ==> b'.eta == b.eta)
    && (p.totalStops.None? ==> b'.totalStops == b.totalStops)
    && (p.stops.None? ==> b'.stops == b.stops)
  }

  /** The spread `{ ...bus, ...data }`: the patch's fields over the bus's. */
  function Merge(b: Bus, p: BusPatch): (r: Bus)
    ensures Shows(r, p) && KeepsUncarried(b, r, p)
    ensures Shows(b, p) ==> r == b
  {
    Bus(Pick(p.busId, b.busId), Pick(p.lat, b.lat), Pick(p.lon, b.lon), Pick(p.speed, b.speed),
        Pick(p.updated, b.updated), Pick(p.status, b.status),
        Pick(p.currentStopIndex, b.currentStopIndex), Pick(p.driver, b.driver),
        Pick(p.route, b.route),
        if p.currentStop.Some? then p.currentStop else b.currentStop,
        if p.nextStop.Some? then p.nextStop else b.nextStop,
        Pick(p.eta, b.eta), Pick(p.totalStops, b.totalStops),
        if p.stops.Some? then p.stops else b.stops)
  }

  datatype State = State(buses: seq<Bus>, selectedBus: Option<Bus>, loading: bool, error: Option<string>)

  /** The five actions of the store, and any other action type. */
  datatype Action =
    | SetLoading(on: bool)
    | SetBuses(list: seq<Bus>)
    | SetSelectedBus(bus: Option<Bus>)
    | SetError(message: Option<string>)
    | UpdateBusLocation(id: string, data: BusPatch)
    | Unrecognized(kind: string)

  const InitialState: State := State([], None, false, None)

  /** The bus list after a location update: the patch merged into every bus with the id. */
  function UpdateBuses(buses: seq<Bus>, id: string, data: BusPatch): (r: seq<Bus>)
    ensures |r| == |buses|
    ensures forall i :: 0 <= i < |buses| ==>
      if buses[i].busId == id then Shows(r[i], data) && KeepsUncarried(buses[i], r[i], data)
      else r[i] == buses[i]
  {
    seq(|buses|, i requires 0 <= i < |buses| => if buses[i].busId == id then Merge(buses[i], data) else buses[i])
  }

  /** The selected bus after a location update: merged only when its id matches. */
  function UpdateSelected(selected: Option<Bus>, id: string, data: BusPatch): (r: Option<Bus>)
    ensures selected.None? ==> r.None?
    ensures selected.Some? && selected.value.busId == id ==>
      r.Some? && Shows(r.value, data) && KeepsUncarried(selected.value, r.value, data)
    ensures selected.Some? && selected.value.busId != id ==> r == selected
  {
    if selected.Some? && selected.value.busId == id then Some(Merge(selected.value, data)) else selected
  }

  /** The reducer; each action changes only the fields it names. */
  function Reduce(s: State, a: Action): (r: State)
    ensures a.SetLoading? ==>
      r.loading == a.on && r.buses == s.buses && r.selectedBus == s.selectedBus && r.error == s.error
    ensures a.SetBuses? ==>
      r.buses == a.list && r.error.None? && r.loading == s.loading && r.selectedBus == s.selectedBus
    ensures a.SetSelectedBus? ==>
      r.selectedBus == a.bus && r.buses == s.buses && r.loading == s.loading && r.error == s.error
    ensures a.SetError? ==>
      r.error == a.message && !r.loading && r.buses == s.buses && r.selectedBus == s.selectedBus
    ensures a.UpdateBusLocation? ==>
      && r.buses == UpdateBuses(s.buses, a.id, a.data)
      && r.selectedBus == UpdateSelected(s.selectedBus, a.id, a.data)
      && r.loading == s.loading && r.error == s.error
    ensures a.Unrecognized? ==> r == s
  {
    match a
    case SetLoading(on) => s.(loading := on)
    case SetBuses(list) => s.(buses := list, error := None)
    case SetSelectedBus(bus) => s.(selectedBus := bus)
    case SetError(message) => s.(error := message, loading := false)
    case UpdateBusLocation(id, data) =>
      s.(buses := UpdateBuses(s.buses, id, data), selectedBus := UpdateSelected(s.selectedBus, id, data))
    case Unrecognized(_) => s
  }

  /** The state after dispatching `actions` in order. */
  function Run(s: State, actions: seq<Action>): State
    decreases |actions|
  {
    if actions == [] then s else Run(Reduce(s, actions[0]), actions[1..])
  }

  /** Merging the same patch twice is merging it once. */
  lemma MergeIdempotent(b: Bus, p: BusPatch)
    ensures Merge(Merge(b, p), p) == Merge(b, p)
  {
  }

  /**
   * Repeating a location update changes nothing more: a bus merged by the
   * first update either keeps the id (and the merge is idempotent) or takes
   * a new id from the patch and is not matched again.
   */
  lemma UpdateBusesIdempotent(buses: seq<Bus>, id: string, data: BusPatch)
    ensures UpdateBuses(UpdateBuses(buses, id, data), id, data) == UpdateBuses(buses, id, data)
  {
    var once := UpdateBuses(buses, id, data);
    var twice := UpdateBuses(once, id, data);
    forall i | 0 <= i < |buses| ensures twice[i] == once[i] {
      if once[i].busId == id {
        assert Shows(once[i], data);
      }
    }
  }

  /** An update for an id that no bus has leaves the list as it is. */
  lemma UpdateUnknownIdKeepsBuses(buses: seq<Bus>, id: string, data: BusPatch)
    requires forall i :: 0 <= i < |buses| ==> buses[i].busId != id
    ensures UpdateBuses(buses, id, data) == buses
  {
  }

  /** The outcome of a request: its value, or a failure. */
  datatype Fetch<T> = Fetched(value: T) | FetchFailed

  const BusesError: string := "Failed to fetch buses"
  const DetailsError: string := "Failed to fetch bus details"

  /** What `fetchBuses` dispatches: loading on, the list or the error, loading off. */
  function FetchBusesActions(outcome: Fetch<seq<Bus>>): seq<Action>
  {
    [SetLoading(true)]
    + (if outcome.Fetched? then [SetBuses(outcome.value)] else [SetError(Some(BusesError))])
    + [SetLoading(false)]
  }

  /** What `fetchBusDetails` dispatches: loading on, the bus or the error, loading off. */
  function FetchBusDetailsActions(outcome: Fetch<Bus>): seq<Action>
  {
    [SetLoading(true)]
    + (if outcome.Fetched? then [SetSelectedBus(Some(outcome.value))] else [SetError(Some(DetailsError))])
    + [SetLoading(false)]
  }

  lemma {:induction false} RunThree(s: State, a: Action, b: Action, c: Action)
    ensures Run(s, [a, b, c]) == Reduce(Reduce(Reduce(s, a), b), c)
  {
    assert [a, b, c][1..] == [b, c] && [b, c][1..] == [c] && [c][1..] == [];
    var s1, s2 := Reduce(s, a), Reduce(Reduce(s, a), b);
    assert Run(s2, [c]) == Run(Reduce(s2, c), []);
    assert Run(s1, [b, c]) == Run(s2, [c]);
    assert Run(s, [a, b, c]) == Run(s1, [b, c]);
  }

  /**
   * After `fetchBuses` the store is not loading, the selected bus is as before;
   * on success the list is the fetched one and the error is cleared, on
   * failure the list is kept and the error is set.
   */
  lemma FetchBusesOutcome(s: State, outcome: Fetch<seq<Bus>>)
    ensures var r := Run(s, FetchBusesActions(outcome));
      && !r.loading && r.selectedBus == s.selectedBus
      && (outcome.Fetched? ==> r.buses == outcome.value && r.error.None?)
      && (outcome.FetchFailed? ==> r.buses == s.buses && r.error == Some(BusesError))
  {
    var middle := if outcome.Fetched? then SetBuses(outcome.value) else SetError(Some(BusesError));
    assert FetchBusesActions(outcome) == [SetLoading(true), middle, SetLoading(false)];
    RunThree(s, SetLoading(true), middle, SetLoading(false));
  }

  /**
   * After `fetchBusDetails` the store is not loading and the list is as
   * before; on success the fetched bus is selected and an earlier error is
   * left in place, on failure the selection is kept and the error is set.
   */
  lemma FetchBusDetailsOutcome(s: State, outcome: Fetch<Bus>)
    ensures var r := Run(s, FetchBusDetailsActions(outcome));
      && !r.loading && r.buses == s.buses
      && (outcome.Fetched? ==> r.selectedBus == Some(outcome.value) && r.error == s.error)
      && (outcome.FetchFailed? ==> r.selectedBus == s.selectedBus && r.error == Some(DetailsError))
  {
    var middle := if outcome.Fetched? then SetSelectedBus(Some(outcome.value)) else SetError(Some(DetailsError));
    assert FetchBusDetailsActions(outcome) == [SetLoading(true), middle, SetLoading(false)];
    RunThree(s, SetLoading(true), middle, SetLoading(false));
  }
}

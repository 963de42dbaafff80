/**
 * The static route table of the tracker: the morning trip of bus BUS_001 as a
 * literal stop list, and the evening trip BUS_001_EVE derived from it by
 * reversing the stop order, looking coordinates up by stop name and times up
 * in a separate table of evening times.
 */
module RouteData {
  import opened Wrappers

  /** A stop as written in the morning table, before its `order` is attached. */
  datatype StopEntry = StopEntry(name: string, lat: real, lon: real, time: string)

  /** A stop of a route; `time` is a display string, `order` its position. */
  datatype Stop = Stop(name: string, lat: real, lon: real, time: string, order: int)

  /** A route registered under its own bus id; `routeName` is the route's display name. */
  datatype Route = Route(busId: string, routeName: string, stops: seq<Stop>)

  /** Every stop's `order` is its index in the stop list. */
  predicate OrderedByIndex(stops: seq<Stop>)
  {
    forall i :: 0 <= i < |stops| ==> stops[i].order == i
  }

  /** No two stops share a name. */
  predicate UniqueNames(stops: seq<Stop>)
  {
    forall i, j :: 0 <= i < j < |stops| ==> stops[i].name != stops[j].name
  }

  /** The morning stop list: each literal entry, numbered with its index. */
  function Numbered(entries: seq<StopEntry>): (stops: seq<Stop>)
    ensures |stops| == |entries| && OrderedByIndex(stops)
    ensures forall i :: 0 <= i < |entries| ==>
      var e := entries[i];
      stops[i].name == e.name && stops[i].lat == e.lat && stops[i].lon == e.lon && stops[i].time == e.time
  {
    seq(|entries|, i requires 0 <= i < |entries| =>
      Stop(entries[i].name, entries[i].lat, entries[i].lon, entries[i].time, i))
  }

  /** The elements of `s` in the opposite order (the copy-then-reverse of the source). */
  function Reverse<T>(s: seq<T>): (r: seq<T>)
    ensures |r| == |s|
    ensures forall i :: 0 <= i < |s| ==> r[i] == s[|s| - 1 - i]
  {
    if s == [] then [] else [s[|s| - 1]] + Reverse(s[..|s| - 1])
  }

  /** The first stop with the given name, `None` when there is none (Array.prototype.find). */
  function Find(stops: seq<Stop>, name: string): (r: Option<Stop>)
    ensures r.None? <==> forall i :: 0 <= i < |stops| ==> stops[i].name != name
    ensures r.Some? ==> exists k :: FirstNamed(stops, name, k) && stops[k] == r.value
  {
    if stops == [] then None
    else if stops[0].name == name then
      assert FirstNamed(stops, name, 0);
      Some(stops[0])
    else
      var r := Find(stops[1..], name);
      if r.None? then r
      else
        var k :| FirstNamed(stops[1..], name, k) && stops[1..][k] == r.value;
        assert FirstNamed(stops, name, k + 1);
        r
  }

  /** Index `k` holds the first stop named `name`. */
  predicate FirstNamed(stops: seq<Stop>, name: string, k: int)
  {
    0 <= k < |stops| && stops[k].name == name && forall j :: 0 <= j < k ==> stops[j].name != name
  }

  /**
   * The evening time of a stop: the table's entry when it is present and
   * truthy, "N/A" otherwise (the `||` default also replaces an empty string).
   */
  function EveningTime(times: map<string, string>, name: string): (t: string)
    ensures name in times && times[name] != "" ==> t == times[name]
    ensures name !in times || times[name] == "" ==> t == "N/A"
  {
    if name in times && times[name] != "" then times[name] else "N/A"
  }

  /** Evening stop `index`, built from the reversed morning stop `stop`. */
  function EveningStop(morning: seq<Stop>, stop: Stop, index: int, times: map<string, string>): Stop
    requires stop in morning
  {
    var original := Find(morning, stop.name);
    Stop(stop.name, original.value.lat, original.value.lon, EveningTime(times, stop.name), index)
  }

  /**
   * The evening stop list: the morning list reversed, each stop taking its
   * coordinates from the first morning stop of the same name, its time from
   * `times`, and its index as `order`.
   */
  function EveningStops(morning: seq<Stop>, times: map<string, string>): (evening: seq<Stop>)
    ensures |evening| == |morning| && OrderedByIndex(evening)
    ensures forall i :: 0 <= i < |morning| ==>
      evening[i].name == morning[|morning| - 1 - i].name &&
      evening[i].time == EveningTime(times, evening[i].name)
  {
    var reversed := Reverse(morning);
    seq(|reversed|, i requires 0 <= i < |reversed| => EveningStop(morning, reversed[i], i, times))
  }

  /**
   * Evening stop `i` has the coordinates of the first morning stop bearing its
   * name; when the morning names are unique that is morning stop `n - 1 - i`.
   */
  lemma EveningCoordinates(morning: seq<Stop>, times: map<string, string>, i: int)
    requires 0 <= i < |morning|
    ensures var e := EveningStops(morning, times)[i];
      exists k :: FirstNamed(morning, e.name, k) && e.lat == morning[k].lat && e.lon == morning[k].lon
    ensures UniqueNames(morning) ==>
      var e := EveningStops(morning, times)[i];
      e.lat == morning[|morning| - 1 - i].lat && e.lon == morning[|morning| - 1 - i].lon
  {
    var n := |morning|;
    var m := morning[n - 1 - i];
    assert Reverse(morning)[i] == m;
    var e := EveningStops(morning, times)[i];
    assert e == EveningStop(morning, m, i, times);
    var f := Find(morning, m.name);
    assert f.Some? by { assert morning[n - 1 - i].name == m.name; }
    var k :| FirstNamed(morning, m.name, k) && morning[k] == f.value;
    assert e.lat == morning[k].lat && e.lon == morning[k].lon;
    if UniqueNames(morning) {
      assert k == n - 1 - i;
    }
  }

  /** The morning stop literal of BUS_001. */
  const MorningEntries: seq<StopEntry> := [
    StopEntry("Boothapadi", 11.60979, 77.71569, "06:25 AM"),
    StopEntry("Unjapalayam", 11.60846, 77.70135, "06:30 AM"),
    StopEntry("Attavanaipudur", 11.59186, 77.66493, "07:10 AM"),
    StopEntry("Poonachi", 11.58573, 77.66314, "07:15 AM"),
    StopEntry("Chittar", 11.55115, 77.71735, "07:20 AM"),
    StopEntry("Jeeva nagar", 11.47374, 77.69571, "07:35 AM"),
    StopEntry("Bhavani BS", 11.45242, 77.68752, "07:40 AM"),
    StopEntry("Anthiyur Pirivu", 11.44662, 77.6841, "07:45 AM"),
    StopEntry("Pathirakadai", 11.44216, 77.68322, "07:48 AM"),
    StopEntry("Kalingarayanpalayam", 11.43618, 77.67765, "07:50 AM"),
    StopEntry("Lakshminagar", 11.43068, 77.67532, "07:55 AM"),
    StopEntry("Appachi nagar", 11.41659, 77.67961, "08:00 AM"),
    StopEntry("R.N. Pudhur", 11.39992, 77.69013, "08:10 AM"),
    StopEntry("BP Agraharam", 11.37204, 77.70517, "08:15 AM"),
    StopEntry("Agraharam", 11.36999, 77.70658, "08:18 AM"),
    StopEntry("Christhu Jothi School", 11.36343, 77.71083, "08:20 AM"),
    StopEntry("VOC Park Erode", 11.35264, 77.72046, "08:25 AM"),
    StopEntry("Erode BS", 11.346396, 77.718577, "08:30 AM"),
    StopEntry("GH", 11.34052, 77.71681, "08:35 AM"),
    StopEntry("Surampatti four Rd", 11.332481, 77.719785, "08:38 AM"),
    StopEntry("Diesel Shed", 11.325696, 77.717981, "08:40 AM"),
    StopEntry("Kasipalayam", 11.319061, 77.713521, "08:45 AM"),
    StopEntry("ITI", 11.315461, 77.711959, "08:48 AM"),
    StopEntry("KK-nagar", 11.311733, 77.707231, "08:50 AM"),
    StopEntry("Rangampalayam", 11.30395, 77.70235, "08:55 AM"),
    StopEntry("Mpnmjec", 11.186755, 77.622584, "09:20 AM")
  ]

  /** The evening time table, keyed by stop name. */
  const EveningTimes: map<string, string> := map[
    "Mpnmjec" := "04:25 PM",
    "Rangampalayam" := "04:50 PM",
    "KK-nagar" := "04:55 PM",
    "ITI" := "04:57 PM",
    "Kasipalayam" := "05:00 PM",
    "Diesel Shed" := "05:05 PM",
    "Surampatti four Rd" := "05:07 PM",
    "GH" := "05:10 PM",
    "Erode BS" := "05:15 PM",
    "VOC Park Erode" := "05:20 PM",
    "Christhu Jothi School" := "05:25 PM",
    "Agraharam" := "05:27 PM",
    "BP Agraharam" := "05:30 PM",
    "R.N. Pudhur" := "05:35 PM",
    "Appachi nagar" := "05:45 PM",
    "Lakshminagar" := "05:50 PM",
    "Kalingarayanpalayam" := "05:55 PM",
    "Pathirakadai" := "05:57 PM",
    "Anthiyur Pirivu" := "06:00 PM",
    "Bhavani BS" := "06:05 PM",
    "Jeeva nagar" := "06:10 PM",
    "Chittar" := "06:25 PM",
    "Poonachi" := "06:30 PM",
    "Attavanaipudur" := "06:35 PM",
    "Unjapalayam" := "07:15 PM",
    "Boothapadi" := "07:20 PM"
  ]

  const MorningId: string := "BUS_001"
  const EveningId: string := "BUS_001_EVE"

  /** The morning trip of BUS_001. */
  function MorningRoute(): Route
  {
    Route(MorningId, "Boothapadi - Mpnmjec", Numbered(MorningEntries))
  }

  /** The evening trip, registered as a bus of its own. */
  function EveningRoute(): Route
  {
    Route(EveningId, "Mpnmjec - Boothapadi", EveningStops(MorningRoute().stops, EveningTimes))
  }

  /** The exported route list. */
  function AllRoutes(): (routes: seq<Route>)
    ensures |routes| == 2 && routes[0].busId == "BUS_001" && routes[1].busId == "BUS_001_EVE"
    ensures forall r :: r in routes ==> |r.stops| == 26 && OrderedByIndex(r.stops)
  {
    [MorningRoute(), EveningRoute()]
  }

  /**
   * A number built from a name's length and first two characters; on the
   * shipped table it already tells the 26 morning names apart, which keeps the
   * uniqueness proof to 26 evaluations instead of 325 string comparisons.
   */
  function NameKey(name: string): int
  {
    if |name| < 2 then |name| else |name| * 1000000 + (name[0] as int) * 1000 + name[1] as int
  }

  /** `NameKey` of each morning entry, in order. */
  const MorningKeys: seq<int> := [10066111, 11085110, 14065116, 8080111, 7067104, 11074101, 10066104, 15065110, 12080097, 19075097, 12076097, 13065112, 11082046, 12066080, 9065103, 21067104, 14086079, 8069114, 2071072, 18083117, 11068105, 11075097, 3073084, 8075075, 13082097, 7077112]

  lemma MorningKeysFirst()
    ensures forall i :: 0 <= i < 9 ==> NameKey(MorningEntries[i].name) == MorningKeys[i]
  {
    assert NameKey(MorningEntries[0].name) == MorningKeys[0];
    assert NameKey(MorningEntries[1].name) == MorningKeys[1];
    assert NameKey(MorningEntries[2].name) == MorningKeys[2];
    assert NameKey(MorningEntries[3].name) == MorningKeys[3];
    assert NameKey(MorningEntries[4].name) == MorningKeys[4];
    assert NameKey(MorningEntries[5].name) == MorningKeys[5];
    assert NameKey(MorningEntries[6].name) == MorningKeys[6];
    assert NameKey(MorningEntries[7].name) == MorningKeys[7];
    assert NameKey(MorningEntries[8].name) == MorningKeys[8];
  }

  lemma MorningKeysMiddle()
    ensures forall i :: 9 <= i < 18 ==> NameKey(MorningEntries[i].name) == MorningKeys[i]
  {
    assert NameKey(MorningEntries[9].name) == MorningKeys[9];
    assert NameKey(MorningEntries[10].name) == MorningKeys[10];
    assert NameKey(MorningEntries[11].name) == MorningKeys[11];
    assert NameKey(MorningEntries[12].name) == MorningKeys[12];
    assert NameKey(MorningEntries[13].name) == MorningKeys[13];
    assert NameKey(MorningEntries[14].name) == MorningKeys[14];
    assert NameKey(MorningEntries[15].name) == MorningKeys[15];
    assert NameKey(MorningEntries[16].name) == MorningKeys[16];
    assert NameKey(MorningEntries[17].name) == MorningKeys[17];
  }

  lemma MorningKeysLast()
    ensures forall i :: 18 <= i < 26 ==> NameKey(MorningEntries[i].name) == MorningKeys[i]
  {
    assert NameKey(MorningEntries[18].name) == MorningKeys[18];
    assert NameKey(MorningEntries[19].name) == MorningKeys[19];
    assert NameKey(MorningEntries[20].name) == MorningKeys[20];
    assert NameKey(MorningEntries[21].name) == MorningKeys[21];
    assert NameKey(MorningEntries[22].name) == MorningKeys[22];
    assert NameKey(MorningEntries[23].name) == MorningKeys[23];
    assert NameKey(MorningEntries[24].name) == MorningKeys[24];
    assert NameKey(MorningEntries[25].name) == MorningKeys[25];
  }

  lemma MorningKeysAt()
    ensures forall i :: 0 <= i < 26 ==> NameKey(MorningEntries[i].name) == MorningKeys[i]
  {
    MorningKeysFirst();
    MorningKeysMiddle();
    MorningKeysLast();
  }

  lemma MorningKeysDistinct()
    ensures forall i, j :: 0 <= i < j < 26 ==> MorningKeys[i] != MorningKeys[j]
  {
  }

  /** The morning trip has 26 stops. */
  lemma MorningLength()
    ensures |MorningRoute().stops| == 26
  {
    assert |MorningEntries| == 26;
  }

  /** The 26 morning stop names are pairwise distinct. */
  lemma MorningNamesUnique()
    ensures UniqueNames(MorningRoute().stops)
  {
    MorningKeysAt();
    MorningKeysDistinct();
  }

  /**
   * On the shipped data the evening trip is the morning trip run backwards:
   * stop `i` of the evening is morning stop `25 - i`, at the same place.
   */
  lemma EveningMirrorsMorning(i: int)
    requires 0 <= i < 26
    ensures var e := EveningRoute().stops[i]; var m := MorningRoute().stops[25 - i];
      e.name == m.name && e.lat == m.lat && e.lon == m.lon && e.order == i
  {
    var morning := MorningRoute().stops;
    MorningLength();
    MorningNamesUnique();
    EveningCoordinates(morning, EveningTimes, i);
  }
}

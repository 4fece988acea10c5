/** The realtime feed and `extract_trip`: the records of one trip are looked
    up by trip id, and a Trip object is filled in from them field by field. */
module Feed {
  import opened Results
  import opened Text
  import opened Durations
  import opened Trips

  /** An entry of the feed's "delays" list; `offsets` is None when the key is
      absent. */
  datatype DelayRecord = DelayRecord(tripId: string, start: string, stopId: string, offsets: Option<string>)

  /** An entry of the feed's "vehicles" list; `lp` is the vehicle position. */
  datatype VehicleRecord = VehicleRecord(tripId: string, route: string, lp: string)

  /** An entry of the feed's "alerts" list; `body` is None when the key is absent. */
  datatype AlertRecord = AlertRecord(tripId: string, body: Option<string>, title: string)

  datatype Realtime = Realtime(delays: seq<DelayRecord>, vehicles: seq<VehicleRecord>, alerts: seq<AlertRecord>)

  /** The static configuration: the route watched, station names by stop id,
      and (minimum, maximum) transit times to the boarding station by
      station name. */
  datatype Config = Config(route: string, stopIds: map<int, string>, transitTimes: map<string, (int, int)>)

  /** Index of the first element that `matches` (what `filter(...)[0]` picks). */
  function FirstIndex<T>(xs: seq<T>, matches: T -> bool): (r: Option<nat>)
    ensures r.Some? ==>
      r.value < |xs| && matches(xs[r.value]) && forall j :: 0 <= j < r.value ==> !matches(xs[j])
    ensures r.None? ==> forall j :: 0 <= j < |xs| ==> !matches(xs[j])
  {
    if |xs| == 0 then None
    else if matches(xs[0]) then Some(0)
    else match FirstIndex(xs[1..], matches)
      case None => None
      case Some(i) => Some(i + 1)
  }

  /** The first delay, vehicle and alert record of a trip. */
  function DelayOf(feed: Realtime, tripId: string): Option<nat>
  {
    FirstIndex(feed.delays, (d: DelayRecord) => d.tripId == tripId)
  }

  function VehicleOf(feed: Realtime, tripId: string): Option<nat>
  {
    FirstIndex(feed.vehicles, (x: VehicleRecord) => x.tripId == tripId)
  }

  function AlertOf(feed: Realtime, tripId: string): Option<nat>
  {
    FirstIndex(feed.alerts, (a: AlertRecord) => a.tripId == tripId)
  }

  /** The elements at even positions (`islice(xs, 0, None, 2)`). */
  function Evens<T>(xs: seq<T>): (r: seq<T>)
    ensures |r| == (|xs| + 1) / 2
    ensures forall i :: 0 <= i < |r| ==> r[i] == xs[2 * i]
  {
    if |xs| == 0 then []
    else if |xs| == 1 then [xs[0]]
    else [xs[0]] + Evens(xs[2..])
  }

  /** The elements at odd positions (`islice(xs, 1, None, 2)`). */
  function Odds<T>(xs: seq<T>): (r: seq<T>)
    ensures |r| == |xs| / 2
    ensures forall i :: 0 <= i < |r| ==> r[i] == xs[2 * i + 1]
  {
    if |xs| == 0 then [] else Evens(xs[1..])
  }

  /** Python's `zip`: pairs up to the length of the shorter list. */
  function Zip<A, B>(xs: seq<A>, ys: seq<B>): (r: seq<(A, B)>)
    ensures |r| == if |xs| <= |ys| then |xs| else |ys|
    ensures forall i :: 0 <= i < |r| ==> r[i] == (xs[i], ys[i])
  {
    if |xs| == 0 || |ys| == 0 then [] else [(xs[0], ys[0])] + Zip(xs[1..], ys[1..])
  }

  /** The offsets string, a comma-separated list alternating "hh:mm" times and
      integer delays, as (time, delay) pairs. Every time is parsed before any
      delay; an unpaired trailing time is parsed and then dropped by `zip`. A
      missing key gives no pairs. */
  function ParseOffsets(raw: Option<string>): Result<seq<(int, int)>>
  {
    var fields := if raw.Some? then Split(raw.value, ',') else [];
    var times :- MapResult(Evens(fields), ParseHhmm);
    var delays :- MapResult(Odds(fields), ParseInt);
    Ok(Zip(times, delays))
  }

  /** The vehicle's location: `lp.rsplit(":", 2)[0]`. */
  function VehiclePosition(lp: string): string
  {
    RSplitHead(lp, ':', 2)
  }

  /** The alert's body, or its title when it has no body. */
  function AlertText(a: AlertRecord): string
  {
    if a.body.Some? then a.body.value else a.title
  }

  /** The start time, station and offsets taken from the trip's delay record. */
  function WithDelayData(v: TripView, d: DelayRecord, stopIds: map<int, string>): Result<TripView>
  {
    var start :- ParseHhmm(d.start);
    var stop :- ParseInt(d.stopId);
    var offsets :- ParseOffsets(d.offsets);
    Ok(v.(startTimeStr := d.start, startTime := start, startLocInt := stop,
          startLocStr := if stop in stopIds then stopIds[stop] else "Unknown",
          offsetTuples := offsets))
  }

  /** A trip about which the feed says nothing yet (the Trip constructor). */
  function NewTripView(tripId: string, fdt: int, ldt: int): TripView
  {
    TripView(tripId, "unknown", MaxDuration, -1, "unknown", "unknown", None, [], fdt, ldt, 0, 0)
  }

  /** The trip with its delay record applied, when it has one. */
  function Timed(feed: Realtime, tripId: string, fdt: int, ldt: int, cfg: Config): Result<TripView>
  {
    match DelayOf(feed, tripId)
    case None => Ok(NewTripView(tripId, fdt, ldt))
    case Some(i) => WithDelayData(NewTripView(tripId, fdt, ldt), feed.delays[i], cfg.stopIds)
  }

  /** The trip with its vehicle position and alert applied, when it has them. */
  function Described(v: TripView, feed: Realtime, tripId: string): TripView
  {
    var located := match VehicleOf(feed, tripId)
                   case None => v
                   case Some(i) => v.(location := VehiclePosition(feed.vehicles[i].lp));
    match AlertOf(feed, tripId)
    case None => located
    case Some(i) => located.(alert := Some(AlertText(feed.alerts[i])))
  }

  /** The trip `extract_trip` builds, as a value, or the exception it raises. */
  function ExtractedTrip(feed: Realtime, tripId: string, fdt: int, ldt: int, cfg: Config): Result<TripView>
  {
    var timed :- Timed(feed, tripId, fdt, ldt, cfg);
    var described := Described(timed, feed, tripId);
    var window :- EstimatedArrival(described.startTime, described.startLocStr, cfg.transitTimes);
    Ok(described.(estEarliest := window.0, estLatest := window.1))
  }

  /** The fields of a Trip other than the estimated window. */
  function Fields(t: Trip): TripView
    reads t
  {
    t.View().(estEarliest := 0, estLatest := 0)
  }

  /** `extract_trip` up to its delay-record block: a new Trip with the trip's
      delay record applied, when it has one. */
  method NewTimedTrip(feed: Realtime, tripId: string, fdt: int, ldt: int, cfg: Config)
    returns (r: Result<Trip>)
    ensures r.Ok? ==> fresh(r.value) && Timed(feed, tripId, fdt, ldt, cfg) == Ok(Fields(r.value))
    ensures r.Err? ==> Timed(feed, tripId, fdt, ldt, cfg) == Err(r.error)
  {
    var t := new Trip(tripId, fdt, ldt);
    assert Fields(t) == NewTripView(tripId, fdt, ldt);
    var delayIndex := DelayOf(feed, tripId);
    if delayIndex.Some? {
      var failure := ApplyDelayRecord(t, feed.delays[delayIndex.value], cfg.stopIds);
      if failure.Some? {
        return Err(failure.value);
      }
    }
    return Ok(t);
  }

  /** `extract_trip`: a new Trip filled in from the feed records of `tripId`. */
  method ExtractTrip(feed: Realtime, tripId: string, fdt: int, ldt: int, cfg: Config)
    returns (r: Result<Trip>)
    ensures r.Ok? <==> ExtractedTrip(feed, tripId, fdt, ldt, cfg).Ok?
    ensures r.Ok? ==> fresh(r.value) && r.value.View() == ExtractedTrip(feed, tripId, fdt, ldt, cfg).value
    ensures r.Err? ==> r.error == ExtractedTrip(feed, tripId, fdt, ldt, cfg).error
  {
    var timed := NewTimedTrip(feed, tripId, fdt, ldt, cfg);
    ExtractionSteps(feed, tripId, fdt, ldt, cfg);
    if timed.Err? {
      return Err(timed.error);
    }
    var t := timed.value;
    ApplyVehicleAndAlert(t, feed, tripId);
    var ok := t.PopulateEstimatedArrivalTimes(cfg.transitTimes);
    if !ok {
      return Err(OverflowError);
    }
    return Ok(t);
  }

  /** `ExtractedTrip` unfolded one step at a time. */
  lemma ExtractionSteps(feed: Realtime, tripId: string, fdt: int, ldt: int, cfg: Config)
    ensures var timed := Timed(feed, tripId, fdt, ldt, cfg);
      if timed.Err? then ExtractedTrip(feed, tripId, fdt, ldt, cfg) == Err(timed.error)
      else
        var described := Described(timed.value, feed, tripId);
        var window := EstimatedArrival(described.startTime, described.startLocStr, cfg.transitTimes);
        ExtractedTrip(feed, tripId, fdt, ldt, cfg)
          == if window.Err? then Err(window.error)
             else Ok(described.(estEarliest := window.value.0, estLatest := window.value.1))
  {
  }

  /** The `if vehicle_data:` and `if alert_data:` blocks of `extract_trip`. */
  method ApplyVehicleAndAlert(t: Trip, feed: Realtime, tripId: string)
    modifies t
    ensures Fields(t) == Described(old(Fields(t)), feed, tripId)
    ensures t.estEarliest == old(t.estEarliest) && t.estLatest == old(t.estLatest)
  {
    var vehicleIndex := VehicleOf(feed, tripId);
    if vehicleIndex.Some? {
      t.location := VehiclePosition(feed.vehicles[vehicleIndex.value].lp);
    }
    var alertIndex := AlertOf(feed, tripId);
    if alertIndex.Some? {
      var a := feed.alerts[alertIndex.value];
      if a.body.Some? {
        t.alert := a.body;
      } else {
        t.alert := Some(a.title);
      }
    }
  }

  /** The `if delay_data:` block of `extract_trip`: the start time, station
      and offsets are converted in turn, and the first conversion that fails
      ends the extraction with its exception. The source stores each field as
      soon as it is converted; as a failure abandons the partly filled Trip,
      storing them together once all conversions succeed gives the same
      trip. */
  method ApplyDelayRecord(t: Trip, d: DelayRecord, stopIds: map<int, string>) returns (failure: Option<Error>)
    modifies t
    ensures failure.None? <==> WithDelayData(old(Fields(t)), d, stopIds).Ok?
    ensures failure.Some? ==> failure.value == WithDelayData(old(Fields(t)), d, stopIds).error
    ensures failure.None? ==> Fields(t) == WithDelayData(old(Fields(t)), d, stopIds).value
    ensures t.estEarliest == old(t.estEarliest) && t.estLatest == old(t.estLatest)
  {
    var start := ParseHhmm(d.start);
    if start.Err? {
      return Some(start.error);
    }
    var stop := ParseInt(d.stopId);
    if stop.Err? {
      return Some(stop.error);
    }
    var stopName := if stop.value in stopIds then stopIds[stop.value] else "Unknown";
    var offsets := ParseOffsets(d.offsets);
    if offsets.Err? {
      return Some(offsets.error);
    }
    t.SetDelayData(d.start, start.value, stop.value, stopName, offsets.value);
    return None;
  }

  // ---- Properties of the parsing ----

  /** Without an "offsets" key a trip has no offset pairs. */
  lemma {:induction false} MissingOffsetsAreEmpty()
    ensures ParseOffsets(None) == Ok([])
  {
    assert Evens<string>([]) == [] && Odds<string>([]) == [];
  }

  /** The i-th pair holds the time at field 2i and the delay at field 2i+1;
      there are |fields| / 2 pairs, so an unpaired trailing time is dropped. */
  lemma {:induction false} OffsetPairs(s: string)
    requires ParseOffsets(Some(s)).Ok?
    ensures var fields := Split(s, ',');
      var pairs := ParseOffsets(Some(s)).value;
      |pairs| == |fields| / 2 &&
      forall i :: 0 <= i < |pairs| ==>
        ParseHhmm(fields[2 * i]) == Ok(pairs[i].0) && ParseInt(fields[2 * i + 1]) == Ok(pairs[i].1)
  {
    var fields := Split(s, ',');
    var times := MapResult(Evens(fields), ParseHhmm);
    var delays := MapResult(Odds(fields), ParseInt);
    assert times.Ok? && delays.Ok?;
    var pairs := ParseOffsets(Some(s)).value;
    assert pairs == Zip(times.value, delays.value);
    forall i | 0 <= i < |pairs|
      ensures ParseHhmm(fields[2 * i]) == Ok(pairs[i].0) && ParseInt(fields[2 * i + 1]) == Ok(pairs[i].1)
    {
      assert pairs[i] == (times.value[i], delays.value[i]);
      assert Evens(fields)[i] == fields[2 * i];
      assert Odds(fields)[i] == fields[2 * i + 1];
    }
  }

  /** The offsets parse exactly when every even field is a time and every
      odd field an integer, the unpaired trailing time included. */
  lemma {:induction false} OffsetsParseIff(s: string)
    ensures ParseOffsets(Some(s)).Ok? <==>
      (forall i :: 0 <= i < |Split(s, ',')| && i % 2 == 0 ==> ParseHhmm(Split(s, ',')[i]).Ok?) &&
      (forall i :: 0 <= i < |Split(s, ',')| && i % 2 == 1 ==> ParseInt(Split(s, ',')[i]).Ok?)
  {
    OffsetsMapResult(s);
    EvenFieldsParse(Split(s, ','), ParseHhmm);
    OddFieldsParse(Split(s, ','), ParseInt);
  }

  lemma OffsetsMapResult(s: string)
    ensures ParseOffsets(Some(s)).Ok? <==>
      MapResult(Evens(Split(s, ',')), ParseHhmm).Ok? && MapResult(Odds(Split(s, ',')), ParseInt).Ok?
  {
  }

  /** Parsing the fields at even positions succeeds exactly when each of them
      parses. */
  lemma {:induction false} EvenFieldsParse<T>(fields: seq<string>, parse: string -> Result<T>)
    ensures MapResult(Evens(fields), parse).Ok? <==>
      forall i :: 0 <= i < |fields| && i % 2 == 0 ==> parse(fields[i]).Ok?
  {
    var evens := Evens(fields);
    var r := MapResult(evens, parse);
    if r.Ok? {
      forall i | 0 <= i < |fields| && i % 2 == 0 ensures parse(fields[i]).Ok? {
        var k := i / 2;
        PairOf(i);
        assert 2 * k == i && k < |evens|;
        assert evens[k] == fields[i];
      }
    } else {
      var k :| 0 <= k < |evens| && parse(evens[k]) == Err(r.error);
      var i := 2 * k;
      PairPositions(k);
      assert evens[k] == fields[i];
      assert 0 <= i < |fields| && i % 2 == 0 && parse(fields[i]).Err?;
    }
  }

  /** Parsing the fields at odd positions succeeds exactly when each of them
      parses. */
  lemma {:induction false} OddFieldsParse<T>(fields: seq<string>, parse: string -> Result<T>)
    ensures MapResult(Odds(fields), parse).Ok? <==>
      forall i :: 0 <= i < |fields| && i % 2 == 1 ==> parse(fields[i]).Ok?
  {
    var odds := Odds(fields);
    var r := MapResult(odds, parse);
    if r.Ok? {
      forall i | 0 <= i < |fields| && i % 2 == 1 ensures parse(fields[i]).Ok? {
        var k := i / 2;
        PairOf(i);
        assert 2 * k + 1 == i && k < |odds|;
        assert odds[k] == fields[i];
      }
    } else {
      var k :| 0 <= k < |odds| && parse(odds[k]) == Err(r.error);
      var i := 2 * k + 1;
      PairPositions(k);
      assert odds[k] == fields[i];
      assert 0 <= i < |fields| && i % 2 == 1 && parse(fields[i]).Err?;
    }
  }

  /** Field 2k is at an even position and field 2k+1 at an odd one. */
  lemma PairPositions(k: nat)
    ensures (2 * k) % 2 == 0 && (2 * k + 1) % 2 == 1
  {
  }

  /** Field i belongs to pair i / 2. */
  lemma PairOf(i: nat)
    ensures i == 2 * (i / 2) + i % 2 && 0 <= i % 2 < 2
  {
  }

  /** A present but empty offsets string is a single empty time field, which
      `int` rejects. */
  lemma {:induction false} EmptyOffsetsRejected()
    ensures ParseOffsets(Some("")) == Err(ValueError)
  {
    assert Split("", ',') == [""];
    assert Evens([""]) == [""];
    assert ParseInt("") == Err(ValueError);
    assert Split("", ':') == [""];
    assert MapResult([""], ParseInt) == Err(ValueError);
    assert ParseHhmm("") == Err(ValueError);
  }

  /** The vehicle position drops the last two ':'-separated fields. */
  lemma {:induction false} VehiclePositionDropsTwoFields(place: string, a: string, b: string)
    requires ':' !in a && ':' !in b
    ensures VehiclePosition(place + ":" + a + ":" + b) == place
  {
    var inner := place + ":" + a;
    var lp := inner + ":" + b;
    assert lp == inner + [':'] + b;
    LastIndexAfter(inner, ':', b);
    assert lp[..|inner|] == inner;
    assert RSplitHead(lp, ':', 2) == RSplitHead(inner, ':', 1);
    assert inner == place + [':'] + a;
    LastIndexAfter(place, ':', a);
    assert inner[..|place|] == place;
    assert RSplitHead(inner, ':', 1) == RSplitHead(place, ':', 0);
  }

  // ---- Properties of the extracted trip ----

  /** A trip with no delay record keeps the start `timedelta.max`, so
      extracting it raises OverflowError when the transit table does not list
      the station "unknown", and also when it lists it with a positive
      maximum transit time. */
  lemma {:induction false} NoDelayRecordOverflows(feed: Realtime, tripId: string, fdt: int, ldt: int, cfg: Config)
    requires forall i :: 0 <= i < |feed.delays| ==> feed.delays[i].tripId != tripId
    requires "unknown" !in cfg.transitTimes || cfg.transitTimes["unknown"].1 > 0
    ensures ExtractedTrip(feed, tripId, fdt, ldt, cfg) == Err(OverflowError)
  {
    assert DelayOf(feed, tripId).None?;
    if "unknown" in cfg.transitTimes {
      assert Add(MaxDuration, cfg.transitTimes["unknown"].1) == Err(OverflowError);
    } else {
      NoStartTimeOverflows("unknown", cfg.transitTimes);
    }
  }

  /** The alert is the first matching alert's body, or its title when it has
      none; no alert record leaves the alert unset. */
  lemma {:induction false} ExtractedAlert(feed: Realtime, tripId: string, fdt: int, ldt: int, cfg: Config)
    requires ExtractedTrip(feed, tripId, fdt, ldt, cfg).Ok?
    ensures var v := ExtractedTrip(feed, tripId, fdt, ldt, cfg).value;
      (v.alert == None <==> forall i :: 0 <= i < |feed.alerts| ==> feed.alerts[i].tripId != tripId) &&
      forall k :: (0 <= k < |feed.alerts| && feed.alerts[k].tripId == tripId &&
                   forall j :: 0 <= j < k ==> feed.alerts[j].tripId != tripId) ==>
        v.alert == Some(if feed.alerts[k].body.Some? then feed.alerts[k].body.value else feed.alerts[k].title)
  {
    ExtractionSteps(feed, tripId, fdt, ldt, cfg);
    TimedKeepsIdentity(feed, tripId, fdt, ldt, cfg);
    var timed := Timed(feed, tripId, fdt, ldt, cfg).value;
    DescribedAlert(timed, feed, tripId);
    assert ExtractedTrip(feed, tripId, fdt, ldt, cfg).value.alert == Described(timed, feed, tripId).alert;
    AlertOfFirst(feed, tripId);
  }

  /** The alert looked up for a trip is the first one with its trip id. */
  lemma AlertOfFirst(feed: Realtime, tripId: string)
    ensures AlertOf(feed, tripId).None? <==> forall i :: 0 <= i < |feed.alerts| ==> feed.alerts[i].tripId != tripId
    ensures forall k :: (0 <= k < |feed.alerts| && feed.alerts[k].tripId == tripId &&
                         forall j :: 0 <= j < k ==> feed.alerts[j].tripId != tripId) ==>
      AlertOf(feed, tripId) == Some(k)
  {
  }

  /** The alert step sets the alert text of the first matching alert. */
  lemma DescribedAlert(v: TripView, feed: Realtime, tripId: string)
    ensures var found := AlertOf(feed, tripId);
      Described(v, feed, tripId).alert
        == if found.Some? then Some(AlertText(feed.alerts[found.value])) else v.alert
  {
  }

  /** The estimated window is the start time plus the transit times of the
      start station. */
  lemma {:induction false} ExtractedWindow(feed: Realtime, tripId: string, fdt: int, ldt: int, cfg: Config)
    requires ExtractedTrip(feed, tripId, fdt, ldt, cfg).Ok?
    ensures var v := ExtractedTrip(feed, tripId, fdt, ldt, cfg).value;
      v.tripId == tripId && v.firstDepartureTime == fdt && v.lastDepartureTime == ldt &&
      EstimatedArrival(v.startTime, v.startLocStr, cfg.transitTimes) == Ok((v.estEarliest, v.estLatest))
  {
    ExtractionSteps(feed, tripId, fdt, ldt, cfg);
    TimedKeepsIdentity(feed, tripId, fdt, ldt, cfg);
  }

  /** The delay record leaves the trip id, the departure window and the
      alert as the constructor set them. */
  lemma TimedKeepsIdentity(feed: Realtime, tripId: string, fdt: int, ldt: int, cfg: Config)
    requires Timed(feed, tripId, fdt, ldt, cfg).Ok?
    ensures var v := Timed(feed, tripId, fdt, ldt, cfg).value;
      v.tripId == tripId && v.firstDepartureTime == fdt && v.lastDepartureTime == ldt && v.alert == None
  {
    var initial := NewTripView(tripId, fdt, ldt);
    match DelayOf(feed, tripId)
    case None =>
    case Some(i) => DelayDataFields(initial, feed.delays[i], cfg.stopIds);
  }

  /** The delay record sets the start time, station and offsets and nothing
      else. */
  lemma DelayDataFields(v: TripView, d: DelayRecord, stopIds: map<int, string>)
    requires WithDelayData(v, d, stopIds).Ok?
    ensures var stop := ParseInt(d.stopId).value;
      WithDelayData(v, d, stopIds).value == v.(startTimeStr := d.start, startTime := ParseHhmm(d.start).value,
        startLocInt := stop, startLocStr := if stop in stopIds then stopIds[stop] else "Unknown",
        offsetTuples := ParseOffsets(d.offsets).value)
  {
  }
}

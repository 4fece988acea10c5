/** The `Trip` record of train_notify.py: a mutable object filled in while a
    trip is extracted from the realtime feed, and the pure predicates that
    judge it (is it current, does it arrive in the departure window, how late
    is it at the boarding station). All times are whole minutes. */
module Trips {
  import opened Results
  import opened Text
  import opened Durations

  /** The line a trip contributes to the short summary: nothing unless it is
      current and in the window; the alert part only when there is an alert
      with text. */
  datatype ShortSummary =
    | Blank
    | Line(delay: string, earliest: int, latest: int, location: string,
           startTime: string, startLoc: string, alert: Option<string>)

  /** The line every trip contributes to the full summary, with its
      "[Out Of Schedule] " and "[In the past] " markers. */
  datatype FullSummary = FullSummary(
    outOfSchedule: bool, inThePast: bool,
    tripId: string, startTime: string, startLoc: string, delay: string,
    location: string, earliest: int, latest: int, alert: Option<string>)

  /** Python truthiness of the alert: None and "" are false. */
  predicate HasAlertText(alert: Option<string>) { alert.Some? && alert.value != "" }

  /** The field values of a Trip object. */
  datatype TripView = TripView(
    tripId: string,
    startTimeStr: string,
    startTime: int,
    startLocInt: int,
    startLocStr: string,
    location: string,
    alert: Option<string>,
    offsetTuples: seq<(int, int)>,
    firstDepartureTime: int,
    lastDepartureTime: int,
    estEarliest: int,
    estLatest: int)
  {
    /** Arrives at the departure station in the future. */
    predicate IsCurrent(now: int) { now < estLatest }

    /** Arrives at the departure station within the departure window. */
    predicate ArrivesInDepartureWindow()
    {
      InWindow(firstDepartureTime, lastDepartureTime, estEarliest, estLatest)
    }

    function EstimateDelay(): int { DelayAtBoarding(offsetTuples, estEarliest) }

    function DelayDescription(): string { Describe(EstimateDelay()) }

    predicate IsRunningLate(threshold: int) { EstimateDelay() > threshold }

    function Short(now: int): (r: ShortSummary)
      ensures r.Line? <==> IsCurrent(now) && ArrivesInDepartureWindow()
      ensures r.Line? ==> r.delay == DelayDescription()
      ensures r.Line? ==> (r.alert.Some? <==> HasAlertText(alert))
    {
      if !(IsCurrent(now) && ArrivesInDepartureWindow()) then Blank
      else
        Line(DelayDescription(), estEarliest, estLatest, location, startTimeStr, startLocStr,
             if HasAlertText(alert) then alert else None)
    }

    function Full(now: int): (r: FullSummary)
      ensures r.outOfSchedule <==> !ArrivesInDepartureWindow()
      ensures r.inThePast <==> !IsCurrent(now)
      ensures r.tripId == tripId && r.delay == DelayDescription() && r.alert == alert
    {
      FullSummary(!ArrivesInDepartureWindow(), !IsCurrent(now), tripId, startTimeStr,
                  startLocStr, DelayDescription(), location, estEarliest, estLatest, alert)
    }
  }

  /** Earliest or latest estimated arrival lies strictly inside (first, last). */
  predicate InWindow(first: int, last: int, earliest: int, latest: int)
  {
    (first < earliest < last) || (first < latest < last)
  }

  /** `estimate_delay_at_boarding_station`: drop the leading pairs whose time
      is before the earliest arrival; the delay of the first pair left, or 0. */
  function DelayAtBoarding(offsets: seq<(int, int)>, earliest: int): int
  {
    if |offsets| == 0 then 0
    else if offsets[0].0 < earliest then DelayAtBoarding(offsets[1..], earliest)
    else offsets[0].1
  }

  /** `delay_description`: "<d>m late", "<|d|>m early" or "on-time". */
  function Describe(delay: int): string
  {
    if delay > 0 then ShowInt(delay) + "m late"
    else if delay < 0 then ShowInt(-delay) + "m early"
    else "on-time"
  }

  /** `populate_estimated_arrival_times` as a value: start plus the minimum
      and the maximum transit time of the start station, or plus
      (`timedelta.min`, `timedelta.max` - 1 day) for a station the table
      does not list; each sum may overflow. */
  function EstimatedArrival(start: int, stopName: string, transitTimes: map<string, (int, int)>)
    : Result<(int, int)>
  {
    var transit := if stopName in transitTimes then transitTimes[stopName]
                   else (MinDuration, MaxDuration - MinutesPerDay);
    var earliest :- Add(start, transit.0);
    var latest :- Add(start, transit.1);
    Ok((earliest, latest))
  }

  // ---- Properties of the predicates ----

  /** The delay at boarding is that of the first pair, in list order, whose
      time is not before the earliest arrival. */
  lemma {:induction false} DelayAtBoardingFirstReached(offsets: seq<(int, int)>, earliest: int, k: nat)
    requires k < |offsets| && offsets[k].0 >= earliest
    requires forall j :: 0 <= j < k ==> offsets[j].0 < earliest
    ensures DelayAtBoarding(offsets, earliest) == offsets[k].1
    decreases k
  {
    if k > 0 {
      var rest := offsets[1..];
      assert offsets[0].0 < earliest;
      assert rest[k - 1] == offsets[k];
      assert forall j :: 0 <= j < k - 1 ==> rest[j] == offsets[j + 1];
      DelayAtBoardingFirstReached(rest, earliest, k - 1);
    }
  }

  /** The delay at boarding is 0 when every pair lies before the earliest
      arrival. */
  lemma {:induction false} DelayAtBoardingNoneReached(offsets: seq<(int, int)>, earliest: int)
    requires forall i :: 0 <= i < |offsets| ==> offsets[i].0 < earliest
    ensures DelayAtBoarding(offsets, earliest) == 0
    decreases |offsets|
  {
    if |offsets| > 0 {
      var rest := offsets[1..];
      assert forall i :: 0 <= i < |rest| ==> rest[i] == offsets[i + 1];
      DelayAtBoardingNoneReached(rest, earliest);
    }
  }

  /** The three outcomes of the delay description, and nothing else. */
  lemma DescribeThreeWay(delay: int)
    ensures delay > 0 ==> Describe(delay) == ShowNat(delay) + "m late"
    ensures delay < 0 ==> Describe(delay) == ShowNat(-delay) + "m early"
    ensures delay == 0 <==> Describe(delay) == "on-time"
  {
    if delay != 0 {
      var digits := ShowNat(if delay > 0 then delay else -delay);
      assert IsDigit(Describe(delay)[0]) by {
        assert Describe(delay)[0] == digits[0];
      }
    }
  }

  /** Different delays are described differently: the description
      determines the delay. */
  lemma DescribeInjective(d1: int, d2: int)
    requires Describe(d1) == Describe(d2)
    ensures d1 == d2
  {
    DescribeThreeWay(d1);
    DescribeThreeWay(d2);
    if d1 != 0 && d2 != 0 {
      var n1 := if d1 > 0 then d1 else -d1;
      var n2 := if d2 > 0 then d2 else -d2;
      var s1, s2 := ShowNat(n1), ShowNat(n2);
      var t1 := if d1 > 0 then "m late" else "m early";
      var t2 := if d2 > 0 then "m late" else "m early";
      assert s1 + t1 == s2 + t2;
      DigitsPrefix(s1, t1, s2, t2);
      ParseShowInt(n1);
      ParseShowInt(n2);
      assert (d1 > 0) == (d2 > 0) by {
        assert |t1| == |t2|;
      }
    }
  }

  /** Two digit strings followed by non-digit text split the same way. */
  lemma DigitsPrefix(s1: string, t1: string, s2: string, t2: string)
    requires AllDigits(s1) && AllDigits(s2)
    requires |t1| > 0 && |t2| > 0 && !IsDigit(t1[0]) && !IsDigit(t2[0])
    requires s1 + t1 == s2 + t2
    ensures s1 == s2 && t1 == t2
  {
    var u := s1 + t1;
    assert u[|s1|] == t1[0] && u[|s2|] == t2[0];
    assert forall k :: 0 <= k < |s1| ==> u[k] == s1[k];
    assert forall k :: 0 <= k < |s2| ==> u[k] == s2[k];
    assert |s1| == |s2|;
    assert s1 == u[..|s1|] == s2;
  }

  /** A window whose first departure is not before its last holds nothing. */
  lemma EmptyWindowHoldsNothing(first: int, last: int, earliest: int, latest: int)
    requires first >= last
    ensures !InWindow(first, last, earliest, latest)
  {
  }

  /** A delay equal to the threshold is not late. */
  lemma ThresholdIsNotLate(v: TripView, threshold: int)
    requires v.EstimateDelay() == threshold
    ensures !v.IsRunningLate(threshold)
  {
  }

  /** With a transit time on record the window is start + min .. start + max. */
  lemma ArrivalFromTable(start: int, stopName: string, transitTimes: map<string, (int, int)>)
    requires stopName in transitTimes
    requires InRange(start + transitTimes[stopName].0) && InRange(start + transitTimes[stopName].1)
    ensures EstimatedArrival(start, stopName, transitTimes)
      == Ok((start + transitTimes[stopName].0, start + transitTimes[stopName].1))
  {
  }

  /** For a station without a transit time the default pair is used, and the
      sums stay representable exactly when the start is within the first
      day (0 to 24:00). */
  lemma UnknownStationArrival(start: int, stopName: string, transitTimes: map<string, (int, int)>)
    requires stopName !in transitTimes
    ensures EstimatedArrival(start, stopName, transitTimes).Ok? <==> 0 <= start <= MinutesPerDay
    ensures EstimatedArrival(start, stopName, transitTimes).Ok? ==>
      EstimatedArrival(start, stopName, transitTimes).value
        == (start + MinDuration, start + MaxDuration - MinutesPerDay)
    ensures EstimatedArrival(start, stopName, transitTimes).Err? ==>
      EstimatedArrival(start, stopName, transitTimes).error == OverflowError
  {
  }

  /** A trip without delay data keeps the start `timedelta.max`; with no
      transit time for its station the latest-arrival sum overflows. */
  lemma NoStartTimeOverflows(stopName: string, transitTimes: map<string, (int, int)>)
    requires stopName !in transitTimes
    ensures EstimatedArrival(MaxDuration, stopName, transitTimes) == Err(OverflowError)
  {
    UnknownStationArrival(MaxDuration, stopName, transitTimes);
  }

  /** The default transit pair has "no chance of being in the schedule": for
      any window whose bounds lie a day inside the timedelta range, a trip
      from a station without transit times never arrives in the window and
      is always current. */
  lemma UnknownStationOutOfSchedule(v: TripView, transitTimes: map<string, (int, int)>, now: int)
    requires v.startLocStr !in transitTimes
    requires EstimatedArrival(v.startTime, v.startLocStr, transitTimes)
      == Ok((v.estEarliest, v.estLatest))
    requires MinDuration + MinutesPerDay <= v.firstDepartureTime
    requires v.lastDepartureTime <= MaxDuration - MinutesPerDay
    requires now < MaxDuration - MinutesPerDay
    ensures !v.ArrivesInDepartureWindow()
    ensures v.IsCurrent(now)
  {
    UnknownStationArrival(v.startTime, v.startLocStr, transitTimes);
  }

  /** The record, as the object the extraction fills in field by field. */
  class Trip {
    var tripId: string
    var startTimeStr: string
    var startTime: int
    var startLocInt: int
    var startLocStr: string
    var location: string
    var alert: Option<string>
    var offsetTuples: seq<(int, int)>
    var firstDepartureTime: int
    var lastDepartureTime: int
    var estEarliest: int
    var estLatest: int

    function View(): TripView
      reads this
    {
      TripView(tripId, startTimeStr, startTime, startLocInt, startLocStr, location, alert,
               offsetTuples, firstDepartureTime, lastDepartureTime, estEarliest, estLatest)
    }

    /** A trip about which nothing is known yet: the start is `timedelta.max`,
        the station -1 and "unknown", no alert and no offsets. */
    constructor (tripId: string, firstDepartureTime: int, lastDepartureTime: int)
      ensures this.tripId == tripId
      ensures startTimeStr == "unknown" && startTime == MaxDuration
      ensures startLocInt == -1 && startLocStr == "unknown"
      ensures location == "unknown" && alert == None && offsetTuples == []
      ensures this.firstDepartureTime == firstDepartureTime
      ensures this.lastDepartureTime == lastDepartureTime
    {
      this.tripId := tripId;
      startTimeStr := "unknown";
      startTime := MaxDuration;
      startLocInt := -1;
      startLocStr := "unknown";
      location := "unknown";
      alert := None;
      offsetTuples := [];
      this.firstDepartureTime := firstDepartureTime;
      this.lastDepartureTime := lastDepartureTime;
    }

    /** Stores what the trip's delay record says: the start time as text and
        as a duration, the start stop id and station name, and the offset
        pairs. */
    method SetDelayData(startTimeStr: string, startTime: int, startLocInt: int, startLocStr: string,
                        offsetTuples: seq<(int, int)>)
      modifies this
      ensures View() == old(View()).(startTimeStr := startTimeStr, startTime := startTime,
        startLocInt := startLocInt, startLocStr := startLocStr, offsetTuples := offsetTuples)
    {
      this.startTimeStr := startTimeStr;
      this.startTime := startTime;
      this.startLocInt := startLocInt;
      this.startLocStr := startLocStr;
      this.offsetTuples := offsetTuples;
    }

    /** Writes the estimated arrival window; false when a sum overflows
        (the source raises OverflowError there). */
    method PopulateEstimatedArrivalTimes(transitTimes: map<string, (int, int)>) returns (ok: bool)
      modifies this`estEarliest, this`estLatest
      ensures ok <==> EstimatedArrival(startTime, startLocStr, transitTimes).Ok?
      ensures ok ==> (estEarliest, estLatest) == EstimatedArrival(startTime, startLocStr, transitTimes).value
    {
      var transit := if startLocStr in transitTimes then transitTimes[startLocStr]
                     else (MinDuration, MaxDuration - MinutesPerDay);
      var earliest := Add(startTime, transit.0);
      if earliest.Err? {
        return false;
      }
      estEarliest := earliest.value;
      var latest := Add(startTime, transit.1);
      if latest.Err? {
        return false;
      }
      estLatest := latest.value;
      return true;
    }
  }
}

/** The analysis in `main` of train_notify.py: build a Trip for every vehicle
    on the watched route, then sort the trips into notification, short-summary
    and full-summary lines and decide whether trains are running late. The
    HTTP fetch, the file dump, logging and the push notification itself are
    outside the model; the clock reading `now` and the rendered feed
    timestamp are parameters. */
module Report {
  import opened Results
  import opened Trips
  import opened Feed

  /** A line of the notification message: a trip's short summary, or the
      closing "Retrieved at: ..." line. */
  datatype NotificationLine = TripLine(summary: ShortSummary) | RetrievedAt(timestamp: string)

  datatype Report = Report(
    subjectCount: nat,                      // the N of "Title: N train(s) running late"
    notificationLines: seq<NotificationLine>,
    shortSummaryLines: seq<ShortSummary>,
    fullSummaryLines: seq<FullSummary>,
    sendNotification: bool)                 // a push notification goes out

  // ---- Trip selection ----

  /** The positions of the vehicles on `route`, in feed order: every such
      position, each once, increasing. */
  function RouteIndices(vehicles: seq<VehicleRecord>, route: string): (idx: seq<int>)
    ensures forall k :: 0 <= k < |idx| ==> 0 <= idx[k] < |vehicles| && vehicles[idx[k]].route == route
    ensures forall k, l :: 0 <= k < l < |idx| ==> idx[k] < idx[l]
    ensures forall i :: 0 <= i < |vehicles| && vehicles[i].route == route ==> i in idx
  {
    if |vehicles| == 0 then []
    else
      var n := |vehicles| - 1;
      var before := RouteIndices(vehicles[..n], route);
      assert forall i :: 0 <= i < n ==> vehicles[..n][i] == vehicles[i];
      before + if vehicles[n].route == route then [n] else []
  }

  /** The trip ids of the vehicles on `route`, in feed order, one per
      vehicle: the k-th id is that of the k-th vehicle on the route. */
  function RouteTripIds(vehicles: seq<VehicleRecord>, route: string): (ids: seq<string>)
    ensures |ids| == |RouteIndices(vehicles, route)|
    ensures forall k :: 0 <= k < |ids| ==> ids[k] == vehicles[RouteIndices(vehicles, route)[k]].tripId
  {
    if |vehicles| == 0 then []
    else
      var n := |vehicles| - 1;
      var before := RouteTripIds(vehicles[..n], route);
      assert forall i :: 0 <= i < n ==> vehicles[..n][i] == vehicles[i];
      before + if vehicles[n].route == route then [vehicles[n].tripId] else []
  }

  /** The ids selected are exactly the trip ids of the vehicles on the route. */
  lemma RouteTripIdsMembers(vehicles: seq<VehicleRecord>, route: string)
    ensures forall id :: id in RouteTripIds(vehicles, route) <==>
      exists i :: 0 <= i < |vehicles| && vehicles[i].route == route && vehicles[i].tripId == id
  {
    var ids := RouteTripIds(vehicles, route);
    var idx := RouteIndices(vehicles, route);
    forall id | exists i :: 0 <= i < |vehicles| && vehicles[i].route == route && vehicles[i].tripId == id
      ensures id in ids
    {
      var i :| 0 <= i < |vehicles| && vehicles[i].route == route && vehicles[i].tripId == id;
      var k :| 0 <= k < |idx| && idx[k] == i;
      assert ids[k] == id;
    }
  }

  /** `extract_trip` for a fixed feed, window and configuration. */
  function Extractor(feed: Realtime, fdt: int, ldt: int, cfg: Config): string -> Result<TripView>
  {
    id => ExtractedTrip(feed, id, fdt, ldt, cfg)
  }

  /** The trips `main` builds, as values, or the exception that ends it. */
  function Selection(feed: Realtime, fdt: int, ldt: int, cfg: Config): Result<seq<TripView>>
  {
    MapResult(RouteTripIds(feed.vehicles, cfg.route), Extractor(feed, fdt, ldt, cfg))
  }

  /** One iteration of the trip-selection loop: extracts the trip of
      `ids[i]` once the trips of the earlier ids have been extracted. */
  method SelectNext(feed: Realtime, fdt: int, ldt: int, cfg: Config, ids: seq<string>, i: nat, ghost views: seq<TripView>)
    returns (r: Result<Trip>)
    requires i < |ids| && MapResult(ids[..i], Extractor(feed, fdt, ldt, cfg)) == Ok(views)
    ensures r.Err? ==> MapResult(ids, Extractor(feed, fdt, ldt, cfg)) == Err(r.error)
    ensures r.Ok? ==> MapResult(ids[..i + 1], Extractor(feed, fdt, ldt, cfg)) == Ok(views + [r.value.View()])
  {
    ghost var extract := Extractor(feed, fdt, ldt, cfg);
    r := ExtractTrip(feed, ids[i], fdt, ldt, cfg);
    assert extract(ids[i]) == ExtractedTrip(feed, ids[i], fdt, ldt, cfg);
    if r.Err? {
      MapResultStopsAt(ids, extract, i);
    } else {
      MapResultExtend(ids, extract, i);
    }
  }

  /** The loop of the list comprehension in `main`: `extract_trip` for each
      selected id, in order, stopping at the first exception. */
  method ExtractEach(feed: Realtime, fdt: int, ldt: int, cfg: Config, ids: seq<string>) returns (r: Result<seq<Trip>>)
    ensures r.Ok? <==> MapResult(ids, Extractor(feed, fdt, ldt, cfg)).Ok?
    ensures r.Err? ==> r.error == MapResult(ids, Extractor(feed, fdt, ldt, cfg)).error
    ensures r.Ok? ==> Views(r.value) == MapResult(ids, Extractor(feed, fdt, ldt, cfg)).value
  {
    ghost var views: seq<TripView> := [];
    var trips: seq<Trip> := [];
    var i := 0;
    while i < |ids|
      invariant 0 <= i <= |ids| && |trips| == i
      invariant MapResult(ids[..i], Extractor(feed, fdt, ldt, cfg)) == Ok(views)
      invariant Views(trips) == views
    {
      var t := SelectNext(feed, fdt, ldt, cfg, ids, i, views);
      if t.Err? {
        return Err(t.error);
      }
      assert (trips + [t.value])[..i] == trips;
      trips := trips + [t.value];
      views := views + [t.value.View()];
      i := i + 1;
    }
    assert ids[..i] == ids;
    return Ok(trips);
  }

  /** The trip selection of `main`: one new Trip per vehicle on the route, in
      feed order. */
  method SelectTrips(feed: Realtime, fdt: int, ldt: int, cfg: Config) returns (r: Result<seq<Trip>>)
    ensures r.Ok? <==> Selection(feed, fdt, ldt, cfg).Ok?
    ensures r.Err? ==> r.error == Selection(feed, fdt, ldt, cfg).error
    ensures r.Ok? ==> Views(r.value) == Selection(feed, fdt, ldt, cfg).value
  {
    r := ExtractEach(feed, fdt, ldt, cfg, RouteTripIds(feed.vehicles, cfg.route));
  }

  // ---- Classification ----

  /** The field values of each trip, in order. */
  function Views(trips: seq<Trip>): (vs: seq<TripView>)
    reads set t | t in trips
    ensures |vs| == |trips| && forall i :: 0 <= i < |trips| ==> vs[i] == trips[i].View()
  {
    if |trips| == 0 then [] else Views(trips[..|trips| - 1]) + [trips[|trips| - 1].View()]
  }

  /** The trips that get a short-summary line: current and in the window. */
  predicate Selected(v: TripView, now: int)
  {
    v.IsCurrent(now) && v.ArrivesInDepartureWindow()
  }

  predicate Notified(v: TripView, now: int, threshold: int)
  {
    Selected(v, now) && v.IsRunningLate(threshold)
  }

  function ShortLines(vs: seq<TripView>, now: int): seq<ShortSummary>
  {
    if |vs| == 0 then []
    else
      var last := vs[|vs| - 1];
      ShortLines(vs[..|vs| - 1], now) + if Selected(last, now) then [last.Short(now)] else []
  }

  function NotificationLines(vs: seq<TripView>, now: int, threshold: int): seq<ShortSummary>
  {
    if |vs| == 0 then []
    else
      var last := vs[|vs| - 1];
      NotificationLines(vs[..|vs| - 1], now, threshold)
        + if Notified(last, now, threshold) then [last.Short(now)] else []
  }

  function FullLines(vs: seq<TripView>, now: int): seq<FullSummary>
  {
    if |vs| == 0 then [] else FullLines(vs[..|vs| - 1], now) + [vs[|vs| - 1].Full(now)]
  }

  /** The classification loop of `main`. */
  method ClassifyTrips(trips: seq<Trip>, now: int, threshold: int)
    returns (notification: seq<ShortSummary>, short: seq<ShortSummary>, full: seq<FullSummary>, late: bool)
    ensures notification == NotificationLines(Views(trips), now, threshold)
    ensures short == ShortLines(Views(trips), now)
    ensures full == FullLines(Views(trips), now)
    ensures late <==> |notification| > 0
  {
    ghost var vs := Views(trips);
    notification, short, full, late := [], [], [], false;
    var i := 0;
    while i < |trips|
      invariant 0 <= i <= |trips|
      invariant notification == NotificationLines(vs[..i], now, threshold)
      invariant short == ShortLines(vs[..i], now)
      invariant full == FullLines(vs[..i], now)
      invariant late <==> |notification| > 0
    {
      var v := trips[i].View();
      ClassifyStep(vs, i, now, threshold);
      assert v == vs[i];
      if Selected(v, now) {
        var line := v.Short(now);
        if v.IsRunningLate(threshold) {
          late := true;
          notification := notification + [line];
        }
        short := short + [line];
      }
      full := full + [v.Full(now)];
      i := i + 1;
    }
    assert vs[..i] == vs;
  }

  /** The line lists of the first i + 1 trips extend those of the first i. */
  lemma ClassifyStep(vs: seq<TripView>, i: int, now: int, threshold: int)
    requires 0 <= i < |vs|
    ensures NotificationLines(vs[..i + 1], now, threshold) == NotificationLines(vs[..i], now, threshold)
      + if Notified(vs[i], now, threshold) then [vs[i].Short(now)] else []
    ensures ShortLines(vs[..i + 1], now) == ShortLines(vs[..i], now)
      + if Selected(vs[i], now) then [vs[i].Short(now)] else []
    ensures FullLines(vs[..i + 1], now) == FullLines(vs[..i], now) + [vs[i].Full(now)]
  {
    assert vs[..i + 1][..i] == vs[..i];
  }

  /** The analysis part of `main`: select and classify the trips; the subject
      counts the notification lines before the "Retrieved at" line is added;
      a notification is pushed when some train is late and this is not a dry
      run. */
  method Analyze(feed: Realtime, cfg: Config, fdt: int, ldt: int, now: int, threshold: int,
                 isDryRun: bool, retrievedAt: string)
    returns (r: Result<Report>)
    ensures r.Ok? <==> Selection(feed, fdt, ldt, cfg).Ok?
    ensures r.Err? ==> r.error == Selection(feed, fdt, ldt, cfg).error
    ensures r.Ok? ==>
      var vs := Selection(feed, fdt, ldt, cfg).value;
      var lines := NotificationLines(vs, now, threshold);
      r.value.subjectCount == |lines| &&
      r.value.subjectCount == |NotifiedIndices(vs, now, threshold)| &&
      r.value.notificationLines == TripLines(lines) + [RetrievedAt(retrievedAt)] &&
      r.value.shortSummaryLines == ShortLines(vs, now) &&
      r.value.fullSummaryLines == FullLines(vs, now) &&
      (r.value.sendNotification <==> !isDryRun && exists i :: 0 <= i < |vs| && Notified(vs[i], now, threshold))
  {
    var selected := SelectTrips(feed, fdt, ldt, cfg);
    if selected.Err? {
      return Err(selected.error);
    }
    var trips := selected.value;
    var notification, short, full, late := ClassifyTrips(trips, now, threshold);
    LateIffNotificationLine(Views(trips), now, threshold);
    NotificationLinesCountLateTrips(Views(trips), now, threshold);
    var subjectCount := |notification|;
    var lines := TripLines(notification) + [RetrievedAt(retrievedAt)];
    return Ok(Report(subjectCount, lines, short, full, !isDryRun && late));
  }

  function TripLines(summaries: seq<ShortSummary>): (lines: seq<NotificationLine>)
    ensures |lines| == |summaries| && forall i :: 0 <= i < |summaries| ==> lines[i] == TripLine(summaries[i])
  {
    if |summaries| == 0 then [] else [TripLine(summaries[0])] + TripLines(summaries[1..])
  }

  // ---- Properties of the classification ----

  /** Every trip contributes exactly one full-summary line, marked out of
      schedule or in the past exactly when it is. */
  lemma {:induction false} OneFullLinePerTrip(vs: seq<TripView>, now: int)
    ensures |FullLines(vs, now)| == |vs|
    ensures forall i :: 0 <= i < |vs| ==>
      FullLines(vs, now)[i].tripId == vs[i].tripId &&
      (FullLines(vs, now)[i].outOfSchedule <==> !vs[i].ArrivesInDepartureWindow()) &&
      (FullLines(vs, now)[i].inThePast <==> !vs[i].IsCurrent(now))
  {
    if |vs| > 0 {
      var init := vs[..|vs| - 1];
      OneFullLinePerTrip(init, now);
      assert forall i :: 0 <= i < |init| ==> init[i] == vs[i];
    }
  }

  /** Short-summary lines come only from current trips in the window, and
      none of them is blank. */
  lemma {:induction false} ShortLinesFromSelectedTrips(vs: seq<TripView>, now: int)
    ensures |ShortLines(vs, now)| <= |vs|
    ensures forall s :: s in ShortLines(vs, now) ==>
      s.Line? && exists i :: 0 <= i < |vs| && Selected(vs[i], now) && s == vs[i].Short(now)
  {
    if |vs| > 0 {
      var init := vs[..|vs| - 1];
      ShortLinesFromSelectedTrips(init, now);
      assert forall i :: 0 <= i < |init| ==> init[i] == vs[i];
    }
  }

  /** Every notification line is the short-summary line of a late trip, and
      also appears among the short-summary lines; there are never more
      notification lines than short-summary lines. */
  lemma {:induction false} NotificationsAreLateShortLines(vs: seq<TripView>, now: int, threshold: int)
    ensures |NotificationLines(vs, now, threshold)| <= |ShortLines(vs, now)|
    ensures forall s :: s in NotificationLines(vs, now, threshold) ==>
      s in ShortLines(vs, now) &&
      exists i :: 0 <= i < |vs| && Notified(vs[i], now, threshold) && s == vs[i].Short(now)
  {
    if |vs| > 0 {
      var init := vs[..|vs| - 1];
      NotificationsAreLateShortLines(init, now, threshold);
      assert forall i :: 0 <= i < |init| ==> init[i] == vs[i];
    }
  }

  /** Trains are running late exactly when a notification line was added, so
      the subject counts at least one train whenever a notification is
      pushed. */
  lemma {:induction false} LateIffNotificationLine(vs: seq<TripView>, now: int, threshold: int)
    ensures (exists i :: 0 <= i < |vs| && Notified(vs[i], now, threshold))
      <==> |NotificationLines(vs, now, threshold)| > 0
  {
    if |vs| > 0 {
      var init := vs[..|vs| - 1];
      LateIffNotificationLine(init, now, threshold);
      assert forall i :: 0 <= i < |init| ==> init[i] == vs[i];
      if |NotificationLines(init, now, threshold)| > 0 {
        var i :| 0 <= i < |init| && Notified(init[i], now, threshold);
        assert Notified(vs[i], now, threshold);
      }
    }
  }

  /** The positions of the elements of `xs` that satisfy `p`. */
  function Positions<T>(xs: seq<T>, p: T -> bool): set<int>
  {
    set i | 0 <= i < |xs| && p(xs[i])
  }

  /** One more element adds its position exactly when it satisfies `p`. */
  lemma PositionsSnoc<T>(xs: seq<T>, p: T -> bool)
    requires |xs| > 0
    ensures |Positions(xs, p)| == |Positions(xs[..|xs| - 1], p)| + if p(xs[|xs| - 1]) then 1 else 0
  {
    var n := |xs| - 1;
    var before := Positions(xs[..n], p);
    var added: set<int> := if p(xs[n]) then {n} else {};
    forall i ensures i in Positions(xs, p) <==> i in before + added {
      if 0 <= i < n {
        assert xs[..n][i] == xs[i];
      }
    }
    assert Positions(xs, p) == before + added;
    assert n !in before;
  }

  /** The positions of the trips that get a short-summary line. */
  function SelectedIndices(vs: seq<TripView>, now: int): set<int>
  {
    Positions(vs, v => Selected(v, now))
  }

  /** The positions of the trips that get a notification line. */
  function NotifiedIndices(vs: seq<TripView>, now: int, threshold: int): set<int>
  {
    Positions(vs, v => Notified(v, now, threshold))
  }

  /** There is one short-summary line per current trip in the window. */
  lemma {:induction false} ShortLinesCountSelectedTrips(vs: seq<TripView>, now: int)
    ensures |ShortLines(vs, now)| == |SelectedIndices(vs, now)|
  {
    if |vs| > 0 {
      var n := |vs| - 1;
      var init := vs[..n];
      ShortLinesCountSelectedTrips(init, now);
      PositionsSnoc(vs, v => Selected(v, now));
    }
  }

  /** Every current trip in the window contributes its short-summary line. */
  lemma {:induction false} EverySelectedTripHasShortLine(vs: seq<TripView>, now: int)
    ensures forall i :: 0 <= i < |vs| && Selected(vs[i], now) ==> vs[i].Short(now) in ShortLines(vs, now)
  {
    if |vs| > 0 {
      var n := |vs| - 1;
      var init := vs[..n];
      EverySelectedTripHasShortLine(init, now);
      var lines := ShortLines(vs, now);
      assert lines == ShortLines(init, now) + if Selected(vs[n], now) then [vs[n].Short(now)] else [];
      forall i | 0 <= i < |vs| && Selected(vs[i], now) ensures vs[i].Short(now) in lines {
        if i < n {
          assert init[i] == vs[i];
          assert vs[i].Short(now) in ShortLines(init, now);
        } else {
          assert lines[|lines| - 1] == vs[n].Short(now);
        }
      }
    }
  }

  /** There is one notification line per current, in-window trip running
      late. */
  lemma {:induction false} NotificationLinesCountLateTrips(vs: seq<TripView>, now: int, threshold: int)
    ensures |NotificationLines(vs, now, threshold)| == |NotifiedIndices(vs, now, threshold)|
  {
    if |vs| > 0 {
      var n := |vs| - 1;
      var init := vs[..n];
      NotificationLinesCountLateTrips(init, now, threshold);
      PositionsSnoc(vs, v => Notified(v, now, threshold));
    }
  }

  /** Every current, in-window trip running late contributes its line to the
      notification. */
  lemma {:induction false} EveryLateTripHasNotificationLine(vs: seq<TripView>, now: int, threshold: int)
    ensures forall i :: 0 <= i < |vs| && Notified(vs[i], now, threshold) ==>
      vs[i].Short(now) in NotificationLines(vs, now, threshold)
  {
    if |vs| > 0 {
      var n := |vs| - 1;
      var init := vs[..n];
      EveryLateTripHasNotificationLine(init, now, threshold);
      var lines := NotificationLines(vs, now, threshold);
      assert lines == NotificationLines(init, now, threshold)
        + if Notified(vs[n], now, threshold) then [vs[n].Short(now)] else [];
      forall i | 0 <= i < |vs| && Notified(vs[i], now, threshold) ensures vs[i].Short(now) in lines {
        if i < n {
          assert init[i] == vs[i];
          assert vs[i].Short(now) in NotificationLines(init, now, threshold);
        } else {
          assert lines[|lines| - 1] == vs[n].Short(now);
        }
      }
    }
  }

  /** A pushed notification names at least one late train, and its message
      is the late trips' lines followed by the "Retrieved at" line. */
  lemma NotificationCountsLateTrains(feed: Realtime, cfg: Config, fdt: int, ldt: int, now: int,
                                     threshold: int, report: Report, retrievedAt: string)
    requires Selection(feed, fdt, ldt, cfg).Ok?
    requires var vs := Selection(feed, fdt, ldt, cfg).value;
      var lines := NotificationLines(vs, now, threshold);
      report.subjectCount == |lines| &&
      report.notificationLines == TripLines(lines) + [RetrievedAt(retrievedAt)] &&
      (report.sendNotification ==> exists i :: 0 <= i < |vs| && Notified(vs[i], now, threshold))
    ensures report.subjectCount == |NotifiedIndices(Selection(feed, fdt, ldt, cfg).value, now, threshold)|
    ensures report.sendNotification ==> report.subjectCount >= 1
    ensures |report.notificationLines| == report.subjectCount + 1
  {
    LateIffNotificationLine(Selection(feed, fdt, ldt, cfg).value, now, threshold);
    NotificationLinesCountLateTrips(Selection(feed, fdt, ldt, cfg).value, now, threshold);
  }
}

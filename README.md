# Train lateness notifier: a Dafny model

This project models the realtime-trip analysis of `train_notify.py`. The
program reads a transit operator's realtime feed and builds one `Trip` for
every vehicle on the watched route. Each trip gets:

- a start time and start station from the trip's delay record;
- (time, delay) offset pairs from the same record;
- a vehicle position and an alert;
- an estimated arrival window at the boarding station, taken from a
  transit-time table.

The trips are then sorted into notification, short-summary and full-summary
lines. A push notification is sent when this is not a dry run and some trip
is current, arrives in the departure window and is running later than a
threshold.

Every time is a whole number of minutes. A Python `timedelta` must keep its
day count within ±999999999 days. The model keeps that limit: a sum outside
the range is an `OverflowError`, just as in the source.

The model is split by concern:

- `results.dfy` (`Results`): the exceptions the analysis raises
  (`ValueError`, `TypeError`, `OverflowError`) and `Option`/`Result`. It also
  has `MapResult`, an eager map that stops at the first failure.
- `text.dfy` (`Text`): the Python string operations the analysis relies on.
  These are `str.split`, `rsplit(sep, n)[0]`, `str(int)` and `int(str)`.
- `durations.dfy` (`Durations`): the timedelta range and
  `hhmm_string_to_timedelta`.
- `trips.dfy` (`Trips`): the `Trip` class and `TripView`, a value holding a
  trip's fields. `TripView` carries the trip predicates: current, in the
  window, the delay at boarding, the delay description, running late, and
  the two summaries.
- `feed.dfy` (`Feed`): the feed records and `extract_trip`.
  - `ExtractTrip` fills a new `Trip` in step by step.
  - `ExtractedTrip` is the value it must produce.
- `report.dfy` (`Report`): the two loops of `main`.
  - `SelectTrips` builds one trip per vehicle on the route, with the
    extraction loop in `ExtractEach`.
  - `ClassifyTrips` sorts the trips into lines and sets the "running late"
    flag.
  - `Analyze` puts the two together and decides whether a notification is
    pushed.

Each method is proved against a specification function:

- `ExtractTrip` against `ExtractedTrip`;
- `SelectTrips` against `Selection`;
- `ClassifyTrips` against `NotificationLines`, `ShortLines` and `FullLines`.

The lemmas then state what the source promises about those functions.

A trip with no delay record keeps the start time `timedelta.max`. The
comment at train_notify.py:28-30 says the default transit pair avoids
overflow. But `timedelta.max + (timedelta.max - 1 day)` does overflow, and
so does `timedelta.max` plus any positive transit time. So extracting such a
trip raises `OverflowError` when the transit table does not list a station
named "unknown", and also when it lists it with a positive transit time.
`main` does not catch the exception around `extract_trip`
(train_notify.py:181), so one such trip ends the whole run. The model
follows the code here (`Feed.NoDelayRecordOverflows`). With a start time
inside the first day, the default pair never overflows
(`Trips.UnknownStationArrival`).

## Model

| member | source | states |
|---|---|---|
| Results.MapResult | train_notify.py:145-147 | A list comprehension or `map(int, ...)` converts every element, or fails with the exception of the first element that fails, with every earlier element converted |
| Results.MapResultFirstFailure | train_notify.py:179-181 | When element k is the first to fail, the whole conversion fails with element k's exception |
| Results.MapResultAllOk | train_notify.py:179-181 | When every element converts, the outcome is exactly the list of their values, in order |
| Results.MapResultSnoc | train_notify.py:179-181 | Converting one more element, when everything so far converted, appends exactly that element's value to the list |
| Text.JoinSplit | train_notify.py:111 | Joining the pieces of `s.split(c)` with `c` gives `s` back |
| Text.SplitJoin | train_notify.py:141 | Splitting joined fields that do not contain the separator gives the same fields back |
| Text.RSplitHeadFields | train_notify.py:151 | `s.rsplit(c, n)[0]` is the full split without its last min(n, fields - 1) fields, joined again |
| Text.Split | train_notify.py:111 | `s.split(c)`: the pieces between the occurrences of `c`, at least one |
| Text.RSplitHead | train_notify.py:151 | `s.rsplit(c, n)[0]`: the text before the n-th occurrence of `c` from the right, or all of it |
| Text.ShowInt | train_notify.py:63-66 | `str(i)`: an optional minus sign followed by the decimal digits of the magnitude |
| Text.ParseInt | train_notify.py:132 | `int()` only ever fails with ValueError |
| Text.ParseShowInt | train_notify.py:132 | `int(str(i)) == i` for every integer |
| Durations.ParseHhmm | train_notify.py:109-111 | `hhmm_string_to_timedelta`: converts every ':'-separated field with `int`, then passes them reversed as minutes, hours and weeks |
| Durations.HhmmDenotesMinutes | train_notify.py:109-111 | "h:m" parses to h * 60 + m minutes, because the reversed fields are the minutes and hours arguments |
| Durations.TwoFields | train_notify.py:109-111 | Any two texts that `int` accepts, joined by ':', parse to the first value in hours plus the second in minutes |
| Durations.MinutesOnly | train_notify.py:109-111 | A single field is a number of minutes |
| Durations.TooManyFieldsRejected | train_notify.py:111 | Text with more than three ':' fields never parses (ValueError or TypeError) |
| Durations.ParsedInRange | train_notify.py:111 | Every parsed duration lies within the timedelta range |
| Trips.TripView.IsCurrent | train_notify.py:37-39 | A trip is current while now is strictly before its latest estimated arrival |
| Trips.TripView.ArrivesInDepartureWindow | train_notify.py:41-49 | The trip's earliest or latest estimated arrival lies strictly inside the departure window |
| Trips.InWindow | train_notify.py:41-49 | Either estimate lies strictly between the first and last departure times |
| Trips.TripView.IsRunningLate | train_notify.py:70-72 | The delay at boarding is strictly greater than the threshold |
| Trips.DelayAtBoarding | train_notify.py:51-59 | Skips the offset pairs whose time is before the earliest arrival and takes the delay of the next one, or 0 |
| Trips.Describe | train_notify.py:61-68 | "<d>m late", "<-d>m early" or "on-time" from the sign of the delay |
| Trips.EstimatedArrival | train_notify.py:26-35 | Start plus the station's minimum and maximum transit times, with the default pair for an unlisted station; either sum may overflow |
| Trips.TripView.Short | train_notify.py:74-87 | A short summary is non-blank exactly when the trip is current and in the window. It carries the delay description, and an alert part exactly when the alert is non-empty |
| Trips.TripView.Full | train_notify.py:89-106 | The "[Out Of Schedule]" mark appears exactly when the trip is not in the window. The "[In the past]" mark appears exactly when it is not current. The line carries the trip id, delay description and alert |
| Trips.DelayAtBoardingFirstReached | train_notify.py:51-59 | When pair k is the first, in list order, whose time is not before the earliest arrival, the delay at boarding is pair k's delay |
| Trips.DelayAtBoardingNoneReached | train_notify.py:51-59 | When every pair lies before the earliest arrival, the delay at boarding is 0 |
| Trips.DescribeThreeWay | train_notify.py:61-68 | The description is "<d>m late" for d > 0, "<abs d>m early" for d < 0, and "on-time" exactly when d = 0 |
| Trips.DescribeInjective | train_notify.py:61-68 | Different delays get different descriptions |
| Trips.EmptyWindowHoldsNothing | train_notify.py:41-49 | When the first departure time is not before the last, no trip arrives in the window |
| Trips.ThresholdIsNotLate | train_notify.py:70-72 | A delay equal to the threshold is not running late |
| Trips.ArrivalFromTable | train_notify.py:26-35 | For a listed station, the window runs from start + minimum transit to start + maximum transit |
| Trips.UnknownStationArrival | train_notify.py:26-35 | For an unlisted station, the default pair (min, max - 1 day) is used. The sums are representable exactly when the start is between 0 and 24:00 |
| Trips.NoStartTimeOverflows | train_notify.py:14-35 | A start of `timedelta.max` at an unlisted station overflows |
| Trips.UnknownStationOutOfSchedule | train_notify.py:28-33 | A trip from an unlisted station is never in a window that lies a day inside the timedelta range, and is always current |
| Trips.Trip.constructor | train_notify.py:14-24 | A new trip has the given id and window, and all other fields at their "unknown" defaults |
| Trips.Trip.SetDelayData | train_notify.py:127-148 | Stores the start time text and duration, the stop id, the station name and the offset pairs, and leaves every other field as it was |
| Trips.Trip.PopulateEstimatedArrivalTimes | train_notify.py:26-35 | Writes the estimated window computed from the start time and station, or reports the overflow |
| Feed.FirstIndex | train_notify.py:121-125 | `filter(...)[0]` selects the first matching record, and nothing when no record matches |
| Feed.Evens | train_notify.py:146 | `islice(xs, 0, None, 2)` holds the fields at even positions, in order |
| Feed.Odds | train_notify.py:147 | `islice(xs, 1, None, 2)` holds the fields at odd positions, in order |
| Feed.Zip | train_notify.py:144-148 | `zip` pairs the i-th elements, up to the shorter length |
| Feed.ParseOffsets | train_notify.py:140-148 | Splits the offsets on ',', converts the even fields as times and then the odd fields as integers, and zips them; no key gives no pairs |
| Feed.VehiclePosition | train_notify.py:151 | `lp.rsplit(":", 2)[0]` |
| Feed.AlertText | train_notify.py:153-156 | The alert's body when present, otherwise its title |
| Feed.ExtractedTrip | train_notify.py:119-159 | The trip `extract_trip` returns, as a value: delay record, then vehicle and alert, then the estimated window, or the first exception raised |
| Feed.NewTimedTrip | train_notify.py:119-148 | Builds a fresh Trip with the trip's first delay record applied, or fails with the exception of the first conversion that fails |
| Feed.ExtractTrip | train_notify.py:119-159 | Builds a fresh Trip whose fields are the extracted trip's, or fails with the exception the extraction raises |
| Feed.ApplyDelayRecord | train_notify.py:127-148 | Writes the start time, station and offsets from the delay record. The first conversion that fails ends the step with its exception |
| Feed.ApplyVehicleAndAlert | train_notify.py:150-156 | Writes the vehicle position and the alert from the first matching records, and leaves the window alone |
| Feed.MissingOffsetsAreEmpty | train_notify.py:140-143 | A missing "offsets" key gives no pairs |
| Feed.OffsetPairs | train_notify.py:140-148 | There are floor(n/2) pairs; pair i holds the time of field 2i and the delay of field 2i+1, so an unpaired trailing time is dropped |
| Feed.OffsetsParseIff | train_notify.py:144-148 | The offsets parse exactly when every even field is a time and every odd field an integer, including an unpaired trailing time |
| Feed.EvenFieldsParse | train_notify.py:145-146 | Converting the fields at even positions succeeds exactly when every field at an even position converts |
| Feed.OddFieldsParse | train_notify.py:147 | Converting the fields at odd positions succeeds exactly when every field at an odd position converts |
| Feed.EmptyOffsetsRejected | train_notify.py:140-147 | An empty offsets string raises ValueError |
| Feed.VehiclePositionDropsTwoFields | train_notify.py:151 | The vehicle position drops the last two ':'-separated fields of `lp` |
| Feed.NoDelayRecordOverflows | train_notify.py:119-158 | A trip without a delay record makes the extraction raise OverflowError when the table does not list "unknown", and when it lists it with a positive maximum transit time |
| Feed.ExtractedAlert | train_notify.py:152-156 | The alert is the first matching alert's body, or its title without one; it stays unset exactly when no alert matches |
| Feed.ExtractedWindow | train_notify.py:158 | The extracted trip keeps its id and departure window, and its estimated window is the start plus the station's transit times |
| Feed.TimedKeepsIdentity | train_notify.py:120-148 | Applying the delay record keeps the trip id and departure window the constructor set, and the alert stays unset |
| Feed.AlertOfFirst | train_notify.py:125 | The alert looked up is the first alert record with the trip's id, and there is none exactly when no record has that id |
| Report.RouteTripIds | train_notify.py:179-180 | One id per vehicle on the route, duplicates kept, in feed order: the k-th id is the trip id of the k-th vehicle on the route |
| Report.RouteIndices | train_notify.py:179-180 | The positions of the vehicles on the route: every such position, each once, in increasing feed order |
| Report.RouteTripIdsMembers | train_notify.py:179-180 | An id is selected exactly when some vehicle on the route has it |
| Report.Selection | train_notify.py:178-181 | The trips `main` builds, as values, one per vehicle on the route, or the exception of the first extraction that fails |
| Report.SelectNext | train_notify.py:178-181 | When the trips of the first i ids were extracted, extracting id i either extends them by that trip or ends the selection with its exception |
| Report.ExtractEach | train_notify.py:181 | Builds one Trip per id, in order, whose fields are the extracted trip's; otherwise it fails with the exception of the first extraction that fails |
| Report.SelectTrips | train_notify.py:178-181 | Builds one Trip per vehicle on the route, in order, whose fields are the extracted trip's; otherwise it fails with the exception of the first extraction that fails |
| Report.ClassifyTrips | train_notify.py:183-195 | The notification, short and full lines are the specification's lists, and the late flag is set exactly when a notification line was added |
| Report.Analyze | train_notify.py:178-213 | The subject count is the number of current, in-window trips running late, taken before the "Retrieved at" line is added. The message is those trips' lines plus that line. A notification is pushed exactly when this is not a dry run and some trip is late |
| Report.ShortLines | train_notify.py:187-195 | The short-summary lines `main` collects: one per current, in-window trip, in trip order |
| Report.NotificationLines | train_notify.py:187-191 | The notification lines `main` collects: one per current, in-window trip running late, in trip order |
| Report.FullLines | train_notify.py:187-195 | The full-summary lines: one per trip, in trip order |
| Report.OneFullLinePerTrip | train_notify.py:187-195 | Every trip contributes exactly one full-summary line, in order, marked as the trip's state requires |
| Report.ShortLinesFromSelectedTrips | train_notify.py:187-195 | Short-summary lines come only from current, in-window trips, and none is blank |
| Report.NotificationsAreLateShortLines | train_notify.py:187-195 | Every notification line is a short-summary line of a late trip; there are no more of them than short-summary lines |
| Report.ShortLinesCountSelectedTrips | train_notify.py:187-195 | There are exactly as many short-summary lines as current, in-window trips |
| Report.EverySelectedTripHasShortLine | train_notify.py:187-195 | Every current, in-window trip contributes its short-summary line |
| Report.NotificationLinesCountLateTrips | train_notify.py:187-191 | There are exactly as many notification lines as current, in-window trips running late |
| Report.EveryLateTripHasNotificationLine | train_notify.py:187-191 | Every current, in-window trip running late contributes its line to the notification |
| Report.LateIffNotificationLine | train_notify.py:186-191 | Some trip is late exactly when at least one notification line was added |
| Report.NotificationCountsLateTrains | train_notify.py:197-200 | The subject counts the late trains; a pushed notification counts at least one, and the message has one line more than the count |

## Left out

- Network and file I/O in `main` are not modelled: `requests.get`, writing the raw feed to disk, logging, `argparse`, and the mail message that is only logged. The feed arrives as a parameter.
- The clock: `now_as_timedelta` reads the wall clock on every `is_current` call. The model takes a single `now` for the whole run, so it does not capture the clock moving between calls.
- The feed timestamp rendering (`fromtimestamp(...).ctime()`) is a string parameter of `Report.Analyze`.
- Summary texts are modelled as structured values, showing which parts appear. The exact string formatting and `str(timedelta)` are not modelled.
- Durations are whole minutes. The seconds and microseconds of `timedelta.max`, and the wall-clock hour/minute conversion, are not modelled.
- Text.ParseInt: accepts an optional sign and ASCII digits only. Surrounding whitespace, Unicode digits and the other spellings Python's `int` accepts are not modelled.
- Missing mandatory JSON keys (a KeyError) are not modelled, nor JSON values of other types. This covers `tripId`, `route`, `start`, `stopId`, `lp` and `title`, and a numeric `stopId` or a null value. `offsets` and `body` are optional and are modelled as `Option`.
- A failed extraction leaves a partly filled `Trip` that nobody can reach, because the exception propagates. The model returns the error and does not describe that object.
- The command-line defaults of the `__main__` block are not modelled: the departure window defaulting to now and now + 60 minutes, and the threshold arriving as a string. The threshold is an integer parameter.
- `locator.py`, `weather_notify.py` and `notifier.py` are not part of this model. They are process concurrency, XML and network glue, and push and light APIs. The push call is reduced to the `sendNotification` flag.
- Feed.ApplyDelayRecord: the source stores each delay-record field as soon as it is converted. The model stores the five fields together once every conversion has succeeded. A failed conversion abandons the trip, so the extracted trip is the same.
- Report.SelectTrips: states each selected trip's field values. It does not state that the Trip objects are distinct new objects; `Feed.ExtractTrip` states that each one is new.

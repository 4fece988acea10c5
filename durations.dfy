/** Python `timedelta` values as whole minutes, and the "hh:mm" parser
    (`hhmm_string_to_timedelta`). A timedelta must keep its day count within
    plus or minus 999999999; leaving that range raises OverflowError. */
module Durations {
  import opened Results
  import opened Text

  const MinutesPerHour: int := 60
  const MinutesPerDay: int := 1440
  const MinutesPerWeek: int := 10080
  const MaxDays: int := 999999999

  /** `timedelta.min`: minus 999999999 days. */
  const MinDuration: int := -MaxDays * MinutesPerDay
  /** `timedelta.max`: 999999999 days and 23:59 (its seconds are not modelled). */
  const MaxDuration: int := MaxDays * MinutesPerDay + MinutesPerDay - 1

  predicate InRange(m: int) { MinDuration <= m <= MaxDuration }

  /** Building a timedelta of `m` minutes: OverflowError once the day count
      leaves the representable range. */
  function FromMinutes(m: int): (r: Result<int>)
    ensures r.Ok? <==> InRange(m)
    ensures r.Ok? ==> r.value == m
    ensures r.Err? ==> r.error == OverflowError
  {
    if InRange(m) then Ok(m) else Err(OverflowError)
  }

  /** Sum of two timedeltas. */
  function Add(a: int, b: int): Result<int>
  {
    FromMinutes(a + b)
  }

  /** `hhmm_string_to_timedelta`: the ':'-separated fields are converted
      with `int` and passed, last field first, as the minutes, hours and
      weeks arguments of `timedelta`. A field that is not an integer raises
      ValueError (all fields are converted before `timedelta` is called);
      more than three fields exceed `timedelta`'s seven positional
      parameters and raise TypeError. */
  function ParseHhmm(s: string): Result<int>
  {
    var values :- MapResult(Split(s, ':'), ParseInt);
    TimedeltaFromFields(values)
  }

  /** `timedelta(0, 0, 0, 0, *reversed(values))`. */
  function TimedeltaFromFields(values: seq<int>): Result<int>
    requires |values| >= 1
  {
    var n := |values|;
    if n > 3 then Err(TypeError)
    else
      var minutes := values[n - 1];
      var hours := if n >= 2 then values[n - 2] else 0;
      var weeks := if n == 3 then values[0] else 0;
      FromMinutes(weeks * MinutesPerWeek + hours * MinutesPerHour + minutes)
  }

  /** "h:m" denotes h * 60 + m minutes: the reversed fields fill the minutes
      and hours arguments. */
  lemma HhmmDenotesMinutes(h: int, m: int)
    ensures ParseHhmm(ShowInt(h) + ":" + ShowInt(m)) == FromMinutes(h * 60 + m)
  {
    ParseShowInt(h);
    ParseShowInt(m);
    TwoFields(ShowInt(h), ShowInt(m), h, m);
  }

  lemma TwoFields(hs: string, ms: string, h: int, m: int)
    requires ParseInt(hs) == Ok(h) && ParseInt(ms) == Ok(m)
    ensures ParseHhmm(hs + ":" + ms) == FromMinutes(h * 60 + m)
  {
    ParsedHasNoSeparator(hs, ':');
    ParsedHasNoSeparator(ms, ':');
    assert Join([hs, ms], ':') == hs + ":" + ms by {
      assert [hs, ms][..1] == [hs];
    }
    SplitJoin([hs, ms], ':');
    MapResultAllOk([hs, ms], ParseInt, [h, m]);
    HoursAndMinutes(h, m);
  }

  /** Two values fill the hours and minutes arguments. */
  lemma HoursAndMinutes(h: int, m: int)
    ensures TimedeltaFromFields([h, m]) == FromMinutes(h * 60 + m)
  {
  }

  /** A lone field is a number of minutes. */
  lemma MinutesOnly(m: int)
    ensures ParseHhmm(ShowInt(m)) == FromMinutes(m)
  {
    var s := ShowInt(m);
    ParseShowInt(m);
    ParsedHasNoSeparator(s, ':');
    SplitJoin([s], ':');
    assert Split(s, ':') == [s];
    MapResultAllOk([s], ParseInt, [m]);
    assert TimedeltaFromFields([m]) == FromMinutes(m);
  }

  /** Text with more than three ':'-separated fields never parses. */
  lemma TooManyFieldsRejected(s: string)
    requires |Split(s, ':')| > 3
    ensures ParseHhmm(s).Err?
    ensures ParseHhmm(s).error == ValueError || ParseHhmm(s).error == TypeError
  {
  }

  /** Every parsed duration is a representable timedelta. */
  lemma ParsedInRange(s: string)
    requires ParseHhmm(s).Ok?
    ensures InRange(ParseHhmm(s).value)
  {
  }
}

/** Normalisation of the two providers' raw forecasts into daily records:
    National Weather Service periods (a day and a night period per date) and
    OpenWeatherMap 3-hour items. */
module Forecast {
  import opened Wrappers
  import opened Sequences
  import opened Strings

  // ---------------------------------------------------------------------------
  // Data model
  // ---------------------------------------------------------------------------

  /** One NWS forecast period. `shortForecast` may be missing; `precipitation`
      is the value of the `probabilityOfPrecipitation` mapping, `None` when
      the mapping is missing or its value is missing or null. A null mapping,
      on which the source raises, and a null `shortForecast` are not
      represented. */
  datatype NwsPeriod = NwsPeriod(
    startTime: string,
    isDaytime: bool,
    temperature: real,
    shortForecast: Option<string>,
    precipitation: Option<real>)

  /** One OpenWeatherMap item: `dt_txt`, `main.temp_min`, `main.temp_max`,
      the optional `pop` and `weather[0].main`. */
  datatype OwItem = OwItem(
    dtTxt: string,
    tempMin: real,
    tempMax: real,
    pop: Option<real>,
    weatherMain: string)

  /** `raw_data`: the provider records a day was built from. */
  datatype Raw = Periods(periods: seq<NwsPeriod>) | Items(items: seq<OwItem>)

  /** A normalised daily forecast. A temperature is `None` when the day had
      no period that sets it. */
  datatype DailyForecast = DailyForecast(
    date: string,
    temperatureMin: Option<real>,
    temperatureMax: Option<real>,
    precipitationProbability: real,
    conditions: string,
    raw: Raw)

  /** Python's `max(a, b)`. */
  function Max(a: real, b: real): real
  {
    if b > a then b else a
  }

  /** Python's `min(a, b)`. */
  function Min(a: real, b: real): real
  {
    if b < a then b else a
  }

  // ---------------------------------------------------------------------------
  // National Weather Service
  // ---------------------------------------------------------------------------

  /** The calendar date of an ISO timestamp with offset, in that offset: its
      `YYYY-MM-DD` prefix. */
  function PeriodDate(p: NwsPeriod): string
  {
    Take(p.startTime, 10)
  }

  /** A period's probability of precipitation, 0 when it is missing or null. */
  function PrecipitationOf(p: NwsPeriod): real
  {
    p.precipitation.GetOr(0.0)
  }

  /** The record a new date starts with. */
  function NewNwsDay(p: NwsPeriod): DailyForecast
  {
    DailyForecast(PeriodDate(p), None, None, 0.0, p.shortForecast.GetOr(""), Periods([]))
  }

  /** What one period does to its day's record. */
  function AbsorbPeriod(day: DailyForecast, p: NwsPeriod): DailyForecast
    requires day.raw.Periods?
  {
    day.(
      raw := Periods(day.raw.periods + [p]),
      temperatureMax := if p.isDaytime then Some(p.temperature) else day.temperatureMax,
      temperatureMin := if p.isDaytime then day.temperatureMin else Some(p.temperature),
      precipitationProbability := Max(day.precipitationProbability, PrecipitationOf(p)))
  }

  /** The maximal runs of consecutive periods that share a date. */
  function Runs(ps: seq<NwsPeriod>): (r: seq<seq<NwsPeriod>>)
    ensures |ps| > 0 ==> |r| > 0
    ensures forall i :: 0 <= i < |r| ==> |r[i]| > 0
  {
    if |ps| == 0 then []
    else
      var init := Runs(ps[..|ps| - 1]);
      var p := ps[|ps| - 1];
      if |ps| > 1 && PeriodDate(ps[|ps| - 2]) == PeriodDate(p) then
        init[..|init| - 1] + [init[|init| - 1] + [p]]
      else
        init + [[p]]
  }

  /** One more period either extends the last run (same date as the period
      before it) or starts a new one. */
  lemma RunsSnoc(ps: seq<NwsPeriod>, p: NwsPeriod)
    ensures var r := Runs(ps);
      Runs(ps + [p]) ==
        if |ps| > 0 && PeriodDate(ps[|ps| - 1]) == PeriodDate(p) then r[..|r| - 1] + [r[|r| - 1] + [p]]
        else r + [[p]]
  {
    assert (ps + [p])[..|ps|] == ps;
  }

  /** The daily record of one run. */
  function DayOf(run: seq<NwsPeriod>): (r: DailyForecast)
    requires |run| > 0
    ensures r.raw == Periods(run)
  {
    if |run| == 1 then
      assert run == [] + [run[0]];
      AbsorbPeriod(NewNwsDay(run[0]), run[0])
    else
      assert run[..|run| - 1] + [run[|run| - 1]] == run;
      AbsorbPeriod(DayOf(run[..|run| - 1]), run[|run| - 1])
  }

  lemma DayOfSnoc(run: seq<NwsPeriod>, p: NwsPeriod)
    requires |run| > 0
    ensures DayOf(run + [p]) == AbsorbPeriod(DayOf(run), p)
  {
    assert (run + [p])[..|run|] == run;
  }

  function Days(runs: seq<seq<NwsPeriod>>): (r: seq<DailyForecast>)
    requires forall i :: 0 <= i < |runs| ==> |runs[i]| > 0
    ensures |r| == |runs|
    ensures forall i :: 0 <= i < |runs| ==> r[i] == DayOf(runs[i])
  {
    if |runs| == 0 then [] else Days(runs[..|runs| - 1]) + [DayOf(runs[|runs| - 1])]
  }

  lemma DaysSnoc(runs: seq<seq<NwsPeriod>>, run: seq<NwsPeriod>)
    requires forall i :: 0 <= i < |runs| ==> |runs[i]| > 0
    requires |run| > 0
    ensures Days(runs + [run]) == Days(runs) + [DayOf(run)]
  {
    assert (runs + [run])[..|runs|] == runs;
  }

  /** `_normalize_nws_data` as a function of its inputs. */
  function NwsDays(periods: seq<NwsPeriod>, days: nat): seq<DailyForecast>
  {
    Take(Days(Runs(Take(periods, 2 * days))), days)
  }

  method NormalizeNwsData(periods: seq<NwsPeriod>, days: nat) returns (dailyForecasts: seq<DailyForecast>)
    ensures dailyForecasts == NwsDays(periods, days)
  {
    var window := Take(periods, 2 * days);
    var daily: seq<DailyForecast> := [];
    var currentDate: Option<string> := None;
    var dayData: Option<DailyForecast> := None;
    for i := 0 to |window|
      invariant i == 0 ==> dayData.None? && currentDate.None? && daily == []
      invariant i > 0 ==> dayData.Some? && currentDate == Some(PeriodDate(window[i - 1]))
      invariant i > 0 ==> daily + [dayData.value] == Days(Runs(window[..i]))
    {
      var period := window[i];
      var periodDate := PeriodDate(period);
      if currentDate != Some(periodDate) {
        NwsStepNewDate(window, i, daily, dayData);
        if dayData.Some? {
          daily := daily + [dayData.value];
        }
        currentDate := Some(periodDate);
        dayData := Some(NewNwsDay(period));
      } else {
        NwsStepSameDate(window, i, daily, dayData.value);
      }
      dayData := Some(AbsorbPeriod(dayData.value, period));
    }
    if dayData.Some? {
      daily := daily + [dayData.value];
    }
    assert window[..|window|] == window;
    dailyForecasts := Take(daily, days);
  }

  /** A period with a new date closes the open record and opens another. */
  lemma NwsStepNewDate(w: seq<NwsPeriod>, i: nat, daily: seq<DailyForecast>, dayData: Option<DailyForecast>)
    requires i < |w|
    requires i == 0 ==> dayData.None? && daily == []
    requires i > 0 ==> dayData.Some? && daily + [dayData.value] == Days(Runs(w[..i]))
    requires i > 0 ==> PeriodDate(w[i - 1]) != PeriodDate(w[i])
    ensures (if dayData.Some? then daily + [dayData.value] else daily) + [AbsorbPeriod(NewNwsDay(w[i]), w[i])]
      == Days(Runs(w[..i + 1]))
  {
    RunsNewDate(w, i);
    assert [w[i]] == [] + [w[i]];
    assert DayOf([w[i]]) == AbsorbPeriod(NewNwsDay(w[i]), w[i]);
  }

  lemma RunsNewDate(w: seq<NwsPeriod>, i: nat)
    requires i < |w|
    requires i > 0 ==> PeriodDate(w[i - 1]) != PeriodDate(w[i])
    ensures Days(Runs(w[..i + 1])) == Days(Runs(w[..i])) + [DayOf([w[i]])]
  {
    assert w[..i + 1] == w[..i] + [w[i]];
    RunsSnoc(w[..i], w[i]);
    DaysSnoc(Runs(w[..i]), [w[i]]);
  }

  /** A period with the open record's date is absorbed into it. */
  lemma NwsStepSameDate(w: seq<NwsPeriod>, i: nat, daily: seq<DailyForecast>, current: DailyForecast)
    requires 0 < i < |w|
    requires daily + [current] == Days(Runs(w[..i]))
    requires PeriodDate(w[i - 1]) == PeriodDate(w[i])
    ensures current.raw.Periods?
    ensures daily + [AbsorbPeriod(current, w[i])] == Days(Runs(w[..i + 1]))
  {
    var runs := Runs(w[..i]);
    var front := runs[..|runs| - 1];
    var last := runs[|runs| - 1];
    RunsSameDate(w, i);
    assert daily == (daily + [current])[..|daily|];
    assert current == (daily + [current])[|daily|];
  }

  lemma RunsSameDate(w: seq<NwsPeriod>, i: nat)
    requires 0 < i < |w|
    requires PeriodDate(w[i - 1]) == PeriodDate(w[i])
    ensures var runs := Runs(w[..i]);
      && |runs| > 0
      && Days(runs) == Days(runs[..|runs| - 1]) + [DayOf(runs[|runs| - 1])]
      && Days(Runs(w[..i + 1])) == Days(runs[..|runs| - 1]) + [AbsorbPeriod(DayOf(runs[|runs| - 1]), w[i])]
  {
    var runs := Runs(w[..i]);
    assert w[..i + 1] == w[..i] + [w[i]];
    RunsSnoc(w[..i], w[i]);
    assert runs == runs[..|runs| - 1] + [runs[|runs| - 1]];
    DaysExtendLast(runs[..|runs| - 1], runs[|runs| - 1], w[i]);
  }

  lemma DaysExtendLast(front: seq<seq<NwsPeriod>>, last: seq<NwsPeriod>, p: NwsPeriod)
    requires forall i :: 0 <= i < |front| ==> |front[i]| > 0
    requires |last| > 0
    ensures Days(front + [last]) == Days(front) + [DayOf(last)]
    ensures Days(front + [last + [p]]) == Days(front) + [AbsorbPeriod(DayOf(last), p)]
  {
    DaysSnoc(front, last);
    DaysSnoc(front, last + [p]);
    DayOfSnoc(last, p);
  }

  /** At most `days` records, and only the first `2 * days` periods matter. */
  lemma NwsBounds(periods: seq<NwsPeriod>, days: nat)
    ensures |NwsDays(periods, days)| <= days
    ensures NwsDays(periods, days) == NwsDays(Take(periods, 2 * days), days)
  {
    assert Take(Take(periods, 2 * days), 2 * days) == Take(periods, 2 * days);
  }

  lemma FlattenSnoc(xss: seq<seq<NwsPeriod>>, xs: seq<NwsPeriod>)
    ensures Flatten(xss + [xs]) == Flatten(xss) + xs
  {
    assert (xss + [xs])[..|xss|] == xss;
  }

  /** The runs, laid end to end, are the periods in order. */
  lemma {:induction false} RunsFlatten(ps: seq<NwsPeriod>)
    ensures Flatten(Runs(ps)) == ps
  {
    if |ps| > 0 {
      var init := ps[..|ps| - 1];
      var p := ps[|ps| - 1];
      assert ps == init + [p];
      RunsFlatten(init);
      RunsSnoc(init, p);
      var r := Runs(init);
      if |init| > 0 && PeriodDate(init[|init| - 1]) == PeriodDate(p) {
        var front := r[..|r| - 1];
        assert r == front + [r[|r| - 1]];
        FlattenExtendLast(front, r[|r| - 1], p);
      } else {
        FlattenSnoc(r, [p]);
      }
    }
  }

  lemma FlattenExtendLast(front: seq<seq<NwsPeriod>>, last: seq<NwsPeriod>, p: NwsPeriod)
    ensures Flatten(front + [last + [p]]) == Flatten(front + [last]) + [p]
  {
    FlattenSnoc(front, last);
    FlattenSnoc(front, last + [p]);
  }

  /** The last run ends with the last period. */
  lemma {:induction false} RunsLast(ps: seq<NwsPeriod>)
    requires |ps| > 0
    ensures Last(Last(Runs(ps))) == Last(ps)
  {
    var init := ps[..|ps| - 1];
    assert ps == init + [ps[|ps| - 1]];
    RunsSnoc(init, ps[|ps| - 1]);
  }

  /** All periods of a run have the run's date. */
  predicate OneDate(run: seq<NwsPeriod>)
    requires |run| > 0
  {
    forall j :: 0 <= j < |run| ==> PeriodDate(run[j]) == PeriodDate(run[0])
  }

  /** Consecutive runs differ in date where they meet. */
  predicate DateChanges(runs: seq<seq<NwsPeriod>>)
    requires forall i :: 0 <= i < |runs| ==> |runs[i]| > 0
  {
    forall i :: 0 <= i < |runs| - 1 ==> PeriodDate(Last(runs[i])) != PeriodDate(runs[i + 1][0])
  }

  /** Every period of a run has the run's date. */
  lemma {:induction false} RunsShareDate(ps: seq<NwsPeriod>)
    ensures forall i :: 0 <= i < |Runs(ps)| ==> OneDate(Runs(ps)[i])
  {
    if |ps| > 0 {
      var init := ps[..|ps| - 1];
      var p := ps[|ps| - 1];
      assert ps == init + [p];
      RunsShareDate(init);
      RunsSnoc(init, p);
      var r := Runs(init);
      if |init| > 0 && PeriodDate(Last(init)) == PeriodDate(p) {
        RunsLast(init);
        ExtendOneDate(Last(r), p);
        ReplaceLast(r, Last(r) + [p], Runs(ps));
      } else {
        assert OneDate([p]);
        AppendRun(r, [p], Runs(ps));
      }
    }
  }

  lemma ExtendOneDate(run: seq<NwsPeriod>, p: NwsPeriod)
    requires |run| > 0 && OneDate(run) && PeriodDate(Last(run)) == PeriodDate(p)
    ensures OneDate(run + [p])
  {
  }

  lemma ReplaceLast(r: seq<seq<NwsPeriod>>, run: seq<NwsPeriod>, rs: seq<seq<NwsPeriod>>)
    requires |r| > 0 && |run| > 0 && rs == r[..|r| - 1] + [run]
    requires forall i :: 0 <= i < |r| ==> |r[i]| > 0 && OneDate(r[i])
    requires OneDate(run)
    ensures forall i :: 0 <= i < |rs| ==> |rs[i]| > 0 && OneDate(rs[i])
  {
  }

  lemma AppendRun(r: seq<seq<NwsPeriod>>, run: seq<NwsPeriod>, rs: seq<seq<NwsPeriod>>)
    requires |run| > 0 && rs == r + [run]
    requires forall i :: 0 <= i < |r| ==> |r[i]| > 0 && OneDate(r[i])
    requires OneDate(run)
    ensures forall i :: 0 <= i < |rs| ==> |rs[i]| > 0 && OneDate(rs[i])
  {
  }

  /** A new run starts exactly where the date changes. */
  lemma {:induction false} RunsBoundaries(ps: seq<NwsPeriod>)
    ensures DateChanges(Runs(ps))
  {
    if |ps| > 0 {
      var init := ps[..|ps| - 1];
      var p := ps[|ps| - 1];
      assert ps == init + [p];
      RunsBoundaries(init);
      RunsSnoc(init, p);
      var r := Runs(init);
      if |init| > 0 {
        RunsLast(init);
        if PeriodDate(Last(init)) == PeriodDate(p) {
          ExtendLastChanges(r, p);
        } else {
          NewRunChanges(r, p);
        }
      }
    }
  }

  lemma ExtendLastChanges(r: seq<seq<NwsPeriod>>, p: NwsPeriod)
    requires |r| > 0 && forall i :: 0 <= i < |r| ==> |r[i]| > 0
    requires DateChanges(r)
    ensures DateChanges(r[..|r| - 1] + [Last(r) + [p]])
  {
    var rs := r[..|r| - 1] + [Last(r) + [p]];
    forall i | 0 <= i < |rs| - 1 ensures PeriodDate(Last(rs[i])) != PeriodDate(rs[i + 1][0]) {
      assert rs[i] == r[i];
      assert rs[i + 1][0] == r[i + 1][0];
    }
  }

  lemma NewRunChanges(r: seq<seq<NwsPeriod>>, p: NwsPeriod)
    requires |r| > 0 && forall i :: 0 <= i < |r| ==> |r[i]| > 0
    requires DateChanges(r)
    requires PeriodDate(Last(Last(r))) != PeriodDate(p)
    ensures DateChanges(r + [[p]])
  {
  }

  /** The record of a run: its date and `conditions` come from the first
      period; the periods are kept in order. */
  lemma {:induction false} DayOfHeader(run: seq<NwsPeriod>)
    requires |run| > 0
    ensures DayOf(run).date == PeriodDate(run[0])
    ensures DayOf(run).conditions == run[0].shortForecast.GetOr("")
  {
    if |run| > 1 {
      DayOfHeader(run[..|run| - 1]);
    }
  }

  /** The temperature of the last period of `run` that is a daytime period
      (`daytime`) or a night period (not `daytime`). */
  function LastTemperature(run: seq<NwsPeriod>, daytime: bool): Option<real>
  {
    if |run| == 0 then None
    else if run[|run| - 1].isDaytime == daytime then Some(run[|run| - 1].temperature)
    else LastTemperature(run[..|run| - 1], daytime)
  }

  /** The later period wins: `temperature_max` is the temperature of the last
      daytime period and `temperature_min` that of the last night period. */
  lemma {:induction false} DayOfTemperatures(run: seq<NwsPeriod>)
    requires |run| > 0
    ensures DayOf(run).temperatureMax == LastTemperature(run, true)
    ensures DayOf(run).temperatureMin == LastTemperature(run, false)
  {
    var n := |run| - 1;
    if n > 0 {
      DayOfTemperatures(run[..n]);
    } else {
      assert run[..n] == [];
    }
  }

  /** There is a last period of a kind exactly when there is a period of
      that kind. */
  lemma {:induction false} LastTemperatureNone(run: seq<NwsPeriod>, daytime: bool)
    ensures LastTemperature(run, daytime).None? <==> forall j :: 0 <= j < |run| ==> run[j].isDaytime != daytime
  {
    var n := |run| - 1;
    if n >= 0 {
      var init := run[..n];
      LastTemperatureNone(init, daytime);
      assert forall j :: 0 <= j < n ==> init[j] == run[j];
    }
  }

  /** The last period of a kind is of that kind, with no other of that kind
      after it. */
  lemma {:induction false} LastTemperatureIsLast(run: seq<NwsPeriod>, daytime: bool)
    requires LastTemperature(run, daytime).Some?
    ensures exists j :: (0 <= j < |run| && run[j].isDaytime == daytime && run[j].temperature == LastTemperature(run, daytime).value &&
      forall k :: j < k < |run| ==> run[k].isDaytime != daytime)
  {
    var n := |run| - 1;
    var init := run[..n];
    if run[n].isDaytime != daytime {
      LastTemperatureIsLast(init, daytime);
      var j :| 0 <= j < n && init[j].isDaytime == daytime && init[j].temperature == LastTemperature(init, daytime).value &&
        forall k :: j < k < n ==> init[k].isDaytime != daytime;
      assert run[j] == init[j];
      assert forall k :: j < k < n ==> run[k] == init[k];
    } else {
      assert run[n].temperature == LastTemperature(run, daytime).value;
    }
  }

  /** `precipitation_probability` is the largest of 0 and the periods'
      probabilities, a missing or null one counting as 0. */
  lemma {:induction false} DayOfPrecipitation(run: seq<NwsPeriod>)
    requires |run| > 0
    ensures DayOf(run).precipitationProbability >= 0.0
    ensures forall j :: 0 <= j < |run| ==> DayOf(run).precipitationProbability >= PrecipitationOf(run[j])
    ensures DayOf(run).precipitationProbability == 0.0 ||
      exists j :: 0 <= j < |run| && DayOf(run).precipitationProbability == PrecipitationOf(run[j])
  {
    if |run| > 1 {
      var init := run[..|run| - 1];
      DayOfPrecipitation(init);
      assert forall j :: 0 <= j < |init| ==> init[j] == run[j];
    }
  }

  // ---------------------------------------------------------------------------
  // OpenWeatherMap
  // ---------------------------------------------------------------------------

  /** An item's date: the text of its timestamp before the first space. */
  function ItemDate(it: OwItem): string
  {
    FirstWord(it.dtTxt)
  }

  /** A day being aggregated: the minimum and maximum start as `None`
      (standing for `inf` and `-inf`), the labels as a list. */
  datatype OwDay = OwDay(
    date: string,
    temperatureMin: Option<real>,
    temperatureMax: Option<real>,
    precipitationProbability: real,
    conditions: seq<string>,
    items: seq<OwItem>)

  function NewOwDay(date: string): OwDay
  {
    OwDay(date, None, None, 0.0, [], [])
  }

  /** `min(current, x)` with `None` as `inf`. */
  function MinFrom(current: Option<real>, x: real): real
  {
    if current.None? then x else Min(current.value, x)
  }

  /** `max(current, x)` with `None` as `-inf`. */
  function MaxFrom(current: Option<real>, x: real): real
  {
    if current.None? then x else Max(current.value, x)
  }

  /** What one item does to its day. */
  function AbsorbItem(day: OwDay, it: OwItem): OwDay
  {
    day.(
      items := day.items + [it],
      temperatureMin := Some(MinFrom(day.temperatureMin, it.tempMin)),
      temperatureMax := Some(MaxFrom(day.temperatureMax, it.tempMax)),
      precipitationProbability :=
        if it.pop.Some? then Max(day.precipitationProbability, it.pop.value * 100.0)
        else day.precipitationProbability,
      conditions := if it.weatherMain in day.conditions then day.conditions else day.conditions + [it.weatherMain])
  }

  /** The dates of the items, in item order (with repetitions). */
  function Dates(items: seq<OwItem>): (r: seq<string>)
    ensures |r| == |items|
  {
    if |items| == 0 then [] else Dates(items[..|items| - 1]) + [ItemDate(items[|items| - 1])]
  }

  /** `daily_data` after the loop over `items`. */
  function DailyData(items: seq<OwItem>): map<string, OwDay>
  {
    if |items| == 0 then map[]
    else
      var init := items[..|items| - 1];
      var m := DailyData(init);
      var it := items[|items| - 1];
      var d := ItemDate(it);
      var day := if d in m then m[d] else NewOwDay(d);
      m[d := AbsorbItem(day, it)]
  }

  /** The keys of `daily_data` are the dates of the items. */
  lemma {:induction false} DailyDataKeys(items: seq<OwItem>)
    ensures forall d :: d in DailyData(items) <==> d in Dates(items)
  {
    if |items| > 0 {
      DailyDataKeys(items[..|items| - 1]);
    }
  }

  /** The keys of `daily_data` in insertion order. */
  function DateOrder(items: seq<OwItem>): seq<string>
  {
    Dedup(Dates(items))
  }

  /** The items of one date, in order. */
  function ItemsOn(items: seq<OwItem>, d: string): seq<OwItem>
  {
    if |items| == 0 then []
    else
      var init := ItemsOn(items[..|items| - 1], d);
      if ItemDate(items[|items| - 1]) == d then init + [items[|items| - 1]] else init
  }

  /** Absorb the items one after another. */
  function AbsorbAll(day: OwDay, items: seq<OwItem>): OwDay
  {
    if |items| == 0 then day else AbsorbItem(AbsorbAll(day, items[..|items| - 1]), items[|items| - 1])
  }

  /** The labels `weather[0].main` of the items, in order. */
  function Labels(items: seq<OwItem>): (r: seq<string>)
    ensures |r| == |items|
  {
    if |items| == 0 then [] else Labels(items[..|items| - 1]) + [items[|items| - 1].weatherMain]
  }

  /** The record as it is emitted: the labels joined with a comma and a
      space, the rest as aggregated. */
  function Finish(day: OwDay): DailyForecast
  {
    DailyForecast(day.date, day.temperatureMin, day.temperatureMax, day.precipitationProbability,
      Join(day.conditions, ", "), Items(day.items))
  }

  function Emit(keys: seq<string>, daily: map<string, OwDay>): (r: seq<DailyForecast>)
    requires forall k :: k in keys ==> k in daily
    ensures |r| == |keys|
    ensures forall i :: 0 <= i < |keys| ==> r[i] == Finish(daily[keys[i]])
  {
    if |keys| == 0 then [] else Emit(keys[..|keys| - 1], daily) + [Finish(daily[keys[|keys| - 1]])]
  }

  lemma EmitSnoc(keys: seq<string>, j: nat, daily: map<string, OwDay>)
    requires j < |keys| && forall k :: k in keys ==> k in daily
    ensures Emit(keys[..j + 1], daily) == Emit(keys[..j], daily) + [Finish(daily[keys[j]])]
  {
    assert keys[..j + 1][..j] == keys[..j];
  }

  /** The first `days` dates in ascending string order. */
  function EmittedDates(items: seq<OwItem>, days: nat): (r: seq<string>)
    ensures forall k :: k in r ==> k in DailyData(items)
  {
    var r := Take(Sorted(DateOrder(items)), days);
    DailyDataKeys(items);
    SortedDistinct(DateOrder(items));
    assert forall k :: k in r ==> k in Sorted(DateOrder(items));
    r
  }

  /** `_normalize_openweather_data` as a function of its inputs. */
  function OpenWeatherDays(items: seq<OwItem>, days: nat): seq<DailyForecast>
  {
    Emit(EmittedDates(items, days), DailyData(items))
  }

  method NormalizeOpenWeatherData(forecastList: seq<OwItem>, days: nat) returns (forecasts: seq<DailyForecast>)
    ensures forecasts == OpenWeatherDays(forecastList, days)
  {
    var dailyData, keyOrder := GroupByDate(forecastList);
    var keys := Take(Sorted(keyOrder), days);
    assert keys == EmittedDates(forecastList, days);
    assert forall k :: k in keys ==> k in dailyData;
    forecasts := [];
    for j := 0 to |keys|
      invariant forecasts == Emit(keys[..j], dailyData)
    {
      EmitSnoc(keys, j, dailyData);
      var data := dailyData[keys[j]];
      forecasts := forecasts + [Finish(data)];
    }
    assert keys[..|keys|] == keys;
  }

  /** The first loop of `_normalize_openweather_data`: `daily_data` and the
      order in which its keys were inserted. */
  method GroupByDate(forecastList: seq<OwItem>) returns (dailyData: map<string, OwDay>, keyOrder: seq<string>)
    ensures dailyData == DailyData(forecastList)
    ensures keyOrder == DateOrder(forecastList)
  {
    dailyData := map[];
    keyOrder := [];
    for i := 0 to |forecastList|
      invariant dailyData == DailyData(forecastList[..i])
      invariant keyOrder == DateOrder(forecastList[..i])
    {
      var item := forecastList[i];
      var dateStr := FirstWord(item.dtTxt);
      DailyDataStep(forecastList, i);
      if dateStr !in dailyData {
        dailyData := dailyData[dateStr := NewOwDay(dateStr)];
        keyOrder := keyOrder + [dateStr];
      }
      var data := AddItem(dailyData[dateStr], item);
      dailyData := dailyData[dateStr := data];
    }
    assert forecastList[..|forecastList|] == forecastList;
  }

  /** The loop body's updates of one day's entry, as the source makes them. */
  method AddItem(day: OwDay, item: OwItem) returns (data: OwDay)
    ensures data == AbsorbItem(day, item)
  {
    data := day.(items := day.items + [item]);
    data := data.(temperatureMin := Some(MinFrom(data.temperatureMin, item.tempMin)));
    data := data.(temperatureMax := Some(MaxFrom(data.temperatureMax, item.tempMax)));
    if item.pop.Some? {
      data := data.(precipitationProbability := Max(data.precipitationProbability, item.pop.value * 100.0));
    }
    if item.weatherMain !in data.conditions {
      data := data.(conditions := data.conditions + [item.weatherMain]);
    }
  }

  /** One more item: its date's entry absorbs it (created first if new), and
      a new date joins the key order at the end. */
  lemma DailyDataStep(items: seq<OwItem>, i: nat)
    requires i < |items|
    ensures var m := DailyData(items[..i]);
      var d := ItemDate(items[i]);
      && DailyData(items[..i + 1]) == m[d := AbsorbItem(if d in m then m[d] else NewOwDay(d), items[i])]
      && DateOrder(items[..i + 1]) == if d in m then DateOrder(items[..i]) else DateOrder(items[..i]) + [d]
  {
    assert items[..i + 1][..i] == items[..i];
    DailyDataKeys(items[..i]);
  }

  /** A date's entry of `daily_data` is its items absorbed in order. */
  lemma {:induction false} DailyDataIsAbsorbed(items: seq<OwItem>, d: string)
    requires d in DailyData(items)
    ensures DailyData(items)[d] == AbsorbAll(NewOwDay(d), ItemsOn(items, d))
    ensures |ItemsOn(items, d)| > 0
  {
    var init := items[..|items| - 1];
    var it := items[|items| - 1];
    if ItemDate(it) == d {
      if d in DailyData(init) {
        DailyDataIsAbsorbed(init, d);
      } else {
        ItemsOnAbsent(init, d);
      }
      assert (ItemsOn(init, d) + [it])[..|ItemsOn(init, d)|] == ItemsOn(init, d);
    } else {
      DailyDataIsAbsorbed(init, d);
    }
  }

  lemma {:induction false} ItemsOnAbsent(items: seq<OwItem>, d: string)
    requires d !in DailyData(items)
    ensures ItemsOn(items, d) == []
  {
    if |items| > 0 {
      var init := items[..|items| - 1];
      DailyDataKeys(items);
      DailyDataKeys(init);
      ItemsOnAbsent(init, d);
    }
  }

  /** The items of a day's record are its items in order, under its date. */
  lemma {:induction false} AbsorbAllItems(d: string, g: seq<OwItem>)
    ensures AbsorbAll(NewOwDay(d), g).date == d
    ensures AbsorbAll(NewOwDay(d), g).items == g
  {
    if |g| > 0 {
      var init := g[..|g| - 1];
      AbsorbAllItems(d, init);
      var before := AbsorbAll(NewOwDay(d), init);
      assert AbsorbAll(NewOwDay(d), g) == AbsorbItem(before, g[|g| - 1]);
      assert AbsorbItem(before, g[|g| - 1]).items == init + [g[|g| - 1]];
      assert g == init + [g[|g| - 1]];
    }
  }

  /** The labels of a day's record are the distinct `weather[0].main` values
      of its items in first-seen order. */
  lemma {:induction false} AbsorbAllConditions(d: string, g: seq<OwItem>)
    ensures AbsorbAll(NewOwDay(d), g).conditions == Dedup(Labels(g))
  {
    if |g| > 0 {
      var init := g[..|g| - 1];
      var main := g[|g| - 1].weatherMain;
      AbsorbAllConditions(d, init);
      var c := AbsorbAll(NewOwDay(d), init).conditions;
      assert AbsorbAll(NewOwDay(d), g).conditions == if main in c then c else c + [main];
      var labels := Labels(g);
      assert labels[..|init|] == Labels(init);
      assert labels[|init|] == main;
    }
  }

  /** `temperature_min` is the least `temp_min` of the day's items. */
  lemma {:induction false} AbsorbAllMin(d: string, g: seq<OwItem>)
    requires |g| > 0
    ensures var day := AbsorbAll(NewOwDay(d), g);
      && day.temperatureMin.Some?
      && (forall j :: 0 <= j < |g| ==> day.temperatureMin.value <= g[j].tempMin)
      && (exists j :: 0 <= j < |g| && day.temperatureMin.value == g[j].tempMin)
  {
    var init := g[..|g| - 1];
    if |init| > 0 {
      AbsorbAllMin(d, init);
      assert forall j :: 0 <= j < |init| ==> init[j] == g[j];
    }
  }

  /** `temperature_max` is the greatest `temp_max` of the day's items. */
  lemma {:induction false} AbsorbAllMax(d: string, g: seq<OwItem>)
    requires |g| > 0
    ensures var day := AbsorbAll(NewOwDay(d), g);
      && day.temperatureMax.Some?
      && (forall j :: 0 <= j < |g| ==> day.temperatureMax.value >= g[j].tempMax)
      && (exists j :: 0 <= j < |g| && day.temperatureMax.value == g[j].tempMax)
  {
    var init := g[..|g| - 1];
    if |init| > 0 {
      AbsorbAllMax(d, init);
      assert forall j :: 0 <= j < |init| ==> init[j] == g[j];
    }
  }

  /** `precipitation_probability` is the largest of 0 and the `pop * 100`
      values of the items that have a `pop`. */
  lemma {:induction false} AbsorbAllPrecipitation(d: string, g: seq<OwItem>)
    ensures var p := AbsorbAll(NewOwDay(d), g).precipitationProbability;
      && p >= 0.0
      && (forall j :: 0 <= j < |g| && g[j].pop.Some? ==> p >= g[j].pop.value * 100.0)
      && (p == 0.0 || exists j :: 0 <= j < |g| && g[j].pop.Some? && p == g[j].pop.value * 100.0)
  {
    if |g| > 0 {
      var init := g[..|g| - 1];
      AbsorbAllPrecipitation(d, init);
      assert forall j :: 0 <= j < |init| ==> init[j] == g[j];
    }
  }

  /** Record `i` is emitted for the `i`-th date of the sorted list. */
  lemma OpenWeatherDates(items: seq<OwItem>, days: nat)
    ensures var r := OpenWeatherDays(items, days);
      && |r| == |EmittedDates(items, days)|
      && forall i :: 0 <= i < |r| ==> r[i].date == EmittedDates(items, days)[i]
  {
    DailyDataDates(items);
  }

  /** The first `days` dates are emitted, in strictly ascending order (so no
      date twice). */
  lemma OpenWeatherOrder(items: seq<OwItem>, days: nat)
    ensures var r := OpenWeatherDays(items, days);
      && |r| == (if days <= |DateOrder(items)| then days else |DateOrder(items)|)
      && (forall i, j :: 0 <= i < j < |r| ==> Less(r[i].date, r[j].date))
      && (forall i :: 0 <= i < |r| ==> r[i].date in Dates(items))
  {
    DailyDataKeys(items);
    SortedDistinct(DateOrder(items));
    OpenWeatherDates(items, days);
  }

  /** Every date of the input that is left out comes after all emitted ones. */
  lemma OpenWeatherLeftOut(items: seq<OwItem>, days: nat, d: string)
    requires d in Dates(items)
    requires forall i :: 0 <= i < |OpenWeatherDays(items, days)| ==> OpenWeatherDays(items, days)[i].date != d
    ensures forall i :: 0 <= i < |OpenWeatherDays(items, days)| ==> Less(OpenWeatherDays(items, days)[i].date, d)
  {
    var sorted := Sorted(DateOrder(items));
    SortedDistinct(DateOrder(items));
    OpenWeatherDates(items, days);
    BeyondPrefix(sorted, days, d);
  }

  /** In a strictly ascending list, an element beyond the first `n` is
      greater than each of them. */
  lemma BeyondPrefix(xs: seq<string>, n: nat, d: string)
    requires forall i, j :: 0 <= i < j < |xs| ==> Less(xs[i], xs[j])
    requires d in xs
    requires forall i :: 0 <= i < |Take(xs, n)| ==> Take(xs, n)[i] != d
    ensures forall i :: 0 <= i < |Take(xs, n)| ==> Less(Take(xs, n)[i], d)
  {
    var k :| 0 <= k < |xs| && xs[k] == d;
    assert k >= |Take(xs, n)|;
  }

  /** Record `i` is the aggregate of its date's items. */
  lemma OpenWeatherRecordAt(items: seq<OwItem>, days: nat, i: nat)
    requires i < |OpenWeatherDays(items, days)|
    ensures var r := OpenWeatherDays(items, days)[i];
      && |ItemsOn(items, r.date)| > 0
      && r == Finish(AbsorbAll(NewOwDay(r.date), ItemsOn(items, r.date)))
  {
    var keys := EmittedDates(items, days);
    var k := keys[i];
    assert OpenWeatherDays(items, days)[i] == Finish(DailyData(items)[k]);
    DailyDataDates(items);
    DailyDataIsAbsorbed(items, k);
  }

  /** Each emitted record is the aggregate of its date's items. */
  lemma OpenWeatherRecords(items: seq<OwItem>, days: nat)
    ensures var r := OpenWeatherDays(items, days);
      forall i :: 0 <= i < |r| ==> r[i] == Finish(AbsorbAll(NewOwDay(r[i].date), ItemsOn(items, r[i].date)))
  {
    var r := OpenWeatherDays(items, days);
    forall i | 0 <= i < |r|
      ensures r[i] == Finish(AbsorbAll(NewOwDay(r[i].date), ItemsOn(items, r[i].date)))
    {
      OpenWeatherRecordAt(items, days, i);
    }
  }

  /** What an emitted record says about the items of its date: they are its
      raw data, its conditions are their distinct labels joined by ", ", and
      its temperatures are their extremes. */
  lemma OpenWeatherDay(items: seq<OwItem>, days: nat, i: nat)
    requires i < |OpenWeatherDays(items, days)|
    ensures var r := OpenWeatherDays(items, days)[i];
      var g := ItemsOn(items, r.date);
      && |g| > 0
      && r.raw == Items(g)
      && r.conditions == Join(Dedup(Labels(g)), ", ")
      && r.temperatureMin.Some? && r.temperatureMax.Some?
      && (forall j :: 0 <= j < |g| ==> r.temperatureMin.value <= g[j].tempMin && g[j].tempMax <= r.temperatureMax.value)
  {
    var r := OpenWeatherDays(items, days)[i];
    OpenWeatherRecordAt(items, days, i);
    FinishedDay(r.date, ItemsOn(items, r.date));
  }

  lemma FinishedDay(d: string, g: seq<OwItem>)
    requires |g| > 0
    ensures var r := Finish(AbsorbAll(NewOwDay(d), g));
      && r.raw == Items(g)
      && r.conditions == Join(Dedup(Labels(g)), ", ")
      && r.temperatureMin.Some? && r.temperatureMax.Some?
      && (forall j :: 0 <= j < |g| ==> r.temperatureMin.value <= g[j].tempMin && g[j].tempMax <= r.temperatureMax.value)
  {
    AbsorbAllItems(d, g);
    AbsorbAllConditions(d, g);
    AbsorbAllMin(d, g);
    AbsorbAllMax(d, g);
  }

  /** Every entry of `daily_data` is stored under its own date. */
  lemma {:induction false} DailyDataDates(items: seq<OwItem>)
    ensures forall d :: d in DailyData(items) ==> DailyData(items)[d].date == d
  {
    if |items| > 0 {
      DailyDataDates(items[..|items| - 1]);
    }
  }
}

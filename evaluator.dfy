/** The condition evaluation engine: threshold comparisons over the first days
    of a forecast, a season-scoped "first occurrence" tracker whose state
    persists between runs, and AND/OR combinations of thresholds. */
module Evaluator {
  import opened Wrappers
  import opened Sequences
  import opened Strings
  import opened Contexts

  // ---------------------------------------------------------------------------
  // Data model
  // ---------------------------------------------------------------------------

  /** One day of a normalised forecast as the evaluator sees it: its date and
      its named readings, where a reading may be `None` (JSON `null`). A name
      missing from `fields` is a field the day does not have. */
  datatype DayRecord = DayRecord(date: string, fields: map<string, Option<real>>)

  /** The `weather_condition` mapping of a rule: `field`, `operator`, `value`
      and the optional `forecast_days`. */
  datatype WeatherCondition = WeatherCondition(
    field: string,
    operator: string,
    value: real,
    forecastDays: Option<nat>)

  /** A rule's `condition` mapping, with the keys the evaluator reads. Keys
      with a default are optional. */
  datatype Condition = Condition(
    kind: Option<string>,                       // 'type'
    weatherCondition: WeatherCondition,         // 'weather_condition'
    seasonStartMonth: Option<int>,              // 'season_start_month'
    seasonEndMonth: Option<int>,                // 'season_end_month'
    weatherConditions: seq<WeatherCondition>,   // 'weather_conditions'
    allMustMatch: Option<bool>)                 // 'all_must_match'

  /** `{'triggered': False}` or `{'triggered': True, 'context': ...}`. */
  datatype EvalResult = NotTriggered | Triggered(context: Context)

  /** One entry of the persisted `occurrences` mapping. A document written by
      hand may lack `year`, hence the option. */
  datatype OccurrenceRecord = OccurrenceRecord(year: Option<int>, date: string, forecastDate: Value)

  type Occurrences = map<string, OccurrenceRecord>

  /** The persisted state document `{'occurrences': {...}}`. */
  datatype StateDocument = StateDocument(occurrences: Occurrences)

  /** The wall-clock reading at the time of the evaluation: year, month and the ISO
      text of today's date. */
  datatype Clock = Clock(year: int, month: int, today: string)

  /** A result together with the occurrences after the evaluation. */
  datatype Outcome = Outcome(result: EvalResult, occurrences: Occurrences)

  // ---------------------------------------------------------------------------
  // Comparator and season window
  // ---------------------------------------------------------------------------

  /** `_compare_value`: five operators; any other operator never matches. */
  function CompareValue(value: real, operator: string, threshold: real): bool
  {
    if operator == "lt" then value < threshold
    else if operator == "lte" then value <= threshold
    else if operator == "gt" then value > threshold
    else if operator == "gte" then value >= threshold
    else if operator == "eq" then value == threshold
    else false
  }

  predicate KnownOperator(operator: string)
  {
    operator == "lt" || operator == "lte" || operator == "gt" || operator == "gte" || operator == "eq"
  }

  lemma CompareValueOperators(value: real, operator: string, threshold: real)
    ensures CompareValue(value, "lt", threshold) <==> value < threshold
    ensures CompareValue(value, "lte", threshold) <==> value <= threshold
    ensures CompareValue(value, "gt", threshold) <==> value > threshold
    ensures CompareValue(value, "gte", threshold) <==> value >= threshold
    ensures CompareValue(value, "eq", threshold) <==> value == threshold
    ensures !KnownOperator(operator) ==> !CompareValue(value, operator, threshold)
  {
  }

  /** `_is_in_season`: a closed month range that wraps past December when
      the start is after the end. */
  function IsInSeason(month: int, startMonth: int, endMonth: int): bool
  {
    if startMonth <= endMonth then startMonth <= month <= endMonth
    else month >= startMonth || month <= endMonth
  }

  lemma IsInSeasonCases(month: int, startMonth: int, endMonth: int)
    ensures startMonth <= endMonth ==>
      (IsInSeason(month, startMonth, endMonth) <==> startMonth <= month <= endMonth)
    ensures startMonth > endMonth ==>
      (IsInSeason(month, startMonth, endMonth) <==> month >= startMonth || month <= endMonth)
    ensures IsInSeason(startMonth, startMonth, endMonth) && IsInSeason(endMonth, startMonth, endMonth)
  {
  }

  // ---------------------------------------------------------------------------
  // Threshold
  // ---------------------------------------------------------------------------

  /** `forecast_days`, 1 when absent. */
  function ForecastDays(wc: WeatherCondition): nat
  {
    wc.forecastDays.GetOr(1)
  }

  /** The day's reading of a field: `None` both for a missing field and for `null`. */
  function FieldValue(day: DayRecord, field: string): Option<real>
  {
    if field in day.fields then day.fields[field] else None
  }

  /** The day has a reading for the field and it passes the comparison. */
  predicate Matches(day: DayRecord, wc: WeatherCondition)
  {
    FieldValue(day, wc.field).Some? && CompareValue(FieldValue(day, wc.field).value, wc.operator, wc.value)
  }

  /** `{'forecast_date': date, field: value}` */
  function MatchContext(date: string, field: string, value: real): Context
  {
    Put(Put([], "forecast_date", Text(date)), field, Number(value))
  }

  /** The context of a match holds exactly the forecast date and the reading
      (a field named `forecast_date` overwrites the date, as in the dict
      literal). */
  lemma MatchContextContents(date: string, field: string, value: real)
    ensures Keys(MatchContext(date, field, value)) ==
      if field == "forecast_date" then ["forecast_date"] else ["forecast_date", field]
    ensures Lookup(MatchContext(date, field, value), field) == Some(Number(value))
    ensures field != "forecast_date" ==>
      Lookup(MatchContext(date, field, value), "forecast_date") == Some(Text(date))
    ensures Lookup(MatchContext(date, field, value), "forecast_date").Some?
  {
    PutKeys([], "forecast_date", Text(date));
    PutKeys(Put([], "forecast_date", Text(date)), field, Number(value));
  }

  /** The context reported for a matching day. */
  function MatchOf(day: DayRecord, wc: WeatherCondition): Context
  {
    MatchContext(day.date, wc.field, FieldValue(day, wc.field).GetOr(0.0))
  }

  /** The earliest match of `records`, scanning from the front. */
  function Scan(records: seq<DayRecord>, wc: WeatherCondition): EvalResult
  {
    if |records| == 0 then NotTriggered
    else if Matches(records[0], wc) then Triggered(MatchOf(records[0], wc))
    else Scan(records[1..], wc)
  }

  /** `_evaluate_threshold` as a function of its inputs. */
  function Threshold(wc: WeatherCondition, forecast: seq<DayRecord>): EvalResult
  {
    Scan(Take(forecast, ForecastDays(wc)), wc)
  }

  /** Scanning triggers exactly when some record matches. */
  lemma {:induction false} ScanTriggersIff(records: seq<DayRecord>, wc: WeatherCondition)
    ensures Scan(records, wc).Triggered? <==> exists i :: 0 <= i < |records| && Matches(records[i], wc)
  {
    if |records| > 0 && !Matches(records[0], wc) {
      ScanTriggersIff(records[1..], wc);
      assert forall i :: 0 < i < |records| ==> records[i] == records[1..][i - 1];
    }
  }

  /** Scanning returns the context of the earliest matching record. */
  lemma {:induction false} ScanEarliest(records: seq<DayRecord>, wc: WeatherCondition, i: nat)
    requires i < |records| && Matches(records[i], wc)
    requires forall j :: 0 <= j < i ==> !Matches(records[j], wc)
    ensures Scan(records, wc) == Triggered(MatchOf(records[i], wc))
  {
    if i > 0 {
      assert !Matches(records[0], wc);
      ScanEarliest(records[1..], wc, i - 1);
    }
  }

  /** The threshold triggers exactly when one of the first `forecast_days`
      records matches. */
  lemma ThresholdTriggersIff(wc: WeatherCondition, forecast: seq<DayRecord>)
    ensures Threshold(wc, forecast).Triggered? <==>
      exists i :: 0 <= i < |forecast| && i < ForecastDays(wc) && Matches(forecast[i], wc)
  {
    var window := Take(forecast, ForecastDays(wc));
    ScanTriggersIff(window, wc);
    if exists i :: 0 <= i < |forecast| && i < ForecastDays(wc) && Matches(forecast[i], wc) {
      var i :| 0 <= i < |forecast| && i < ForecastDays(wc) && Matches(forecast[i], wc);
      assert window[i] == forecast[i];
    }
  }

  /** Earliest match wins: when record `i` of the window is the first that
      matches, the result is its date and reading, whatever later days hold. */
  lemma ThresholdEarliest(wc: WeatherCondition, forecast: seq<DayRecord>, i: nat)
    requires i < |forecast| && i < ForecastDays(wc) && Matches(forecast[i], wc)
    requires forall j :: 0 <= j < i ==> !Matches(forecast[j], wc)
    ensures Threshold(wc, forecast) ==
      Triggered(MatchContext(forecast[i].date, wc.field, FieldValue(forecast[i], wc.field).value))
  {
    ScanEarliest(Take(forecast, ForecastDays(wc)), wc, i);
  }

  /** A triggered scan's context always carries a forecast date. */
  lemma {:induction false} ScanHasDate(records: seq<DayRecord>, wc: WeatherCondition)
    requires Scan(records, wc).Triggered?
    ensures Lookup(Scan(records, wc).context, "forecast_date").Some?
  {
    if Matches(records[0], wc) {
      MatchContextContents(records[0].date, wc.field, FieldValue(records[0], wc.field).value);
    } else {
      ScanHasDate(records[1..], wc);
    }
  }

  /** The records beyond the window never influence the result. */
  lemma ThresholdWindowOnly(wc: WeatherCondition, f1: seq<DayRecord>, f2: seq<DayRecord>)
    requires Take(f1, ForecastDays(wc)) == Take(f2, ForecastDays(wc))
    ensures Threshold(wc, f1) == Threshold(wc, f2)
  {
  }

  lemma ThresholdEmptyForecast(wc: WeatherCondition)
    ensures Threshold(wc, []) == NotTriggered
  {
  }

  /** The window of the first-match scan is empty when `forecast_days` is
      zero: nothing can trigger. */
  lemma ThresholdZeroDays(wc: WeatherCondition, forecast: seq<DayRecord>)
    requires wc.forecastDays == Some(0)
    ensures Threshold(wc, forecast) == NotTriggered
  {
  }

  // ---------------------------------------------------------------------------
  // Combined (AND / OR)
  // ---------------------------------------------------------------------------

  /** The contexts of the sub-conditions that trigger, in list order. */
  function MatchedContexts(conds: seq<WeatherCondition>, forecast: seq<DayRecord>): seq<Context>
  {
    if |conds| == 0 then []
    else
      var init := MatchedContexts(conds[..|conds| - 1], forecast);
      match Threshold(conds[|conds| - 1], forecast)
      case Triggered(c) => init + [c]
      case NotTriggered => init
  }

  /** `_evaluate_combined` as a function of its inputs. */
  function Combined(conds: seq<WeatherCondition>, allMustMatch: bool, forecast: seq<DayRecord>): EvalResult
  {
    var contexts := MatchedContexts(conds, forecast);
    var triggered := if allMustMatch then |contexts| == |conds| else |contexts| > 0;
    if triggered then Triggered(Merge(contexts)) else NotTriggered
  }

  /** What a sub-result contributes to the merge: its context, or nothing. */
  function ContextOf(r: EvalResult): Context
  {
    if r.Triggered? then r.context else []
  }

  /** The context of each sub-condition, empty for those that do not trigger. */
  function SubContexts(conds: seq<WeatherCondition>, forecast: seq<DayRecord>): (r: seq<Context>)
    ensures |r| == |conds|
  {
    seq(|conds|, i requires 0 <= i < |conds| => ContextOf(Threshold(conds[i], forecast)))
  }

  /** Matches are counted over the whole list: all of them exactly when every
      sub-condition triggers, some exactly when one does. */
  lemma {:induction false} MatchedContextsCount(conds: seq<WeatherCondition>, forecast: seq<DayRecord>)
    ensures |MatchedContexts(conds, forecast)| <= |conds|
    ensures |MatchedContexts(conds, forecast)| == |conds| <==>
      forall i :: 0 <= i < |conds| ==> Threshold(conds[i], forecast).Triggered?
    ensures |MatchedContexts(conds, forecast)| > 0 <==>
      exists i :: 0 <= i < |conds| && Threshold(conds[i], forecast).Triggered?
  {
    if |conds| > 0 {
      var init := conds[..|conds| - 1];
      MatchedContextsCount(init, forecast);
      assert forall i :: 0 <= i < |init| ==> init[i] == conds[i];
    }
  }

  /** Merging only the matched contexts is merging every sub-context, with
      the empty context for the sub-conditions that did not trigger. */
  lemma {:induction false} MergeMatched(conds: seq<WeatherCondition>, forecast: seq<DayRecord>)
    ensures Merge(MatchedContexts(conds, forecast)) == Merge(SubContexts(conds, forecast))
  {
    if |conds| > 0 {
      var init := conds[..|conds| - 1];
      MergeMatched(init, forecast);
      assert SubContexts(conds, forecast)[..|conds| - 1] == SubContexts(init, forecast);
    }
  }

  /** With `all_must_match` the combination is a logical AND; an empty list
      triggers with an empty context. */
  lemma CombinedAnd(conds: seq<WeatherCondition>, forecast: seq<DayRecord>)
    ensures Combined(conds, true, forecast).Triggered? <==>
      forall i :: 0 <= i < |conds| ==> Threshold(conds[i], forecast).Triggered?
    ensures |conds| == 0 ==> Combined(conds, true, forecast) == Triggered([])
  {
    MatchedContextsCount(conds, forecast);
  }

  /** Without `all_must_match` the combination is a logical OR; an empty list
      never triggers. */
  lemma CombinedOr(conds: seq<WeatherCondition>, forecast: seq<DayRecord>)
    ensures Combined(conds, false, forecast).Triggered? <==>
      exists i :: 0 <= i < |conds| && Threshold(conds[i], forecast).Triggered?
  {
    MatchedContextsCount(conds, forecast);
  }

  /** Last write wins: in the merged context a key holds the value it has in
      the last sub-condition in list order whose context has it, and a key holds
      nothing when no matching sub-condition has it. */
  lemma CombinedContext(conds: seq<WeatherCondition>, allMustMatch: bool, forecast: seq<DayRecord>, k: string)
    requires Combined(conds, allMustMatch, forecast).Triggered?
    ensures var merged := Combined(conds, allMustMatch, forecast).context;
      && (Lookup(merged, k).None? <==>
            forall i :: 0 <= i < |conds| ==> Lookup(SubContexts(conds, forecast)[i], k).None?)
      && (forall i :: LastHolder(SubContexts(conds, forecast), k, i) ==>
            Lookup(merged, k) == Lookup(Threshold(conds[i], forecast).context, k))
  {
    var subs := SubContexts(conds, forecast);
    MergeMatched(conds, forecast);
    MergeLookupNone(subs, k);
    forall i | LastHolder(subs, k, i)
      ensures Lookup(Merge(subs), k) == Lookup(Threshold(conds[i], forecast).context, k)
    {
      MergeLookupLast(subs, k, i);
    }
  }

  /** The merged keys are those of the matching sub-conditions, each in the
      place of its first appearance, and no key appears twice. */
  lemma CombinedKeys(conds: seq<WeatherCondition>, allMustMatch: bool, forecast: seq<DayRecord>)
    requires Combined(conds, allMustMatch, forecast).Triggered?
    ensures var merged := Combined(conds, allMustMatch, forecast).context;
      var subs := SubContexts(conds, forecast);
      && DistinctKeys(merged)
      && Keys(merged) == Dedup(Flatten(seq(|subs|, i requires 0 <= i < |subs| => Keys(subs[i]))))
  {
    MergeMatched(conds, forecast);
    MergeKeys(SubContexts(conds, forecast));
  }

  // ---------------------------------------------------------------------------
  // First occurrence and the occurrence store
  // ---------------------------------------------------------------------------

  /** The key under which a first-occurrence condition records its last
      trigger: the field and the two season months, in decimal, after a
      `first_` prefix. */
  function StateKey(field: string, startMonth: int, endMonth: int): string
  {
    "first_" + field + "_" + IntToString(startMonth) + "_" + IntToString(endMonth)
  }

  /** The position of the last underscore of `s`, or -1. */
  function LastUnderscoreAt(s: string): int
  {
    if |s| == 0 then -1 else if s[|s| - 1] == '_' then |s| - 1 else LastUnderscoreAt(s[..|s| - 1])
  }

  lemma {:induction false} LastUnderscoreAtJoin(a: string, x: string)
    requires '_' !in x
    ensures LastUnderscoreAt(a + "_" + x) == |a|
    decreases |x|
  {
    if |x| > 0 {
      var init := x[..|x| - 1];
      assert (a + "_" + x)[..|a + "_" + x| - 1] == a + "_" + init;
      assert forall c :: c in init ==> c in x;
      LastUnderscoreAtJoin(a, init);
    }
  }

  /** Splitting at the last underscore is unique when the tail has none. */
  lemma LastUnderscore(a: string, x: string, b: string, y: string)
    requires a + "_" + x == b + "_" + y
    requires '_' !in x && '_' !in y
    ensures a == b && x == y
  {
    var s := a + "_" + x;
    LastUnderscoreAtJoin(a, x);
    LastUnderscoreAtJoin(b, y);
    assert a == s[..|a|] == b;
    assert x == s[|a| + 1..] == y;
  }

  /** Distinct (field, start, end) triples have distinct state keys: the
      months print without an underscore, so the key splits back uniquely. */
  lemma StateKeyInjective(f1: string, s1: int, e1: int, f2: string, s2: int, e2: int)
    requires StateKey(f1, s1, e1) == StateKey(f2, s2, e2)
    ensures f1 == f2 && s1 == s2 && e1 == e2
  {
    IntToStringChars(s1, '_');
    IntToStringChars(e1, '_');
    IntToStringChars(s2, '_');
    IntToStringChars(e2, '_');
    var a1 := "first_" + f1 + "_" + IntToString(s1);
    var a2 := "first_" + f2 + "_" + IntToString(s2);
    LastUnderscore(a1, IntToString(e1), a2, IntToString(e2));
    LastUnderscore("first_" + f1, IntToString(s1), "first_" + f2, IntToString(s2));
    assert f1 == ("first_" + f1)[6..] == ("first_" + f2)[6..] == f2;
    ParseIntToString(s1);
    ParseIntToString(s2);
    ParseIntToString(e1);
    ParseIntToString(e2);
  }

  /** The forecast date recorded in a triggered threshold's context. */
  function ForecastDateOf(ctx: Context): Value
  {
    Lookup(ctx, "forecast_date").GetOr(Text(""))
  }

  /** `season_start_month`, 1 when absent. */
  function SeasonStart(condition: Condition): int
  {
    condition.seasonStartMonth.GetOr(1)
  }

  /** `season_end_month`, 12 when absent. */
  function SeasonEnd(condition: Condition): int
  {
    condition.seasonEndMonth.GetOr(12)
  }

  function KeyOf(condition: Condition): string
  {
    StateKey(condition.weatherCondition.field, SeasonStart(condition), SeasonEnd(condition))
  }

  /** The stored record says the condition already fired in `year`. */
  predicate FiredIn(occ: Occurrences, key: string, year: int)
  {
    key in occ && occ[key].year == Some(year)
  }

  /** `_evaluate_first_occurrence` as a function of its inputs and the
      occurrences before the call. */
  function FirstOccurrence(condition: Condition, forecast: seq<DayRecord>, now: Clock, occ: Occurrences): Outcome
  {
    if !IsInSeason(now.month, SeasonStart(condition), SeasonEnd(condition)) then Outcome(NotTriggered, occ)
    else
      var key := KeyOf(condition);
      if FiredIn(occ, key, now.year) then Outcome(NotTriggered, occ)
      else
        var r := Threshold(condition.weatherCondition, forecast);
        if r.Triggered? then
          Outcome(r, occ[key := OccurrenceRecord(Some(now.year), now.today, ForecastDateOf(r.context))])
        else Outcome(NotTriggered, occ)
  }

  /** Out of season: no trigger, no state change (and no threshold check). */
  lemma FirstOccurrenceOutOfSeason(condition: Condition, forecast: seq<DayRecord>, now: Clock, occ: Occurrences)
    requires !IsInSeason(now.month, SeasonStart(condition), SeasonEnd(condition))
    ensures FirstOccurrence(condition, forecast, now, occ) == Outcome(NotTriggered, occ)
  {
  }

  /** Already fired this year: no trigger, no state change. */
  lemma FirstOccurrenceAlreadyFired(condition: Condition, forecast: seq<DayRecord>, now: Clock, occ: Occurrences)
    requires FiredIn(occ, KeyOf(condition), now.year)
    ensures FirstOccurrence(condition, forecast, now, occ) == Outcome(NotTriggered, occ)
  {
  }

  /** Armed (in season, and no record of this year, including a record of
      another year or without a year): the threshold result is returned
      unchanged; on a trigger only this key's record changes, to this year,
      today and the matched date; otherwise nothing changes. */
  lemma FirstOccurrenceArmed(condition: Condition, forecast: seq<DayRecord>, now: Clock, occ: Occurrences)
    requires IsInSeason(now.month, SeasonStart(condition), SeasonEnd(condition))
    requires !FiredIn(occ, KeyOf(condition), now.year)
    ensures var o := FirstOccurrence(condition, forecast, now, occ);
      var r := Threshold(condition.weatherCondition, forecast);
      && o.result == r
      && (r.NotTriggered? ==> o.occurrences == occ)
      && (r.Triggered? ==>
            && o.occurrences.Keys == occ.Keys + {KeyOf(condition)}
            && o.occurrences[KeyOf(condition)] ==
                 OccurrenceRecord(Some(now.year), now.today, ForecastDateOf(r.context))
            && Lookup(r.context, "forecast_date").Some?
            && forall k :: k in occ && k != KeyOf(condition) ==> o.occurrences[k] == occ[k])
  {
    var r := Threshold(condition.weatherCondition, forecast);
    if r.Triggered? {
      ScanHasDate(Take(forecast, ForecastDays(condition.weatherCondition)), condition.weatherCondition);
    }
  }

  /** Whatever happens, only the condition's own key can change. */
  lemma FirstOccurrenceFrame(condition: Condition, forecast: seq<DayRecord>, now: Clock, occ: Occurrences, k: string)
    requires k != KeyOf(condition)
    ensures var occ' := FirstOccurrence(condition, forecast, now, occ).occurrences;
      (k in occ' <==> k in occ) && (k in occ ==> occ'[k] == occ[k])
  {
  }

  /** At most once per season-year: evaluating again with the same clock
      neither triggers nor changes the state. */
  lemma FirstOccurrenceOnce(condition: Condition, f1: seq<DayRecord>, f2: seq<DayRecord>, now: Clock, occ: Occurrences)
    requires FirstOccurrence(condition, f1, now, occ).result.Triggered?
    ensures var occ1 := FirstOccurrence(condition, f1, now, occ).occurrences;
      FirstOccurrence(condition, f2, now, occ1) == Outcome(NotTriggered, occ1)
  {
  }

  /** A trigger re-arms in a later year: a record of year `y` does not block
      an in-season evaluation whose clock says another year. */
  lemma FirstOccurrenceRearms(condition: Condition, forecast: seq<DayRecord>, now: Clock, occ: Occurrences)
    requires IsInSeason(now.month, SeasonStart(condition), SeasonEnd(condition))
    requires KeyOf(condition) in occ && occ[KeyOf(condition)].year != Some(now.year)
    ensures FirstOccurrence(condition, forecast, now, occ).result == Threshold(condition.weatherCondition, forecast)
  {
  }

  /** The persisted document written by a run is what the next run loads. */
  function LoadState(document: Option<StateDocument>): Occurrences
  {
    match document
    case None => map[]
    case Some(doc) => doc.occurrences
  }

  /** A missing or unreadable document gives an empty store; a parsed one
      gives its occurrences, so saving and reloading loses nothing. */
  lemma LoadStateCases(occ: Occurrences)
    ensures LoadState(None) == map[]
    ensures LoadState(Some(StateDocument(occ))) == occ
  {
  }

  // ---------------------------------------------------------------------------
  // Dispatch
  // ---------------------------------------------------------------------------

  /** The condition's type, a threshold when none is given. */
  function KindOf(condition: Condition): string
  {
    condition.kind.GetOr("threshold")
  }

  /** `evaluate` as a function of its inputs and the occurrences before the call. */
  function Evaluation(condition: Condition, forecast: seq<DayRecord>, now: Clock, occ: Occurrences): Outcome
  {
    var kind := KindOf(condition);
    if kind == "threshold" then Outcome(Threshold(condition.weatherCondition, forecast), occ)
    else if kind == "first_occurrence" then FirstOccurrence(condition, forecast, now, occ)
    else if kind == "combined" then
      Outcome(Combined(condition.weatherConditions, condition.allMustMatch.GetOr(true), forecast), occ)
    else Outcome(NotTriggered, occ)
  }

  /** A condition without `type` is a threshold. */
  lemma EvaluationDefaultsToThreshold(condition: Condition, forecast: seq<DayRecord>, now: Clock, occ: Occurrences)
    requires condition.kind.None?
    ensures Evaluation(condition, forecast, now, occ) == Outcome(Threshold(condition.weatherCondition, forecast), occ)
  {
  }

  /** An unknown `type` never triggers and leaves the state alone. */
  lemma EvaluationUnknownKind(condition: Condition, forecast: seq<DayRecord>, now: Clock, occ: Occurrences)
    requires KindOf(condition) !in {"threshold", "first_occurrence", "combined"}
    ensures Evaluation(condition, forecast, now, occ) == Outcome(NotTriggered, occ)
  {
  }

  /** Only first-occurrence conditions touch the store. */
  lemma EvaluationStateChanges(condition: Condition, forecast: seq<DayRecord>, now: Clock, occ: Occurrences)
    requires KindOf(condition) != "first_occurrence"
    ensures Evaluation(condition, forecast, now, occ).occurrences == occ
  {
  }

  /** A combined condition without `all_must_match` is an AND. */
  lemma EvaluationCombinedDefaultsToAnd(condition: Condition, forecast: seq<DayRecord>, now: Clock, occ: Occurrences)
    requires KindOf(condition) == "combined" && condition.allMustMatch.None?
    ensures Evaluation(condition, forecast, now, occ).result.Triggered? <==>
      forall i :: 0 <= i < |condition.weatherConditions| ==>
        Threshold(condition.weatherConditions[i], forecast).Triggered?
  {
    CombinedAnd(condition.weatherConditions, forecast);
  }

  // ---------------------------------------------------------------------------
  // The evaluator object
  // ---------------------------------------------------------------------------

  /** `ConditionEvaluator`: the occurrence store, loaded once, mutated by
      first-occurrence conditions, saved by the caller at the end of a run. */
  class ConditionEvaluator {
    var occurrences: Occurrences

    /** `__init__` with `_load_state`: the document is the parsed state file,
        `None` when the file is missing or is not valid JSON. */
    constructor (document: Option<StateDocument>)
      ensures occurrences == LoadState(document)
    {
      occurrences := LoadState(document);
    }

    /** The document `save_state` writes. */
    function SaveState(): (doc: StateDocument)
      reads this
      ensures LoadState(Some(doc)) == occurrences
    {
      StateDocument(occurrences)
    }

    method Evaluate(condition: Condition, forecast: seq<DayRecord>, now: Clock) returns (result: EvalResult)
      modifies this
      ensures Outcome(result, occurrences) == Evaluation(condition, forecast, now, old(occurrences))
    {
      var kind := KindOf(condition);
      if kind == "threshold" {
        result := EvaluateThreshold(condition.weatherCondition, forecast);
      } else if kind == "first_occurrence" {
        result := EvaluateFirstOccurrence(condition, forecast, now);
      } else if kind == "combined" {
        result := EvaluateCombined(condition, forecast);
      } else {
        result := NotTriggered;
      }
    }

    /** `_evaluate_threshold`: the first `forecast_days` records in order,
        skipping those without a reading, returning at the first match. */
    method EvaluateThreshold(wc: WeatherCondition, forecast: seq<DayRecord>) returns (result: EvalResult)
      ensures result == Threshold(wc, forecast)
    {
      var window := Take(forecast, ForecastDays(wc));
      for i := 0 to |window|
        invariant Scan(window[i..], wc) == Scan(window, wc)
      {
        assert window[i..][1..] == window[i + 1..];
        var value := FieldValue(window[i], wc.field);
        if value.None? {
          continue;
        }
        if CompareValue(value.value, wc.operator, wc.value) {
          return Triggered(MatchContext(window[i].date, wc.field, value.value));
        }
      }
      return NotTriggered;
    }

    method EvaluateFirstOccurrence(condition: Condition, forecast: seq<DayRecord>, now: Clock) returns (result: EvalResult)
      modifies this
      ensures Outcome(result, occurrences) == FirstOccurrence(condition, forecast, now, old(occurrences))
    {
      var seasonStart := condition.seasonStartMonth.GetOr(1);
      var seasonEnd := condition.seasonEndMonth.GetOr(12);
      if !IsInSeason(now.month, seasonStart, seasonEnd) {
        return NotTriggered;
      }
      var stateKey := StateKey(condition.weatherCondition.field, seasonStart, seasonEnd);
      var currentYear := now.year;
      if stateKey in occurrences && occurrences[stateKey].year == Some(currentYear) {
        return NotTriggered;
      }
      var weatherResult := EvaluateThreshold(condition.weatherCondition, forecast);
      if weatherResult.Triggered? {
        occurrences := occurrences[stateKey :=
          OccurrenceRecord(Some(currentYear), now.today, ForecastDateOf(weatherResult.context))];
        return weatherResult;
      }
      return NotTriggered;
    }

    /** `_evaluate_combined`: count the matching sub-thresholds and collect
        their contexts, decide, then merge with `update` in list order. */
    method EvaluateCombined(condition: Condition, forecast: seq<DayRecord>) returns (result: EvalResult)
      ensures result == Combined(condition.weatherConditions, condition.allMustMatch.GetOr(true), forecast)
    {
      var conds := condition.weatherConditions;
      var allMustMatch := condition.allMustMatch.GetOr(true);
      var contexts: seq<Context> := [];
      var matches := 0;
      for i := 0 to |conds|
        invariant contexts == MatchedContexts(conds[..i], forecast)
        invariant matches == |contexts|
      {
        assert conds[..i + 1][..i] == conds[..i];
        var r := EvaluateThreshold(conds[i], forecast);
        if r.Triggered? {
          matches := matches + 1;
          contexts := contexts + [r.context];
        }
      }
      assert conds[..|conds|] == conds;
      var triggered := if allMustMatch then matches == |conds| else matches > 0;
      if triggered {
        var merged: Context := [];
        for j := 0 to |contexts|
          invariant merged == Merge(contexts[..j])
        {
          assert contexts[..j + 1][..j] == contexts[..j];
          merged := Update(merged, contexts[j]);
        }
        assert contexts[..|contexts|] == contexts;
        return Triggered(merged);
      }
      return NotTriggered;
    }
  }
}

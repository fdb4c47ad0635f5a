# weather-alerts: a verified model of the alert engine

This project models the core of the weather-alerts service in Dafny. The
service fetches a forecast, normalises it into daily records and evaluates
alert rules against those records. When a rule triggers, it e-mails a
message built from a template.

The model covers three parts:

- **Condition evaluation** (`Evaluator`). `ConditionEvaluator` is a class
  whose one field is the store of seasonal occurrences. It models:
  - threshold scans over the first `forecast_days` daily records;
  - the five comparison operators, and a season window that may wrap past
    December;
  - the once-per-season "first occurrence" tracker, keyed by
    `first_<field>_<start>_<end>`;
  - AND/OR combinations, whose contexts are merged with Python's
    last-write-wins `dict.update`;
  - dispatch on the condition type.

  Each method is proved against a function of its inputs and the store
  before the call. The lemmas state what the service promises about those
  functions.
- **Forecast normalisation** (`Forecast`). This covers the National Weather
  Service periods (day and night periods grouped by date) and the
  OpenWeatherMap 3-hour items. The items are grouped by date, reduced to
  min/max/max-precipitation and distinct labels, then sorted by date and
  truncated. Both normalisers are loop methods proved equal to a
  specification function. Lemmas give the properties of those functions:
  - grouping, and where a new day starts;
  - the last-period-wins temperatures;
  - the extremes;
  - the first-seen label order;
  - the ascending, duplicate-free date order.
- **E-mail templating** (`Email`). This is the `{key}` substitution loop and
  the pure part of `send`: the default context, the same substitution on
  subject and body, and the joined `To` header.

Supporting modules:

- `Contexts` models Python dicts as insertion-ordered entry lists.
  Assignment keeps an existing key's place, and `update` assigns in order.
- `Strings` models Python `str`:
  - code-point order and `sorted`;
  - `join`, `split` and `replace` on a separator;
  - `str(int)`;
  - the first word of `split()`.
- `Sequences` holds `xs[:n]`, flattening and first-seen deduplication.
- `Wrappers` holds `Option`.

The wall clock is a parameter. For the evaluator it is the year, the month
and today's ISO date. The state file becomes an optional parsed document.

## Model

| member | source | states |
|---|---|---|
| Evaluator.CompareValue | src/conditions/evaluator.py:181-204 | the operator dispatch of `_compare_value`, an unknown operator being false; its meaning is stated by CompareValueOperators |
| Evaluator.IsInSeason | src/conditions/evaluator.py:206-221 | the season test, a plain range when start <= end and a range wrapping past December otherwise; its cases are stated by IsInSeasonCases |
| Evaluator.CompareValueOperators | src/conditions/evaluator.py:192-204 | `lt`, `lte`, `gt`, `gte` and `eq` are exactly `<`, `<=`, `>`, `>=` and `==` on the value and the threshold; any other operator string never matches |
| Evaluator.IsInSeasonCases | src/conditions/evaluator.py:217-221 | when start <= end the season is the closed range start..end; otherwise it is month >= start or month <= end; the start and end months are always in season |
| Evaluator.Scan | src/conditions/evaluator.py:79-94 | the loop over the window as a function: the first record with a non-null reading that passes the comparison gives the context; ScanTriggersIff, ScanEarliest and ScanHasDate state its meaning |
| Evaluator.Threshold | src/conditions/evaluator.py:62-94 | `_evaluate_threshold` as a function: the scan of the first `forecast_days` records, 1 when the key is absent; ThresholdTriggersIff, ThresholdEarliest and ThresholdWindowOnly state its meaning |
| Evaluator.MatchContextContents | src/conditions/evaluator.py:86-92 | the context of a match has the keys `forecast_date` and the field, in that order (one key when the field is itself `forecast_date`, whose value then wins); it maps the field to the reading and `forecast_date` to the day's date |
| Evaluator.ScanTriggersIff | src/conditions/evaluator.py:79-94 | the scan triggers exactly when some record has a non-null reading of the field that passes the comparison |
| Evaluator.ScanEarliest | src/conditions/evaluator.py:79-92 | when record i is the first that matches, the scan returns its context, whatever the later records hold |
| Evaluator.ThresholdTriggersIff | src/conditions/evaluator.py:72-94 | a threshold triggers exactly when one of the first `forecast_days` records (1 when the key is absent) matches; records without the field or with `None` never match |
| Evaluator.ThresholdEarliest | src/conditions/evaluator.py:76-92 | earliest match wins: the context is `{forecast_date: date, field: value}` of the first matching record in the window |
| Evaluator.ScanHasDate | src/conditions/evaluator.py:86-92 | a triggered threshold's context always holds `forecast_date` |
| Evaluator.ThresholdWindowOnly | src/conditions/evaluator.py:76-79 | two forecasts with the same first `forecast_days` records give the same result |
| Evaluator.ThresholdEmptyForecast | src/conditions/evaluator.py:79-94 | an empty forecast never triggers |
| Evaluator.ThresholdZeroDays | src/conditions/evaluator.py:76-79 | with `forecast_days` 0 nothing is examined and nothing triggers |
| Evaluator.Combined | src/conditions/evaluator.py:139-179 | `_evaluate_combined` as a function: every sub-condition as a threshold, AND or OR over their results, and the merge of the matched contexts; CombinedAnd, CombinedOr, CombinedContext and CombinedKeys state its meaning |
| Evaluator.MatchedContextsCount | src/conditions/evaluator.py:155-170 | the matches counted are at most the number of sub-conditions; all of them exactly when every sub-threshold triggers; at least one exactly when some sub-threshold does |
| Evaluator.MergeMatched | src/conditions/evaluator.py:172-177 | merging the matched contexts equals merging every sub-condition's context, taking the empty context for those that did not trigger |
| Evaluator.CombinedAnd | src/conditions/evaluator.py:167-168 | with `all_must_match` the combination triggers exactly when every sub-threshold triggers, and an empty list triggers with an empty context |
| Evaluator.CombinedOr | src/conditions/evaluator.py:169-170 | without `all_must_match` the combination triggers exactly when some sub-threshold triggers |
| Evaluator.CombinedContext | src/conditions/evaluator.py:172-177 | last write wins: a merged key holds its value from the last sub-condition in list order that has it, and a key is absent exactly when no sub-condition has it |
| Evaluator.CombinedKeys | src/conditions/evaluator.py:172-177 | the merged keys are those of the matched contexts, none twice, each in the place where it first appears |
| Evaluator.StateKey | src/conditions/evaluator.py:115 | the state key `first_` + field + `_` + start + `_` + end with decimal months; StateKeyInjective states that it tells conditions apart |
| Evaluator.StateKeyInjective | src/conditions/evaluator.py:115 | distinct (field, start month, end month) triples give distinct state keys |
| Evaluator.FirstOccurrence | src/conditions/evaluator.py:96-137 | `_evaluate_first_occurrence` as a function of the clock and the store, giving the result and the new store; the FirstOccurrence lemmas below state its cases |
| Evaluator.FirstOccurrenceOutOfSeason | src/conditions/evaluator.py:106-112 | out of season (months default to 1 and 12) the result is not-triggered and the store is unchanged |
| Evaluator.FirstOccurrenceAlreadyFired | src/conditions/evaluator.py:118-123 | when the stored record's year is the current year, the result is not-triggered and the store is unchanged |
| Evaluator.FirstOccurrenceArmed | src/conditions/evaluator.py:125-137 | in season and not fired this year, the threshold result is returned unchanged; on a trigger only this key's record changes, to this year, today and the matched forecast date; without a trigger nothing changes |
| Evaluator.FirstOccurrenceFrame | src/conditions/evaluator.py:119-134 | no key other than the condition's own state key is added, removed or changed |
| Evaluator.FirstOccurrenceOnce | src/conditions/evaluator.py:118-135 | after a trigger, a second evaluation with the same clock, on any forecast, is not-triggered and leaves the store alone |
| Evaluator.FirstOccurrenceRearms | src/conditions/evaluator.py:119-126 | a stored record of another year, or one with no year, does not block an in-season evaluation, which then returns the threshold's result |
| Evaluator.LoadState | src/conditions/evaluator.py:21-30 | the store that `_load_state` gives: the document's occurrences, or empty for a missing or unreadable file; LoadStateCases states both cases |
| Evaluator.LoadStateCases | src/conditions/evaluator.py:21-30 | a missing or unreadable document gives an empty store, and a parsed document gives back exactly its occurrences |
| Evaluator.Evaluation | src/conditions/evaluator.py:40-60 | `evaluate` as a function: the dispatch on `type`, a threshold by default and not-triggered for an unknown type; the Evaluation lemmas below state its cases |
| Evaluator.EvaluationDefaultsToThreshold | src/conditions/evaluator.py:50-53 | a condition without `type` is evaluated as a threshold and leaves the store alone |
| Evaluator.EvaluationUnknownKind | src/conditions/evaluator.py:58-60 | an unknown `type` is not-triggered and leaves the store alone |
| Evaluator.EvaluationStateChanges | src/conditions/evaluator.py:50-60 | only first-occurrence conditions change the store |
| Evaluator.EvaluationCombinedDefaultsToAnd | src/conditions/evaluator.py:56-57 | a combined condition without `all_must_match` triggers exactly when all of its sub-thresholds trigger |
| Evaluator.ConditionEvaluator.constructor | src/conditions/evaluator.py:12-30 | the store is the loaded document's occurrences, empty when there is none |
| Evaluator.ConditionEvaluator.SaveState | src/conditions/evaluator.py:32-36 | the document written, loaded again, gives the current store |
| Evaluator.ConditionEvaluator.Evaluate | src/conditions/evaluator.py:40-60 | the result and the new store are those of the dispatch function on the old store |
| Evaluator.ConditionEvaluator.EvaluateThreshold | src/conditions/evaluator.py:62-94 | the loop returns the threshold function's result: the earliest match in the window, or not-triggered |
| Evaluator.ConditionEvaluator.EvaluateFirstOccurrence | src/conditions/evaluator.py:96-137 | the result and the new store are those of the first-occurrence function on the old store |
| Evaluator.ConditionEvaluator.EvaluateCombined | src/conditions/evaluator.py:139-179 | the counting loop and the merging loop together compute the combination function |
| Contexts.Put | src/conditions/evaluator.py:88-91 | after `d[k] = v` the key `k` holds `v` and every other key holds what it held before |
| Contexts.PutKeys | src/conditions/evaluator.py:88-91 | assignment keeps an existing key in its place and appends a new key at the end |
| Contexts.Update | src/conditions/evaluator.py:174-176 | `update` as the assignment of each entry of the second dict, in order, to the first; UpdateLookup and UpdateKeys state its meaning |
| Contexts.UpdateLookup | src/conditions/evaluator.py:174-176 | after `c.update(d)` a key of `d` has its value from `d`, and any other key keeps its value from `c` |
| Contexts.UpdateKeys | src/conditions/evaluator.py:174-176 | after an update the keys are those of `c`, then the new keys of `d` in their order, none twice |
| Contexts.Merge | src/conditions/evaluator.py:172-177 | the merged context: an empty dict updated with every context of the list in order; MergeLookupLast, MergeLookupNone and MergeKeys state its meaning |
| Contexts.MergeLookupLast | src/conditions/evaluator.py:174-177 | merging a list of contexts gives each key its value from the last context that has it |
| Contexts.MergeLookupNone | src/conditions/evaluator.py:174-177 | a key is absent from the merge exactly when no context of the list has it |
| Contexts.MergeKeys | src/conditions/evaluator.py:174-177 | the merged keys are all keys of the list, none twice, in first-appearance order |
| Sequences.Take | src/weather/forecast.py:193 | `xs[:n]` has length min(n, len(xs)) and agrees with `xs` on every index it has |
| Sequences.Dedup | src/weather/forecast.py:236-237 | the first-seen list has no duplicates and the same elements as its input |
| Sequences.FirstIndex | src/weather/forecast.py:236-237 | the first index of an element of a list: it holds the element, and no earlier index does |
| Sequences.DedupFirstSeen | src/weather/forecast.py:236-237 | the first-seen list keeps its elements in the order of their first appearance in the input |
| Forecast.NewNwsDay | src/weather/forecast.py:162-173 | the record a new date starts with: the period's date and `shortForecast` (empty when missing), no temperatures, precipitation 0 and no periods |
| Forecast.AbsorbPeriod | src/weather/forecast.py:176-188 | what one period does to its record: it is appended to the periods, a daytime one sets the maximum and a night one the minimum, and the precipitation is raised to the period's value |
| Forecast.Runs | src/weather/forecast.py:158-176 | the grouping of the periods into maximal runs of one date, none empty; RunsFlatten, RunsShareDate and RunsBoundaries state its meaning |
| Forecast.NwsDays | src/weather/forecast.py:144-193 | `_normalize_nws_data` as a function: the records of the runs of the first `2 * days` periods, cut to `days`; NwsBounds and the Runs and DayOf lemmas state its meaning |
| Forecast.NormalizeNwsData | src/weather/forecast.py:144-193 | the loop over the first `2 * days` periods builds the records of the same-date runs, and the result is their first `days` |
| Forecast.NwsBounds | src/weather/forecast.py:158-193 | at most `days` records come out, and only the first `2 * days` periods matter |
| Forecast.RunsFlatten | src/weather/forecast.py:158-176 | the groups, laid end to end, are the periods of the window in their order, so each record's `raw_data.periods` is its group in order |
| Forecast.RunsShareDate | src/weather/forecast.py:159-165 | every period of a group has the group's date |
| Forecast.RunsBoundaries | src/weather/forecast.py:161-165 | consecutive groups differ in date where they meet, so a new record starts exactly when the date changes |
| Forecast.DayOfHeader | src/weather/forecast.py:166-173 | a record's date and `conditions` (empty when `shortForecast` is missing) come from its first period |
| Forecast.DayOfTemperatures | src/weather/forecast.py:178-182 | `temperature_max` is the temperature of the group's last daytime period, and `temperature_min` that of its last night period |
| Forecast.LastTemperatureNone | src/weather/forecast.py:167-168 | the temperature stays `None` exactly when the group has no period of that kind |
| Forecast.LastTemperatureIsLast | src/weather/forecast.py:178-182 | the temperature kept comes from a period of that kind with no other of that kind after it |
| Forecast.DayOfPrecipitation | src/weather/forecast.py:170-188 | `precipitation_probability` is at least 0 and at least every period's value (a missing or null one is 0), and it is 0 or equal to one of those values |
| Forecast.NewOwDay | src/weather/forecast.py:210-218 | the fresh record of a date: no temperatures, precipitation 0, no labels and no items |
| Forecast.AbsorbItem | src/weather/forecast.py:220-237 | what one item does to its day: it is appended, the minimum and maximum take it in, the precipitation is raised to `pop * 100` when `pop` is present, and a new label is appended |
| Forecast.DailyData | src/weather/forecast.py:205-237 | `daily_data` after the loop as a function of the items; DailyDataKeys, DailyDataDates and DailyDataIsAbsorbed state its meaning |
| Forecast.Finish | src/weather/forecast.py:239-243 | the record emitted for a day: its labels joined with ", ", the rest as aggregated; FinishedDay states its meaning |
| Forecast.OpenWeatherDays | src/weather/forecast.py:195-245 | `_normalize_openweather_data` as a function: the finished records of the first `days` sorted dates; the OpenWeather lemmas below state its meaning |
| Forecast.AddItem | src/weather/forecast.py:220-237 | the field-by-field updates of one item give the day's aggregate with the item absorbed |
| Forecast.GroupByDate | src/weather/forecast.py:205-237 | the first loop builds `daily_data` and the order in which its dates were first seen |
| Forecast.NormalizeOpenWeatherData | src/weather/forecast.py:195-245 | the result is the records of the first `days` sorted dates, each finished with its conditions joined |
| Forecast.DailyDataKeys | src/weather/forecast.py:207-218 | the dates of `daily_data` are exactly the dates of the items (the text of `dt_txt` before its first space) |
| Forecast.DailyDataDates | src/weather/forecast.py:210-212 | every entry of `daily_data` carries its own date |
| Forecast.DailyDataIsAbsorbed | src/weather/forecast.py:207-237 | a date's entry is its items, in order, absorbed into a fresh record, and it has at least one item |
| Forecast.AbsorbAllItems | src/weather/forecast.py:211-220 | a day's `raw_data.items` are its items in order |
| Forecast.AbsorbAllConditions | src/weather/forecast.py:236-237 | a day's labels are the distinct `weather[0].main` values of its items, in first-seen order |
| Forecast.AbsorbAllMin | src/weather/forecast.py:213-224 | `temperature_min` is set, is at most every item's `temp_min` and equals one of them |
| Forecast.AbsorbAllMax | src/weather/forecast.py:214-228 | `temperature_max` is set, is at least every item's `temp_max` and equals one of them |
| Forecast.AbsorbAllPrecipitation | src/weather/forecast.py:215-234 | `precipitation_probability` is at least 0 and at least `pop * 100` of every item that has `pop`, and it is 0 or one of those values |
| Forecast.OpenWeatherDates | src/weather/forecast.py:239-243 | record i carries the i-th of the emitted dates |
| Forecast.OpenWeatherOrder | src/weather/forecast.py:240-245 | min(days, number of dates) records come out, in strictly ascending date order (so no date twice), each with a date of the input |
| Forecast.OpenWeatherLeftOut | src/weather/forecast.py:240 | every input date that is not emitted is greater than every emitted one |
| Forecast.OpenWeatherRecords | src/weather/forecast.py:239-245 | each emitted record is the aggregate of exactly the items of its date |
| Forecast.OpenWeatherDay | src/weather/forecast.py:220-243 | an emitted record's raw items are its date's items, its conditions are their distinct labels joined with ", ", and its temperatures bound theirs |
| Forecast.FinishedDay | src/weather/forecast.py:236-243 | finishing an aggregated day keeps its items, joins its distinct labels and has both temperatures set and bounding the items' values |
| Strings.Less | src/weather/forecast.py:240 | Python's string order: code point by code point, a proper prefix first; it is a strict total order (LessIrreflexive, LessTransitive, LessTotal) |
| Strings.Sorted | src/weather/forecast.py:240 | `sorted` returns an ascending permutation of its input |
| Strings.SortedDistinct | src/weather/forecast.py:240 | sorting distinct strings gives a strictly ascending list of the same strings |
| Strings.FirstWord | src/weather/forecast.py:208 | the first word is a prefix without a space, followed in the text by a space unless it is the whole text |
| Strings.Join | src/weather/forecast.py:242 | `str.join`: the parts with the separator between consecutive ones; JoinSplit and JoinSnoc state its meaning |
| Strings.ReplaceAll | src/actions/email.py:81 | `str.replace` as the join of the split with the replacement; ReplaceAllIsJoinSplit, SplitPiecesFree and ReplaceAllAbsent state its meaning |
| Strings.JoinSplit | src/actions/email.py:81 | joining the pieces of a split with the separator gives back the text |
| Strings.ReplaceAllIsJoinSplit | src/actions/email.py:81 | `replace` cuts the text at every non-overlapping occurrence of the pattern, scanning from the left, and puts the replacement in each cut |
| Strings.SplitPiecesFree | src/actions/email.py:81 | no piece of the split contains the pattern, so no occurrence is left behind |
| Strings.ReplaceAllAbsent | src/actions/email.py:81 | a text without the pattern comes back unchanged |
| Strings.IntToString | src/conditions/evaluator.py:115 | `str(int)`: the decimal digits, with a minus sign for a negative number; ParseIntToString and IntToStringChars state its meaning |
| Strings.ParseIntToString | src/conditions/evaluator.py:115 | the decimal text of an integer reads back as that integer |
| Strings.IntToStringChars | src/conditions/evaluator.py:115 | the decimal text of an integer contains only digits and the minus sign |
| Strings.JoinSnoc | src/actions/email.py:44 | joining a list with one more part at the end adds the separator and that part to the join of the list |
| Email.Placeholder | src/actions/email.py:80 | the placeholder of a key is the key in braces |
| Email.Substituted | src/actions/email.py:78-82 | the template after each entry's placeholder is replaced by its value, entry by entry in context order; SubstitutedNoPlaceholders, SubstitutedStep and SubstitutedCons state its meaning |
| Email.EmailAction.constructor | src/actions/email.py:12-24 | the sender and the recipients are taken from the configuration |
| Email.EmailAction.SubstituteTemplate | src/actions/email.py:68-82 | the loop applies each entry's replacement in context order, each on the previous result |
| Email.EmailAction.Send | src/actions/email.py:26-45 | a missing context is an empty one; subject and body get the same substitution; `From` is the sender and `To` the recipients joined with ", " |
| Email.SubstitutedNoPlaceholders | src/actions/email.py:78-82 | a template with no placeholder of any context key, in particular any template with an empty context, comes back unchanged |
| Email.SubstitutedStep | src/actions/email.py:79-81 | each entry cuts the text at every occurrence of its placeholder, leaves no occurrence behind and puts the value in each cut |
| Email.RepeatedPlaceholder | src/actions/email.py:80-81 | a placeholder that appears twice is replaced both times |
| Email.SubstitutedCons | src/actions/email.py:79-81 | entries apply in context order: the first entry is replaced in the template, and the remaining entries then act on that result, so a value holding a later key's placeholder is substituted again and one holding an earlier key's is not |
| Email.ToHeader | src/actions/email.py:44 | a single recipient is the `To` header as it is, and each further recipient adds ", " and its address at the end |

## Left out

- HTTP fetching, the provider selection and the coordinate lookup in `src/weather/forecast.py` are network I/O and configuration plumbing. `src/main.py` is orchestration: argument parsing, YAML loading, the rule loop and exit codes.
- Reading and writing the state file and JSON (`_load_state`, `save_state`) are I/O. The model starts from an optional parsed document, where `None` means missing or corrupt, and `SaveState` yields the document to write.
- SMTP, MIME, login and the send exception handlers are foreign library calls. The SMTP settings (`smtp_host`, `smtp_port`, `use_ssl`, `username`, `password`) are therefore not fields of the model.
- All printed warnings are side effects only and are not modelled.
- `datetime.now()` is the `Clock` parameter. `datetime.fromisoformat(...).date()` is the `YYYY-MM-DD` prefix of the timestamp, which is the same date in the timestamp's own offset. Malformed timestamps, which raise in the source, are not modelled.
- `split()` on `dt_txt` is modelled as the text before the first space. Other whitespace, and leading whitespace, are not distinguished.
- Floating point: readings and probabilities are exact reals. The `inf`/`-inf` starting values of the OpenWeatherMap minimum and maximum are `None`, taken over by the first item. The rounding of `pop * 100` is not modelled.
- A missing required key (`weather_condition`, `weather_conditions`, `field`, `operator`, `value`, `date`, `temperature`, `main`, `weather`) raises `KeyError` in the source. In the model such keys are always present.
- A reading of a non-numeric type, which makes the comparison raise, is not modelled. Readings are `real` or null.
- `Email.EmailAction.Send`: context values are taken already rendered by `str(value)`, and Python's float and int rendering is not modelled.
- Negative `forecast_days` and `days`, which Python would slice from the end, are excluded by the `nat` type.
- A parsed state document without an `occurrences` key is not modelled. In the source it raises `KeyError` only when a first-occurrence condition is evaluated in season: the lookup of line 119 comes after the out-of-season return of lines 111-112.
- `save_state` writes back the whole loaded document (line 36), with any other top-level keys and any other fields of the occurrence records. `StateDocument` and `OccurrenceRecord` keep only `occurrences` and the `year`, `date` and `forecast_date` fields, so `SaveState` writes back only those.
- An optional key that is present with the value `null` is modelled as absent, because `Option` has one `None` for both. The source differs in these cases:
  - `forecast_days: null` makes the slice `forecast_data[:None]` scan the whole forecast; the model uses 1.
  - `all_must_match: null` is false in the source, so the combination is an OR; the model uses AND.
  - `type: null` is an unknown type in the source and is not-triggered; the model evaluates a threshold.
  - `shortForecast: null` makes `conditions` `None` in the source; the model uses the empty text.
  - `probabilityOfPrecipitation: null` makes the source raise `AttributeError`; the model uses 0.
  - `pop: null` passes the `'pop' in item` test and makes `None * 100` raise `TypeError` in the source; the model treats it as a missing `pop`.

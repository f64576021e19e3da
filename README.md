# Forecast aggregation of forecast-hub

forecast-hub is a browser weather dashboard. Its only algorithmic code is in
`fetchWeather`. That code turns the 3-hour samples of the weather API's
forecast list into one summary per calendar day, and the summaries for the
next five days are attached to the current-weather record as `forecast`.
This project models that aggregation in Dafny and proves what it computes.

- `Weather` (weather.dfy) holds the records:
  - a sample: `dt_txt`, `main.temp`, `main.humidity` and the `weather` array;
  - a condition: the (main, icon, description) triple;
  - a day's summary, and one forecast entry.

  `Math.round` is `Round`, which rounds halves towards +infinity.
- `DaySummarizer` (day_summarizer.dfy) is `processDayForecast`.
  - `ProcessDayForecast` is the `for` loop over the day's samples. It is
    proved against `DaySummaryOf`.
  - `DaySummaryOf` is defined by functions giving the loop state after the
    first `n` samples: running minimum and maximum, humidity sum, the
    `weatherCount` table and its keys in insertion order.
  - Lemmas prove the temperature bounds, the humidity mean (a missing
    humidity counts as 0), and the maximal frequency and tie-break of the
    predominant condition.
- `DayBucketer` (day_bucketer.dfy) groups the list by the date part of
  `dt_txt` and chooses the dates.
  - `GroupByDate` is the grouping loop.
  - `SelectDates` is `filter`/`sort`/`slice(0, 5)`, with JavaScript's
    string order `LexLess`.
- `ForecastAssembly` (forecast.dfy) is the `list || []` default and the
  per-date `map`, ending in the `forecast` array.
  - `BuildForecast` and `SummariseDays` are proved against the function
    `Forecast`.
  - Lemmas state which dates are chosen, what each entry holds, and when the
    computation fails.
- `Scenarios` (scenarios.dfy) works out concrete days.
- `Wrappers` and `Sequences` are generic helpers.

The loops take the source's own form: methods that update local state,
each proved equal to a specification function of its input. The selection
chain and the `map` are functions.

Two details of the code decide results that a reader might expect to go
the other way; the model follows the code.

- **Tie-break of the predominant condition.** One might expect the most
  frequent condition met first to win a tie. The reduce at
  forecast-hub/src/components/fetchWeather.js:31-33 compares with a strict
  `>` over the keys in insertion order, so a later key with an equal count
  replaces the one held. The winner is therefore the tied condition whose
  first occurrence is *latest*. `PredominantCondition` states this, and
  `Scenarios.TieGoesToLaterFirstSeen` works through the case rain-then-clouds
  → clouds.
- **The date of a sample.** The date is not a fixed 10-character prefix of
  `dt_txt`: the code takes the text before the first space
  (`split(" ")[0]`, line 114), or the whole text when there is none. `DateOf`
  models that.

**A sample without a first `weather` entry.** `processDayForecast` throws on
such a sample: line 25 reads `undefined`, and line 26 fails on
`weather.main`. The exception propagates out of `fetchWeather`. `Forecast`
models this as `Err(MissingCondition(date))`, naming the first
chosen date whose day holds such a sample. A day that is not chosen is never
summarised, so its samples cannot cause the error.

## Model

| member | source | states |
|---|---|---|
| Weather.Round | forecast-hub/src/components/fetchWeather.js:37-39 | `Math.round(x)` is the integer within one half of `x`, with a half rounded up |
| Weather.RoundMonotonic | forecast-hub/src/components/fetchWeather.js:37-38 | rounding keeps order, so rounded bounds still bound the rounded temperatures |
| DaySummarizer.DaySummaryOf | forecast-hub/src/components/fetchWeather.js:7-44 | the summary `processDayForecast` returns; its humidity is never null, and the lemmas below give the meaning of each field |
| DaySummarizer.Lower | forecast-hub/src/components/fetchWeather.js:8-18 | `Math.min` with +Infinity as `None`: the result is the accumulator or `t`, and no greater than either |
| DaySummarizer.Higher | forecast-hub/src/components/fetchWeather.js:9-19 | `Math.max` with -Infinity as `None`: the result is the accumulator or `t`, and no less than either |
| DaySummarizer.MinTemp | forecast-hub/src/components/fetchWeather.js:8-20 | `minTemp` after the first `n` samples; `MinTempIsLeast` states its meaning |
| DaySummarizer.MaxTemp | forecast-hub/src/components/fetchWeather.js:9-20 | `maxTemp` after the first `n` samples; `MaxTempIsGreatest` states its meaning |
| DaySummarizer.RoundTemp | forecast-hub/src/components/fetchWeather.js:37-38 | null exactly when the temperature is missing (not finite), otherwise within one half of it |
| DaySummarizer.HumiditySum | forecast-hub/src/components/fetchWeather.js:10-21 | `humiditySum` after the first `n` samples, a missing humidity adding 0; the humidity lemmas state its meaning |
| DaySummarizer.MeanHumidity | forecast-hub/src/components/fetchWeather.js:39 | non-null exactly when `count` is positive, and then within one half of `humiditySum / count` |
| DaySummarizer.Counts | forecast-hub/src/components/fetchWeather.js:12-27 | `weatherCount` after the first `n` samples: every counted condition has a count between 1 and `n` |
| DaySummarizer.KeyOrder | forecast-hub/src/components/fetchWeather.js:27-31 | `Object.keys(weatherCount)` after the first `n` samples: at most one key per sample |
| DaySummarizer.ProcessDayForecast | forecast-hub/src/components/fetchWeather.js:7-44 | for a non-empty day whose samples all have a first `weather` entry, the loop returns `DaySummaryOf(items)`: the rounded min and max, the rounded mean humidity and the predominant condition whose meaning the lemmas below prove |
| DaySummarizer.MinTempIsLeast | forecast-hub/src/components/fetchWeather.js:8-20 | the running minimum is `None` (still +Infinity) iff no sample has a numeric temperature; otherwise it is one of those temperatures and at most each of them |
| DaySummarizer.MaxTempIsGreatest | forecast-hub/src/components/fetchWeather.js:9-20 | the running maximum is `None` (still -Infinity) iff no sample has a numeric temperature; otherwise it is one of those temperatures and at least each of them |
| DaySummarizer.TemperatureSummary | forecast-hub/src/components/fetchWeather.js:8-38 | both summary temperatures are null exactly when no sample has a numeric temperature; otherwise `minTemp <= maxTemp`, each is the rounding of some sample's temperature, and every rounded temperature lies between them |
| DaySummarizer.HumiditySumBounds | forecast-hub/src/components/fetchWeather.js:10-21 | with humidities that are percentages, the sum over `n` samples lies in [0, 100·n] |
| DaySummarizer.HumidityInRange | forecast-hub/src/components/fetchWeather.js:10-39 | the humidity of every non-empty day is non-null; when every reported humidity is a percentage, so is the rounded mean |
| DaySummarizer.ZeroFilledHumiditySum | forecast-hub/src/components/fetchWeather.js:21 | filling a missing humidity with 0 leaves every prefix sum unchanged |
| DaySummarizer.MissingHumidityCountsAsZero | forecast-hub/src/components/fetchWeather.js:21-39 | a sample without humidity still counts in the divisor: the day's humidity equals that of the same day with 0 reported |
| DaySummarizer.HumiditySumOfSteadyDay | forecast-hub/src/components/fetchWeather.js:10-21 | `n` samples all reporting `x` sum to `n·x` |
| DaySummarizer.HumidityOfSteadyDay | forecast-hub/src/components/fetchWeather.js:21-39 | a day whose samples all report the same whole humidity has exactly that humidity |
| DaySummarizer.ConditionsAt | forecast-hub/src/components/fetchWeather.js:25 | the keyed conditions are the samples' first `weather` entries, one per sample, in order |
| DaySummarizer.KeysAreCounted | forecast-hub/src/components/fetchWeather.js:27-31 | `Object.keys(weatherCount)` lists exactly the counted conditions, and is non-empty once a sample is counted |
| DaySummarizer.CountedAreMet | forecast-hub/src/components/fetchWeather.js:25-27 | a condition has a count iff some sample has it as its first `weather` entry |
| DaySummarizer.CountsAreFrequencies | forecast-hub/src/components/fetchWeather.js:25-27 | `weatherCount` maps every condition met, and no other, to its number of occurrences |
| DaySummarizer.KeyOrderIsFirstOccurrence | forecast-hub/src/components/fetchWeather.js:27-31 | the keys enumerate the distinct conditions in order of first occurrence |
| DaySummarizer.Predominant | forecast-hub/src/components/fetchWeather.js:31-33 | the reduce returns one of the keys |
| DaySummarizer.PredominantIsLatestMaximum | forecast-hub/src/components/fetchWeather.js:31-33 | the reduce returns a key with the highest count, and every other key with that count comes before it (strict `>`) |
| DaySummarizer.PredominantOfOccurrences | forecast-hub/src/components/fetchWeather.js:24-33 | over first-occurrence keys with occurrence counts, the result is a most frequent element, and every equally frequent element first occurs earlier |
| DaySummarizer.PredominantCondition | forecast-hub/src/components/fetchWeather.js:24-42 | the day's condition is some sample's first `weather` entry; no condition is more frequent; every equally frequent one first occurs earlier in the day |
| Sequences.Distinct | forecast-hub/src/components/fetchWeather.js:27-31 | the insertion order of object keys: no more keys than elements met |
| Sequences.DistinctMembers | forecast-hub/src/components/fetchWeather.js:27-31 | the insertion-ordered key list holds exactly the elements met |
| Sequences.DistinctElements | forecast-hub/src/components/fetchWeather.js:27-31 | the insertion-ordered key list holds each element once, in increasing order of first occurrence |
| Scenarios.SampleDayTemperatures | forecast-hub/src/components/fetchWeather.js:15-38 | a sample without a temperature is skipped, and 20.4 and 25.5 round to 20 and 26 |
| Scenarios.SampleDayHumidity | forecast-hub/src/components/fetchWeather.js:21-39 | humidities 60, missing, 70 give 43, not 65 |
| Scenarios.SampleDayCondition | forecast-hub/src/components/fetchWeather.js:24-34 | a condition seen twice beats one seen once |
| Scenarios.TieGoesToLaterFirstSeen | forecast-hub/src/components/fetchWeather.js:31-33 | with rain then clouds once each, clouds wins |
| DayBucketer.DateOf | forecast-hub/src/components/fetchWeather.js:114 | the date is the prefix of `dt_txt` up to the first space, or all of it when it has none |
| DayBucketer.Groups | forecast-hub/src/components/fetchWeather.js:111-117 | `groups` after the first `n` samples: every group holds between 1 and `n` samples |
| DayBucketer.DateKeys | forecast-hub/src/components/fetchWeather.js:111-125 | `Object.keys(groups)` after the first `n` samples: at most one key per sample |
| DayBucketer.GroupByDate | forecast-hub/src/components/fetchWeather.js:111-117 | the loop builds the date-to-samples table and its keys in insertion order |
| DayBucketer.GroupsAreSamplesOn | forecast-hub/src/components/fetchWeather.js:111-117 | each group holds exactly its date's samples, in list order; a group exists iff it is non-empty |
| DayBucketer.GroupForEveryDate | forecast-hub/src/components/fetchWeather.js:111-117 | there is a group for a date iff some sample has that date |
| DayBucketer.DateKeysAreGroups | forecast-hub/src/components/fetchWeather.js:115-125 | `Object.keys(groups)` lists each group's date exactly once |
| DayBucketer.PositionsIncrease | forecast-hub/src/components/fetchWeather.js:112-116 | the positions of a date's samples are in-range and strictly increasing |
| DayBucketer.PositionsOfDate | forecast-hub/src/components/fetchWeather.js:112-116 | the positions are exactly those of the samples with that date |
| DayBucketer.SamplesOnKeepOrder | forecast-hub/src/components/fetchWeather.js:112-116 | the k-th sample of a group is the sample at the k-th of those increasing positions: the original relative order is kept |
| DayBucketer.SamplesOnMembers | forecast-hub/src/components/fetchWeather.js:112-116 | a group's samples all have its date, and every sample with that date is in it |
| DayBucketer.SampleInOneGroup | forecast-hub/src/components/fetchWeather.js:111-117 | each sample lands in the group of its own date and in no other |
| DayBucketer.LexLess | forecast-hub/src/components/fetchWeather.js:127 | `a < b` on strings as `.sort()` compares them: the first differing character decides, and a proper prefix comes first |
| DayBucketer.LexLessIrreflexive | forecast-hub/src/components/fetchWeather.js:127 | no date sorts before itself |
| DayBucketer.LexLessTransitive | forecast-hub/src/components/fetchWeather.js:127 | the string order is transitive |
| DayBucketer.LexLessTotal | forecast-hub/src/components/fetchWeather.js:127 | of two different dates exactly one sorts first |
| DayBucketer.PrefixIsLess | forecast-hub/src/components/fetchWeather.js:127 | a proper prefix sorts first |
| DayBucketer.Insert | forecast-hub/src/components/fetchWeather.js:127 | one insertion step of the sort: the result is one longer and contains the inserted date |
| DayBucketer.Sort | forecast-hub/src/components/fetchWeather.js:127 | `.sort()`: as many dates out as in; `SortIsPermutation` and `SortIsAscending` give contents and order |
| DayBucketer.InsertIsPermutation | forecast-hub/src/components/fetchWeather.js:127 | inserting adds exactly the one element |
| DayBucketer.InsertKeepsAscending | forecast-hub/src/components/fetchWeather.js:127 | inserting a new element into an ascending list keeps it ascending |
| DayBucketer.SortIsPermutation | forecast-hub/src/components/fetchWeather.js:127 | `.sort()` rearranges its input without adding or losing any element |
| DayBucketer.SortIsAscending | forecast-hub/src/components/fetchWeather.js:127 | `.sort()` of distinct dates is strictly ascending |
| DayBucketer.Without | forecast-hub/src/components/fetchWeather.js:126 | `.filter((d) => d !== todayStr)`: no more dates than given, and never today |
| DayBucketer.WithoutToday | forecast-hub/src/components/fetchWeather.js:126 | the filter keeps exactly the dates other than today, without creating duplicates |
| DayBucketer.SortedCandidates | forecast-hub/src/components/fetchWeather.js:125-127 | the sorted candidates are as many as the filtered dates, are exactly the keys other than today, and are strictly ascending |
| DayBucketer.SelectDates | forecast-hub/src/components/fetchWeather.js:125-128 | `filter`, `sort` and `slice(0, 5)`: at most five dates, never today |
| DayBucketer.SelectedDates | forecast-hub/src/components/fetchWeather.js:125-128 | at most five dates, each a key and not today, strictly ascending; a qualifying date left out means five were kept, all earlier; with at most five qualifying dates all are kept |
| ForecastAssembly.ChosenDatesHaveGroups | forecast-hub/src/components/fetchWeather.js:125-132 | every chosen date has a non-empty group, which is that date's samples |
| ForecastAssembly.SummariseFrom | forecast-hub/src/components/fetchWeather.js:131-139 | `dates.map(...)` from position `i`: when it succeeds, one entry per remaining date |
| ForecastAssembly.Forecast | forecast-hub/src/components/fetchWeather.js:107-142 | the `forecast` array for a list and today: when it succeeds, at most five entries |
| ForecastAssembly.SummariseDays | forecast-hub/src/components/fetchWeather.js:131-139 | the map returns, in date order, each date with the summary of its group, or the error of the first day that throws |
| ForecastAssembly.BuildForecast | forecast-hub/src/components/fetchWeather.js:107-142 | the default, grouping, selection and map together yield `Forecast(list, today)` |
| ForecastAssembly.SummariseFromSucceeds | forecast-hub/src/components/fetchWeather.js:131-139 | the map succeeds iff every remaining day has a first `weather` entry in each sample |
| ForecastAssembly.SummariseFromEntry | forecast-hub/src/components/fetchWeather.js:131-139 | when every remaining day has a first `weather` entry in each sample, the map succeeds with one entry per date, and entry k is date k with the summary of its group |
| ForecastAssembly.SummariseFromFailure | forecast-hub/src/components/fetchWeather.js:131-139 | a failing map fails at the first date whose day has a sample without a condition |
| ForecastAssembly.ChosenDates | forecast-hub/src/components/fetchWeather.js:111-128 | the forecast dates: at most five, strictly ascending, each some sample's date and not today; a sample's other date left out means five earlier dates were kept |
| ForecastAssembly.ForecastSucceeds | forecast-hub/src/components/fetchWeather.js:107-142 | every chosen day is non-empty, and a forecast is produced iff every chosen day has conditions throughout |
| ForecastAssembly.ForecastEntry | forecast-hub/src/components/fetchWeather.js:125-142 | a forecast has one entry per chosen date, in order, each carrying the summary of that date's samples |
| ForecastAssembly.ForecastFailure | forecast-hub/src/components/fetchWeather.js:131-139 | a failure names the first chosen date whose day has a sample without a condition |
| ForecastAssembly.NoOtherDayNoForecast | forecast-hub/src/components/fetchWeather.js:107-142 | a missing list, or one whose samples all fall on today, gives an empty forecast |

## Left out

- The API key check, URL building, the two `fetch` calls and their
  `Promise.all`, and `.json()` parsing (lines 72-104) are network I/O and
  concurrency. When the forecast request fails, the code attaches
  `forecast = []` (lines 95-100); that branch is not modelled.
- Today's date is derived as `new Date(currentData.dt * 1000).toISOString()`
  cut at `T` (lines 120-122). It is a library call, so the model takes
  `today` as an input.
- The other fields of `currentData` pass through untouched and are not
  modelled. Only the `forecast` array attached at line 142 is.
- Temperatures and humidities are exact reals, not IEEE doubles.
  - NaN, overflow and rounding error are not modelled.
  - A missing or non-numeric `main.temp` is `None`, and so is the ±Infinity
    the running minimum and maximum start from.
  - `main.humidity` being `null`/`undefined` is `None`. A non-numeric
    humidity added to the sum is not modelled.
- The condition key is the (main, icon, description) triple, not the
  `|`-joined string that is split again (lines 26, 34). A description that
  itself contains `|` would be mangled by that encoding; the model does not
  reproduce this.
- Strings are sequences of characters compared one by one. JavaScript
  compares UTF-16 code units; the two orders differ only beyond the Basic
  Multilingual Plane, which dates never reach.
- JavaScript objects give integer-like keys first and treat inherited names
  such as `constructor` specially in `!groups[date]`. Both are left out:
  dates and condition keys are neither.
- Every sample is assumed to have a `dt_txt` string. A sample without one
  would make `split` throw at line 114.
- `push` appends to a group inside a shared object. The model rebuilds the
  table as a value, so aliasing of the group arrays is not modelled.
- DayBucketer.SortIsAscending: stated only for input without duplicates.
  The keys of `groups` never repeat, so that is the only input `.sort()`
  receives here.

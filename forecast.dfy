/**
 * The pure part of `fetchWeather`: from the forecast list and today's date
 * to the `forecast` array of daily summaries attached to the current
 * weather.
 */
module ForecastAssembly {
  import opened Wrappers
  import opened Sequences
  import opened Weather
  import opened DaySummarizer
  import opened DayBucketer

  /**
   * `processDayForecast` reads the first `weather` entry of every sample of
   * the day; on a sample without one it throws, and so does `fetchWeather`.
   */
  datatype Error = MissingCondition(date: string)

  /** The samples of `date` among all of `samples`: the group of that date. */
  function DayGroup(samples: seq<Sample>, date: string): seq<Sample> {
    SamplesOn(samples, |samples|, date)
  }

  /** `dates`: the dates of the forecast, chosen among the keys of `groups`. */
  function ForecastDates(samples: seq<Sample>, today: string): seq<string> {
    SelectDates(DateKeys(samples, |samples|), today)
  }

  /**
   * Every chosen date has a group, and it is not empty: only a date some
   * sample has becomes a key.
   */
  lemma ChosenDatesHaveGroups(samples: seq<Sample>, today: string)
    ensures forall d :: d in ForecastDates(samples, today) ==>
      d in Groups(samples, |samples|) && Groups(samples, |samples|)[d] == DayGroup(samples, d) && DayGroup(samples, d) != []
  {
    var n := |samples|;
    DateKeysAreGroups(samples, n);
    GroupsAreSamplesOn(samples, n);
    SelectedDates(DateKeys(samples, n), today);
  }

  /** `done` followed by the entries of `r`, or the error of `r`. */
  function Prepend(done: seq<DayForecast>, r: Result<seq<DayForecast>, Error>): Result<seq<DayForecast>, Error> {
    match r
    case Err(e) => Err(e)
    case Ok(rest) => Ok(done + rest)
  }

  lemma PrependNothing(r: Result<seq<DayForecast>, Error>)
    ensures Prepend([], r) == r
  {
    if r.Ok? {
      assert [] + r.value == r.value;
    }
  }

  lemma PrependTwice(done: seq<DayForecast>, entry: DayForecast, r: Result<seq<DayForecast>, Error>)
    ensures Prepend(done, Prepend([entry], r)) == Prepend(done + [entry], r)
  {
    if r.Ok? {
      assert done + ([entry] + r.value) == (done + [entry]) + r.value;
    }
  }

  /**
   * `dates.map(...)` from position `i` on: one entry per date, or the error
   * of the first day that throws.
   */
  function SummariseFrom(dates: seq<string>, groups: map<string, seq<Sample>>, i: nat): (r: Result<seq<DayForecast>, Error>)
    requires i <= |dates|
    requires forall d :: d in dates ==> d in groups && groups[d] != []
    decreases |dates| - i
    ensures r.Ok? ==> |r.value| == |dates| - i
  {
    if i == |dates| then Ok([])
    else
      var items := groups[dates[i]];
      if !AllHaveCondition(items) then Err(MissingCondition(dates[i]))
      else Prepend([DayForecast(dates[i], DaySummaryOf(items))], SummariseFrom(dates, groups, i + 1))
  }

  /**
   * The `forecast` array for `list` (`forecastData.list`, possibly missing)
   * when today is `today`.
   */
  function Forecast(list: Option<seq<Sample>>, today: string): (r: Result<seq<DayForecast>, Error>)
    ensures r.Ok? ==> |r.value| <= MaxForecastDays
  {
    var samples := list.GetOr([]);
    ChosenDatesHaveGroups(samples, today);
    SummariseFrom(ForecastDates(samples, today), Groups(samples, |samples|), 0)
  }

  /**
   * `dates.map((date) => ({date, ...processDayForecast(groups[date])}))`:
   * each date with the summary of its day, in order.
   */
  method SummariseDays(dates: seq<string>, groups: map<string, seq<Sample>>) returns (daily: Result<seq<DayForecast>, Error>)
    requires forall d :: d in dates ==> d in groups && groups[d] != []
    ensures daily == SummariseFrom(dates, groups, 0)
  {
    var done: seq<DayForecast> := [];
    PrependNothing(SummariseFrom(dates, groups, 0));
    for i := 0 to |dates|
      invariant SummariseFrom(dates, groups, 0) == Prepend(done, SummariseFrom(dates, groups, i))
    {
      var date := dates[i];
      var items := groups[date];
      if !AllHaveCondition(items) {
        return Err(MissingCondition(date));
      }
      var daySummary := ProcessDayForecast(items);
      var entry := DayForecast(date, daySummary);
      PrependTwice(done, entry, SummariseFrom(dates, groups, i + 1));
      done := done + [entry];
    }
    daily := Ok(done);
    assert done + [] == done;
  }

  /**
   * Lines 107 to 142 of `fetchWeather`: default the list, group it by date,
   * choose the dates and summarise each of their days.
   */
  method BuildForecast(list: Option<seq<Sample>>, today: string) returns (forecast: Result<seq<DayForecast>, Error>)
    ensures forecast == Forecast(list, today)
  {
    var samples := list.GetOr([]);
    var groups, keys := GroupByDate(samples);
    var dates := SelectDates(keys, today);
    ChosenDatesHaveGroups(samples, today);
    forecast := SummariseDays(dates, groups);
  }

  /** The map succeeds exactly when every day from position `i` on has a condition in each sample. */
  lemma {:induction false} SummariseFromSucceeds(dates: seq<string>, groups: map<string, seq<Sample>>, i: nat)
    requires i <= |dates|
    requires forall d :: d in dates ==> d in groups && groups[d] != []
    decreases |dates| - i
    ensures SummariseFrom(dates, groups, i).Ok? <==> forall k :: i <= k < |dates| ==> AllHaveCondition(groups[dates[k]])
  {
    if i < |dates| {
      SummariseFromSucceeds(dates, groups, i + 1);
      var rest := SummariseFrom(dates, groups, i + 1);
      if AllHaveCondition(groups[dates[i]]) {
        assert SummariseFrom(dates, groups, i).Ok? == rest.Ok?;
        assert (forall k :: i <= k < |dates| ==> AllHaveCondition(groups[dates[k]])) ==
          (forall k :: i + 1 <= k < |dates| ==> AllHaveCondition(groups[dates[k]]));
      } else {
        assert SummariseFrom(dates, groups, i).Err?;
      }
    }
  }

  /**
   * When every day from position `i` on has a condition in each sample, the
   * map succeeds with one entry per date, and the entry of date `k` is that
   * date with the summary of its group.
   */
  lemma {:induction false} SummariseFromEntry(dates: seq<string>, groups: map<string, seq<Sample>>, i: nat, k: nat)
    requires i <= k < |dates|
    requires forall d :: d in dates ==> d in groups && groups[d] != []
    requires forall j :: i <= j < |dates| ==> AllHaveCondition(groups[dates[j]])
    decreases |dates| - i
    ensures SummariseFrom(dates, groups, i).Ok?
    ensures |SummariseFrom(dates, groups, i).value| == |dates| - i
    ensures SummariseFrom(dates, groups, i).value[k - i] == DayForecast(dates[k], DaySummaryOf(groups[dates[k]]))
  {
    var entry := DayForecast(dates[i], DaySummaryOf(groups[dates[i]]));
    var rest := SummariseFrom(dates, groups, i + 1);
    assert SummariseFrom(dates, groups, i) == Prepend([entry], rest);
    if i + 1 < |dates| {
      SummariseFromEntry(dates, groups, i + 1, if k == i then i + 1 else k);
    } else {
      assert rest == Ok([]);
    }
    assert SummariseFrom(dates, groups, i).value == [entry] + rest.value;
  }

  /**
   * When the map fails, it fails at the first date from position `i` on
   * whose group has a sample without a condition.
   */
  lemma {:induction false} SummariseFromFailure(dates: seq<string>, groups: map<string, seq<Sample>>, i: nat)
    requires i <= |dates|
    requires forall d :: d in dates ==> d in groups && groups[d] != []
    requires SummariseFrom(dates, groups, i).Err?
    decreases |dates| - i
    ensures exists k :: (i <= k < |dates| && SummariseFrom(dates, groups, i).error == MissingCondition(dates[k]) &&
      !AllHaveCondition(groups[dates[k]]) &&
      forall j :: i <= j < k ==> AllHaveCondition(groups[dates[j]]))
  {
    if i < |dates| && AllHaveCondition(groups[dates[i]]) {
      SummariseFromFailure(dates, groups, i + 1);
    }
  }

  /**
   * The chosen dates: at most five, strictly ascending, each the date of
   * some sample and none of them today; a date of a sample that is not
   * today and not chosen is later than all five chosen.
   */
  lemma ChosenDates(samples: seq<Sample>, today: string)
    ensures |ForecastDates(samples, today)| <= MaxForecastDays
    ensures StrictlyAscending(ForecastDates(samples, today))
    ensures forall d :: d in ForecastDates(samples, today) ==>
      d != today && exists i :: 0 <= i < |samples| && DateOf(samples[i].dtTxt) == d
    ensures forall i ::
      (0 <= i < |samples| && DateOf(samples[i].dtTxt) != today &&
       DateOf(samples[i].dtTxt) !in ForecastDates(samples, today)) ==>
      |ForecastDates(samples, today)| == MaxForecastDays &&
      forall e :: e in ForecastDates(samples, today) ==> LexLess(e, DateOf(samples[i].dtTxt))
  {
    var n := |samples|;
    var keys := DateKeys(samples, n);
    DateKeysAreGroups(samples, n);
    GroupForEveryDate(samples, n);
    SelectedDates(keys, today);
    forall i | 0 <= i < n
      ensures DateOf(samples[i].dtTxt) in keys
    {
    }
  }

  /**
   * The forecast is produced exactly when every chosen day has a condition
   * in each of its samples; it then has one entry per chosen date.
   */
  lemma ForecastSucceeds(samples: seq<Sample>, today: string)
    ensures forall d :: d in ForecastDates(samples, today) ==> DayGroup(samples, d) != []
    ensures Forecast(Some(samples), today).Ok? <==>
      forall k :: 0 <= k < |ForecastDates(samples, today)| ==>
        AllHaveCondition(DayGroup(samples, ForecastDates(samples, today)[k]))
  {
    var dates, groups := ForecastDates(samples, today), Groups(samples, |samples|);
    ChosenDatesHaveGroups(samples, today);
    SummariseFromSucceeds(dates, groups, 0);
  }

  /**
   * Entry `k` of the forecast is the `k`-th chosen date with the summary of
   * the samples of that date, in their original order.
   */
  lemma ForecastEntry(samples: seq<Sample>, today: string, k: nat)
    requires Forecast(Some(samples), today).Ok?
    requires k < |ForecastDates(samples, today)|
    ensures |Forecast(Some(samples), today).value| == |ForecastDates(samples, today)|
    ensures DayGroup(samples, ForecastDates(samples, today)[k]) != []
    ensures AllHaveCondition(DayGroup(samples, ForecastDates(samples, today)[k]))
    ensures Forecast(Some(samples), today).value[k] ==
      DayForecast(ForecastDates(samples, today)[k], DaySummaryOf(DayGroup(samples, ForecastDates(samples, today)[k])))
  {
    var dates, groups := ForecastDates(samples, today), Groups(samples, |samples|);
    ChosenDatesHaveGroups(samples, today);
    assert Forecast(Some(samples), today) == SummariseFrom(dates, groups, 0);
    SummariseFromSucceeds(dates, groups, 0);
    SummariseFromEntry(dates, groups, 0, k);
    assert groups[dates[k]] == DayGroup(samples, dates[k]) by {
      assert dates[k] in dates;
    }
  }

  /**
   * When the forecast fails, it fails at the first chosen date whose day
   * has a sample without a condition.
   */
  lemma ForecastFailure(samples: seq<Sample>, today: string)
    requires Forecast(Some(samples), today).Err?
    ensures exists k :: (0 <= k < |ForecastDates(samples, today)| &&
      Forecast(Some(samples), today).error == MissingCondition(ForecastDates(samples, today)[k]) &&
      !AllHaveCondition(DayGroup(samples, ForecastDates(samples, today)[k])) &&
      forall j :: 0 <= j < k ==> AllHaveCondition(DayGroup(samples, ForecastDates(samples, today)[j])))
  {
    var dates, groups := ForecastDates(samples, today), Groups(samples, |samples|);
    ChosenDatesHaveGroups(samples, today);
    SummariseFromFailure(dates, groups, 0);
  }

  /**
   * Without a list, or with one whose samples all fall on today, the
   * forecast is empty.
   */
  lemma NoOtherDayNoForecast(list: Option<seq<Sample>>, today: string)
    requires forall s :: s in list.GetOr([]) ==> DateOf(s.dtTxt) == today
    ensures Forecast(list, today) == Ok([])
  {
    var samples := list.GetOr([]);
    var dates := ForecastDates(samples, today);
    ChosenDates(samples, today);
    forall i | 0 <= i < |samples|
      ensures DateOf(samples[i].dtTxt) == today
    {
      assert samples[i] in samples;
    }
    FirstIsMember(dates);
  }
}

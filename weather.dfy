/**
 * The records the forecast aggregation reads and produces: a 3-hour sample
 * from the forecast list and the daily summary built from a day of them.
 */
module Weather {
  import opened Wrappers

  /** One entry of a sample's `weather` array: category, icon code and description. */
  datatype Condition = Condition(main: string, icon: string, description: string)

  /**
   * One 3-hour sample: `dt_txt`, `main.temp` and `main.humidity` (either may
   * be missing or non-numeric, both read as `None`) and the `weather` array.
   */
  datatype Sample = Sample(
    dtTxt: string,
    temp: Option<real>,
    humidity: Option<real>,
    weather: seq<Condition>)

  /** The summary of one day; `None` stands for JavaScript's `null`. */
  datatype DaySummary = DaySummary(
    minTemp: Option<int>,
    maxTemp: Option<int>,
    humidity: Option<int>,
    condition: Condition)

  /** One entry of the `forecast` array: the date and that day's summary. */
  datatype DayForecast = DayForecast(date: string, summary: DaySummary)

  /** `Math.round`: the nearest integer, halves rounded towards +infinity. */
  function Round(x: real): (n: int)
    ensures x - 0.5 < n as real <= x + 0.5
  {
    (x + 0.5).Floor
  }

  lemma RoundMonotonic(x: real, y: real)
    requires x <= y
    ensures Round(x) <= Round(y)
  {
    assert Round(x) as real <= x + 0.5 <= y + 0.5 < Round(y) as real + 1.0;
  }
}

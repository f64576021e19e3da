/**
 * Worked days: the summary of small concrete days, spelling out what the
 * general lemmas of the summariser promise.
 */
module Scenarios {
  import opened Wrappers
  import opened Weather
  import opened DaySummarizer

  const Rain := Condition("Rain", "10d", "light rain")
  const Clouds := Condition("Clouds", "04d", "overcast clouds")

  /** A sample of 28 August 2025 at `time` with a single condition. */
  function At(time: string, temp: Option<real>, humidity: Option<real>, c: Condition): Sample {
    Sample("2025-08-28 " + time, temp, humidity, [c])
  }

  /** Three samples; the middle one reports neither temperature nor humidity. */
  function SampleDay(): seq<Sample> {
    [At("00:00:00", Some(20.4), Some(60.0), Rain), At("03:00:00", None, None, Rain),
     At("06:00:00", Some(25.5), Some(70.0), Clouds)]
  }

  /** The sample without a temperature is skipped: 20.4 rounds to 20, 25.5 up to 26. */
  lemma SampleDayTemperatures()
    ensures DaySummaryOf(SampleDay()).minTemp == Some(20)
    ensures DaySummaryOf(SampleDay()).maxTemp == Some(26)
  {
    var items := SampleDay();
    assert items[0].temp == Some(20.4) && items[1].temp.None? && items[2].temp == Some(25.5);
    assert MinTemp(items, 2) == Some(20.4);
    assert MaxTemp(items, 2) == Some(20.4);
    assert MinTemp(items, 3) == Some(20.4);
    assert MaxTemp(items, 3) == Some(25.5);
  }

  /** The missing humidity counts as 0 over three samples: round(130 / 3) is 43, not 65. */
  lemma SampleDayHumidity()
    ensures DaySummaryOf(SampleDay()).humidity == Some(43)
  {
    var items := SampleDay();
    assert items[0].humidity == Some(60.0) && items[1].humidity.None? && items[2].humidity == Some(70.0);
    assert HumiditySum(items, 2) == 60.0;
    assert HumiditySum(items, 3) == 130.0;
    assert Round(130.0 / 3.0) == 43;
  }

  /** Rain, seen twice, outnumbers the clouds seen once. */
  lemma SampleDayCondition()
    ensures DaySummaryOf(SampleDay()).condition == Rain
  {
    var items := SampleDay();
    assert Rain != Clouds;
    assert items[0].weather[0] == Rain && items[1].weather[0] == Rain && items[2].weather[0] == Clouds;
    assert Counts(items, 2) == map[Rain := 2];
    assert Counts(items, 3) == map[Rain := 2, Clouds := 1];
    assert KeyOrder(items, 2) == [Rain];
    assert KeyOrder(items, 3) == [Rain, Clouds];
    assert Predominant([Rain, Clouds], Counts(items, 3)) == Rain;
  }

  /** Rain first, then clouds: each condition is seen once. */
  function TiedDay(): seq<Sample> {
    [At("00:00:00", Some(20.0), Some(50.0), Rain), At("03:00:00", Some(21.0), Some(50.0), Clouds)]
  }

  /** On a tie the condition first seen later wins: clouds, not rain. */
  lemma TieGoesToLaterFirstSeen()
    ensures DaySummaryOf(TiedDay()).condition == Clouds
  {
    var items := TiedDay();
    assert Rain != Clouds;
    assert items[0].weather[0] == Rain && items[1].weather[0] == Clouds;
    assert Counts(items, 1) == map[Rain := 1];
    assert Counts(items, 2) == map[Rain := 1, Clouds := 1];
    assert KeyOrder(items, 1) == [Rain];
    assert KeyOrder(items, 2) == [Rain, Clouds];
    assert Predominant([Rain, Clouds], Counts(items, 2)) == Clouds;
  }
}

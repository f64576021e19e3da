/**
 * Reduction of one day's 3-hour samples to a daily summary
 * (`processDayForecast`): lowest and highest temperature, mean humidity and
 * the predominant weather condition.
 *
 * The loop state after the first `n` samples is described by functions of
 * `items` and `n` (`MinTemp`, `MaxTemp`, `HumiditySum`, `Counts`,
 * `KeyOrder`); lemmas say what each of them means.
 */
module DaySummarizer {
  import opened Wrappers
  import opened Sequences
  import opened Weather

  /** The sample has a first `weather` entry to read. */
  predicate HasCondition(s: Sample) {
    s.weather != []
  }

  predicate AllHaveCondition(items: seq<Sample>) {
    forall i :: 0 <= i < |items| ==> HasCondition(items[i])
  }

  /** `Math.min(acc, t)`, where `None` stands for `Number.POSITIVE_INFINITY`. */
  function Lower(acc: Option<real>, t: real): (r: Option<real>)
    ensures r == acc || r == Some(t)
    ensures r.Some? && r.value <= t && (acc.Some? ==> r.value <= acc.value)
  {
    if acc.Some? && acc.value <= t then acc else Some(t)
  }

  /** `Math.max(acc, t)`, where `None` stands for `Number.NEGATIVE_INFINITY`. */
  function Higher(acc: Option<real>, t: real): (r: Option<real>)
    ensures r == acc || r == Some(t)
    ensures r.Some? && t <= r.value && (acc.Some? ==> acc.value <= r.value)
  {
    if acc.Some? && acc.value >= t then acc else Some(t)
  }

  /**
   * `minTemp` after the first `n` samples: the running `Math.min` over the
   * numeric temperatures, `None` while it is still `Number.POSITIVE_INFINITY`.
   */
  function MinTemp(items: seq<Sample>, n: nat): Option<real>
    requires n <= |items|
  {
    if n == 0 then None
    else
      var acc, t := MinTemp(items, n - 1), items[n - 1].temp;
      if t.None? then acc else Lower(acc, t.value)
  }

  /**
   * `maxTemp` after the first `n` samples: the running `Math.max` over the
   * numeric temperatures, `None` while it is still `Number.NEGATIVE_INFINITY`.
   */
  function MaxTemp(items: seq<Sample>, n: nat): Option<real>
    requires n <= |items|
  {
    if n == 0 then None
    else
      var acc, t := MaxTemp(items, n - 1), items[n - 1].temp;
      if t.None? then acc else Higher(acc, t.value)
  }

  /**
   * `MinTemp` is the least numeric temperature among the first `n` samples,
   * and is missing exactly when none of them has one.
   */
  lemma {:induction false} MinTempIsLeast(items: seq<Sample>, n: nat)
    requires n <= |items|
    ensures MinTemp(items, n).None? <==> forall i :: 0 <= i < n ==> items[i].temp.None?
    ensures MinTemp(items, n).Some? ==> exists i :: 0 <= i < n && items[i].temp == MinTemp(items, n)
    ensures forall i :: 0 <= i < n && items[i].temp.Some? ==>
      MinTemp(items, n).Some? && MinTemp(items, n).value <= items[i].temp.value
  {
    if n > 0 {
      MinTempIsLeast(items, n - 1);
    }
  }

  /**
   * `MaxTemp` is the greatest numeric temperature among the first `n`
   * samples, and is missing exactly when none of them has one.
   */
  lemma {:induction false} MaxTempIsGreatest(items: seq<Sample>, n: nat)
    requires n <= |items|
    ensures MaxTemp(items, n).None? <==> forall i :: 0 <= i < n ==> items[i].temp.None?
    ensures MaxTemp(items, n).Some? ==> exists i :: 0 <= i < n && items[i].temp == MaxTemp(items, n)
    ensures forall i :: 0 <= i < n && items[i].temp.Some? ==>
      MaxTemp(items, n).Some? && items[i].temp.value <= MaxTemp(items, n).value
  {
    if n > 0 {
      MaxTempIsGreatest(items, n - 1);
    }
  }

  /** `Number.isFinite(t) ? Math.round(t) : null` */
  function RoundTemp(t: Option<real>): (r: Option<int>)
    ensures r.None? <==> t.None?
    ensures r.Some? ==> t.value - 0.5 < r.value as real <= t.value + 0.5
  {
    match t
    case None => None
    case Some(x) => Some(Round(x))
  }

  /** `count ? Math.round(humiditySum / count) : null` */
  function MeanHumidity(humiditySum: real, count: nat): (r: Option<int>)
    ensures r.Some? <==> count > 0
    ensures r.Some? ==>
      humiditySum / count as real - 0.5 < r.value as real <= humiditySum / count as real + 0.5
  {
    if count > 0 then Some(Round(humiditySum / count as real)) else None
  }

  /** `humiditySum` after the first `n` samples: a missing humidity counts as 0. */
  function HumiditySum(items: seq<Sample>, n: nat): real
    requires n <= |items|
  {
    if n == 0 then 0.0
    else HumiditySum(items, n - 1) + items[n - 1].humidity.GetOr(0.0)
  }

  /** The first `weather` entries of the first `n` samples, in order. */
  function Conditions(items: seq<Sample>, n: nat): seq<Condition>
    requires n <= |items|
    requires AllHaveCondition(items)
  {
    if n == 0 then [] else Conditions(items, n - 1) + [items[n - 1].weather[0]]
  }

  lemma {:induction false} ConditionsAt(items: seq<Sample>, n: nat)
    requires n <= |items|
    requires AllHaveCondition(items)
    ensures |Conditions(items, n)| == n
    ensures forall i :: 0 <= i < n ==> Conditions(items, n)[i] == items[i].weather[0]
  {
    if n > 0 {
      ConditionsAt(items, n - 1);
    }
  }

  /** How many samples of the day have `c` as their first `weather` entry. */
  function Frequency(items: seq<Sample>, c: Condition): nat
    requires AllHaveCondition(items)
  {
    multiset(Conditions(items, |items|))[c]
  }

  /**
   * `weatherCount` after the first `n` samples: each sample adds one to the
   * count of its first `weather` entry.
   */
  function Counts(items: seq<Sample>, n: nat): (table: map<Condition, nat>)
    requires n <= |items|
    requires AllHaveCondition(items)
    ensures forall c :: c in table ==> 1 <= table[c] <= n
  {
    if n == 0 then map[]
    else
      var table, key := Counts(items, n - 1), items[n - 1].weather[0];
      table[key := (if key in table then table[key] else 0) + 1]
  }

  /**
   * `Object.keys(weatherCount)` after the first `n` samples: a key joins the
   * end of the enumeration order when it is counted for the first time.
   */
  function KeyOrder(items: seq<Sample>, n: nat): (keys: seq<Condition>)
    requires n <= |items|
    requires AllHaveCondition(items)
    ensures |keys| <= n
  {
    if n == 0 then []
    else
      var keys, key := KeyOrder(items, n - 1), items[n - 1].weather[0];
      if key in Counts(items, n - 1) then keys else keys + [key]
  }

  /** The enumerated keys are exactly the counted ones, and there is one once a sample is counted. */
  lemma {:induction false} KeysAreCounted(items: seq<Sample>, n: nat)
    requires n <= |items|
    requires AllHaveCondition(items)
    ensures forall k :: k in KeyOrder(items, n) <==> k in Counts(items, n)
    ensures n > 0 ==> KeyOrder(items, n) != []
  {
    if n > 0 {
      KeysAreCounted(items, n - 1);
    }
  }

  /** A condition is counted exactly when one of the first `n` samples has it. */
  lemma {:induction false} CountedAreMet(items: seq<Sample>, n: nat)
    requires n <= |items|
    requires AllHaveCondition(items)
    ensures forall c :: c in Counts(items, n) <==> c in Conditions(items, n)
  {
    if n > 0 {
      CountedAreMet(items, n - 1);
    }
  }

  /**
   * `weatherCount` holds, for every condition met among the first `n`
   * samples and no other, the number of samples it is the first `weather`
   * entry of.
   */
  lemma {:induction false} CountsAreFrequencies(items: seq<Sample>, n: nat)
    requires n <= |items|
    requires AllHaveCondition(items)
    ensures forall c :: c in Counts(items, n) <==> c in Conditions(items, n)
    ensures forall c :: c in Counts(items, n) ==> Counts(items, n)[c] == multiset(Conditions(items, n))[c]
  {
    CountedAreMet(items, n);
    if n > 0 {
      var before, key := Conditions(items, n - 1), items[n - 1].weather[0];
      CountsAreFrequencies(items, n - 1);
      assert Conditions(items, n) == before + [key];
      assert multiset(before + [key]) == multiset(before) + multiset{key};
    }
  }

  /**
   * The keys of `weatherCount` enumerate the distinct conditions of the
   * first `n` samples in order of first occurrence.
   */
  lemma {:induction false} KeyOrderIsFirstOccurrence(items: seq<Sample>, n: nat)
    requires n <= |items|
    requires AllHaveCondition(items)
    ensures KeyOrder(items, n) == Distinct(Conditions(items, n))
  {
    if n > 0 {
      var before, key := Conditions(items, n - 1), items[n - 1].weather[0];
      var keys := KeyOrder(items, n - 1);
      assert KeyOrder(items, n) == if key in Counts(items, n - 1) then keys else keys + [key];
      KeyOrderIsFirstOccurrence(items, n - 1);
      assert Conditions(items, n) == before + [key];
      DistinctAppend(before, key);
      assert key in Counts(items, n - 1) <==> key in Distinct(before) by {
        CountedAreMet(items, n - 1);
        DistinctMembers(before);
      }
    }
  }

  /** `keys.reduce((a, b) => counts[a] > counts[b] ? a : b)` */
  function Predominant(keys: seq<Condition>, counts: map<Condition, nat>): (r: Condition)
    requires keys != []
    requires forall k :: k in keys ==> k in counts
    ensures r in keys
  {
    if |keys| == 1 then keys[0]
    else
      var a, b := Predominant(Init(keys), counts), Last(keys);
      assert a in keys by { assert keys == Init(keys) + [b]; }
      if counts[a] > counts[b] then a else b
  }

  /**
   * The reduce returns a key with the highest count. Because the comparison
   * is strict, a later key with an equal count replaces the one held so
   * far: every other key with the highest count comes before the result.
   */
  lemma {:induction false} PredominantIsLatestMaximum(keys: seq<Condition>, counts: map<Condition, nat>)
    requires keys != []
    requires forall k :: k in keys ==> k in counts
    ensures forall k :: k in keys ==> counts[k] <= counts[Predominant(keys, counts)]
    ensures forall j ::
      (0 <= j < |keys| && keys[j] != Predominant(keys, counts) &&
       counts[keys[j]] == counts[Predominant(keys, counts)]) ==>
      Predominant(keys, counts) in keys[j + 1..]
  {
    if |keys| > 1 {
      var p, b := Init(keys), Last(keys);
      PredominantIsLatestMaximum(p, counts);
      var a := Predominant(p, counts);
      assert keys == p + [b];
      if counts[a] > counts[b] {
        assert Predominant(keys, counts) == a;
        forall j | 0 <= j < |keys| && keys[j] != a && counts[keys[j]] == counts[a]
          ensures a in keys[j + 1..]
        {
          assert keys[j + 1..] == p[j + 1..] + [b];
        }
      } else {
        assert Predominant(keys, counts) == b;
        forall j | 0 <= j < |keys| && keys[j] != b && counts[keys[j]] == counts[b]
          ensures b in keys[j + 1..]
        {
          assert keys[j + 1..][|keys| - j - 2] == b;
        }
      }
    }
  }

  /** The summary `processDayForecast` returns for `items`. */
  function DaySummaryOf(items: seq<Sample>): (summary: DaySummary)
    requires items != []
    requires AllHaveCondition(items)
    ensures summary.humidity.Some?
  {
    var n := |items|;
    KeysAreCounted(items, n);
    DaySummary(
      RoundTemp(MinTemp(items, n)),
      RoundTemp(MaxTemp(items, n)),
      MeanHumidity(HumiditySum(items, n), n),
      Predominant(KeyOrder(items, n), Counts(items, n)))
  }

  /**
   * `processDayForecast(items)`. The caller passes a non-empty day (on an
   * empty one the seedless `reduce` throws) whose samples all have a first
   * `weather` entry.
   */
  method ProcessDayForecast(items: seq<Sample>) returns (summary: DaySummary)
    requires items != []
    requires AllHaveCondition(items)
    ensures summary == DaySummaryOf(items)
  {
    var minTemp: Option<real> := None;  // Number.POSITIVE_INFINITY
    var maxTemp: Option<real> := None;  // Number.NEGATIVE_INFINITY
    var humiditySum := 0.0;
    var count := 0;
    // weatherCount, and its keys in insertion order
    var weatherCount: map<Condition, nat> := map[];
    var keys: seq<Condition> := [];
    for i := 0 to |items|
      invariant minTemp == MinTemp(items, i)
      invariant maxTemp == MaxTemp(items, i)
      invariant humiditySum == HumiditySum(items, i)
      invariant count == i
      invariant weatherCount == Counts(items, i)
      invariant keys == KeyOrder(items, i)
    {
      var item := items[i];
      if item.temp.Some? {
        minTemp := Lower(minTemp, item.temp.value);
        maxTemp := Higher(maxTemp, item.temp.value);
      }
      humiditySum := humiditySum + item.humidity.GetOr(0.0);
      count := count + 1;
      var key := item.weather[0];
      // a key counted for the first time joins the end of the key order
      keys := if key in weatherCount then keys else keys + [key];
      weatherCount := weatherCount[key := (if key in weatherCount then weatherCount[key] else 0) + 1];
    }
    KeysAreCounted(items, |items|);
    var predominant := Predominant(keys, weatherCount);
    summary := DaySummary(
      RoundTemp(minTemp),
      RoundTemp(maxTemp),
      MeanHumidity(humiditySum, count),
      predominant);
  }

  /**
   * Both temperatures are `null` exactly when no sample has a numeric
   * temperature; otherwise they are the rounded lowest and highest of those
   * temperatures, so `minTemp <= maxTemp`.
   */
  lemma TemperatureSummary(items: seq<Sample>)
    requires items != []
    requires AllHaveCondition(items)
    ensures DaySummaryOf(items).minTemp.None? <==> forall i :: 0 <= i < |items| ==> items[i].temp.None?
    ensures DaySummaryOf(items).maxTemp.None? <==> DaySummaryOf(items).minTemp.None?
    ensures DaySummaryOf(items).minTemp.Some? ==>
      DaySummaryOf(items).minTemp.value <= DaySummaryOf(items).maxTemp.value
    ensures forall i :: 0 <= i < |items| && items[i].temp.Some? ==>
      DaySummaryOf(items).minTemp.Some? &&
      DaySummaryOf(items).minTemp.value <= Round(items[i].temp.value) <= DaySummaryOf(items).maxTemp.value
    ensures DaySummaryOf(items).minTemp.Some? ==>
      exists i :: 0 <= i < |items| && items[i].temp.Some? && DaySummaryOf(items).minTemp.value == Round(items[i].temp.value)
    ensures DaySummaryOf(items).maxTemp.Some? ==>
      exists i :: 0 <= i < |items| && items[i].temp.Some? && DaySummaryOf(items).maxTemp.value == Round(items[i].temp.value)
  {
    var n := |items|;
    var lo, hi := MinTemp(items, n), MaxTemp(items, n);
    MinTempIsLeast(items, n);
    MaxTempIsGreatest(items, n);
    forall i | 0 <= i < n && items[i].temp.Some?
      ensures Round(lo.value) <= Round(items[i].temp.value) <= Round(hi.value)
    {
      RoundMonotonic(lo.value, items[i].temp.value);
      RoundMonotonic(items[i].temp.value, hi.value);
    }
    if lo.Some? {
      var i :| 0 <= i < n && items[i].temp == lo;
      var k :| 0 <= k < n && items[k].temp == hi;
      RoundMonotonic(lo.value, hi.value);
    }
  }

  /** Bounds on the humidity sum when every reported humidity is a percentage. */
  lemma {:induction false} HumiditySumBounds(items: seq<Sample>, n: nat)
    requires n <= |items|
    requires forall i :: 0 <= i < |items| && items[i].humidity.Some? ==>
      0.0 <= items[i].humidity.value <= 100.0
    ensures 0.0 <= HumiditySum(items, n) <= 100.0 * n as real
  {
    if n > 0 {
      HumiditySumBounds(items, n - 1);
    }
  }

  /**
   * The day's humidity is never `null`, and when every reported humidity is
   * a percentage, so is the rounded mean.
   */
  lemma HumidityInRange(items: seq<Sample>)
    requires items != []
    requires AllHaveCondition(items)
    ensures DaySummaryOf(items).humidity.Some?
    ensures (forall i :: 0 <= i < |items| && items[i].humidity.Some? ==>
      0.0 <= items[i].humidity.value <= 100.0) ==>
      0 <= DaySummaryOf(items).humidity.value <= 100
  {
    var n := |items|;
    var sum := HumiditySum(items, n);
    if forall i :: 0 <= i < |items| && items[i].humidity.Some? ==> 0.0 <= items[i].humidity.value <= 100.0 {
      HumiditySumBounds(items, n);
      MeanOfPercentages(sum, n);
    }
  }

  lemma MeanOfPercentages(sum: real, n: nat)
    requires n > 0 && 0.0 <= sum <= 100.0 * n as real
    ensures 0 <= Round(sum / n as real) <= 100
  {
    var m := n as real;
    assert sum / m <= 100.0 by {
      assert sum / m * m == sum;
    }
  }

  lemma {:induction false} ZeroFilledHumiditySum(items: seq<Sample>, k: nat, n: nat)
    requires k < |items| && n <= |items|
    requires items[k].humidity.None?
    ensures HumiditySum(items[k := items[k].(humidity := Some(0.0))], n) == HumiditySum(items, n)
  {
    if n > 0 {
      ZeroFilledHumiditySum(items, k, n - 1);
    }
  }

  /**
   * A sample without a humidity still counts in the divisor and adds
   * nothing to the sum: the day's humidity is the same as if it had
   * reported 0.
   */
  lemma MissingHumidityCountsAsZero(items: seq<Sample>, k: nat)
    requires AllHaveCondition(items)
    requires k < |items|
    requires items[k].humidity.None?
    ensures AllHaveCondition(items[k := items[k].(humidity := Some(0.0))])
    ensures DaySummaryOf(items[k := items[k].(humidity := Some(0.0))]).humidity == DaySummaryOf(items).humidity
  {
    var filled := items[k := items[k].(humidity := Some(0.0))];
    assert forall i :: 0 <= i < |filled| ==> filled[i].weather == items[i].weather;
    ZeroFilledHumiditySum(items, k, |items|);
  }

  lemma {:induction false} HumiditySumOfSteadyDay(items: seq<Sample>, x: real, n: nat)
    requires n <= |items|
    requires forall i :: 0 <= i < |items| ==> items[i].humidity == Some(x)
    ensures HumiditySum(items, n) == n as real * x
  {
    if n > 0 {
      HumiditySumOfSteadyDay(items, x, n - 1);
      assert (n - 1) as real * x + x == n as real * x;
    }
  }

  /** A day whose samples all report the same whole-number humidity has that humidity. */
  lemma HumidityOfSteadyDay(items: seq<Sample>, h: int)
    requires items != []
    requires AllHaveCondition(items)
    requires forall i :: 0 <= i < |items| ==> items[i].humidity == Some(h as real)
    ensures DaySummaryOf(items).humidity == Some(h)
  {
    var m, x := |items| as real, h as real;
    HumiditySumOfSteadyDay(items, x, |items|);
    assert HumiditySum(items, |items|) / m == x;
    assert h - 1 < Round(x) < h + 1;
  }

  /**
   * The reduce over the distinct elements of `cs`, in order of first
   * occurrence, with each one's number of occurrences: it picks a most
   * frequent element, and every other element just as frequent first occurs
   * earlier in `cs`.
   */
  lemma PredominantOfOccurrences(cs: seq<Condition>, counts: map<Condition, nat>)
    requires cs != []
    requires forall c :: c in counts <==> c in cs
    requires forall c :: c in counts ==> counts[c] == multiset(cs)[c]
    ensures Distinct(cs) != []
    ensures forall k :: k in Distinct(cs) ==> k in counts
    ensures Predominant(Distinct(cs), counts) in cs
    ensures forall c :: multiset(cs)[c] <= multiset(cs)[Predominant(Distinct(cs), counts)]
    ensures forall c ::
      (c in cs && c != Predominant(Distinct(cs), counts) &&
       multiset(cs)[c] == multiset(cs)[Predominant(Distinct(cs), counts)]) ==>
      FirstIndex(cs, c) < FirstIndex(cs, Predominant(Distinct(cs), counts))
  {
    var keys := Distinct(cs);
    DistinctMembers(cs);
    assert cs[0] in keys;
    PredominantIsLatestMaximum(keys, counts);
    var r := Predominant(keys, counts);
    forall c ensures multiset(cs)[c] <= multiset(cs)[r] {
      if c in cs {
        assert c in keys;
      }
    }
    forall c | c in cs && c != r && multiset(cs)[c] == multiset(cs)[r]
      ensures FirstIndex(cs, c) < FirstIndex(cs, r)
    {
      DistinctElements(cs);
      var j :| 0 <= j < |keys| && keys[j] == c;
      assert r in keys[j + 1..];
      var k :| j < k < |keys| && keys[k] == r;
    }
  }

  /**
   * The predominant condition is the first `weather` entry of some sample,
   * no condition is more frequent, and every other condition just as
   * frequent first occurs earlier in the day: the latest-first-seen of the
   * most frequent conditions wins.
   */
  lemma PredominantCondition(items: seq<Sample>)
    requires items != []
    requires AllHaveCondition(items)
    ensures exists i :: 0 <= i < |items| && items[i].weather[0] == DaySummaryOf(items).condition
    ensures forall c :: Frequency(items, c) <= Frequency(items, DaySummaryOf(items).condition)
    ensures forall c ::
      (c in Conditions(items, |items|) && c != DaySummaryOf(items).condition &&
       Frequency(items, c) == Frequency(items, DaySummaryOf(items).condition)) ==>
      FirstIndex(Conditions(items, |items|), c) < FirstIndex(Conditions(items, |items|), DaySummaryOf(items).condition)
  {
    var n := |items|;
    var cs := Conditions(items, n);
    KeyOrderIsFirstOccurrence(items, n);
    CountsAreFrequencies(items, n);
    ConditionsAt(items, n);
    PredominantOfOccurrences(cs, Counts(items, n));
    var r := DaySummaryOf(items).condition;
    var i :| 0 <= i < n && cs[i] == r;
  }
}

/**
 * Bucketing of the forecast list by calendar date and the choice of the
 * dates to summarise: group the samples under the date part of `dt_txt`,
 * drop today, sort the remaining dates as strings and keep the first five.
 */
module DayBucketer {
  import opened Sequences
  import opened Weather

  /** How many days the forecast covers at most (`.slice(0, 5)`). */
  const MaxForecastDays: nat := 5

  /** `dtTxt.split(" ")[0]`: the text before the first space, or all of it. */
  function DateOf(dtTxt: string): (d: string)
    ensures d <= dtTxt
    ensures ' ' !in d
    ensures |d| == |dtTxt| || dtTxt[|d|] == ' '
  {
    if dtTxt == [] || dtTxt[0] == ' ' then []
    else [dtTxt[0]] + DateOf(dtTxt[1..])
  }

  /** `groups` after the first `n` samples of `list`. */
  function Groups(list: seq<Sample>, n: nat): (groups: map<string, seq<Sample>>)
    requires n <= |list|
    ensures forall d :: d in groups ==> 1 <= |groups[d]| <= n
  {
    if n == 0 then map[]
    else
      var groups, item := Groups(list, n - 1), list[n - 1];
      var date := DateOf(item.dtTxt);
      var withDate := if date in groups then groups else groups[date := []];
      withDate[date := withDate[date] + [item]]
  }

  /** `Object.keys(groups)` after the first `n` samples, in insertion order. */
  function DateKeys(list: seq<Sample>, n: nat): (keys: seq<string>)
    requires n <= |list|
    ensures |keys| <= n
  {
    if n == 0 then []
    else
      var keys, date := DateKeys(list, n - 1), DateOf(list[n - 1].dtTxt);
      if date in Groups(list, n - 1) then keys else keys + [date]
  }

  /**
   * The samples among the first `n` of `list` whose date is `date`, in
   * their original order: what the group of `date` should hold.
   */
  function SamplesOn(list: seq<Sample>, n: nat, date: string): seq<Sample>
    requires n <= |list|
  {
    if n == 0 then []
    else
      SamplesOn(list, n - 1, date) + (if DateOf(list[n - 1].dtTxt) == date then [list[n - 1]] else [])
  }

  /**
   * The group loop: one pass over `list`, opening an empty group the first
   * time a date is met and appending each sample to the group of its date.
   */
  method GroupByDate(list: seq<Sample>) returns (groups: map<string, seq<Sample>>, keys: seq<string>)
    ensures groups == Groups(list, |list|)
    ensures keys == DateKeys(list, |list|)
  {
    groups := map[];
    keys := [];
    for i := 0 to |list|
      invariant groups == Groups(list, i)
      invariant keys == DateKeys(list, i)
    {
      var item := list[i];
      var date := DateOf(item.dtTxt);
      if date !in groups {
        groups := groups[date := []];
        keys := keys + [date];
      }
      groups := groups[date := groups[date] + [item]];
    }
  }

  /**
   * Every group is the list of the samples of its date in their original
   * order, and there is a group exactly for the dates some sample has, so
   * no group is empty.
   */
  lemma {:induction false} GroupsAreSamplesOn(list: seq<Sample>, n: nat)
    requires n <= |list|
    ensures forall d :: d in Groups(list, n) ==> Groups(list, n)[d] == SamplesOn(list, n, d)
    ensures forall d :: d in Groups(list, n) <==> SamplesOn(list, n, d) != []
  {
    if n > 0 {
      GroupsAreSamplesOn(list, n - 1);
    }
  }

  /** There is a group for a date exactly when one of the first `n` samples has that date. */
  lemma {:induction false} GroupForEveryDate(list: seq<Sample>, n: nat)
    requires n <= |list|
    ensures forall d :: d in Groups(list, n) <==> exists i :: 0 <= i < n && DateOf(list[i].dtTxt) == d
  {
    if n > 0 {
      GroupForEveryDate(list, n - 1);
    }
  }

  /** The keys are the dates with a group, each listed once. */
  lemma {:induction false} DateKeysAreGroups(list: seq<Sample>, n: nat)
    requires n <= |list|
    ensures forall d :: d in DateKeys(list, n) <==> d in Groups(list, n)
    ensures NoDuplicates(DateKeys(list, n))
  {
    if n > 0 {
      var keys, groups, date := DateKeys(list, n - 1), Groups(list, n - 1), DateOf(list[n - 1].dtTxt);
      DateKeysAreGroups(list, n - 1);
      assert DateKeys(list, n) == if date in groups then keys else keys + [date];
      assert forall d :: d in Groups(list, n) <==> d in groups || d == date;
    }
  }

  /** The positions among the first `n` of the samples whose date is `date`, in increasing order. */
  function Positions(list: seq<Sample>, n: nat, date: string): seq<nat>
    requires n <= |list|
  {
    if n == 0 then []
    else Positions(list, n - 1, date) + (if DateOf(list[n - 1].dtTxt) == date then [n - 1] else [])
  }

  /** `Positions` are increasing positions of the list. */
  lemma {:induction false} PositionsIncrease(list: seq<Sample>, n: nat, date: string)
    requires n <= |list|
    ensures forall k :: 0 <= k < |Positions(list, n, date)| ==> Positions(list, n, date)[k] < n
    ensures forall k, l :: 0 <= k < l < |Positions(list, n, date)| ==>
      Positions(list, n, date)[k] < Positions(list, n, date)[l]
  {
    if n > 0 {
      PositionsIncrease(list, n - 1, date);
    }
  }

  /** `Positions` holds exactly the positions of the samples whose date is `date`. */
  lemma {:induction false} PositionsOfDate(list: seq<Sample>, n: nat, date: string)
    requires n <= |list|
    ensures forall i :: 0 <= i < n ==> (i in Positions(list, n, date) <==> DateOf(list[i].dtTxt) == date)
  {
    if n > 0 {
      var before, here := Positions(list, n - 1, date), DateOf(list[n - 1].dtTxt) == date;
      PositionsOfDate(list, n - 1, date);
      PositionsIncrease(list, n - 1, date);
      assert n - 1 !in before;
      var tail := if here then [n - 1] else [];
      assert Positions(list, n, date) == before + tail;
      forall i | 0 <= i < n
        ensures i in Positions(list, n, date) <==> DateOf(list[i].dtTxt) == date
      {
        assert i in before + tail <==> i in before || i in tail;
      }
    }
  }

  /**
   * The samples of `date` are the samples at `Positions`, in that order: the
   * group keeps the original relative order of its samples.
   */
  lemma {:induction false} SamplesOnKeepOrder(list: seq<Sample>, n: nat, date: string)
    requires n <= |list|
    ensures |SamplesOn(list, n, date)| == |Positions(list, n, date)|
    ensures forall k :: 0 <= k < |Positions(list, n, date)| ==>
      Positions(list, n, date)[k] < |list| && SamplesOn(list, n, date)[k] == list[Positions(list, n, date)[k]]
  {
    if n > 0 {
      SamplesOnKeepOrder(list, n - 1, date);
      PositionsIncrease(list, n - 1, date);
    }
  }

  /**
   * The samples of `date` all have that date, and every one of the first `n`
   * samples with that date is among them.
   */
  lemma {:induction false} SamplesOnMembers(list: seq<Sample>, n: nat, date: string)
    requires n <= |list|
    ensures forall s :: s in SamplesOn(list, n, date) ==> DateOf(s.dtTxt) == date
    ensures forall i :: 0 <= i < n && DateOf(list[i].dtTxt) == date ==> list[i] in SamplesOn(list, n, date)
  {
    if n > 0 {
      var before, item := SamplesOn(list, n - 1, date), list[n - 1];
      var tail := if DateOf(item.dtTxt) == date then [item] else [];
      var all := SamplesOn(list, n, date);
      SamplesOnMembers(list, n - 1, date);
      assert all == before + tail;
      forall s | s in all
        ensures DateOf(s.dtTxt) == date
      {
        if s !in before {
          assert s in tail;
        }
      }
      forall i | 0 <= i < n && DateOf(list[i].dtTxt) == date
        ensures list[i] in all
      {
        if i == n - 1 {
          assert all[|before|] == item;
        } else {
          assert list[i] in before;
        }
      }
    }
  }

  /**
   * Each of the first `n` samples is in the group of its own date and in no
   * other group.
   */
  lemma SampleInOneGroup(list: seq<Sample>, n: nat, i: nat)
    requires i < n <= |list|
    ensures DateOf(list[i].dtTxt) in Groups(list, n)
    ensures list[i] in Groups(list, n)[DateOf(list[i].dtTxt)]
    ensures forall d :: d in Groups(list, n) && list[i] in Groups(list, n)[d] ==> d == DateOf(list[i].dtTxt)
  {
    var date := DateOf(list[i].dtTxt);
    GroupsAreSamplesOn(list, n);
    SamplesOnMembers(list, n, date);
    forall d | d in Groups(list, n) && list[i] in Groups(list, n)[d]
      ensures d == date
    {
      SamplesOnMembers(list, n, d);
    }
  }

  /**
   * `a < b` on strings in JavaScript: the first differing character decides,
   * and a proper prefix comes first.
   */
  predicate LexLess(a: string, b: string) {
    if a == [] then b != []
    else if b == [] then false
    else if a[0] != b[0] then a[0] < b[0]
    else LexLess(a[1..], b[1..])
  }

  lemma {:induction false} LexLessIrreflexive(a: string)
    ensures !LexLess(a, a)
  {
    if a != [] {
      LexLessIrreflexive(a[1..]);
    }
  }

  lemma {:induction false} LexLessTransitive(a: string, b: string, c: string)
    requires LexLess(a, b) && LexLess(b, c)
    ensures LexLess(a, c)
  {
    if a != [] && b != [] && c != [] && a[0] == b[0] && b[0] == c[0] {
      LexLessTransitive(a[1..], b[1..], c[1..]);
    }
  }

  /** Two different strings are always ordered one way or the other, and never both. */
  lemma {:induction false} LexLessTotal(a: string, b: string)
    requires a != b
    ensures LexLess(a, b) != LexLess(b, a)
  {
    if a != [] && b != [] && a[0] == b[0] {
      assert a == [a[0]] + a[1..] && b == [b[0]] + b[1..];
      LexLessTotal(a[1..], b[1..]);
    }
  }

  /** A proper prefix sorts before the longer string. */
  lemma {:induction false} PrefixIsLess(a: string, b: string)
    requires a < b
    ensures LexLess(a, b)
  {
    if a != [] {
      assert a[1..] < b[1..];
      PrefixIsLess(a[1..], b[1..]);
    }
  }

  predicate StrictlyAscending(s: seq<string>) {
    forall i, j :: 0 <= i < j < |s| ==> LexLess(s[i], s[j])
  }

  /** Places `x` before the first element that it is less than. */
  function Insert(x: string, s: seq<string>): (r: seq<string>)
    ensures |r| == |s| + 1 && x in r
  {
    if s == [] || LexLess(x, s[0]) then [x] + s
    else [s[0]] + Insert(x, s[1..])
  }

  /** `.sort()` with no comparator: ascending by JavaScript string order. */
  function Sort(s: seq<string>): (r: seq<string>)
    ensures |r| == |s|
  {
    if s == [] then [] else Insert(s[0], Sort(s[1..]))
  }

  lemma {:induction false} InsertIsPermutation(x: string, s: seq<string>)
    ensures multiset(Insert(x, s)) == multiset(s) + multiset{x}
  {
    if s != [] && !LexLess(x, s[0]) {
      InsertIsPermutation(x, s[1..]);
      assert s == [s[0]] + s[1..];
    }
  }

  lemma {:induction false} InsertKeepsAscending(x: string, s: seq<string>)
    requires StrictlyAscending(s)
    requires x !in s
    ensures StrictlyAscending(Insert(x, s))
  {
    if s == [] {
    } else if LexLess(x, s[0]) {
      forall j | 0 <= j < |s|
        ensures LexLess(x, s[j])
      {
        if j > 0 {
          LexLessTransitive(x, s[0], s[j]);
        }
      }
      PrependLeast(x, s);
    } else {
      LexLessTotal(x, s[0]);
      var rest := Insert(x, s[1..]);
      InsertKeepsAscending(x, s[1..]);
      InsertIsPermutation(x, s[1..]);
      forall j | 0 <= j < |rest|
        ensures LexLess(s[0], rest[j])
      {
        assert rest[j] in multiset(rest);
      }
      PrependLeast(s[0], rest);
    }
  }

  /** A string less than every element of an ascending list may go in front of it. */
  lemma PrependLeast(a: string, s: seq<string>)
    requires StrictlyAscending(s)
    requires forall j :: 0 <= j < |s| ==> LexLess(a, s[j])
    ensures StrictlyAscending([a] + s)
  {
    var r := [a] + s;
    forall i, j | 0 <= i < j < |r|
      ensures LexLess(r[i], r[j])
    {
      assert r[j] == s[j - 1];
      if i > 0 {
        assert r[i] == s[i - 1];
      }
    }
  }

  /** Sorting keeps exactly the same elements, each as often. */
  lemma {:induction false} SortIsPermutation(s: seq<string>)
    ensures multiset(Sort(s)) == multiset(s)
  {
    if s != [] {
      SortIsPermutation(s[1..]);
      InsertIsPermutation(s[0], Sort(s[1..]));
      assert s == [s[0]] + s[1..];
    }
  }

  /** Sorting lists distinct strings in strictly ascending order. */
  lemma {:induction false} SortIsAscending(s: seq<string>)
    requires NoDuplicates(s)
    ensures StrictlyAscending(Sort(s))
  {
    if s != [] {
      assert NoDuplicates(s[1..]);
      SortIsAscending(s[1..]);
      SortIsPermutation(s[1..]);
      assert s[0] !in multiset(s[1..]);
      InsertKeepsAscending(s[0], Sort(s[1..]));
    }
  }

  /** `.filter((d) => d !== today)` */
  function Without(keys: seq<string>, today: string): (r: seq<string>)
    ensures |r| <= |keys| && today !in r
  {
    if keys == [] then []
    else (if keys[0] == today then [] else [keys[0]]) + Without(keys[1..], today)
  }

  /** The filter keeps the other dates, each as often as before, and drops today. */
  lemma {:induction false} WithoutToday(keys: seq<string>, today: string)
    ensures forall d :: d in Without(keys, today) <==> d in keys && d != today
    ensures NoDuplicates(keys) ==> NoDuplicates(Without(keys, today))
  {
    if keys != [] {
      var rest := Without(keys[1..], today);
      WithoutToday(keys[1..], today);
      if NoDuplicates(keys) && keys[0] != today {
        assert keys[0] !in rest by {
          assert forall j :: 0 < j < |keys| ==> keys[j] != keys[0];
        }
        forall i, j | 0 <= i < j < |Without(keys, today)|
          ensures Without(keys, today)[i] != Without(keys, today)[j]
        {
          if i == 0 {
            assert Without(keys, today)[j] == rest[j - 1];
          }
        }
      }
    }
  }

  /** `keys.filter((d) => d !== today).sort().slice(0, 5)` */
  function SelectDates(keys: seq<string>, today: string): (r: seq<string>)
    ensures |r| <= MaxForecastDays && today !in r
  {
    var candidates := Without(keys, today);
    var sorted := Sort(candidates);
    SortIsPermutation(candidates);
    assert today !in multiset(sorted);
    sorted[..if |sorted| < MaxForecastDays then |sorted| else MaxForecastDays]
  }

  /** The sorted dates other than today: `SelectDates` keeps a prefix of them. */
  lemma SortedCandidates(keys: seq<string>, today: string)
    requires NoDuplicates(keys)
    ensures |Sort(Without(keys, today))| == |Without(keys, today)|
    ensures forall d :: d in Sort(Without(keys, today)) <==> d in keys && d != today
    ensures StrictlyAscending(Sort(Without(keys, today)))
  {
    var w := Without(keys, today);
    WithoutToday(keys, today);
    SortIsPermutation(w);
    SortIsAscending(w);
    assert |multiset(Sort(w))| == |multiset(w)|;
    forall d
      ensures d in Sort(w) <==> d in w
    {
      assert d in Sort(w) <==> d in multiset(Sort(w));
    }
  }

  /**
   * The selected dates are dates of `keys` other than today, at most five,
   * strictly ascending; a date left out is later than all five kept, so when
   * no more than five dates qualify, all of them are kept.
   */
  lemma SelectedDates(keys: seq<string>, today: string)
    requires NoDuplicates(keys)
    ensures |SelectDates(keys, today)| <= MaxForecastDays
    ensures forall d :: d in SelectDates(keys, today) ==> d in keys && d != today
    ensures StrictlyAscending(SelectDates(keys, today))
    ensures forall d :: d in keys && d != today && d !in SelectDates(keys, today) ==>
      |SelectDates(keys, today)| == MaxForecastDays &&
      forall e :: e in SelectDates(keys, today) ==> LexLess(e, d)
    ensures |Without(keys, today)| <= MaxForecastDays ==>
      forall d :: d in keys && d != today ==> d in SelectDates(keys, today)
  {
    var sorted := Sort(Without(keys, today));
    var r := SelectDates(keys, today);
    SortedCandidates(keys, today);
    assert r == sorted[..|r|];
    forall d | d in r
      ensures d in sorted
    {
      var q :| 0 <= q < |r| && r[q] == d;
      assert sorted[q] == d;
    }
    forall d | d in keys && d != today && d !in r
      ensures |r| == MaxForecastDays && forall e :: e in r ==> LexLess(e, d)
    {
      var p :| 0 <= p < |sorted| && sorted[p] == d;
      assert p >= |r|;
      forall e | e in r
        ensures LexLess(e, d)
      {
        var q :| 0 <= q < |r| && r[q] == e;
        assert sorted[q] == e;
      }
    }
  }
}

/** Facts about sequences shared by the summariser and the bucketer. */
module Sequences {

  function Last<T>(s: seq<T>): T
    requires s != []
  {
    s[|s| - 1]
  }

  /** Everything but the last element. */
  function Init<T>(s: seq<T>): seq<T>
    requires s != []
  {
    s[..|s| - 1]
  }

  /** A non-empty sequence has its first element as a member. */
  lemma FirstIsMember<T>(s: seq<T>)
    ensures s != [] ==> s[0] in s
  {
  }

  predicate NoDuplicates<T(==)>(s: seq<T>) {
    forall i, j :: 0 <= i < j < |s| ==> s[i] != s[j]
  }

  /**
   * The distinct elements of `s` in the order of their first occurrence: the
   * order in which a JavaScript object enumerates keys that it was given one
   * by one (none of the keys in this model is an array index).
   */
  function Distinct<T(==)>(s: seq<T>): (d: seq<T>)
    ensures |d| <= |s|
  {
    if s == [] then []
    else
      var d := Distinct(Init(s));
      if Last(s) in d then d else d + [Last(s)]
  }

  /** Position of the first occurrence of `x` in `s`. */
  function FirstIndex<T(==)>(s: seq<T>, x: T): (k: nat)
    requires x in s
    ensures k < |s| && s[k] == x
    ensures forall j :: 0 <= j < k ==> s[j] != x
  {
    if x in Init(s) then FirstIndex(Init(s), x) else |s| - 1
  }

  /** Appending `x` adds it to the distinct elements when it is new, and changes nothing otherwise. */
  lemma DistinctAppend<T>(s: seq<T>, x: T)
    ensures Distinct(s + [x]) == if x in Distinct(s) then Distinct(s) else Distinct(s) + [x]
  {
    assert Init(s + [x]) == s;
  }

  /** `Distinct` keeps exactly the elements of `s`. */
  lemma {:induction false} DistinctMembers<T(!new)>(s: seq<T>)
    ensures forall x :: x in Distinct(s) <==> x in s
  {
    if s != [] {
      DistinctMembers(Init(s));
      assert s == Init(s) + [Last(s)];
    }
  }

  /**
   * `Distinct` keeps every element of `s` exactly once, listed by increasing
   * position of first occurrence.
   */
  lemma {:induction false} DistinctElements<T(!new)>(s: seq<T>)
    ensures forall x :: x in Distinct(s) <==> x in s
    ensures NoDuplicates(Distinct(s))
    ensures forall j, k :: 0 <= j < k < |Distinct(s)| ==>
      FirstIndex(s, Distinct(s)[j]) < FirstIndex(s, Distinct(s)[k])
  {
    if s != [] {
      var p, d := Init(s), Distinct(Init(s));
      DistinctElements(p);
      assert s == p + [Last(s)];
      forall j, k | 0 <= j < k < |Distinct(s)|
        ensures FirstIndex(s, Distinct(s)[j]) < FirstIndex(s, Distinct(s)[k])
      {
        assert Distinct(s)[j] in p;
        if k < |d| {
          assert Distinct(s)[k] in p;
        }
      }
    }
  }
}

/** The collection queries the stores rely on, over a sequence: a
    collection's `Find(filter)` followed by `FirstOrDefault`, LINQ's
    `FirstOrDefault`/`Any`/`Where`, and `List.Remove` of the first match. */
module Sequences {
  import opened Common

  /** Some element of `s` satisfies `p` (LINQ's `Any`). */
  predicate Any<T>(s: seq<T>, p: T -> bool) {
    exists i :: 0 <= i < |s| && p(s[i])
  }

  /** The position of the first element that satisfies `p`, if any. */
  function FirstIndex<T>(s: seq<T>, p: T -> bool): (r: Option<nat>)
    ensures r.Some? ==> r.value < |s| && p(s[r.value])
    ensures r.Some? ==> forall j :: 0 <= j < r.value ==> !p(s[j])
    ensures r.None? <==> !Any(s, p)
  {
    if |s| == 0 then None
    else if p(s[0]) then Some(0)
    else
      match FirstIndex(s[1..], p)
      case None => None
      case Some(k) => Some(k + 1)
  }

  /** `FirstOrDefault(p)`: the first element that satisfies `p`, or null. */
  function FirstWhere<T>(s: seq<T>, p: T -> bool): (r: Option<T>)
    ensures r.None? <==> !Any(s, p)
    ensures r.Some? ==> exists k :: 0 <= k < |s| && s[k] == r.value && p(r.value) && forall j :: 0 <= j < k ==> !p(s[j])
  {
    match FirstIndex(s, p)
    case None => None
    case Some(k) => Some(s[k])
  }

  /** Removing the first element that satisfies `p` (`List.Remove` of the
      first match); nothing changes when none does. */
  function RemoveFirst<T>(s: seq<T>, p: T -> bool): (r: seq<T>)
    ensures !Any(s, p) ==> r == s
    ensures Any(s, p) ==> |r| == |s| - 1
    ensures Any(s, p) ==> multiset(r) + multiset{FirstWhere(s, p).value} == multiset(s)
  {
    match FirstIndex(s, p)
    case None => s
    case Some(k) =>
      assert s == s[..k] + [s[k]] + s[k + 1..];
      s[..k] + s[k + 1..]
  }

  /** LINQ's `Where` / a collection's `Find(filter).ToList()`: the elements
      that satisfy `p`, in their order. */
  function Where<T>(s: seq<T>, p: T -> bool): (r: seq<T>)
    ensures |r| <= |s|
    ensures forall i :: 0 <= i < |r| ==> r[i] in s && p(r[i])
    ensures forall i :: 0 <= i < |s| && p(s[i]) ==> s[i] in r
  {
    if |s| == 0 then []
    else
      assert s == [s[0]] + s[1..];
      (if p(s[0]) then [s[0]] else []) + Where(s[1..], p)
  }

  /** `Where` keeps every matching element as often as the input holds it,
      and nothing else. */
  lemma {:induction false} WhereCounts<T>(s: seq<T>, p: T -> bool)
    ensures multiset(Where(s, p)) <= multiset(s)
    ensures forall x :: x in multiset(s) ==> multiset(Where(s, p))[x] == if p(x) then multiset(s)[x] else 0
  {
    if |s| > 0 {
      var t := s[1..];
      var rest := Where(t, p);
      var head := if p(s[0]) then [s[0]] else [];
      WhereCounts(t, p);
      assert s == [s[0]] + t;
      assert Where(s, p) == head + rest;
      assert multiset(Where(s, p)) == multiset(head) + multiset(rest);
      assert multiset(s) == multiset{s[0]} + multiset(t);
      forall x | x in multiset(s)
        ensures multiset(Where(s, p))[x] == if p(x) then multiset(s)[x] else 0
      {
        if x !in multiset(t) {
          assert multiset(rest)[x] == 0;
        }
      }
    }
  }

  /** `Where` keeps the input's order: filtering a concatenation is the
      concatenation of the filtered parts. */
  lemma {:induction false} WhereAppend<T>(s: seq<T>, t: seq<T>, p: T -> bool)
    ensures Where(s + t, p) == Where(s, p) + Where(t, p)
  {
    if |s| > 0 {
      assert (s + t)[1..] == s[1..] + t;
      WhereAppend(s[1..], t, p);
    } else {
      assert s + t == t;
    }
  }

  /** Removing the first match leaves every element before it in place and
      shifts every element after it down by one. */
  lemma RemoveFirstAt<T>(s: seq<T>, p: T -> bool, i: nat)
    requires FirstIndex(s, p).Some? && i < |s| - 1
    ensures var k := FirstIndex(s, p).value;
      RemoveFirst(s, p)[i] == if i < k then s[i] else s[i + 1]
  {
  }
}

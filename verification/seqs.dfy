/** `array.filter(p)` and `array.filter(p).length`, with the facts the
    statistics cards and tab views rely on. */
module Seqs {

  /** `s.filter(p).length` */
  function Count<T>(s: seq<T>, p: T -> bool): (n: nat)
    ensures n <= |s|
  {
    if s == [] then 0 else Count(s[..|s| - 1], p) + (if p(s[|s| - 1]) then 1 else 0)
  }

  /** `s.filter(p)`: the elements satisfying `p`, in their original order. */
  function Filter<T(!new)>(s: seq<T>, p: T -> bool): (r: seq<T>)
    ensures |r| == Count(s, p)
    ensures forall x :: x in r <==> x in s && p(x)
  {
    if s == [] then []
    else
      var init := Filter(s[..|s| - 1], p);
      var last := s[|s| - 1];
      assert forall x :: x in s <==> x in s[..|s| - 1] || x == last;
      if p(last) then init + [last] else init
  }

  /** A filter whose predicate every element satisfies keeps the sequence as is. */
  lemma {:induction false} FilterKeepsAll<T(!new)>(s: seq<T>, p: T -> bool)
    requires forall x :: x in s ==> p(x)
    ensures Filter(s, p) == s
  {
    if s != [] {
      assert s[..|s| - 1] + [s[|s| - 1]] == s;
      FilterKeepsAll(s[..|s| - 1], p);
    }
  }

  lemma {:induction false} CountAppend<T>(s: seq<T>, x: T, p: T -> bool)
    ensures Count(s + [x], p) == Count(s, p) + (if p(x) then 1 else 0)
  {
    assert (s + [x])[..|s + [x]| - 1] == s;
  }

  /** Counting `p` and its negation splits the whole sequence. */
  lemma {:induction false} CountComplement<T>(s: seq<T>, p: T -> bool, q: T -> bool)
    requires forall x :: x in s ==> (q(x) <==> !p(x))
    ensures Count(s, p) + Count(s, q) == |s|
  {
    if s != [] {
      assert forall x :: x in s[..|s| - 1] ==> x in s;
      CountComplement(s[..|s| - 1], p, q);
    }
  }

  /** Three predicates of which every element satisfies exactly one split
      the whole sequence. */
  lemma {:induction false} CountThreeWay<T>(s: seq<T>, p: T -> bool, q: T -> bool, r: T -> bool)
    requires forall x :: x in s ==> (p(x) || q(x) || r(x))
    requires forall x :: x in s ==> !(p(x) && q(x)) && !(p(x) && r(x)) && !(q(x) && r(x))
    ensures Count(s, p) + Count(s, q) + Count(s, r) == |s|
  {
    if s != [] {
      assert forall x :: x in s[..|s| - 1] ==> x in s;
      CountThreeWay(s[..|s| - 1], p, q, r);
    }
  }

  /** Replacing one element changes a count by at most the two elements' votes. */
  lemma {:induction false} CountReplace<T>(s: seq<T>, t: seq<T>, k: nat, p: T -> bool)
    requires |s| == |t| && k < |s|
    requires forall i :: 0 <= i < |s| && i != k ==> s[i] == t[i]
    ensures Count(t, p) + (if p(s[k]) then 1 else 0) == Count(s, p) + (if p(t[k]) then 1 else 0)
  {
    var n := |s| - 1;
    if k == n {
      assert s[..n] == t[..n];
    } else {
      CountReplace(s[..n], t[..n], k, p);
    }
  }

  /** A count is unchanged by a pointwise map that keeps every element's vote. */
  lemma {:induction false} CountPreservedPointwise<T>(s: seq<T>, t: seq<T>, p: T -> bool)
    requires |s| == |t|
    requires forall i :: 0 <= i < |s| ==> (p(s[i]) <==> p(t[i]))
    ensures Count(s, p) == Count(t, p)
  {
    if s != [] {
      CountPreservedPointwise(s[..|s| - 1], t[..|t| - 1], p);
    }
  }

  /** Some element satisfies `p` exactly when the count is positive. */
  lemma {:induction false} CountPositive<T>(s: seq<T>, p: T -> bool)
    ensures Count(s, p) > 0 <==> exists i :: 0 <= i < |s| && p(s[i])
  {
    if s != [] {
      var n := |s| - 1;
      CountPositive(s[..n], p);
      if exists i :: 0 <= i < n && p(s[..n][i]) {
        var i :| 0 <= i < n && p(s[..n][i]);
        assert p(s[i]);
      }
      if exists i :: 0 <= i < |s| && p(s[i]) {
        var i :| 0 <= i < |s| && p(s[i]);
        if i < n {
          assert p(s[..n][i]);
        }
      }
    }
  }
}

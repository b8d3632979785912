/** Sequence helpers used by the table reads: filtering, first match, reversal and key order. */
module Seqs {
  import opened Wrappers

  /** The elements of `s` that satisfy `keep`, in their original order. */
  function Filter<T(!new)>(s: seq<T>, keep: T -> bool): (r: seq<T>)
    ensures |r| <= |s|
    ensures forall x :: x in r <==> x in s && keep(x)
  {
    if s == [] then []
    else
      assert s == s[..|s| - 1] + [s[|s| - 1]];
      var init := Filter(s[..|s| - 1], keep);
      if keep(s[|s| - 1]) then init + [s[|s| - 1]] else init
  }

  lemma FilterAppend<T(!new)>(s: seq<T>, x: T, keep: T -> bool)
    ensures Filter(s + [x], keep) == Filter(s, keep) + (if keep(x) then [x] else [])
  {
    assert (s + [x])[..|s|] == s;
  }

  /** A filter that no element passes is empty. */
  lemma FilterNone<T(!new)>(s: seq<T>, keep: T -> bool)
    requires forall x :: x in s ==> !keep(x)
    ensures Filter(s, keep) == []
  {
    if Filter(s, keep) != [] {
      assert Filter(s, keep)[0] in Filter(s, keep);
    }
  }

  /** The first element of `s` that satisfies `p`, if any. */
  function Find<T(!new)>(s: seq<T>, p: T -> bool): (r: Option<T>)
    ensures r.Some? ==> r.value in s && p(r.value)
    ensures r.None? <==> forall x :: x in s ==> !p(x)
  {
    if s == [] then None
    else if p(s[0]) then Some(s[0])
    else
      assert forall x :: x in s ==> x == s[0] || x in s[1..];
      Find(s[1..], p)
  }

  /** Appending an element changes the first match only when there was none. */
  lemma {:induction false} FindAppend<T(!new)>(s: seq<T>, x: T, p: T -> bool)
    ensures Find(s + [x], p) == if Find(s, p).Some? then Find(s, p) else if p(x) then Some(x) else None
  {
    if s != [] {
      assert (s + [x])[0] == s[0];
      assert (s + [x])[1..] == s[1..] + [x];
      FindAppend(s[1..], x, p);
    }
  }

  /** `key` strictly increases along `s`. */
  ghost predicate Increasing<T(!new)>(s: seq<T>, key: T -> int) {
    forall i, j :: 0 <= i < j < |s| ==> key(s[i]) < key(s[j])
  }

  /** `key` strictly increases along `s`, and every key lies in [lo, hi). */
  ghost predicate Ascending<T(!new)>(s: seq<T>, key: T -> int, lo: int, hi: int) {
    && Increasing(s, key)
    && (forall i :: 0 <= i < |s| ==> lo <= key(s[i]) < hi)
  }

  /** `key` strictly decreases along `s`. */
  ghost predicate Descending<T(!new)>(s: seq<T>, key: T -> int) {
    forall i, j :: 0 <= i < j < |s| ==> key(s[i]) > key(s[j])
  }

  lemma AscendingAppend<T(!new)>(s: seq<T>, x: T, key: T -> int, lo: int, hi: int)
    requires Ascending(s, key, lo, hi) && lo <= hi && key(x) == hi
    ensures Ascending(s + [x], key, lo, hi + 1)
  {
  }

  /** Distinct positions of an increasing sequence hold distinct keys. */
  lemma IncreasingInjective<T(!new)>(s: seq<T>, key: T -> int, i: int, j: int)
    requires Increasing(s, key) && 0 <= i < |s| && 0 <= j < |s| && key(s[i]) == key(s[j])
    ensures i == j
  {
  }

  /** Dropping the last element keeps a sequence increasing, and that element has the largest key. */
  lemma IncreasingLast<T(!new)>(s: seq<T>, key: T -> int)
    requires Increasing(s, key) && |s| > 0
    ensures Increasing(s[..|s| - 1], key)
    ensures forall x :: x in s[..|s| - 1] ==> key(x) < key(s[|s| - 1])
  {
    forall x | x in s[..|s| - 1] ensures key(x) < key(s[|s| - 1]) {
      var k :| 0 <= k < |s| - 1 && s[..|s| - 1][k] == x;
      assert s[k] == x;
    }
  }

  lemma {:induction false} FilterIncreasing<T(!new)>(s: seq<T>, keep: T -> bool, key: T -> int)
    requires Increasing(s, key)
    ensures Increasing(Filter(s, keep), key)
  {
    if s != [] {
      var init := s[..|s| - 1];
      assert s == init + [s[|s| - 1]];
      FilterIncreasing(init, keep, key);
      FilterAppend(init, s[|s| - 1], keep);
      var f := Filter(init, keep);
      forall i | 0 <= i < |f|
        ensures key(f[i]) < key(s[|s| - 1])
      {
        assert f[i] in init;
        var k :| 0 <= k < |init| && init[k] == f[i];
        assert s[k] == f[i];
      }
    }
  }

  lemma FilterKeepsOrder<T(!new)>(s: seq<T>, keep: T -> bool, key: T -> int)
    ensures Increasing(s, key) ==> Increasing(Filter(s, keep), key)
  {
    if Increasing(s, key) {
      FilterIncreasing(s, keep, key);
    }
  }

  /** `s` backwards. */
  function Reverse<T(!new)>(s: seq<T>): (r: seq<T>)
    ensures |r| == |s|
    ensures forall i :: 0 <= i < |s| ==> r[i] == s[|s| - 1 - i]
  {
    if s == [] then [] else [s[|s| - 1]] + Reverse(s[..|s| - 1])
  }

  lemma ReverseMembers<T(!new)>(s: seq<T>)
    ensures forall x :: x in Reverse(s) <==> x in s
  {
    var r := Reverse(s);
    forall x | x in s ensures x in r {
      var i :| 0 <= i < |s| && s[i] == x;
      assert r[|s| - 1 - i] == x;
    }
  }

  lemma ReverseIncreasing<T(!new)>(s: seq<T>, key: T -> int)
    ensures Increasing(s, key) ==> Descending(Reverse(s), key)
  {
  }

  /** A sequence with no member is the empty one. */
  lemma NoMembersMeansEmpty<T>(s: seq<T>)
    ensures s == [] <==> forall x :: x !in s
  {
    if s != [] {
      assert s[0] in s;
    }
  }
}

/** JavaScript's array `filter` and `find`, as functions on sequences. */
module Seqs {
  import opened Types

  /** `s.filter(f)`: the elements of s that pass f, in their order. */
  function Filter<T(!new)>(s: seq<T>, f: T -> bool): (r: seq<T>)
    ensures |r| <= |s|
    ensures forall x :: x in r <==> x in s && f(x)
    decreases |s|
  {
    if s == [] then []
    else Filter(s[..|s| - 1], f) + (if f(s[|s| - 1]) then [s[|s| - 1]] else [])
  }

  /** Filtering one more element extends the result by that element or by nothing. */
  lemma FilterSnoc<T(!new)>(s: seq<T>, x: T, f: T -> bool)
    ensures Filter(s + [x], f) == Filter(s, f) + (if f(x) then [x] else [])
  {
    assert (s + [x])[..|s + [x]| - 1] == s;
  }

  /** At least two elements pass the filter exactly when two different positions pass f. */
  lemma FilterAtLeastTwo<T(!new)>(s: seq<T>, f: T -> bool)
    ensures |Filter(s, f)| >= 2 <==> exists i, j :: 0 <= i < j < |s| && f(s[i]) && f(s[j])
  {
    if |Filter(s, f)| >= 2 {
      var i, j := TwoFromFilter(s, f);
    }
    if exists i, j :: 0 <= i < j < |s| && f(s[i]) && f(s[j]) {
      var i, j :| 0 <= i < j < |s| && f(s[i]) && f(s[j]);
      FilterFromTwo(s, f, i, j);
    }
  }

  lemma {:induction false} TwoFromFilter<T(!new)>(s: seq<T>, f: T -> bool) returns (i: int, j: int)
    requires |Filter(s, f)| >= 2
    ensures 0 <= i < j < |s| && f(s[i]) && f(s[j])
  {
    var n := |s| - 1;
    var init := s[..n];
    assert s == init + [s[n]];
    FilterSnoc(init, s[n], f);
    if f(s[n]) {
      var x := Filter(init, f)[0];
      assert x in Filter(init, f);
      i :| 0 <= i < n && init[i] == x;
      j := n;
    } else {
      i, j := TwoFromFilter(init, f);
    }
  }

  lemma {:induction false} FilterFromTwo<T(!new)>(s: seq<T>, f: T -> bool, i: int, j: int)
    requires 0 <= i < j < |s| && f(s[i]) && f(s[j])
    ensures |Filter(s, f)| >= 2
  {
    var n := |s| - 1;
    var init := s[..n];
    assert s == init + [s[n]];
    FilterSnoc(init, s[n], f);
    if j < n {
      FilterFromTwo(init, f, i, j);
    } else {
      assert init[i] in init;
      assert init[i] in Filter(init, f);
    }
  }

  /** Filtering a prefix one element longer. */
  lemma FilterPrefixStep<T(!new)>(s: seq<T>, j: int, f: T -> bool)
    requires 0 <= j < |s|
    ensures Filter(s[..j + 1], f) == Filter(s[..j], f) + (if f(s[j]) then [s[j]] else [])
  {
    assert s[..j + 1] == s[..j] + [s[j]];
    FilterSnoc(s[..j], s[j], f);
  }

  /** The count of a prefix one element longer. */
  lemma FilterPrefixCount<T(!new)>(s: seq<T>, j: int, f: T -> bool)
    requires 0 <= j < |s|
    ensures |Filter(s[..j + 1], f)| == |Filter(s[..j], f)| + if f(s[j]) then 1 else 0
  {
    FilterPrefixStep(s, j, f);
  }

  /** Something passes the filter exactly when some element passes f. */
  lemma FilterNonEmpty<T(!new)>(s: seq<T>, f: T -> bool)
    ensures Filter(s, f) != [] <==> exists j :: 0 <= j < |s| && f(s[j])
  {
    if Filter(s, f) != [] {
      assert Filter(s, f)[0] in Filter(s, f);
    }
    if exists j :: 0 <= j < |s| && f(s[j]) {
      var j :| 0 <= j < |s| && f(s[j]);
      assert s[j] in Filter(s, f);
    }
  }

  /** `s.find(f)`: the first element of s that passes f, if any. */
  function Find<T>(s: seq<T>, f: T -> bool): (r: Option<T>)
    ensures r.None? <==> forall i :: 0 <= i < |s| ==> !f(s[i])
    ensures r.Some? ==> exists i :: 0 <= i < |s| && s[i] == r.value && f(s[i]) && forall k :: 0 <= k < i ==> !f(s[k])
    decreases |s|
  {
    if s == [] then None
    else if f(s[0]) then Some(s[0])
    else
      var r := Find(s[1..], f);
      assert r.Some? ==> exists i :: 1 <= i < |s| && s[i] == r.value && f(s[i]) && forall k :: 0 <= k < i ==> !f(s[k]) by {
        if r.Some? {
          var i :| 0 <= i < |s[1..]| && s[1..][i] == r.value && f(s[1..][i]) && forall k :: 0 <= k < i ==> !f(s[1..][k]);
          assert s[i + 1] == r.value;
          assert forall k :: 1 <= k < i + 1 ==> s[k] == s[1..][k - 1];
        }
      }
      r
  }

  /** s[i] is the first element of s that passes f. */
  predicate FirstPassing<T>(s: seq<T>, f: T -> bool, i: int) {
    0 <= i < |s| && f(s[i]) && forall k :: 0 <= k < i ==> !f(s[k])
  }

  /** No element of s passes f. */
  predicate NonePasses<T>(s: seq<T>, f: T -> bool) {
    forall k :: 0 <= k < |s| ==> !f(s[k])
  }

  /** `find` returns the first element that passes, and nothing when none does. */
  lemma FindFirst<T>(s: seq<T>, f: T -> bool, i: int)
    requires FirstPassing(s, f, i)
    ensures Find(s, f) == Some(s[i])
  {
    var w :| 0 <= w < |s| && s[w] == Find(s, f).value && f(s[w]) && forall k :: 0 <= k < w ==> !f(s[k]);
    assert !(w < i) && !(i < w);
  }

  lemma FindNone<T>(s: seq<T>, f: T -> bool)
    requires NonePasses(s, f)
    ensures Find(s, f) == None
  {
  }

  /** `n` copies of e. */
  function Repeat<T>(e: T, n: nat): (r: seq<T>)
    ensures |r| == n && forall x :: x in r ==> x == e
  {
    seq(n, _ => e)
  }

  lemma RepeatSnoc<T>(e: T, n: nat)
    ensures Repeat(e, n + 1) == Repeat(e, n) + [e]
  {
  }

  /** One copy of e for each of the first j elements of s that pass f. */
  ghost function CopiesFor<T(!new), U>(s: seq<T>, f: T -> bool, e: U, j: int): seq<U>
    requires 0 <= j <= |s|
  {
    if j == 0 then []
    else if f(s[j - 1]) then CopiesFor(s, f, e, j - 1) + [e]
    else CopiesFor(s, f, e, j - 1)
  }

  /** As many copies as the prefix has passing elements. */
  lemma {:induction false} CopiesForFilter<T(!new), U>(s: seq<T>, f: T -> bool, e: U, j: int)
    requires 0 <= j <= |s|
    ensures CopiesFor(s, f, e, j) == Repeat(e, |Filter(s[..j], f)|)
  {
    if j > 0 {
      CopiesForFilter(s, f, e, j - 1);
      FilterPrefixCount(s, j - 1, f);
      if f(s[j - 1]) {
        RepeatSnoc(e, |Filter(s[..j - 1], f)|);
      }
    }
  }
}

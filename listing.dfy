/**
  The shapes the read queries of the pages share: a table scan in primary-key
  order, a WHERE filter that keeps the scan order, ORDER BY ... DESC, and
  `fetchone()` on a result set (its first row, if any).
 */
module Listing {
  import opened FarmTypes

  /** Strictly increasing ids: the order of a scan by primary key. */
  predicate Increasing(s: seq<nat>) {
    forall i, j :: 0 <= i < j < |s| ==> s[i] < s[j]
  }

  /** No element occurs twice. */
  predicate NoDup(s: seq<nat>) {
    forall i, j :: 0 <= i < j < |s| ==> s[i] != s[j]
  }

  predicate IsLeast(m: nat, s: set<nat>) {
    m in s && forall k :: k in s ==> m <= k
  }

  /** Every non-empty set of ids has a least element. */
  lemma {:induction false} LeastExists(s: set<nat>)
    requires s != {}
    ensures exists m :: IsLeast(m, s)
    decreases |s|
  {
    var x :| x in s;
    var rest := s - {x};
    if rest == {} {
      assert s == {x};
      assert IsLeast(x, s);
    } else {
      LeastExists(rest);
      var m :| IsLeast(m, rest);
      assert forall k :: k in s ==> k == x || k in rest;
      if x < m {
        assert IsLeast(x, s);
      } else {
        assert IsLeast(m, s);
      }
    }
  }

  /** The ids of a table as a scan by primary key returns them. */
  function KeysAscending(s: set<nat>): (r: seq<nat>)
    ensures Increasing(r)
    ensures forall k :: k in r <==> k in s
    ensures |r| == |s|
    decreases |s|
  {
    if s == {} then []
    else
      LeastExists(s);
      var m :| IsLeast(m, s);
      [m] + KeysAscending(s - {m})
  }

  /** WHERE p: the rows that satisfy `p`, in the order they were scanned. */
  function Select(s: seq<nat>, p: nat -> bool): (r: seq<nat>)
    ensures forall x :: x in r <==> x in s && p(x)
    ensures |r| <= |s|
  {
    if s == [] then []
    else if p(s[0]) then [s[0]] + Select(s[1..], p)
    else Select(s[1..], p)
  }

  /** Filtering a primary-key scan keeps it in primary-key order. */
  lemma {:induction false} SelectIncreasing(s: seq<nat>, p: nat -> bool)
    requires Increasing(s)
    ensures Increasing(Select(s, p))
  {
    if s != [] {
      SelectIncreasing(s[1..], p);
      var rest := Select(s[1..], p);
      if p(s[0]) {
        var r := [s[0]] + rest;
        forall i, j | 0 <= i < j < |r| ensures r[i] < r[j] {
          if i == 0 {
            assert r[j] in s[1..];
            var k :| 0 <= k < |s[1..]| && s[1..][k] == r[j];
            assert s[k + 1] == r[j];
          } else {
            assert r[i] == rest[i - 1] && r[j] == rest[j - 1];
          }
        }
      }
    }
  }

  /** ORDER BY key DESC holds of `s`. */
  predicate SortedDesc(s: seq<nat>, key: nat -> int) {
    forall i, j :: 0 <= i < j < |s| ==> key(s[i]) >= key(s[j])
  }

  /** One pair of positions of a sorted sequence. The body is empty: the lemma
      only instantiates SortedDesc at the pair a caller names, which is cheaper
      for the solver than leaving the quantifier to its own matching. */
  lemma SortedDescPair(s: seq<nat>, key: nat -> int, i: int, j: int)
    requires SortedDesc(s, key) && 0 <= i < j < |s|
    ensures key(s[i]) >= key(s[j])
  {
  }

  /** An element whose key is at least every key of a sorted sequence can go in front. */
  lemma ConsSortedDesc(a: nat, s: seq<nat>, key: nat -> int)
    requires SortedDesc(s, key)
    requires forall y :: y in s ==> key(a) >= key(y)
    ensures SortedDesc([a] + s, key)
  {
    var r := [a] + s;
    forall i, j | 0 <= i < j < |r| ensures key(r[i]) >= key(r[j]) {
      if i == 0 {
        assert r[j] in s;
      } else {
        assert r[i] == s[i - 1] && r[j] == s[j - 1];
      }
    }
  }

  /** Puts `x` in front of the first element whose key is not above its own. */
  function InsertDesc(x: nat, s: seq<nat>, key: nat -> int): (r: seq<nat>)
    requires SortedDesc(s, key)
    ensures SortedDesc(r, key)
    ensures multiset(r) == multiset(s) + multiset{x}
    ensures |r| == |s| + 1
  {
    if s == [] then [x]
    else if key(x) >= key(s[0]) then
      ConsSortedDesc(x, s, key);
      [x] + s
    else
      var rest := InsertDesc(x, s[1..], key);
      assert s == [s[0]] + s[1..];
      assert forall y :: y in rest ==> key(s[0]) >= key(y) by {
        forall y | y in rest ensures key(s[0]) >= key(y) {
          assert y in multiset(rest);
          if y != x {
            var k :| 0 <= k < |s[1..]| && s[1..][k] == y;
            assert s[k + 1] == y;
          }
        }
      }
      ConsSortedDesc(s[0], rest, key);
      [s[0]] + rest
  }

  lemma {:induction false} InsertDescNoDup(x: nat, s: seq<nat>, key: nat -> int)
    requires SortedDesc(s, key) && NoDup(s) && x !in s
    ensures NoDup(InsertDesc(x, s, key))
  {
    if s != [] && key(x) < key(s[0]) {
      InsertDescNoDup(x, s[1..], key);
      var rest := InsertDesc(x, s[1..], key);
      assert s[0] !in s[1..];
      assert s[0] !in multiset(rest);
    }
  }

  /** ORDER BY key DESC: a permutation of `s` in non-increasing key order.
      Rows with equal keys keep their scan order. */
  function SortDesc(s: seq<nat>, key: nat -> int): (r: seq<nat>)
    ensures SortedDesc(r, key)
    ensures multiset(r) == multiset(s)
    ensures |r| == |s|
  {
    if s == [] then []
    else
      assert s == [s[0]] + s[1..];
      InsertDesc(s[0], SortDesc(s[1..], key), key)
  }

  /** Sorting never brings two copies of an id together. */
  lemma {:induction false} SortDescNoDup(s: seq<nat>, key: nat -> int)
    requires NoDup(s)
    ensures NoDup(SortDesc(s, key))
  {
    if s != [] {
      var tail := s[1..];
      SortDescNoDup(tail, key);
      assert s[0] !in tail;
      assert s[0] !in multiset(SortDesc(tail, key));
      InsertDescNoDup(s[0], SortDesc(tail, key), key);
    }
  }

  /** `s[i]` is the first element of `s` that satisfies `p`. */
  predicate FirstAt(s: seq<nat>, p: nat -> bool, i: int) {
    0 <= i < |s| && p(s[i]) && forall j :: 0 <= j < i ==> !p(s[j])
  }

  /** A first match in the tail is a first match in the whole when the head fails `p`. */
  lemma FirstAtShift(s: seq<nat>, p: nat -> bool, i: int)
    requires s != [] && !p(s[0]) && FirstAt(s[1..], p, i)
    ensures FirstAt(s, p, i + 1)
  {
    forall j | 0 <= j < i + 1 ensures !p(s[j]) {
      if j > 0 { assert s[j] == s[1..][j - 1]; }
    }
  }

  /** `fetchone()` after WHERE p: the first scanned id satisfying `p`. */
  function FirstWhere(s: seq<nat>, p: nat -> bool): (r: Option<nat>)
    ensures r.None? <==> forall k :: k in s ==> !p(k)
    ensures r.Some? ==> exists i :: FirstAt(s, p, i) && s[i] == r.value
  {
    if s == [] then None
    else if p(s[0]) then
      assert FirstAt(s, p, 0);
      Some(s[0])
    else
      var r := FirstWhere(s[1..], p);
      if r.None? then r
      else
        var i :| FirstAt(s[1..], p, i) && s[1..][i] == r.value;
        FirstAtShift(s, p, i);
        r
  }

  /** On a primary-key scan, the first match is the match with the least id. */
  lemma FirstWhereLeast(s: seq<nat>, p: nat -> bool)
    requires Increasing(s)
    ensures FirstWhere(s, p).Some? ==> forall k :: k in s && p(k) ==> FirstWhere(s, p).value <= k
  {
    var r := FirstWhere(s, p);
    if r.Some? {
      var i :| FirstAt(s, p, i) && s[i] == r.value;
      forall k | k in s && p(k) ensures r.value <= k {
        var j :| 0 <= j < |s| && s[j] == k;
        if j < i {
          assert !p(s[j]);
        }
      }
    }
  }

  /** `SELECT id ... WHERE keep` followed by `fetchone()`: the matching row with
      the least id, or None when no row matches. */
  function FindFirst(ids: set<nat>, keep: nat -> bool): (r: Option<nat>)
    ensures r.None? <==> forall k :: k in ids ==> !keep(k)
    ensures r.Some? ==> r.value in ids && keep(r.value)
    ensures r.Some? ==> forall k :: k in ids && keep(k) ==> r.value <= k
  {
    var scan := KeysAscending(ids);
    FirstWhereLeast(scan, keep);
    FirstWhere(scan, keep)
  }

  /** The rows of a table that satisfy `keep`, without duplicates, newest first:
      WHERE keep ORDER BY key DESC over a scan of the table. */
  function NewestFirst(ids: set<nat>, keep: nat -> bool, key: nat -> int): (r: seq<nat>)
    ensures NoDup(r)
    ensures forall k :: k in r <==> k in ids && keep(k)
    ensures SortedDesc(r, key)
  {
    var scan := KeysAscending(ids);
    var selected := Select(scan, keep);
    SelectIncreasing(scan, keep);
    SortDescNoDup(selected, key);
    var r := SortDesc(selected, key);
    assert forall k :: k in r <==> k in selected by {
      forall k ensures k in r <==> k in selected {
        assert k in r <==> k in multiset(r);
        assert k in selected <==> k in multiset(selected);
      }
    }
    r
  }
}

/** Finite directed graphs given as a list of arcs: walks, cycles, and the two facts every
    cycle detector rests on.  A list (not a set) because the sources keep repeated arcs. */
module Digraph {

  type Id = string

  /** An arc `(u, v)` goes from `u` to `v`. */
  type Arc = (Id, Id)

  ghost predicate NoDup<T>(s: seq<T>) {
    forall i, j :: 0 <= i < j < |s| ==> s[i] != s[j]
  }

  /** Every two neighbours of `p` are joined by an arc. */
  ghost predicate IsWalk(arcs: seq<Arc>, p: seq<Id>) {
    |p| <= 1 || ((p[|p| - 2], p[|p| - 1]) in arcs && IsWalk(arcs, p[..|p| - 1]))
  }

  /** A closed walk with at least one arc; self-loops count. */
  ghost predicate IsCycle(arcs: seq<Arc>, p: seq<Id>) {
    |p| >= 2 && IsWalk(arcs, p) && p[0] == p[|p| - 1]
  }

  ghost predicate HasCycle(arcs: seq<Arc>) {
    exists p :: IsCycle(arcs, p)
  }

  /** `x` occurs strictly before `y` in `order`. */
  ghost predicate Before(order: seq<Id>, x: Id, y: Id) {
    exists i, j :: 0 <= i < j < |order| && order[i] == x && order[j] == y
  }

  ghost predicate Respects(arcs: seq<Arc>, order: seq<Id>) {
    forall a :: a in arcs ==> Before(order, a.0, a.1)
  }

  /** Cutting a walk keeps it a walk. */
  lemma {:induction false} WalkSuffix(arcs: seq<Arc>, p: seq<Id>, i: nat)
    requires IsWalk(arcs, p) && i <= |p|
    ensures IsWalk(arcs, p[i..])
  {
    if i + 2 <= |p| {
      WalkSuffix(arcs, p[..|p| - 1], i);
      assert p[i..][..|p| - i - 1] == p[..|p| - 1][i..];
    }
  }

  lemma {:induction false} WalkPrefix(arcs: seq<Arc>, p: seq<Id>, i: nat)
    requires IsWalk(arcs, p) && i <= |p|
    ensures IsWalk(arcs, p[..i])
  {
    if i < |p| {
      if |p| > 1 { WalkPrefix(arcs, p[..|p| - 1], i); }
      assert p[..|p| - 1][..i] == p[..i];
    } else {
      assert p[..i] == p;
    }
  }

  lemma {:induction false} WalkGoesForward(arcs: seq<Arc>, order: seq<Id>, p: seq<Id>)
    requires NoDup(order) && Respects(arcs, order)
    requires |p| >= 2 && IsWalk(arcs, p)
    ensures Before(order, p[0], p[|p| - 1])
  {
    var n := |p|;
    assert Before(order, (p[n - 2], p[n - 1]).0, (p[n - 2], p[n - 1]).1);
    if n > 2 {
      WalkGoesForward(arcs, order, p[..n - 1]);
      var i, j :| 0 <= i < j < |order| && order[i] == p[0] && order[j] == p[n - 2];
      var j', k :| 0 <= j' < k < |order| && order[j'] == p[n - 2] && order[k] == p[n - 1];
      assert j == j';
    }
  }

  /** A listing without repetition in which every arc goes forward excludes cycles. */
  lemma {:induction false} OrderedHasNoCycle(arcs: seq<Arc>, order: seq<Id>)
    requires NoDup(order) && Respects(arcs, order)
    ensures !HasCycle(arcs)
  {
    if HasCycle(arcs) {
      var p :| IsCycle(arcs, p);
      WalkGoesForward(arcs, order, p);
    }
  }

  lemma {:induction false} NoDupBounded<T>(s: seq<T>, universe: set<T>)
    requires NoDup(s) && forall x :: x in s ==> x in universe
    ensures |s| <= |universe|
    ensures |s| == |universe| ==> forall x :: x in universe ==> x in s
  {
    if s == [] {
    } else {
      var n := |s| - 1;
      NoDupBounded(s[..n], universe - {s[n]});
      assert s == s[..n] + [s[n]];
    }
  }

  ghost predicate HasPredecessorIn(arcs: seq<Arc>, s: set<Id>, v: Id) {
    exists u :: u in s && (u, v) in arcs
  }

  ghost predicate NoSource(arcs: seq<Arc>, s: set<Id>) {
    forall v {:trigger HasPredecessorIn(arcs, s, v)} :: v in s ==> HasPredecessorIn(arcs, s, v)
  }

  /** A walk of any length inside a set whose members all have a predecessor in the set,
      listed from its last vertex back. */
  lemma {:induction false} WalkBackwards(arcs: seq<Arc>, s: set<Id>, n: nat) returns (p: seq<Id>)
    requires s != {} && NoSource(arcs, s)
    ensures |p| == n + 1 && IsWalk(arcs, p) && forall x :: x in p ==> x in s
  {
    if n == 0 {
      var v :| v in s;
      p := [v];
    } else {
      var q := WalkBackwards(arcs, s, n - 1);
      assert q[0] in s && HasPredecessorIn(arcs, s, q[0]);
      var u :| u in s && (u, q[0]) in arcs;
      p := [u] + q;
      WalkCons(arcs, u, q);
    }
  }

  lemma {:induction false} WalkSnoc(arcs: seq<Arc>, p: seq<Id>, v: Id)
    requires IsWalk(arcs, p) && (p == [] || (p[|p| - 1], v) in arcs)
    ensures IsWalk(arcs, p + [v])
  {
    assert (p + [v])[..|p|] == p;
  }

  lemma {:induction false} WalkCons(arcs: seq<Arc>, u: Id, q: seq<Id>)
    requires |q| >= 1 && IsWalk(arcs, q) && (u, q[0]) in arcs
    ensures IsWalk(arcs, [u] + q)
  {
    if |q| > 1 {
      WalkCons(arcs, u, q[..|q| - 1]);
      assert ([u] + q)[..|q|] == [u] + q[..|q| - 1];
    }
  }

  /** If every vertex of a non-empty finite set has a predecessor in it, there is a cycle. */
  lemma {:induction false} NoSourceMeansCycle(arcs: seq<Arc>, s: set<Id>)
    requires s != {} && NoSource(arcs, s)
    ensures HasCycle(arcs)
  {
    var p := WalkBackwards(arcs, s, |s|);
    if NoDup(p) {
      NoDupBounded(p, s);
    } else {
      var i, j :| 0 <= i < j < |p| && p[i] == p[j];
      WalkPrefix(arcs, p, j + 1);
      WalkSuffix(arcs, p[..j + 1], i);
      assert IsCycle(arcs, p[..j + 1][i..]);
    }
  }
}

/** The first-in first-out order that Kahn's algorithm produces, defined without degrees or
    queues, and the theorem that makes its length a cycle test.

    An arc `(d, n)` says that `n` depends on `d`.  `keys` lists the vertices. */
module KahnOrder {
  import opened Digraph

  /** The adjacency list of `v`, in insertion order, repetitions kept. */
  function Successors(arcs: seq<Arc>, v: Id): (s: seq<Id>)
    ensures forall n :: n in s <==> (v, n) in arcs
  {
    if arcs == [] then [] else
    var front, last := Successors(arcs[..|arcs| - 1], v), arcs[|arcs| - 1];
    assert arcs == arcs[..|arcs| - 1] + [last];
    if last.0 == v then front + [last.1] else front
  }

  /** Everything `n` depends on is in `done`. */
  ghost predicate Ready(arcs: seq<Arc>, done: seq<Id>, n: Id) {
    forall d :: (d, n) in arcs ==> d in done
  }

  /** The vertices with no incoming arc, in listing order. */
  ghost function Roots(keys: seq<Id>, arcs: seq<Arc>): seq<Id> {
    if keys == [] then [] else
    var n := keys[|keys| - 1];
    Roots(keys[..|keys| - 1], arcs) + if Ready(arcs, [], n) then [n] else []
  }

  /** What the first `j` entries of `v`'s adjacency list contribute when `v` is removed after
      `done`: an entry frees its target when it is the target's last entry there and nothing
      else is awaited. */
  ghost function FreedBy(arcs: seq<Arc>, done: seq<Id>, v: Id, j: nat): seq<Id>
    requires j <= |Successors(arcs, v)|
  {
    if j == 0 then [] else
    var n := Successors(arcs, v)[j - 1];
    FreedBy(arcs, done, v, j - 1) +
    if n !in Successors(arcs, v)[j..] && Ready(arcs, done + [v], n) then [n] else []
  }

  /** All vertices that have entered the queue once exactly `done` has been removed. */
  ghost function Enqueued(keys: seq<Id>, arcs: seq<Arc>, done: seq<Id>): seq<Id> {
    if done == [] then Roots(keys, arcs) else
    var before, v := done[..|done| - 1], done[|done| - 1];
    Enqueued(keys, arcs, before) + FreedBy(arcs, before, v, |Successors(arcs, v)|)
  }

  /** `order` is removed from the queue front by front until the queue is empty. */
  ghost predicate IsKahnOrder(keys: seq<Id>, arcs: seq<Arc>, order: seq<Id>) {
    && Enqueued(keys, arcs, order) == order
    && forall k :: 0 <= k < |order| ==> Waits(keys, arcs, order, k)
  }

  /** When the first `k` vertices have been removed, in the order they were queued, another one waits. */
  ghost predicate Waits(keys: seq<Id>, arcs: seq<Arc>, order: seq<Id>, k: nat)
    requires k <= |order|
  {
    order[..k] < Enqueued(keys, arcs, order[..k])
  }

  ghost predicate TargetsIn(arcs: seq<Arc>, keys: seq<Id>) {
    forall a :: a in arcs ==> a.1 in keys
  }

  ghost predicate SourcesIn(arcs: seq<Arc>, keys: seq<Id>) {
    forall a :: a in arcs ==> a.0 in keys
  }

  lemma {:induction false} NoDupConcat(s: seq<Id>, t: seq<Id>)
    requires NoDup(s) && NoDup(t) && forall n :: n in t ==> n !in s
    ensures NoDup(s + t)
  {
    forall i, j | 0 <= i < j < |s + t| ensures (s + t)[i] != (s + t)[j] {
      if i < |s| <= j {
        assert t[j - |s|] in t && s[i] in s;
      }
    }
  }

  lemma {:induction false} RootsAre(keys: seq<Id>, arcs: seq<Arc>)
    requires NoDup(keys)
    ensures NoDup(Roots(keys, arcs))
    ensures forall n :: n in Roots(keys, arcs) <==> n in keys && Ready(arcs, [], n)
  {
    if keys != [] {
      var m := |keys| - 1;
      RootsAre(keys[..m], arcs);
      assert keys == keys[..m] + [keys[m]];
    }
  }

  lemma {:induction false} FreedAre(arcs: seq<Arc>, done: seq<Id>, v: Id, j: nat)
    requires j <= |Successors(arcs, v)|
    ensures NoDup(FreedBy(arcs, done, v, j))
    ensures forall n :: n in FreedBy(arcs, done, v, j) <==>
              n in Successors(arcs, v)[..j] && n !in Successors(arcs, v)[j..] && Ready(arcs, done + [v], n)
  {
    if j > 0 {
      var s := Successors(arcs, v);
      FreedAre(arcs, done, v, j - 1);
      assert s[..j] == s[..j - 1] + [s[j - 1]];
      assert s[j - 1..] == [s[j - 1]] + s[j..];
    }
  }

  /** The queue history holds exactly the vertices whose dependencies are all removed, once each. */
  lemma {:induction false} EnqueuedAre(keys: seq<Id>, arcs: seq<Arc>, done: seq<Id>)
    requires NoDup(keys) && NoDup(done) && TargetsIn(arcs, keys)
    ensures NoDup(Enqueued(keys, arcs, done))
    ensures forall n :: n in Enqueued(keys, arcs, done) <==> n in keys && Ready(arcs, done, n)
  {
    if done == [] {
      RootsAre(keys, arcs);
    } else {
      var before, v := done[..|done| - 1], done[|done| - 1];
      var s := Successors(arcs, v);
      EnqueuedAre(keys, arcs, before);
      FreedAre(arcs, before, v, |s|);
      assert done == before + [v] && s[..|s|] == s;
      var q, f := Enqueued(keys, arcs, before), FreedBy(arcs, before, v, |s|);
      forall n | n in f ensures n in keys && n !in q {
        assert (v, n) in arcs && (v, n).1 in keys;
      }
      forall n | n in keys && Ready(arcs, done, n) ensures n in q || n in f {
        if !Ready(arcs, before, n) {
          var d :| (d, n) in arcs && d !in before;
        }
      }
      NoDupConcat(q, f);
    }
  }

  /** The history only grows at its end. */
  lemma {:induction false} EnqueuedGrows(keys: seq<Id>, arcs: seq<Arc>, done: seq<Id>, k: nat)
    requires k <= |done|
    ensures Enqueued(keys, arcs, done[..k]) <= Enqueued(keys, arcs, done)
  {
    if k == |done| {
      assert done[..k] == done;
    } else {
      EnqueuedGrows(keys, arcs, done[..|done| - 1], k);
      assert done[..|done| - 1][..k] == done[..k];
    }
  }

  /** The vertex at position `k` stood at that position of the queue when it was removed. */
  lemma {:induction false} NextInQueue(keys: seq<Id>, arcs: seq<Arc>, order: seq<Id>, k: nat)
    requires IsKahnOrder(keys, arcs, order) && k < |order|
    ensures k < |Enqueued(keys, arcs, order[..k])| && order[k] == Enqueued(keys, arcs, order[..k])[k]
  {
    assert Waits(keys, arcs, order, k);
    EnqueuedGrows(keys, arcs, order, k);
  }

  lemma {:induction false} KahnOrdersAgree(keys: seq<Id>, arcs: seq<Arc>, o: seq<Id>, o': seq<Id>, k: nat)
    requires IsKahnOrder(keys, arcs, o) && IsKahnOrder(keys, arcs, o') && k <= |o| && k <= |o'|
    ensures o[..k] == o'[..k]
  {
    if k > 0 {
      KahnOrdersAgree(keys, arcs, o, o', k - 1);
      NextInQueue(keys, arcs, o, k - 1);
      NextInQueue(keys, arcs, o', k - 1);
      assert o[..k] == o[..k - 1] + [o[k - 1]] && o'[..k] == o'[..k - 1] + [o'[k - 1]];
    }
  }

  lemma {:induction false} PrefixIsWhole(keys: seq<Id>, arcs: seq<Arc>, o: seq<Id>, o': seq<Id>)
    requires IsKahnOrder(keys, arcs, o) && IsKahnOrder(keys, arcs, o') && |o| <= |o'| && o[..|o|] == o'[..|o|]
    ensures o == o'
  {
    assert o[..|o|] == o && o'[..|o'|] == o';
    assert |o| < |o'| ==> Waits(keys, arcs, o', |o|);
  }

  /** The order is determined by the vertices and arcs alone. */
  lemma {:induction false} KahnOrderUnique(keys: seq<Id>, arcs: seq<Arc>, o: seq<Id>, o': seq<Id>)
    requires IsKahnOrder(keys, arcs, o) && IsKahnOrder(keys, arcs, o')
    ensures o == o'
  {
    if |o| <= |o'| {
      KahnOrdersAgree(keys, arcs, o, o', |o|);
      PrefixIsWhole(keys, arcs, o, o');
    } else {
      KahnOrdersAgree(keys, arcs, o, o', |o'|);
      PrefixIsWhole(keys, arcs, o', o);
    }
  }

  /** A prefix of the removals is repetition-free and drawn from the vertices. */
  lemma {:induction false} RemovedAreDistinct(keys: seq<Id>, arcs: seq<Arc>, done: seq<Id>)
    requires NoDup(keys) && TargetsIn(arcs, keys)
    requires done <= Enqueued(keys, arcs, done)
    requires forall k :: 0 <= k < |done| ==> Waits(keys, arcs, done, k)
    ensures NoDup(done) && NoDup(Enqueued(keys, arcs, done))
    ensures forall n :: n in Enqueued(keys, arcs, done) <==> n in keys && Ready(arcs, done, n)
  {
    if done != [] {
      var m := |done| - 1;
      var before := done[..m];
      assert Waits(keys, arcs, done, m);
      forall k | 0 <= k < m ensures Waits(keys, arcs, before, k) {
        assert Waits(keys, arcs, done, k) && before[..k] == done[..k];
      }
      RemovedAreDistinct(keys, arcs, before);
      EnqueuedGrows(keys, arcs, done, m);
      assert done[..m + 1] == before + [done[m]] <= Enqueued(keys, arcs, before);
    }
    EnqueuedAre(keys, arcs, done);
  }

  /** In a complete run every vertex comes after everything it depends on. */
  lemma {:induction false} KahnOrderRespects(keys: seq<Id>, arcs: seq<Arc>, order: seq<Id>)
    requires NoDup(keys) && TargetsIn(arcs, keys) && IsKahnOrder(keys, arcs, order)
    ensures NoDup(order)
    ensures forall n :: n in order <==> n in keys && Ready(arcs, order, n)
    ensures forall a :: a in arcs && a.1 in order ==> Before(order, a.0, a.1)
  {
    RemovedAreDistinct(keys, arcs, order);
    forall a | a in arcs && a.1 in order ensures Before(order, a.0, a.1) {
      var k :| 0 <= k < |order| && order[k] == a.1;
      NextInQueue(keys, arcs, order, k);
      EnqueuedAre(keys, arcs, order[..k]);
      assert Ready(arcs, order[..k], a.1) && (a.0, a.1) in arcs;
    }
  }

  lemma {:induction false} CountDistinct(s: seq<Id>)
    ensures |set n | n in s| <= |s|
    ensures NoDup(s) ==> |set n | n in s| == |s|
  {
    if s != [] {
      var m := |s| - 1;
      CountDistinct(s[..m]);
      assert s == s[..m] + [s[m]];
      assert (set n | n in s) == (set n | n in s[..m]) + {s[m]};
    }
  }

  /** A repetition-free selection of `keys` is complete exactly when it is as long. */
  lemma {:induction false} CompleteIffSameLength(keys: seq<Id>, order: seq<Id>)
    requires NoDup(keys) && NoDup(order) && forall n :: n in order ==> n in keys
    ensures |order| <= |keys|
    ensures |order| == |keys| <==> forall n :: n in keys ==> n in order
  {
    var all, picked := set n | n in keys, set n | n in order;
    CountDistinct(keys);
    CountDistinct(order);
    NoDupBounded(order, all);
    if forall n :: n in keys ==> n in order {
      assert picked == all;
    }
  }

  /** Vertices that are never removed wait for each other in a circle. */
  lemma {:induction false} StuckMeansCycle(keys: seq<Id>, arcs: seq<Arc>, order: seq<Id>, n: Id)
    requires forall n :: n in order <==> n in keys && Ready(arcs, order, n)
    requires SourcesIn(arcs, keys) && n in keys && n !in order
    ensures HasCycle(arcs)
  {
    var stuck := set n | n in keys && n !in order;
    assert n in stuck;
    forall v | v in stuck ensures HasPredecessorIn(arcs, stuck, v) {
      var d :| (d, v) in arcs && d !in order;
      assert (d, v).0 in keys && d in stuck;
    }
    NoSourceMeansCycle(arcs, stuck);
  }

  /** The run removes every vertex exactly when all sources are vertices and there is no cycle. */
  lemma {:induction false} KahnCompleteIffAcyclic(keys: seq<Id>, arcs: seq<Arc>, order: seq<Id>)
    requires NoDup(keys) && TargetsIn(arcs, keys) && IsKahnOrder(keys, arcs, order)
    ensures NoDup(order) && |order| <= |keys| && forall n :: n in order ==> n in keys
    ensures |order| == |keys| <==> SourcesIn(arcs, keys) && !HasCycle(arcs)
    ensures |order| == |keys| ==> Respects(arcs, order) && forall n :: n in keys ==> n in order
  {
    KahnOrderRespects(keys, arcs, order);
    CompleteIffSameLength(keys, order);
    if |order| == |keys| {
      assert Respects(arcs, order);
      OrderedHasNoCycle(arcs, order);
      forall a | a in arcs ensures a.0 in keys {
        assert Before(order, a.0, a.1);
      }
    } else if SourcesIn(arcs, keys) {
      var n :| n in keys && n !in order;
      StuckMeansCycle(keys, arcs, order, n);
    }
  }

  lemma {:induction false} IndependentRoots(keys: seq<Id>)
    ensures Roots(keys, []) == keys
  {
    if keys != [] {
      IndependentRoots(keys[..|keys| - 1]);
    }
  }

  lemma {:induction false} IndependentQueue(keys: seq<Id>, done: seq<Id>)
    ensures Enqueued(keys, [], done) == keys
  {
    if done == [] {
      IndependentRoots(keys);
    } else {
      IndependentQueue(keys, done[..|done| - 1]);
    }
  }

  /** Without arcs the order is the listing order. */
  lemma {:induction false} IndependentKeepListingOrder(keys: seq<Id>, order: seq<Id>)
    requires IsKahnOrder(keys, [], order)
    ensures order == keys
  {
    IndependentQueue(keys, order);
  }
}

/** The two topological sorts: the strict one, which reports cycles, and the lenient one, which
    appends whatever it could not order.  JavaScript's insertion-ordered `Map` is a Dafny map
    together with the list of its keys in insertion order. */
module TopologicalSort {
  import opened Digraph
  import opened KahnOrder

  datatype TaskNode = TaskNode(id: Id, dependsOn: seq<Id>, description: string, language: string)

  function Ids(nodes: seq<TaskNode>): (ids: seq<Id>)
    ensures |ids| == |nodes| && forall i :: 0 <= i < |nodes| ==> ids[i] == nodes[i].id
  {
    seq(|nodes|, i requires 0 <= i < |nodes| => nodes[i].id)
  }

  /** The distinct ids, in order of first occurrence. */
  function Keys(nodes: seq<TaskNode>): seq<Id> {
    if nodes == [] then [] else
    var front, id := Keys(nodes[..|nodes| - 1]), nodes[|nodes| - 1].id;
    if id in front then front else front + [id]
  }

  lemma {:induction false} KeysAre(nodes: seq<TaskNode>)
    ensures NoDup(Keys(nodes)) && |Keys(nodes)| <= |nodes|
    ensures forall id :: id in Keys(nodes) <==> id in Ids(nodes)
    ensures |Keys(nodes)| == |nodes| <==> NoDup(Ids(nodes))
    ensures |Keys(nodes)| == |nodes| ==> Keys(nodes) == Ids(nodes)
  {
    if nodes != [] {
      var m := |nodes| - 1;
      var front, ids := Keys(nodes[..m]), Ids(nodes[..m]);
      KeysAre(nodes[..m]);
      assert Ids(nodes) == ids + [nodes[m].id];
      if NoDup(Ids(nodes)) {
        assert forall i, j :: 0 <= i < j < m ==> Ids(nodes)[i] != Ids(nodes)[j];
        assert NoDup(ids) && Ids(nodes)[m] !in ids;
      }
    }
  }

  /** `arcs` followed by the arcs that make `id` depend on `deps`. */
  function Entered(arcs: seq<Arc>, deps: seq<Id>, id: Id): seq<Arc> {
    if deps == [] then arcs else Entered(arcs, deps[..|deps| - 1], id) + [(deps[|deps| - 1], id)]
  }

  /** One arc per listed dependency, in listing order. */
  function Arcs(nodes: seq<TaskNode>): seq<Arc> {
    if nodes == [] then [] else
    var n := nodes[|nodes| - 1];
    Entered(Arcs(nodes[..|nodes| - 1]), n.dependsOn, n.id)
  }

  /** The dependencies that name a listed id. */
  function Known(keys: seq<Id>, deps: seq<Id>): seq<Id> {
    if deps == [] then [] else
    var front, d := Known(keys, deps[..|deps| - 1]), deps[|deps| - 1];
    if d in keys then front + [d] else front
  }

  /** The plan with its unknown dependencies deleted. */
  function DropUnknown(keys: seq<Id>, nodes: seq<TaskNode>): (trimmed: seq<TaskNode>)
    ensures |trimmed| == |nodes|
    ensures forall i :: 0 <= i < |nodes| ==>
              trimmed[i] == nodes[i].(dependsOn := Known(keys, nodes[i].dependsOn))
  {
    seq(|nodes|, i requires 0 <= i < |nodes| => nodes[i].(dependsOn := Known(keys, nodes[i].dependsOn)))
  }

  // ---------------------------------------------------------------- facts about the arcs

  /** Some node lists `a.0` as a dependency of `a.1`. */
  ghost predicate Lists(nodes: seq<TaskNode>, a: Arc) {
    exists i :: 0 <= i < |nodes| && nodes[i].id == a.1 && a.0 in nodes[i].dependsOn
  }

  lemma {:induction false} EnteredAre(arcs: seq<Arc>, deps: seq<Id>, id: Id, a: Arc)
    ensures a in Entered(arcs, deps, id) <==> a in arcs || (a.1 == id && a.0 in deps)
  {
    if deps != [] {
      EnteredAre(arcs, deps[..|deps| - 1], id, a);
      assert deps == deps[..|deps| - 1] + [deps[|deps| - 1]];
    }
  }

  lemma {:induction false} ListsAppend(nodes: seq<TaskNode>, n: TaskNode, a: Arc)
    ensures Lists(nodes + [n], a) <==> Lists(nodes, a) || (a.1 == n.id && a.0 in n.dependsOn)
  {
    var all := nodes + [n];
    if Lists(nodes, a) {
      var i :| 0 <= i < |nodes| && nodes[i].id == a.1 && a.0 in nodes[i].dependsOn;
      assert all[i] == nodes[i];
    }
    if Lists(all, a) {
      var i :| 0 <= i < |all| && all[i].id == a.1 && a.0 in all[i].dependsOn;
      assert i < |nodes| ==> all[i] == nodes[i];
    }
    assert all[|nodes|] == n;
  }

  lemma {:induction false} ArcListed(nodes: seq<TaskNode>, a: Arc)
    ensures a in Arcs(nodes) <==> Lists(nodes, a)
  {
    if nodes != [] {
      var front, n := nodes[..|nodes| - 1], nodes[|nodes| - 1];
      ArcListed(front, a);
      EnteredAre(Arcs(front), n.dependsOn, n.id, a);
      ListsAppend(front, n, a);
      assert nodes == front + [n];
    }
  }

  lemma {:induction false} ArcTargets(nodes: seq<TaskNode>)
    ensures TargetsIn(Arcs(nodes), Keys(nodes))
  {
    KeysAre(nodes);
    forall a | a in Arcs(nodes) ensures a.1 in Keys(nodes) {
      ArcListed(nodes, a);
      var i :| 0 <= i < |nodes| && nodes[i].id == a.1 && a.0 in nodes[i].dependsOn;
      assert Ids(nodes)[i] == a.1;
    }
  }

  // ---------------------------------------------------------------- in-degrees

  /** How often `n` still waits: arcs into `n` whose source is not in `done`. */
  function Waiting(arcs: seq<Arc>, done: seq<Id>, n: Id): nat {
    if arcs == [] then 0 else
    var a := arcs[|arcs| - 1];
    Waiting(arcs[..|arcs| - 1], done, n) + if a.1 == n && a.0 !in done then 1 else 0
  }

  function Occurrences(s: seq<Id>, n: Id): nat {
    if s == [] then 0 else Occurrences(s[1..], n) + if s[0] == n then 1 else 0
  }

  lemma {:induction false} OccurrencesAppend(s: seq<Id>, x: Id, n: Id)
    ensures Occurrences(s + [x], n) == Occurrences(s, n) + if x == n then 1 else 0
  {
    if s == [] {
      assert s + [x] == [x];
      assert Occurrences([x], n) == Occurrences([x][1..], n) + if x == n then 1 else 0;
    } else {
      OccurrencesAppend(s[1..], x, n);
      assert (s + [x])[1..] == s[1..] + [x];
    }
  }

  lemma {:induction false} OccurrencesPositive(s: seq<Id>, n: Id)
    ensures Occurrences(s, n) > 0 <==> n in s
  {
    if s != [] {
      OccurrencesPositive(s[1..], n);
      assert s == [s[0]] + s[1..];
    }
  }

  lemma {:induction false} WaitingZeroIffReady(arcs: seq<Arc>, done: seq<Id>, n: Id)
    ensures Waiting(arcs, done, n) == 0 <==> Ready(arcs, done, n)
  {
    if arcs != [] {
      var m := |arcs| - 1;
      WaitingZeroIffReady(arcs[..m], done, n);
      assert arcs == arcs[..m] + [arcs[m]];
      assert Ready(arcs, done, n) ==> (arcs[m].1 == n ==> (arcs[m].0, n) in arcs);
    }
  }

  /** Removing `v` settles one wait per entry of its adjacency list. */
  lemma {:induction false} WaitingAfter(arcs: seq<Arc>, done: seq<Id>, v: Id, n: Id)
    requires v !in done
    ensures Waiting(arcs, done, n) == Waiting(arcs, done + [v], n) + Occurrences(Successors(arcs, v), n)
  {
    if arcs != [] {
      var m := |arcs| - 1;
      WaitingAfter(arcs[..m], done, v, n);
      if arcs[m].0 == v {
        OccurrencesAppend(Successors(arcs[..m], v), arcs[m].1, n);
      }
    }
  }

  // ---------------------------------------------------------------- the shared queue loop

  /** `inDegree` and `adj` tally the arcs, for the keys only. */
  ghost predicate Tallies(keys: seq<Id>, arcs: seq<Arc>, inDegree: map<Id, int>, adj: map<Id, seq<Id>>) {
    && (forall n :: n in keys <==> n in inDegree)
    && (forall n :: n in keys <==> n in adj)
    && (forall n :: n in keys ==> inDegree[n] == Waiting(arcs, [], n))
    && (forall n :: n in keys ==> adj[n] == Successors(arcs, n))
  }

  ghost predicate Describes(keys: seq<Id>, arcs: seq<Arc>, inDegree: map<Id, int>, adj: map<Id, seq<Id>>) {
    NoDup(keys) && TargetsIn(arcs, keys) && Tallies(keys, arcs, inDegree, adj)
  }

  lemma {:induction false} TallyNone(keys: seq<Id>, inDegree: map<Id, int>, adj: map<Id, seq<Id>>)
    requires (forall n :: n in keys <==> n in inDegree) && (forall n :: n in keys <==> n in adj)
    requires forall n :: n in keys ==> inDegree[n] == 0 && adj[n] == []
    ensures Tallies(keys, [], inDegree, adj)
  {
  }

  /** The initialising loop of both sorts: zero degrees and empty adjacency lists. */
  method ZeroDegrees(nodes: seq<TaskNode>)
    returns (keys: seq<Id>, inDegree: map<Id, int>, adj: map<Id, seq<Id>>)
    ensures keys == Keys(nodes) && Tallies(keys, [], inDegree, adj)
  {
    keys, inDegree, adj := [], map[], map[];
    for i := 0 to |nodes|
      invariant keys == Keys(nodes[..i])
      invariant (forall id :: id in keys <==> id in inDegree) && (forall id :: id in keys <==> id in adj)
      invariant forall id :: id in keys ==> inDegree[id] == 0 && adj[id] == []
    {
      assert nodes[..i + 1][..i] == nodes[..i];
      var id := nodes[i].id;
      if id !in keys { keys := keys + [id]; }
      inDegree, adj := inDegree[id := 0], adj[id := []];
    }
    assert nodes[..|nodes|] == nodes;
    TallyNone(keys, inDegree, adj);
  }

  lemma {:induction false} AppendArc(arcs: seq<Arc>, a: Arc, n: Id)
    ensures Waiting(arcs + [a], [], n) == Waiting(arcs, [], n) + if a.1 == n then 1 else 0
    ensures Successors(arcs + [a], n) == Successors(arcs, n) + if a.0 == n then [a.1] else []
  {
    assert (arcs + [a])[..|arcs|] == arcs;
  }

  /** Entering one arc keeps the tally. */
  lemma {:induction false} TallyArc(keys: seq<Id>, arcs: seq<Arc>, inDegree: map<Id, int>, adj: map<Id, seq<Id>>,
                                    dep: Id, id: Id)
    requires Tallies(keys, arcs, inDegree, adj) && id in keys
    ensures Tallies(keys, arcs + [(dep, id)], inDegree[id := inDegree[id] + 1],
                    if dep in adj then adj[dep := adj[dep] + [id]] else adj)
  {
    forall n | n in keys
      ensures Waiting(arcs + [(dep, id)], [], n) == Waiting(arcs, [], n) + (if id == n then 1 else 0)
      ensures Successors(arcs + [(dep, id)], n) == Successors(arcs, n) + if dep == n then [id] else []
    {
      AppendArc(arcs, (dep, id), n);
    }
  }

  /** The vertices whose in-degree is zero, in insertion order: the initial queue. */
  method InitialQueue(keys: seq<Id>, ghost arcs: seq<Arc>, inDegree: map<Id, int>, adj: map<Id, seq<Id>>)
    returns (queue: seq<Id>)
    requires Describes(keys, arcs, inDegree, adj)
    ensures queue == Roots(keys, arcs)
  {
    queue := [];
    for i := 0 to |keys|
      invariant queue == Roots(keys[..i], arcs)
    {
      assert keys[..i + 1][..i] == keys[..i] && keys[..i + 1][i] == keys[i];
      WaitingZeroIffReady(arcs, [], keys[i]);
      if inDegree[keys[i]] == 0 { queue := queue + [keys[i]]; }
    }
    assert keys[..|keys|] == keys;
  }

  /** The waits left once `done` is removed, plus those that the entries of `rest` are about to settle. */
  ghost predicate Pending(keys: seq<Id>, arcs: seq<Arc>, done: seq<Id>, rest: seq<Id>, inDegree: map<Id, int>) {
    forall n :: n in keys ==> n in inDegree && inDegree[n] == Waiting(arcs, done, n) + Occurrences(rest, n)
  }

  lemma {:induction false} SettleOne(keys: seq<Id>, arcs: seq<Arc>, done: seq<Id>, n: Id, rest: seq<Id>,
                                     inDegree: map<Id, int>)
    requires n in keys && Pending(keys, arcs, done, [n] + rest, inDegree)
    ensures Pending(keys, arcs, done, rest, inDegree[n := inDegree[n] - 1])
    ensures inDegree[n] == 1 <==> n !in rest && Ready(arcs, done, n)
  {
    assert ([n] + rest)[1..] == rest;
    OccurrencesPositive(rest, n);
    WaitingZeroIffReady(arcs, done, n);
  }

  lemma {:induction false} PendingAfter(keys: seq<Id>, arcs: seq<Arc>, done: seq<Id>, v: Id, inDegree: map<Id, int>)
    requires v !in done && Pending(keys, arcs, done, [], inDegree)
    ensures Pending(keys, arcs, done + [v], Successors(arcs, v), inDegree)
  {
    forall n | n in keys
      ensures Waiting(arcs, done, n) == Waiting(arcs, done + [v], n) + Occurrences(Successors(arcs, v), n)
    {
      WaitingAfter(arcs, done, v, n);
    }
  }

  /** The inner loop: the successors of `v` lose one wait per entry and join the queue when none is left. */
  method Release(keys: seq<Id>, ghost arcs: seq<Arc>, ghost done: seq<Id>, v: Id, next: seq<Id>,
                 inDegree: map<Id, int>, queue: seq<Id>)
    returns (inDegree': map<Id, int>, queue': seq<Id>)
    requires v !in done && next == Successors(arcs, v) && TargetsIn(arcs, keys)
    requires Pending(keys, arcs, done, [], inDegree)
    ensures Pending(keys, arcs, done + [v], [], inDegree')
    ensures queue' == queue + FreedBy(arcs, done, v, |next|)
  {
    inDegree', queue' := inDegree, queue;
    PendingAfter(keys, arcs, done, v, inDegree);
    ghost var rest := next;
    for j := 0 to |next|
      invariant rest == next[j..]
      invariant Pending(keys, arcs, done + [v], rest, inDegree')
      invariant queue' == queue + FreedBy(arcs, done, v, j)
    {
      var n := next[j];
      assert n in keys by { assert (v, n) in arcs && (v, n).1 in keys; }
      assert rest == [n] + next[j + 1..];
      rest := next[j + 1..];
      SettleOne(keys, arcs, done + [v], n, rest, inDegree');
      var newDeg := inDegree'[n] - 1;
      inDegree' := inDegree'[n := newDeg];
      if newDeg == 0 { queue' := queue' + [n]; }
    }
  }

  /** `order` has been shifted out and `queue` is what waits behind it. */
  ghost predicate Shifted(keys: seq<Id>, arcs: seq<Arc>, order: seq<Id>, queue: seq<Id>) {
    && order + queue == Enqueued(keys, arcs, order)
    && forall k :: 0 <= k < |order| ==> Waits(keys, arcs, order, k)
  }

  lemma {:induction false} HeadIsNew(keys: seq<Id>, order: seq<Id>, queue: seq<Id>)
    requires NoDup(keys) && NoDup(order + queue) && queue != [] && forall n :: n in order + queue ==> n in keys
    ensures queue[0] in keys && queue[0] !in order && |order| < |keys|
  {
    var all := order + queue;
    CompleteIffSameLength(keys, all);
    assert all[|order|] == queue[0] && queue[0] in all;
    forall i | 0 <= i < |order| ensures order[i] != queue[0] {
      assert all[i] == order[i];
    }
  }

  lemma {:induction false} ShiftedAreKeys(keys: seq<Id>, arcs: seq<Arc>, order: seq<Id>, queue: seq<Id>)
    requires NoDup(keys) && TargetsIn(arcs, keys) && Shifted(keys, arcs, order, queue)
    ensures NoDup(order + queue) && forall n :: n in order + queue ==> n in keys
  {
    RemovedAreDistinct(keys, arcs, order);
  }

  lemma {:induction false} ShiftNext(keys: seq<Id>, arcs: seq<Arc>, order: seq<Id>, queue: seq<Id>)
    requires Shifted(keys, arcs, order, queue) && queue != []
    ensures Shifted(keys, arcs, order + [queue[0]],
                    queue[1..] + FreedBy(arcs, order, queue[0], |Successors(arcs, queue[0])|))
  {
    var order' := order + [queue[0]];
    var freed := FreedBy(arcs, order, queue[0], |Successors(arcs, queue[0])|);
    assert order'[..|order|] == order;
    assert Enqueued(keys, arcs, order') == (order + queue) + freed;
    assert order' + (queue[1..] + freed) == (order + queue) + freed;
    forall k | 0 <= k < |order'| ensures Waits(keys, arcs, order', k) {
      if k < |order| {
        assert Waits(keys, arcs, order, k) && order'[..k] == order[..k];
      } else {
        assert order'[..k] == order;
      }
    }
  }

  /** The queue loop of both sorts, yielding the ids in the order they are shifted out. */
  method Drain(keys: seq<Id>, ghost arcs: seq<Arc>, inDegree0: map<Id, int>, adj: map<Id, seq<Id>>)
    returns (order: seq<Id>)
    requires Describes(keys, arcs, inDegree0, adj)
    ensures IsKahnOrder(keys, arcs, order)
  {
    var inDegree := inDegree0;
    var queue := InitialQueue(keys, arcs, inDegree, adj);
    order := [];
    while queue != []
      invariant Shifted(keys, arcs, order, queue)
      invariant Pending(keys, arcs, order, [], inDegree)
      decreases |keys| - |order|
    {
      ShiftedAreKeys(keys, arcs, order, queue);
      HeadIsNew(keys, order, queue);
      ShiftNext(keys, arcs, order, queue);
      var id := queue[0];
      inDegree, queue := Release(keys, arcs, order, id, adj[id], inDegree, queue[1..]);
      order := order + [id];
    }
    assert order + queue == order;
  }
}

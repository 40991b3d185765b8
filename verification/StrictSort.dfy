/** The strict sort of packages/orchestrator/src/orchestrator-decompose.ts. */
module StrictSort {
  import opened Wrappers
  import opened Digraph
  import opened KahnOrder
  import opened TopologicalSort

  const CYCLE_MESSAGE := "Cycle detected in task dependencies"

  ghost predicate DependenciesListed(nodes: seq<TaskNode>) {
    forall i, d :: 0 <= i < |nodes| && d in nodes[i].dependsOn ==> d in Ids(nodes)
  }

  /** What a plan must satisfy to be sortable. */
  ghost predicate WellFormed(nodes: seq<TaskNode>) {
    && NoDup(Ids(nodes))
    && DependenciesListed(nodes)
    && !HasCycle(Arcs(nodes))
  }

  /** Every node comes after all nodes it depends on. */
  ghost predicate DependenciesFirst(sorted: seq<TaskNode>) {
    forall i :: 0 <= i < |sorted| ==> AfterDependencies(sorted, i)
  }

  ghost predicate AfterDependencies(sorted: seq<TaskNode>, i: nat)
    requires i < |sorted|
  {
    forall d :: d in sorted[i].dependsOn ==> d in Ids(sorted[..i])
  }

  /** The nodes by id; the last one wins when an id is repeated. */
  method IndexById(nodes: seq<TaskNode>) returns (byId: map<Id, TaskNode>)
    ensures forall id :: id in Ids(nodes) ==> id in byId && byId[id].id == id && byId[id] in nodes
  {
    byId := map[];
    for i := 0 to |nodes|
      invariant forall k :: 0 <= k < i ==> nodes[k].id in byId
      invariant forall id :: id in byId ==> byId[id].id == id && byId[id] in nodes
    {
      byId := byId[nodes[i].id := nodes[i]];
    }
    forall id | id in Ids(nodes) ensures id in byId {
      var k :| 0 <= k < |nodes| && Ids(nodes)[k] == id;
    }
  }

  /** The dependencies of one node: each raises the in-degree, listed ones also enter an adjacency list. */
  method AddNodeArcs(id: Id, deps: seq<Id>, keys: seq<Id>, ghost arcs: seq<Arc>,
                     inDegree0: map<Id, int>, adj0: map<Id, seq<Id>>)
    returns (inDegree: map<Id, int>, adj: map<Id, seq<Id>>)
    requires id in keys && Tallies(keys, arcs, inDegree0, adj0)
    ensures Tallies(keys, Entered(arcs, deps, id), inDegree, adj)
  {
    inDegree, adj := inDegree0, adj0;
    ghost var seen := arcs;
    for j := 0 to |deps|
      invariant seen == Entered(arcs, deps[..j], id)
      invariant Tallies(keys, seen, inDegree, adj)
    {
      var dep := deps[j];
      TallyArc(keys, seen, inDegree, adj, dep, id);
      if dep in adj { adj := adj[dep := adj[dep] + [id]]; }
      inDegree := inDegree[id := inDegree[id] + 1];
      seen := seen + [(dep, id)];
      assert deps[..j + 1][..j] == deps[..j];
    }
    assert deps[..|deps|] == deps;
  }

  method AddArcs(nodes: seq<TaskNode>, keys: seq<Id>, inDegree0: map<Id, int>, adj0: map<Id, seq<Id>>)
    returns (inDegree: map<Id, int>, adj: map<Id, seq<Id>>)
    requires (forall id :: id in Ids(nodes) ==> id in keys) && Tallies(keys, [], inDegree0, adj0)
    ensures Tallies(keys, Arcs(nodes), inDegree, adj)
  {
    inDegree, adj := inDegree0, adj0;
    for i := 0 to |nodes|
      invariant Tallies(keys, Arcs(nodes[..i]), inDegree, adj)
    {
      assert Ids(nodes)[i] in keys && nodes[..i + 1][..i] == nodes[..i];
      inDegree, adj := AddNodeArcs(nodes[i].id, nodes[i].dependsOn, keys, Arcs(nodes[..i]), inDegree, adj);
    }
    assert nodes[..|nodes|] == nodes;
  }

  /** The arc list says what the dependency lists say. */
  lemma {:induction false} SourcesListed(nodes: seq<TaskNode>)
    ensures SourcesIn(Arcs(nodes), Keys(nodes)) <==> DependenciesListed(nodes)
  {
    KeysAre(nodes);
    if SourcesIn(Arcs(nodes), Keys(nodes)) {
      forall i, d | 0 <= i < |nodes| && d in nodes[i].dependsOn ensures d in Ids(nodes) {
        var a := (d, nodes[i].id);
        ArcListed(nodes, a);
        assert Lists(nodes, a) && a.0 in Keys(nodes);
      }
    }
    if DependenciesListed(nodes) {
      forall a | a in Arcs(nodes) ensures a.0 in Keys(nodes) {
        ArcListed(nodes, a);
      }
    }
  }

  lemma {:induction false} CompleteOrder(ids: seq<Id>, keys: seq<Id>, arcs: seq<Arc>, order: seq<Id>)
    requires NoDup(keys) && TargetsIn(arcs, keys) && IsKahnOrder(keys, arcs, order)
    requires |keys| <= |ids| && (|keys| == |ids| <==> NoDup(ids)) && forall n :: n in keys <==> n in ids
    ensures |order| == |ids| <==> NoDup(ids) && SourcesIn(arcs, keys) && !HasCycle(arcs)
    ensures |order| == |ids| ==> Respects(arcs, order) && NoDup(order) && forall n :: n in order <==> n in ids
  {
    KahnCompleteIffAcyclic(keys, arcs, order);
  }

  lemma {:induction false} WellFormedByArcs(nodes: seq<TaskNode>, order: seq<Id>)
    requires IsKahnOrder(Keys(nodes), Arcs(nodes), order)
    ensures |order| == |nodes| <==> WellFormed(nodes)
    ensures |order| == |nodes| ==>
      Respects(Arcs(nodes), order) && NoDup(order) && forall n :: n in order <==> n in Ids(nodes)
  {
    var ids, keys, arcs := Ids(nodes), Keys(nodes), Arcs(nodes);
    ArcTargets(nodes);
    KeysAre(nodes);
    assert SourcesIn(arcs, keys) <==> DependenciesListed(nodes) by { SourcesListed(nodes); }
    CompleteOrder(ids, keys, arcs, order);
    assert WellFormed(nodes) <==> (NoDup(ids) && DependenciesListed(nodes) && !HasCycle(arcs));
  }

  /** Two lists without repetition and with the same members are permutations of each other. */
  lemma {:induction false} SameMembersPermute<T>(s: seq<T>, t: seq<T>)
    requires NoDup(s) && NoDup(t) && forall x :: x in s <==> x in t
    ensures multiset(s) == multiset(t)
  {
    forall x ensures multiset(s)[x] == multiset(t)[x] {
      CountNoDup(s, x);
      CountNoDup(t, x);
    }
  }

  lemma {:induction false} CountNoDup<T>(s: seq<T>, x: T)
    requires NoDup(s)
    ensures multiset(s)[x] == if x in s then 1 else 0
  {
    if s != [] {
      var m := |s| - 1;
      CountNoDup(s[..m], x);
      assert s == s[..m] + [s[m]];
    }
  }

  /** Looking up a complete order in a plan with distinct ids permutes the plan. */
  lemma {:induction false} LookupPermutes(nodes: seq<TaskNode>, sorted: seq<TaskNode>)
    requires NoDup(Ids(nodes)) && NoDup(Ids(sorted)) && (forall n :: n in sorted ==> n in nodes)
    requires forall id :: id in Ids(sorted) <==> id in Ids(nodes)
    ensures multiset(sorted) == multiset(nodes)
  {
    forall n | n in nodes ensures n in sorted {
      var i :| 0 <= i < |nodes| && nodes[i] == n;
      assert Ids(nodes)[i] == n.id && n.id in Ids(sorted);
      var k :| 0 <= k < |sorted| && Ids(sorted)[k] == n.id;
      assert sorted[k] in nodes;
      var i' :| 0 <= i' < |nodes| && nodes[i'] == sorted[k];
      assert Ids(nodes)[i'] == Ids(nodes)[i];
    }
    assert forall i, j :: 0 <= i < j < |nodes| ==> Ids(nodes)[i] != Ids(nodes)[j];
    assert forall i, j :: 0 <= i < j < |sorted| ==> Ids(sorted)[i] != Ids(sorted)[j];
    SameMembersPermute(sorted, nodes);
  }

  lemma {:induction false} RespectsMeansFirst(nodes: seq<TaskNode>, sorted: seq<TaskNode>)
    requires NoDup(Ids(sorted)) && (forall n :: n in sorted ==> n in nodes)
    requires Respects(Arcs(nodes), Ids(sorted))
    ensures DependenciesFirst(sorted)
  {
    forall k, d | 0 <= k < |sorted| && d in sorted[k].dependsOn ensures d in Ids(sorted[..k]) {
      assert sorted[k] in nodes;
      var i :| 0 <= i < |nodes| && nodes[i] == sorted[k];
      var a: Arc := (d, sorted[k].id);
      ArcListed(nodes, a);
      assert Lists(nodes, a);
      assert Before(Ids(sorted), a.0, a.1);
      var p, q :| 0 <= p < q < |sorted| && Ids(sorted)[p] == d && Ids(sorted)[q] == sorted[k].id;
      assert Ids(sorted)[k] == Ids(sorted)[q];
      assert Ids(sorted[..k])[p] == d;
    }
  }

  /** The nodes of an order. */
  method Lookup(nodes: seq<TaskNode>, byId: map<Id, TaskNode>, order: seq<Id>) returns (sorted: seq<TaskNode>)
    requires forall id :: id in order ==> id in byId && byId[id].id == id && byId[id] in nodes
    ensures Ids(sorted) == order && forall n :: n in sorted ==> n in nodes
  {
    sorted := [];
    for k := 0 to |order|
      invariant Ids(sorted) == order[..k] && forall n :: n in sorted ==> n in nodes
    {
      assert order[k] in order;
      sorted := sorted + [byId[order[k]]];
    }
    assert order[..|order|] == order;
  }

  /** Accepts exactly the well-formed plans; an accepted plan is permuted into the first-in
      first-out dependency order. */
  method Sort(nodes: seq<TaskNode>) returns (r: Result<seq<TaskNode>, string>)
    ensures r.Ok? <==> WellFormed(nodes)
    ensures r.Ok? ==> multiset(r.value) == multiset(nodes) && DependenciesFirst(r.value)
    ensures r.Ok? ==> IsKahnOrder(Ids(nodes), Arcs(nodes), Ids(r.value))
    ensures r.Ok? ==> NoDup(Ids(r.value)) && Respects(Arcs(nodes), Ids(r.value))
    ensures r.Ok? ==> forall id :: id in Ids(r.value) <==> id in Ids(nodes)
    ensures r.Err? ==> r.error == CYCLE_MESSAGE
  {
    var byId := IndexById(nodes);
    KeysAre(nodes);
    var keys, inDegree0, adj0 := ZeroDegrees(nodes);
    var inDegree, adj := AddArcs(nodes, keys, inDegree0, adj0);
    ArcTargets(nodes);
    var order := Drain(keys, Arcs(nodes), inDegree, adj);
    KahnCompleteIffAcyclic(keys, Arcs(nodes), order);
    var sorted := Lookup(nodes, byId, order);
    WellFormedByArcs(nodes, order);
    if |sorted| != |nodes| { return Err(CYCLE_MESSAGE); }
    LookupPermutes(nodes, sorted);
    RespectsMeansFirst(nodes, sorted);
    return Ok(sorted);
  }
}

/** The lenient sort of packages/orchestrator/src/decompose.ts, and its agreement with the strict one. */
module LenientSort {
  import opened Wrappers
  import opened Digraph
  import opened KahnOrder
  import opened TopologicalSort
  import StrictSort

  /** The arcs the lenient sort looks at: dependencies that name a listed task. */
  function KnownArcs(tasks: seq<TaskNode>): seq<Arc> {
    Arcs(DropUnknown(Keys(tasks), tasks))
  }

  /** The listed ids that `order` misses, in listing order. */
  function Missing(keys: seq<Id>, order: seq<Id>): seq<Id> {
    if keys == [] then [] else
    var id := keys[|keys| - 1];
    Missing(keys[..|keys| - 1], order) + if id in order then [] else [id]
  }

  /** The first task carrying the id. */
  ghost predicate IsFirst(tasks: seq<TaskNode>, t: TaskNode) {
    exists i :: 0 <= i < |tasks| && tasks[i] == t && forall j :: 0 <= j < i ==> tasks[j].id != t.id
  }

  lemma {:induction false} MissingAre(keys: seq<Id>, order: seq<Id>)
    requires NoDup(keys)
    ensures NoDup(Missing(keys, order))
    ensures forall id :: id in Missing(keys, order) <==> id in keys && id !in order
  {
    if keys != [] {
      var m := |keys| - 1;
      MissingAre(keys[..m], order);
      assert keys == keys[..m] + [keys[m]];
    }
  }

  lemma {:induction false} TrimmedKeys(keys: seq<Id>, tasks: seq<TaskNode>)
    ensures Keys(DropUnknown(keys, tasks)) == Keys(tasks)
    ensures Ids(DropUnknown(keys, tasks)) == Ids(tasks)
  {
    if tasks != [] {
      var m := |tasks| - 1;
      TrimmedKeys(keys, tasks[..m]);
      assert DropUnknown(keys, tasks)[..m] == DropUnknown(keys, tasks[..m]);
    }
  }

  lemma {:induction false} KnownAreListed(keys: seq<Id>, deps: seq<Id>, d: Id)
    ensures d in Known(keys, deps) <==> d in deps && d in keys
  {
    if deps != [] {
      KnownAreListed(keys, deps[..|deps| - 1], d);
      assert deps == deps[..|deps| - 1] + [deps[|deps| - 1]];
    }
  }

  /** Every known arc joins listed ids. */
  lemma {:induction false} KnownArcEnds(tasks: seq<TaskNode>)
    ensures TargetsIn(KnownArcs(tasks), Keys(tasks)) && SourcesIn(KnownArcs(tasks), Keys(tasks))
  {
    var keys := Keys(tasks);
    var trimmed := DropUnknown(keys, tasks);
    TrimmedKeys(keys, tasks);
    ArcTargets(trimmed);
    forall a | a in KnownArcs(tasks) ensures a.0 in keys {
      ArcListed(trimmed, a);
      var i :| 0 <= i < |trimmed| && trimmed[i].id == a.1 && a.0 in trimmed[i].dependsOn;
      KnownAreListed(keys, tasks[i].dependsOn, a.0);
    }
  }

  // ---------------------------------------------------------------- the loops

  lemma {:induction false} EnterNext(arcs: seq<Arc>, keys: seq<Id>, deps: seq<Id>, j: nat, id: Id)
    requires j < |deps|
    ensures Entered(arcs, Known(keys, deps[..j + 1]), id) ==
            Entered(arcs, Known(keys, deps[..j]), id) + if deps[j] in keys then [(deps[j], id)] else []
  {
    var known := Known(keys, deps[..j]);
    assert deps[..j + 1][..j] == deps[..j];
    assert (known + [deps[j]])[..|known|] == known;
  }

  method AddNodeArcs(id: Id, deps: seq<Id>, keys: seq<Id>, ghost arcs: seq<Arc>,
                     inDegree0: map<Id, int>, adj0: map<Id, seq<Id>>)
    returns (inDegree: map<Id, int>, adj: map<Id, seq<Id>>)
    requires id in keys && Tallies(keys, arcs, inDegree0, adj0)
    ensures Tallies(keys, Entered(arcs, Known(keys, deps), id), inDegree, adj)
  {
    inDegree, adj := inDegree0, adj0;
    ghost var seen := arcs;
    for j := 0 to |deps|
      invariant seen == Entered(arcs, Known(keys, deps[..j]), id)
      invariant Tallies(keys, seen, inDegree, adj)
    {
      var dep := deps[j];
      EnterNext(arcs, keys, deps, j, id);
      if dep in adj {
        TallyArc(keys, seen, inDegree, adj, dep, id);
        adj := adj[dep := adj[dep] + [id]];
        inDegree := inDegree[id := inDegree[id] + 1];
        seen := seen + [(dep, id)];
      }
    }
    assert deps[..|deps|] == deps;
  }

  method AddArcs(tasks: seq<TaskNode>, keys: seq<Id>, inDegree0: map<Id, int>, adj0: map<Id, seq<Id>>)
    returns (inDegree: map<Id, int>, adj: map<Id, seq<Id>>)
    requires (forall id :: id in Ids(tasks) ==> id in keys) && Tallies(keys, [], inDegree0, adj0)
    ensures Tallies(keys, Arcs(DropUnknown(keys, tasks)), inDegree, adj)
  {
    inDegree, adj := inDegree0, adj0;
    for i := 0 to |tasks|
      invariant Tallies(keys, Arcs(DropUnknown(keys, tasks[..i])), inDegree, adj)
    {
      assert Ids(tasks)[i] in keys;
      assert DropUnknown(keys, tasks[..i + 1])[..i] == DropUnknown(keys, tasks[..i]);
      inDegree, adj :=
        AddNodeArcs(tasks[i].id, tasks[i].dependsOn, keys, Arcs(DropUnknown(keys, tasks[..i])), inDegree, adj);
    }
    assert tasks[..|tasks|] == tasks;
  }

  /** `tasks.find`: the first task with the id. */
  method Find(tasks: seq<TaskNode>, id: Id) returns (t: TaskNode)
    requires id in Ids(tasks)
    ensures t.id == id && IsFirst(tasks, t)
  {
    var i := 0;
    while tasks[i].id != id
      invariant 0 <= i < |tasks| && (forall j :: 0 <= j < i ==> tasks[j].id != id) && id in Ids(tasks[i..])
      decreases |tasks| - i
    {
      assert Ids(tasks[i..])[0] != id;
      var k :| 0 <= k < |tasks| - i && Ids(tasks[i..])[k] == id;
      assert Ids(tasks[i + 1..])[k - 1] == id;
      i := i + 1;
    }
    return tasks[i];
  }

  method Lookup(tasks: seq<TaskNode>, order: seq<Id>) returns (sorted: seq<TaskNode>)
    requires forall id :: id in order ==> id in Ids(tasks)
    ensures Ids(sorted) == order && forall t :: t in sorted ==> IsFirst(tasks, t)
  {
    sorted := [];
    for k := 0 to |order|
      invariant Ids(sorted) == order[..k] && forall t :: t in sorted ==> IsFirst(tasks, t)
    {
      assert order[k] in order;
      var t := Find(tasks, order[k]);
      sorted := sorted + [t];
    }
    assert order[..|order|] == order;
  }

  /** A task is appended exactly when its id is new, and then it is the first with that id. */
  lemma {:induction false} MissingNext(tasks: seq<TaskNode>, i: nat, order: seq<Id>)
    requires i < |tasks|
    ensures Missing(Keys(tasks[..i + 1]), order) ==
            Missing(Keys(tasks[..i]), order) +
            if tasks[i].id in order + Missing(Keys(tasks[..i]), order) then [] else [tasks[i].id]
  {
    var keys, id := Keys(tasks[..i]), tasks[i].id;
    assert tasks[..i + 1][..i] == tasks[..i];
    KeysAre(tasks[..i]);
    MissingAre(keys, order);
    assert id in order + Missing(keys, order) <==> id in order || id in keys;
    if id !in keys { assert (keys + [id])[..|keys|] == keys; }
  }

  lemma {:induction false} MissingIsFirst(tasks: seq<TaskNode>, i: nat, order: seq<Id>)
    requires i < |tasks| && tasks[i].id !in order + Missing(Keys(tasks[..i]), order)
    ensures IsFirst(tasks, tasks[i])
  {
    var keys, id := Keys(tasks[..i]), tasks[i].id;
    KeysAre(tasks[..i]);
    MissingAre(keys, order);
    forall j | 0 <= j < i ensures tasks[j].id != id {
      assert Ids(tasks[..i])[j] == tasks[j].id;
    }
  }

  /** The final loop appends the tasks whose id has not been output. */
  method AppendMissing(tasks: seq<TaskNode>, sorted: seq<TaskNode>) returns (out: seq<TaskNode>)
    requires forall t :: t in sorted ==> IsFirst(tasks, t)
    ensures Ids(out) == Ids(sorted) + Missing(Keys(tasks), Ids(sorted))
    ensures forall t :: t in out ==> IsFirst(tasks, t)
  {
    out := sorted;
    for i := 0 to |tasks|
      invariant Ids(out) == Ids(sorted) + Missing(Keys(tasks[..i]), Ids(sorted))
      invariant forall t :: t in out ==> IsFirst(tasks, t)
    {
      var t := tasks[i];
      MissingNext(tasks, i, Ids(sorted));
      if t.id !in Ids(out) {
        MissingIsFirst(tasks, i, Ids(sorted));
        out := out + [t];
      }
    }
    assert tasks[..|tasks|] == tasks;
  }

  /** Every distinct id is output once, represented by its first task: the tasks Kahn's order reaches,
      then the rest.  The output puts every task after its known dependencies exactly when these have
      no cycle. */
  method Sort(tasks: seq<TaskNode>) returns (out: seq<TaskNode>, ghost order: seq<Id>)
    ensures IsKahnOrder(Keys(tasks), KnownArcs(tasks), order)
    ensures Ids(out) == order + Missing(Keys(tasks), order)
    ensures NoDup(Ids(out)) && forall id :: id in Ids(out) <==> id in Ids(tasks)
    ensures forall t :: t in out ==> IsFirst(tasks, t)
    ensures NoDup(Ids(tasks)) ==> multiset(out) == multiset(tasks)
    ensures Respects(KnownArcs(tasks), Ids(out)) <==> !HasCycle(KnownArcs(tasks))
    ensures !HasCycle(KnownArcs(tasks)) ==> Ids(out) == order
  {
    KeysAre(tasks);
    KnownArcEnds(tasks);
    var keys, inDegree0, adj0 := ZeroDegrees(tasks);
    var inDegree, adj := AddArcs(tasks, keys, inDegree0, adj0);
    var ids := Drain(keys, KnownArcs(tasks), inDegree, adj);
    order := ids;
    KahnCompleteIffAcyclic(keys, KnownArcs(tasks), order);
    var sorted := Lookup(tasks, ids);
    out := AppendMissing(tasks, sorted);
    OrderedIffAcyclic(keys, KnownArcs(tasks), order);
    if NoDup(Ids(tasks)) { FirstTasksPermute(tasks, out); }
  }

  lemma {:induction false} FirstTasksPermute(tasks: seq<TaskNode>, out: seq<TaskNode>)
    requires NoDup(Ids(tasks)) && NoDup(Ids(out)) && (forall id :: id in Ids(out) <==> id in Ids(tasks))
    requires forall t :: t in out ==> IsFirst(tasks, t)
    ensures multiset(out) == multiset(tasks)
  {
    forall t | t in out ensures t in tasks { assert IsFirst(tasks, t); }
    StrictSort.LookupPermutes(tasks, out);
  }

  lemma {:induction false} OrderedIffAcyclic(keys: seq<Id>, arcs: seq<Arc>, order: seq<Id>)
    requires NoDup(keys) && TargetsIn(arcs, keys) && SourcesIn(arcs, keys) && IsKahnOrder(keys, arcs, order)
    ensures NoDup(order + Missing(keys, order)) && forall n :: n in order + Missing(keys, order) <==> n in keys
    ensures Respects(arcs, order + Missing(keys, order)) <==> !HasCycle(arcs)
    ensures !HasCycle(arcs) ==> Missing(keys, order) == []
  {
    var rest := Missing(keys, order);
    KahnCompleteIffAcyclic(keys, arcs, order);
    MissingAre(keys, order);
    NoDupConcat(order, rest);
    assert rest != [] ==> rest[0] in rest;
    if !HasCycle(arcs) {
      assert order + rest == order;
    } else if Respects(arcs, order + rest) {
      OrderedHasNoCycle(arcs, order + rest);
    }
  }

  lemma {:induction false} TrimmedWellFormed(tasks: seq<TaskNode>)
    ensures StrictSort.WellFormed(DropUnknown(Keys(tasks), tasks)) <==>
            NoDup(Ids(tasks)) && !HasCycle(KnownArcs(tasks))
  {
    TrimmedKeys(Keys(tasks), tasks);
    KnownArcEnds(tasks);
    StrictSort.SourcesListed(DropUnknown(Keys(tasks), tasks));
  }

  /** On distinct ids with acyclic known dependencies the lenient sort outputs what the strict sort
      outputs for the plan without its unknown dependencies. */
  method CompareSorts(tasks: seq<TaskNode>)
    returns (lenient: seq<TaskNode>, strict: Result<seq<TaskNode>, string>)
    ensures strict.Ok? <==> NoDup(Ids(tasks)) && !HasCycle(KnownArcs(tasks))
    ensures strict.Ok? ==> DropUnknown(Keys(tasks), lenient) == strict.value
    ensures strict.Ok? && KnownArcs(tasks) == [] ==> lenient == tasks
  {
    ghost var order;
    lenient, order := Sort(tasks);
    strict := StrictSort.Sort(DropUnknown(Keys(tasks), tasks));
    TrimmedWellFormed(tasks);
    if strict.Ok? { Agreement(tasks, lenient, strict.value, order); }
  }

  lemma {:induction false} Agreement(tasks: seq<TaskNode>, lenient: seq<TaskNode>, strict: seq<TaskNode>,
                                     order: seq<Id>)
    requires NoDup(Ids(tasks)) && IsKahnOrder(Keys(tasks), KnownArcs(tasks), order)
    requires Ids(lenient) == order && multiset(lenient) == multiset(tasks)
    requires IsKahnOrder(Ids(DropUnknown(Keys(tasks), tasks)), KnownArcs(tasks), Ids(strict))
    requires multiset(strict) == multiset(DropUnknown(Keys(tasks), tasks))
    ensures DropUnknown(Keys(tasks), lenient) == strict
    ensures KnownArcs(tasks) == [] ==> lenient == tasks
  {
    var keys := Keys(tasks);
    KeysAre(tasks);
    TrimmedKeys(keys, tasks);
    TrimmedKeys(keys, lenient);
    KahnOrderUnique(keys, KnownArcs(tasks), order, Ids(strict));
    TrimmedMembers(tasks, lenient);
    assert forall t :: t in strict <==> t in multiset(strict);
    SameIdsSameTasks(DropUnknown(keys, tasks), DropUnknown(keys, lenient), strict);
    if KnownArcs(tasks) == [] {
      IndependentKeepListingOrder(keys, order);
      assert forall t :: t in lenient <==> t in multiset(lenient);
      SameIdsSameTasks(tasks, lenient, tasks);
    }
  }

  lemma {:induction false} TrimmedMembers(tasks: seq<TaskNode>, out: seq<TaskNode>)
    requires multiset(out) == multiset(tasks)
    ensures forall t :: t in DropUnknown(Keys(tasks), out) ==> t in DropUnknown(Keys(tasks), tasks)
  {
    var trimmed := DropUnknown(Keys(tasks), tasks);
    forall t | t in DropUnknown(Keys(tasks), out) ensures t in trimmed {
      var i :| 0 <= i < |out| && DropUnknown(Keys(tasks), out)[i] == t;
      assert out[i] in multiset(tasks);
      var j :| 0 <= j < |tasks| && tasks[j] == out[i];
      assert trimmed[j] == t;
    }
  }

  /** With distinct ids the id identifies the task. */
  lemma {:induction false} SameIdsSameTasks(tasks: seq<TaskNode>, trimmed: seq<TaskNode>, strict: seq<TaskNode>)
    requires NoDup(Ids(tasks)) && Ids(trimmed) == Ids(strict)
    requires forall t :: t in trimmed ==> t in tasks
    requires forall t :: t in strict ==> t in tasks
    ensures trimmed == strict
  {
    assert |Ids(trimmed)| == |Ids(strict)|;
    forall i | 0 <= i < |strict| ensures trimmed[i] == strict[i] {
      assert Ids(trimmed)[i] == Ids(strict)[i];
      assert strict[i] in tasks && trimmed[i] in tasks;
      var j :| 0 <= j < |tasks| && tasks[j] == strict[i];
      var j' :| 0 <= j' < |tasks| && tasks[j'] == trimmed[i];
      assert Ids(tasks)[j] == Ids(tasks)[j'];
    }
  }
}

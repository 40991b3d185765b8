/** The node validation of `parseDecomposition` in packages/orchestrator/src/orchestrator-decompose.ts, from
    already parsed records on, and the guarantee it gives to the executor. */
module PlanParsing {
  import opened Wrappers
  import opened Decimal
  import opened Digraph
  import opened KahnOrder
  import opened TopologicalSort
  import StrictSort
  import PlanExecution

  /** A record of the model's JSON array; missing members are `None`. */
  datatype RawTask = RawTask(id: Option<string>, complexity: Option<string>, description: Option<string>,
                             language: Option<string>, dependsOn: Option<seq<string>>)

  datatype PlanError =
    | NoTasks | DuplicateId(id: Id) | InvalidComplexity(id: Id) | SelfDependency(id: Id)
    | UnknownDependency(id: Id, dep: Id) | TooMany(count: nat) | Unsortable(message: string)

  const MAX_SUBTASKS := 24
  const MAX_DESCRIPTION := 500
  const COMPLEXITIES := ["trivial", "simple", "moderate", "complex"]
  const LANGUAGES := ["typescript", "javascript", "python", "shell", "cpp", "c", "rust", "go", "sql", "text"]

  function OrElse<T>(o: Option<T>, default: T): T {
    if o.Some? then o.value else default
  }

  function Cut(s: string, n: nat): string {
    if |s| > n then s[..n] else s
  }

  function IdOf(raw: RawTask, i: nat): Id {
    OrElse(raw.id, "task-" + Print(i + 1))
  }

  predicate KnownComplexity(raw: RawTask) {
    OrElse(raw.complexity, "moderate") in COMPLEXITIES
  }

  function LanguageOf(raw: RawTask): string {
    var language := OrElse(raw.language, "text");
    if language in LANGUAGES then language else "text"
  }

  function NodeOf(raw: RawTask, i: nat): TaskNode {
    TaskNode(IdOf(raw, i), OrElse(raw.dependsOn, []), Cut(OrElse(raw.description, ""), MAX_DESCRIPTION),
             LanguageOf(raw))
  }

  function Nodes(raws: seq<RawTask>): (nodes: seq<TaskNode>)
    ensures |nodes| == |raws| && forall i :: 0 <= i < |raws| ==> nodes[i] == NodeOf(raws[i], i)
  {
    seq(|raws|, i requires 0 <= i < |raws| => NodeOf(raws[i], i))
  }

  ghost predicate Acceptable(raws: seq<RawTask>) {
    && 0 < |raws| <= 24
    && (forall i :: 0 <= i < |raws| ==> KnownComplexity(raws[i]))
    && StrictSort.WellFormed(Nodes(raws))
  }

  /** Record `i` is the first with a repeated id or an unknown complexity; the id is tested first. */
  ghost predicate FirstBadRecord(raws: seq<RawTask>, i: int, e: PlanError) {
    var nodes := Nodes(raws);
    && 0 <= i < |raws| && NoDup(Ids(nodes[..i])) && (forall k :: 0 <= k < i ==> KnownComplexity(raws[k]))
    && if nodes[i].id in Ids(nodes[..i]) then e == DuplicateId(nodes[i].id)
       else !KnownComplexity(raws[i]) && e == InvalidComplexity(nodes[i].id)
  }

  ghost predicate RecordsFine(raws: seq<RawTask>) {
    raws != [] && NoDup(Ids(Nodes(raws))) && forall i :: 0 <= i < |raws| ==> KnownComplexity(raws[i])
  }

  /** A node that depends on listed nodes other than itself. */
  ghost predicate NodeFine(nodes: seq<TaskNode>, i: nat)
    requires i < |nodes|
  {
    nodes[i].id !in nodes[i].dependsOn && forall d :: d in nodes[i].dependsOn ==> d in Ids(nodes)
  }

  ghost predicate NodesFine(nodes: seq<TaskNode>, i: nat)
    requires i <= |nodes|
  {
    forall k :: 0 <= k < i ==> NodeFine(nodes, k)
  }

  /** Node `i` is the first that depends on itself or on an unlisted node; itself is tested first. */
  ghost predicate FirstBadNode(nodes: seq<TaskNode>, i: int, e: PlanError) {
    && 0 <= i < |nodes| && NodesFine(nodes, i)
    && var n := nodes[i];
    if n.id in n.dependsOn then e == SelfDependency(n.id)
    else exists j :: 0 <= j < |n.dependsOn| && n.dependsOn[j] !in Ids(nodes)
                     && e == UnknownDependency(n.id, n.dependsOn[j])
                     && forall k :: 0 <= k < j ==> n.dependsOn[k] in Ids(nodes)
  }

  /** What each error says about the plan: the first thing found wrong with it, in the order of the tests. */
  ghost predicate Justified(raws: seq<RawTask>, e: PlanError) {
    var nodes := Nodes(raws);
    match e
    case NoTasks => raws == []
    case DuplicateId(_) => exists i :: FirstBadRecord(raws, i, e)
    case InvalidComplexity(_) => exists i :: FirstBadRecord(raws, i, e)
    case SelfDependency(_) => RecordsFine(raws) && exists i :: FirstBadNode(nodes, i, e)
    case UnknownDependency(_, _) => RecordsFine(raws) && exists i :: FirstBadNode(nodes, i, e)
    case TooMany(n) => RecordsFine(raws) && NodesFine(nodes, |nodes|) && n == |raws| > 24
    case Unsortable(_) => RecordsFine(raws) && NodesFine(nodes, |nodes|) && |raws| <= 24 && HasCycle(Arcs(nodes))
  }

  /** The nodes of a plan, member by member. */
  lemma {:induction false} NodesAre(raws: seq<RawTask>, i: nat)
    requires i < |raws|
    ensures var raw, n := raws[i], Nodes(raws)[i];
      && n.id == (if raw.id.Some? then raw.id.value else "task-" + Print(i + 1))
      && n.dependsOn == (if raw.dependsOn.Some? then raw.dependsOn.value else [])
      && (raw.description == None ==> n.description == "")
      && (raw.description.Some? ==>
            && n.description <= raw.description.value
            && |n.description| == if |raw.description.value| > 500 then 500 else |raw.description.value|)
      && n.language == (if raw.language.Some? && raw.language.value in LANGUAGES then raw.language.value else "text")
    ensures KnownComplexity(raws[i]) <==>
      raws[i].complexity == None || raws[i].complexity.value in ["trivial", "simple", "moderate", "complex"]
  {
  }

  lemma {:induction false} RepeatedId(raws: seq<RawTask>, i: nat)
    requires i < |raws| && Nodes(raws)[i].id in Ids(Nodes(raws)[..i])
    ensures !Acceptable(raws)
  {
    var nodes := Nodes(raws);
    var k :| 0 <= k < i && Ids(nodes[..i])[k] == nodes[i].id;
    assert Ids(nodes)[k] == Ids(nodes)[i];
  }

  lemma {:induction false} BadRecordRefused(raws: seq<RawTask>, i: nat, e: PlanError)
    requires FirstBadRecord(raws, i, e)
    ensures !Acceptable(raws)
  {
    if Nodes(raws)[i].id in Ids(Nodes(raws)[..i]) { RepeatedId(raws, i); }
  }

  lemma {:induction false} FreshId(nodes: seq<TaskNode>, i: nat)
    requires i < |nodes| && NoDup(Ids(nodes[..i])) && nodes[i].id !in Ids(nodes[..i])
    ensures NoDup(Ids(nodes[..i + 1]))
  {
    assert nodes[..i + 1] == nodes[..i] + [nodes[i]];
    assert Ids(nodes[..i + 1]) == Ids(nodes[..i]) + [nodes[i].id];
  }

  /** The first loop: ids and complexities. */
  method CollectNodes(raws: seq<RawTask>) returns (r: Result<seq<TaskNode>, PlanError>)
    ensures r.Ok? ==> r.value == Nodes(raws) && NoDup(Ids(Nodes(raws)))
    ensures r.Ok? ==> forall i :: 0 <= i < |raws| ==> KnownComplexity(raws[i])
    ensures r.Err? ==> !Acceptable(raws) && (r.error.DuplicateId? || r.error.InvalidComplexity?)
    ensures r.Err? ==> exists i :: FirstBadRecord(raws, i, r.error)
  {
    var nodes: seq<TaskNode> := [];
    for i := 0 to |raws|
      invariant nodes == Nodes(raws)[..i] && NoDup(Ids(nodes))
      invariant forall k :: 0 <= k < i ==> KnownComplexity(raws[k])
    {
      var id := IdOf(raws[i], i);
      if id in Ids(nodes) {
        assert FirstBadRecord(raws, i, DuplicateId(id));
        BadRecordRefused(raws, i, DuplicateId(id));
        return Err(DuplicateId(id));
      }
      if !KnownComplexity(raws[i]) {
        assert FirstBadRecord(raws, i, InvalidComplexity(id));
        BadRecordRefused(raws, i, InvalidComplexity(id));
        return Err(InvalidComplexity(id));
      }
      FreshId(Nodes(raws), i);
      nodes := nodes + [NodeOf(raws[i], i)];
    }
    return Ok(nodes);
  }

  lemma {:induction false} SelfLoopIsCycle(nodes: seq<TaskNode>, id: Id)
    requires Lists(nodes, (id, id))
    ensures HasCycle(Arcs(nodes))
  {
    ArcListed(nodes, (id, id));
    WalkSnoc(Arcs(nodes), [id], id);
    assert IsCycle(Arcs(nodes), [id] + [id]);
  }

  lemma {:induction false} BadNodeRefused(nodes: seq<TaskNode>, i: nat, e: PlanError)
    requires FirstBadNode(nodes, i, e)
    ensures !StrictSort.WellFormed(nodes)
  {
    var n := nodes[i];
    if n.id in n.dependsOn {
      assert Lists(nodes, (n.id, n.id));
      SelfLoopIsCycle(nodes, n.id);
    }
  }

  /** The second loop: self-dependencies and unknown dependencies. */
  method CheckDependencies(nodes: seq<TaskNode>) returns (e: Option<PlanError>)
    ensures e.None? ==> NodesFine(nodes, |nodes|) && StrictSort.DependenciesListed(nodes)
    ensures e.Some? ==> !StrictSort.WellFormed(nodes) && (e.value.SelfDependency? || e.value.UnknownDependency?)
    ensures e.Some? ==> exists i :: FirstBadNode(nodes, i, e.value)
  {
    for i := 0 to |nodes|
      invariant NodesFine(nodes, i)
    {
      e := CheckNode(nodes, i);
      if e.Some? {
        assert FirstBadNode(nodes, i, e.value);
        BadNodeRefused(nodes, i, e.value);
        return;
      }
    }
    AllListed(nodes);
    return None;
  }

  lemma {:induction false} AllListed(nodes: seq<TaskNode>)
    requires NodesFine(nodes, |nodes|)
    ensures StrictSort.DependenciesListed(nodes)
  {
    forall i, d | 0 <= i < |nodes| && d in nodes[i].dependsOn ensures d in Ids(nodes) {
      assert NodeFine(nodes, i);
    }
  }

  /** One turn of the second loop. */
  method CheckNode(nodes: seq<TaskNode>, i: nat) returns (e: Option<PlanError>)
    requires i < |nodes| && NodesFine(nodes, i)
    ensures e.None? ==> NodeFine(nodes, i)
    ensures e.Some? ==> FirstBadNode(nodes, i, e.value) && (e.value.SelfDependency? || e.value.UnknownDependency?)
  {
    var n := nodes[i];
    if n.id in n.dependsOn { return Some(SelfDependency(n.id)); }
    for j := 0 to |n.dependsOn|
      invariant forall k :: 0 <= k < j ==> n.dependsOn[k] in Ids(nodes)
    {
      if n.dependsOn[j] !in Ids(nodes) { return Some(UnknownDependency(n.id, n.dependsOn[j])); }
    }
    return None;
  }

  /** Exactly the acceptable plans are accepted, in first-in first-out order; every error is the first thing wrong. */
  method ParseNodes(raws: seq<RawTask>) returns (r: Result<seq<TaskNode>, PlanError>)
    ensures r.Ok? <==> Acceptable(raws)
    ensures r.Ok? ==> multiset(r.value) == multiset(Nodes(raws)) && StrictSort.DependenciesFirst(r.value)
    ensures r.Ok? ==> IsKahnOrder(Ids(Nodes(raws)), Arcs(Nodes(raws)), Ids(r.value))
    ensures r.Ok? ==> StrictSort.WellFormed(r.value)
    ensures r.Err? ==> Justified(raws, r.error)
  {
    if raws == [] { return Err(NoTasks); }
    var collected := CollectNodes(raws);
    if collected.Err? { return Err(collected.error); }
    var nodes := collected.value;
    var bad := CheckDependencies(nodes);
    if bad.Some? { return Err(bad.value); }
    if |nodes| > MAX_SUBTASKS { return Err(TooMany(|nodes|)); }
    var sorted := StrictSort.Sort(nodes);
    if sorted.Err? { return Err(Unsortable(sorted.error)); }
    PermutationWellFormed(nodes, sorted.value);
    return Ok(sorted.value);
  }

  // ---------------------------------------------------------------- parsed plans are executable

  lemma {:induction false} SameWalks(arcs: seq<Arc>, arcs': seq<Arc>, p: seq<Id>)
    requires (forall a :: a in arcs ==> a in arcs') && IsWalk(arcs, p)
    ensures IsWalk(arcs', p)
  {
    if |p| > 1 { SameWalks(arcs, arcs', p[..|p| - 1]); }
  }

  lemma {:induction false} PermutedArcs(nodes: seq<TaskNode>, sorted: seq<TaskNode>, a: Arc)
    requires multiset(sorted) == multiset(nodes) && a in Arcs(sorted)
    ensures a in Arcs(nodes)
  {
    ArcListed(sorted, a);
    var i :| 0 <= i < |sorted| && sorted[i].id == a.1 && a.0 in sorted[i].dependsOn;
    assert sorted[i] in multiset(nodes);
    var k :| 0 <= k < |nodes| && nodes[k] == sorted[i];
    assert Lists(nodes, a);
    ArcListed(nodes, a);
  }

  /** Sorting a plan leaves it well-formed. */
  lemma {:induction false} PermutationWellFormed(nodes: seq<TaskNode>, sorted: seq<TaskNode>)
    requires StrictSort.WellFormed(nodes) && multiset(sorted) == multiset(nodes)
    requires NoDup(Ids(sorted)) && StrictSort.DependenciesFirst(sorted)
    ensures StrictSort.WellFormed(sorted)
  {
    forall i, d | 0 <= i < |sorted| && d in sorted[i].dependsOn ensures d in Ids(sorted) {
      assert StrictSort.AfterDependencies(sorted, i);
      var k :| 0 <= k < i && Ids(sorted[..i])[k] == d;
      assert Ids(sorted)[k] == d;
    }
    if HasCycle(Arcs(sorted)) {
      var p :| IsCycle(Arcs(sorted), p);
      forall a | a in Arcs(sorted) ensures a in Arcs(nodes) { PermutedArcs(nodes, sorted, a); }
      SameWalks(Arcs(sorted), Arcs(nodes), p);
      assert IsCycle(Arcs(nodes), p);
    }
  }

  /** A plan that was parsed can always be executed: parsing is the only place where a plan is refused. */
  method ParseAndExecute(raws: seq<RawTask>, delegate: PlanExecution.Delegate)
    returns (parsed: Result<seq<TaskNode>, PlanError>, report: Result<PlanExecution.Report, string>)
    ensures parsed.Ok? <==> Acceptable(raws)
    ensures report.Ok? <==> parsed.Ok?
    ensures report.Ok? ==> report.value.totalSubtasks == |raws|
    ensures report.Ok? ==> report.value.succeededCount + report.value.failedCount == |raws|
  {
    parsed := ParseNodes(raws);
    if parsed.Err? { return parsed, Err("Decomposition failed"); }
    assert |parsed.value| == |multiset(parsed.value)| == |multiset(Nodes(raws))| == |raws|;
    var completed, calls;
    ghost var plan;
    report, completed, calls, plan := PlanExecution.Execute(parsed.value, delegate);
    PlanExecution.CountFailures(Ids(parsed.value), completed);
  }
}

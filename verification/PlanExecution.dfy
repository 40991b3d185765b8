/** The execution loop of `executeDecomposition` in packages/orchestrator/src/orchestrator-decompose.ts.
    What a delegation returns (a thrown error or a timeout counts as `Failed`) is given by the function
    `delegate`, asked once with `false` for the first attempt and once with `true` for the retry. */
module PlanExecution {
  import opened Wrappers
  import opened Digraph
  import opened KahnOrder
  import opened TopologicalSort
  import StrictSort

  datatype Attempt = Failed(error: string) | Finished(verdict: string, tokens: int)

  type Delegate = (Id, bool) -> Attempt

  type Call = (Id, bool)

  datatype SubtaskResult = SubtaskResult(
    nodeId: Id, ok: bool, description: string, language: string,
    tokensUsed: int, verdict: Option<string>, error: Option<string>)

  datatype Report = Report(
    results: seq<SubtaskResult>, totalSubtasks: nat, succeededCount: nat, failedCount: int, totalTokens: int)

  type Completed = map<Id, SubtaskResult>

  // ---------------------------------------------------------------- what a run should mean

  /** The attempt that counts: the retry when the first one failed. */
  function LastAttempt(delegate: Delegate, id: Id): Attempt {
    if delegate(id, false).Failed? then delegate(id, true) else delegate(id, false)
  }

  /** The subtask itself would succeed. */
  predicate Good(delegate: Delegate, id: Id) {
    var last := LastAttempt(delegate, id);
    last.Finished? && (last.verdict == "pass" || last.verdict == "warn")
  }

  /** `id` depends on `d`, directly or through other subtasks. */
  ghost predicate Upstream(arcs: seq<Arc>, d: Id, id: Id) {
    exists p :: |p| >= 2 && IsWalk(arcs, p) && p[0] == d && p[|p| - 1] == id
  }

  function SumTokens(results: seq<SubtaskResult>): int {
    if results == [] then 0 else SumTokens(results[..|results| - 1]) + results[|results| - 1].tokensUsed
  }

  function CountOk(results: seq<SubtaskResult>): nat {
    if results == [] then 0 else
    CountOk(results[..|results| - 1]) + if results[|results| - 1].ok then 1 else 0
  }

  /** How many records a subtask has. */
  function RecordsOf(results: seq<SubtaskResult>, id: Id): nat {
    if results == [] then 0 else
    RecordsOf(results[..|results| - 1], id) + if results[|results| - 1].nodeId == id then 1 else 0
  }

  function Succeeded(completed: Completed): set<Id> {
    set id | id in completed && completed[id].ok
  }

  /** The dependency entries that failed. */
  function FailedEntries(completed: Completed, deps: seq<Id>): seq<Id> {
    if deps == [] then [] else
    var front, d := FailedEntries(completed, deps[..|deps| - 1]), deps[|deps| - 1];
    if d in completed && !completed[d].ok then front + [d] else front
  }

  function SkipRecord(n: TaskNode, dep: Id): SubtaskResult {
    SubtaskResult(n.id, false, n.description, n.language, 0, None, Some("Skipped: dependency " + dep + " failed"))
  }

  function RunRecord(n: TaskNode, last: Attempt): SubtaskResult {
    match last
    case Failed(e) => SubtaskResult(n.id, false, n.description, n.language, 0, None, Some(e))
    case Finished(v, t) => SubtaskResult(n.id, v == "pass" || v == "warn", n.description, n.language, t, Some(v), None)
  }

  /** The outcome of `n` given the outcomes of its direct dependencies, and the calls made for it. */
  ghost predicate LocalRule(n: TaskNode, delegate: Delegate, completed: Completed, calls: seq<Call>) {
    && n.id in completed
    && (forall d :: d in n.dependsOn ==> d in completed)
    && var blocked := FailedEntries(completed, n.dependsOn);
    && (blocked == [] ==> completed[n.id] == RunRecord(n, LastAttempt(delegate, n.id)))
    && (blocked != [] ==> completed[n.id] == SkipRecord(n, blocked[|blocked| - 1]))
    && ((n.id, false) in calls <==> blocked == [])
    && ((n.id, true) in calls <==> blocked == [] && delegate(n.id, false).Failed?)
  }

  /** The subtasks with an outcome are those of the nodes. */
  ghost predicate Known(nodes: seq<TaskNode>, completed: Completed, id: Id) {
    id in completed <==> id in Ids(nodes)
  }

  ghost predicate LocalRules(nodes: seq<TaskNode>, delegate: Delegate, completed: Completed, calls: seq<Call>) {
    && (forall id :: Known(nodes, completed, id))
    && (forall n {:trigger LocalRule(n, delegate, completed, calls)} :: n in nodes ==>
          LocalRule(n, delegate, completed, calls))
  }

  // ---------------------------------------------------------------- records and tokens, field by field

  /** What a record of `n` says.  If `n` was delegated: the verdict, tokens or error of the retry if there was one, of
      the first attempt otherwise.  If not: no tokens, and an error that names a direct dependency that failed. */
  ghost predicate Fits(n: TaskNode, r: SubtaskResult, delegate: Delegate, completed: Completed, calls: seq<Call>) {
    && r.nodeId == n.id && r.description == n.description && r.language == n.language
    && if (n.id, false) in calls then
         match delegate(n.id, (n.id, true) in calls)
         case Failed(e) => !r.ok && r.tokensUsed == 0 && r.verdict == None && r.error == Some(e)
         case Finished(v, t) =>
           (r.ok <==> v == "pass" || v == "warn") && r.tokensUsed == t && r.verdict == Some(v) && r.error == None
       else
         && !r.ok && r.tokensUsed == 0 && r.verdict == None
         && exists d :: d in n.dependsOn && d in completed && !completed[d].ok
                        && r.error == Some("Skipped: dependency " + d + " failed")
  }

  /** The tokens spent on a subtask by the attempt that counts. */
  function TokensFor(delegate: Delegate, calls: seq<Call>, id: Id): int {
    if (id, false) !in calls then 0 else
    match delegate(id, (id, true) in calls)
    case Failed(_) => 0
    case Finished(_, t) => t
  }

  function Sum(w: Id -> int, ids: seq<Id>): int {
    if ids == [] then 0 else Sum(w, ids[..|ids| - 1]) + w(ids[|ids| - 1])
  }

  function DelegatedTokens(delegate: Delegate, calls: seq<Call>, ids: seq<Id>): int {
    Sum(id => TokensFor(delegate, calls, id), ids)
  }

  /** The records of a node: its outcome if it was delegated, otherwise one per failed dependency entry. */
  ghost function RecordsFor(n: TaskNode, completed: Completed): seq<SubtaskResult> {
    var blocked := FailedEntries(completed, n.dependsOn);
    if blocked == [] && n.id in completed then [completed[n.id]] else WithSkips([], n, blocked)
  }

  ghost function RecordsIn(nodes: seq<TaskNode>, completed: Completed): seq<SubtaskResult> {
    if nodes == [] then [] else
    RecordsIn(nodes[..|nodes| - 1], completed) + RecordsFor(nodes[|nodes| - 1], completed)
  }

  lemma {:induction false} SkipsAppend(results: seq<SubtaskResult>, n: TaskNode, blocked: seq<Id>)
    ensures WithSkips(results, n, blocked) == results + WithSkips([], n, blocked)
  {
    if blocked != [] { SkipsAppend(results, n, blocked[..|blocked| - 1]); }
  }

  lemma {:induction false} SkipsAre(n: TaskNode, blocked: seq<Id>, r: SubtaskResult)
    requires r in WithSkips([], n, blocked)
    ensures exists d :: d in blocked && r == SkipRecord(n, d)
  {
    var front, d := blocked[..|blocked| - 1], blocked[|blocked| - 1];
    assert d in blocked;
    if r != SkipRecord(n, d) {
      SkipsAre(n, front, r);
      var e :| e in front && r == SkipRecord(n, e);
      assert e in blocked;
    }
  }

  /** The local rule, field by field. */
  lemma {:induction false} RuleFits(n: TaskNode, delegate: Delegate, completed: Completed, calls: seq<Call>,
                                    r: SubtaskResult)
    requires LocalRule(n, delegate, completed, calls) && (r == completed[n.id] || r in RecordsFor(n, completed))
    ensures Fits(n, r, delegate, completed, calls)
    ensures completed[n.id].tokensUsed == TokensFor(delegate, calls, n.id)
  {
    var blocked := FailedEntries(completed, n.dependsOn);
    FailedEntriesAre(completed, n.dependsOn);
    if blocked != [] {
      assert blocked[|blocked| - 1] in blocked;
      if r != completed[n.id] {
        SkipsAre(n, blocked, r);
        var d :| d in blocked && r == SkipRecord(n, d);
      }
    }
  }

  lemma {:induction false} RecordsForFrame(n: TaskNode, completed: Completed, id: Id, r: SubtaskResult)
    requires id !in completed && n.id in completed && forall d :: d in n.dependsOn ==> d in completed
    ensures RecordsFor(n, completed[id := r]) == RecordsFor(n, completed)
  {
    FailedEntriesFrame(completed, completed[id := r], n.dependsOn);
  }

  lemma {:induction false} RecordsInFrame(nodes: seq<TaskNode>, completed: Completed, id: Id, r: SubtaskResult)
    requires id !in completed
    requires forall n :: n in nodes ==> n.id in completed && forall d :: d in n.dependsOn ==> d in completed
    ensures RecordsIn(nodes, completed[id := r]) == RecordsIn(nodes, completed)
  {
    if nodes != [] {
      var m := |nodes| - 1;
      assert nodes[m] in nodes;
      RecordsInFrame(nodes[..m], completed, id, r);
      RecordsForFrame(nodes[m], completed, id, r);
    }
  }

  lemma {:induction false} RecordOf(nodes: seq<TaskNode>, completed: Completed, r: SubtaskResult) returns (n: TaskNode)
    requires r in RecordsIn(nodes, completed)
    ensures n in nodes && r in RecordsFor(n, completed)
  {
    var m := |nodes| - 1;
    n := nodes[m];
    if r !in RecordsFor(n, completed) { n := RecordOf(nodes[..m], completed, r); }
  }

  lemma {:induction false} SumSame(w: Id -> int, w': Id -> int, ids: seq<Id>)
    requires forall id :: id in ids ==> w(id) == w'(id)
    ensures Sum(w, ids) == Sum(w', ids)
  {
    if ids != [] {
      assert ids[|ids| - 1] in ids;
      SumSame(w, w', ids[..|ids| - 1]);
    }
  }

  lemma {:induction false} SumWithout(w: Id -> int, ids: seq<Id>, k: nat)
    requires k < |ids|
    ensures Sum(w, ids) == Sum(w, ids[..k] + ids[k + 1..]) + w(ids[k])
  {
    var m := |ids| - 1;
    if k == m {
      assert ids[..k] + ids[k + 1..] == ids[..m];
    } else {
      SumWithout(w, ids[..m], k);
      var rest := ids[..k] + ids[k + 1..];
      assert rest[..m - 1] == ids[..m][..k] + ids[..m][k + 1..];
    }
  }

  lemma {:induction false} OneLess<T>(s: seq<T>, k: nat)
    requires k < |s|
    ensures multiset(s[..k] + s[k + 1..]) == multiset(s) - multiset{s[k]}
  {
    assert s == s[..k] + [s[k]] + s[k + 1..];
  }

  /** The order of the ids does not matter. */
  lemma {:induction false} SumPermutes(w: Id -> int, s: seq<Id>, t: seq<Id>)
    requires multiset(s) == multiset(t)
    ensures Sum(w, s) == Sum(w, t)
    decreases |s|
  {
    assert |multiset(s)| == |s| && |multiset(t)| == |t|;
    if s != [] {
      var m := |s| - 1;
      assert s[m] in multiset(s) && s[m] in multiset(t) && s[m] in t;
      var k :| 0 <= k < |t| && t[k] == s[m];
      SumWithout(w, t, k);
      OneLess(t, k);
      OneLess(s, m);
      assert s[..m] + s[m + 1..] == s[..m];
      SumPermutes(w, s[..m], t[..k] + t[k + 1..]);
    }
  }

  // ---------------------------------------------------------------- facts about the pieces

  lemma {:induction false} FailedEntriesAre(completed: Completed, deps: seq<Id>)
    ensures forall d :: d in FailedEntries(completed, deps) <==> d in deps && d in completed && !completed[d].ok
  {
    if deps != [] {
      FailedEntriesAre(completed, deps[..|deps| - 1]);
      assert deps == deps[..|deps| - 1] + [deps[|deps| - 1]];
    }
  }

  lemma {:induction false} FailedEntriesFrame(completed: Completed, completed': Completed, deps: seq<Id>)
    requires forall d :: d in deps ==> d in completed && d in completed' && completed'[d] == completed[d]
    ensures FailedEntries(completed', deps) == FailedEntries(completed, deps)
  {
    if deps != [] {
      assert deps == deps[..|deps| - 1] + [deps[|deps| - 1]];
      FailedEntriesFrame(completed, completed', deps[..|deps| - 1]);
    }
  }

  lemma {:induction false} AppendRecord(results: seq<SubtaskResult>, r: SubtaskResult)
    ensures SumTokens(results + [r]) == SumTokens(results) + r.tokensUsed
    ensures CountOk(results + [r]) == CountOk(results) + if r.ok then 1 else 0
    ensures forall id :: RecordsOf(results + [r], id) == RecordsOf(results, id) + if r.nodeId == id then 1 else 0
  {
    assert (results + [r])[..|results|] == results;
  }

  // ---------------------------------------------------------------- the loops

  /** One skip record per failed dependency entry, appended to the results. */
  function WithSkips(results: seq<SubtaskResult>, n: TaskNode, blocked: seq<Id>): seq<SubtaskResult> {
    if blocked == [] then results else
    WithSkips(results, n, blocked[..|blocked| - 1]) + [SkipRecord(n, blocked[|blocked| - 1])]
  }

  function WithSkip(completed: Completed, n: TaskNode, blocked: seq<Id>): Completed {
    if blocked == [] then completed else completed[n.id := SkipRecord(n, blocked[|blocked| - 1])]
  }

  lemma {:induction false} CountSkips(results: seq<SubtaskResult>, n: TaskNode, blocked: seq<Id>)
    ensures SumTokens(WithSkips(results, n, blocked)) == SumTokens(results)
    ensures CountOk(WithSkips(results, n, blocked)) == CountOk(results)
    ensures forall id :: RecordsOf(WithSkips(results, n, blocked), id) ==
              RecordsOf(results, id) + if id == n.id then |blocked| else 0
  {
    if blocked != [] {
      var front := blocked[..|blocked| - 1];
      CountSkips(results, n, front);
      AppendRecord(WithSkips(results, n, front), SkipRecord(n, blocked[|blocked| - 1]));
    }
  }

  lemma {:induction false} SkipNext(n: TaskNode, completed: Completed, results: seq<SubtaskResult>, j: nat)
    requires j < |n.dependsOn| && n.dependsOn[j] in completed
    ensures var blocked, d := FailedEntries(completed, n.dependsOn[..j]), n.dependsOn[j];
      var blocked' := FailedEntries(completed, n.dependsOn[..j + 1]);
      if completed[d].ok then blocked' == blocked else
      && WithSkips(results, n, blocked') == WithSkips(results, n, blocked) + [SkipRecord(n, d)]
      && WithSkip(completed, n, blocked') == WithSkip(completed, n, blocked)[n.id := SkipRecord(n, d)]
  {
    var blocked, d := FailedEntries(completed, n.dependsOn[..j]), n.dependsOn[j];
    assert n.dependsOn[..j + 1][..j] == n.dependsOn[..j];
    assert (blocked + [d])[..|blocked|] == blocked;
  }

  /** The inner loop over one node's dependencies.  A failed dependency writes a skip record; the
      `continue` of the source only moves on to the next dependency. */
  method CheckDependencies(n: TaskNode, completed0: Completed, results0: seq<SubtaskResult>)
    returns (missing: Option<Id>, completed: Completed, results: seq<SubtaskResult>)
    requires n.id !in completed0 && n.id !in n.dependsOn
    ensures missing.Some? <==> exists d :: d in n.dependsOn && d !in completed0
    ensures missing.None? ==> completed == WithSkip(completed0, n, FailedEntries(completed0, n.dependsOn))
    ensures missing.None? ==> results == WithSkips(results0, n, FailedEntries(completed0, n.dependsOn))
  {
    completed, results := completed0, results0;
    for j := 0 to |n.dependsOn|
      invariant forall k :: 0 <= k < j ==> n.dependsOn[k] in completed0
      invariant completed == WithSkip(completed0, n, FailedEntries(completed0, n.dependsOn[..j]))
      invariant results == WithSkips(results0, n, FailedEntries(completed0, n.dependsOn[..j]))
    {
      var depId := n.dependsOn[j];
      assert depId in completed <==> depId in completed0;
      if depId !in completed { return Some(depId), completed, results; }
      SkipNext(n, completed0, results0, j);
      if !completed[depId].ok {
        results := results + [SkipRecord(n, depId)];
        completed := completed[n.id := SkipRecord(n, depId)];
      }
    }
    assert n.dependsOn[..|n.dependsOn|] == n.dependsOn;
    missing := None;
  }

  /** What the outer loop maintains for the nodes it has handled. */
  ghost predicate Handled(done: seq<TaskNode>, delegate: Delegate, completed: Completed, calls: seq<Call>,
                          results: seq<SubtaskResult>) {
    && LocalRules(done, delegate, completed, calls)
    && NoDup(calls) && (forall c :: c in calls ==> c.0 in completed)
    && CountOk(results) == |Succeeded(completed)|
    && RecordsCounted(done, completed, results)
    && results == RecordsIn(done, completed)
  }

  ghost predicate RecordsCounted(done: seq<TaskNode>, completed: Completed, results: seq<SubtaskResult>) {
    && (forall n {:trigger RecordCount(completed, n)} :: n in done ==>
          RecordsOf(results, n.id) == RecordCount(completed, n))
    && (forall id :: id !in completed ==> RecordsOf(results, id) == 0)
  }

  /** One record when delegated, otherwise one per failed dependency entry. */
  ghost function RecordCount(completed: Completed, n: TaskNode): nat {
    var blocked := FailedEntries(completed, n.dependsOn);
    if blocked == [] then 1 else |blocked|
  }

  /** Adding the outcome of a new node leaves the rules of the earlier ones intact. */
  lemma {:induction false} RuleFrame(m: TaskNode, delegate: Delegate, completed: Completed, calls: seq<Call>,
                  id: Id, r: SubtaskResult, extra: seq<Call>)
    requires LocalRule(m, delegate, completed, calls) && id !in completed
    requires forall c :: c in extra ==> c.0 == id
    ensures LocalRule(m, delegate, completed[id := r], calls + extra)
  {
    FailedEntriesFrame(completed, completed[id := r], m.dependsOn);
    assert m.id != id;
  }

  lemma {:induction false} SucceededAdd(completed: Completed, id: Id, r: SubtaskResult)
    requires id !in completed
    ensures |Succeeded(completed[id := r])| == |Succeeded(completed)| + if r.ok then 1 else 0
  {
    assert Succeeded(completed[id := r]) == Succeeded(completed) + if r.ok then {id} else {};
  }

  lemma {:induction false} AddCalls(calls: seq<Call>, extra: seq<Call>, completed: Completed, id: Id)
    requires NoDup(calls) && NoDup(extra) && id !in completed
    requires (forall c :: c in calls ==> c.0 in completed) && forall c :: c in extra ==> c.0 == id
    ensures NoDup(calls + extra)
  {
    var all := calls + extra;
    forall i, j | 0 <= i < j < |all| ensures all[i] != all[j] {
      if i < |calls| <= j { assert calls[i] in calls && extra[j - |calls|] in extra; }
    }
  }

  lemma {:induction false} AddRules(done: seq<TaskNode>, n: TaskNode, delegate: Delegate, completed: Completed,
                                    calls: seq<Call>, r: SubtaskResult, extra: seq<Call>)
    requires LocalRules(done, delegate, completed, calls) && n.id !in completed
    requires LocalRule(n, delegate, completed[n.id := r], calls + extra)
    requires forall c :: c in extra ==> c.0 == n.id
    ensures LocalRules(done + [n], delegate, completed[n.id := r], calls + extra)
  {
    forall m | m in done + [n] ensures LocalRule(m, delegate, completed[n.id := r], calls + extra) {
      if m in done { RuleFrame(m, delegate, completed, calls, n.id, r, extra); }
    }
    var done', completed' := done + [n], completed[n.id := r];
    assert Ids(done') == Ids(done) + [n.id];
    forall id ensures Known(done', completed', id) {
      assert Known(done, completed, id);
    }
  }

  lemma {:induction false} AddRecords(done: seq<TaskNode>, n: TaskNode, completed: Completed, r: SubtaskResult,
                   results: seq<SubtaskResult>, results': seq<SubtaskResult>)
    requires RecordsCounted(done, completed, results) && n.id !in completed
    requires forall m :: m in done ==> m.id in completed && forall d :: d in m.dependsOn ==> d in completed
    requires forall id :: RecordsOf(results', id) ==
               RecordsOf(results, id) + if id == n.id then RecordCount(completed[n.id := r], n) else 0
    ensures RecordsCounted(done + [n], completed[n.id := r], results')
  {
    forall m | m in done ensures RecordCount(completed[n.id := r], m) == RecordCount(completed, m) {
      FailedEntriesFrame(completed, completed[n.id := r], m.dependsOn);
    }
  }

  lemma {:induction false} HandleNode(done: seq<TaskNode>, n: TaskNode, delegate: Delegate, completed: Completed,
                                      calls: seq<Call>, results: seq<SubtaskResult>, r: SubtaskResult,
                                      extra: seq<Call>, results': seq<SubtaskResult>)
    requires Handled(done, delegate, completed, calls, results) && n.id !in completed
    requires LocalRule(n, delegate, completed[n.id := r], calls + extra)
    requires NoDup(extra) && forall c :: c in extra ==> c.0 == n.id
    requires CountOk(results') == CountOk(results) + if r.ok then 1 else 0
    requires forall id :: RecordsOf(results', id) ==
               RecordsOf(results, id) + if id == n.id then RecordCount(completed[n.id := r], n) else 0
    requires results' == results + RecordsFor(n, completed[n.id := r])
    ensures Handled(done + [n], delegate, completed[n.id := r], calls + extra, results')
  {
    SucceededAdd(completed, n.id, r);
    AddCalls(calls, extra, completed, n.id);
    AddRules(done, n, delegate, completed, calls, r, extra);
    forall m | m in done ensures m.id in completed && forall d :: d in m.dependsOn ==> d in completed {
      assert LocalRule(m, delegate, completed, calls);
    }
    AddRecords(done, n, completed, r, results, results');
    RecordsInFrame(done, completed, n.id, r);
    assert (done + [n])[..|done|] == done;
  }

  /** The calls made for a delegated subtask. */
  function CallsFor(delegate: Delegate, id: Id): seq<Call> {
    if delegate(id, false).Failed? then [(id, false), (id, true)] else [(id, false)]
  }

  lemma {:induction false} SkippedRule(n: TaskNode, delegate: Delegate, completed: Completed, calls: seq<Call>)
    requires n.id !in completed && forall d :: d in n.dependsOn ==> d in completed
    requires forall c :: c in calls ==> c.0 in completed
    requires FailedEntries(completed, n.dependsOn) != []
    ensures var blocked := FailedEntries(completed, n.dependsOn);
      var completed' := completed[n.id := SkipRecord(n, blocked[|blocked| - 1])];
      LocalRule(n, delegate, completed', calls + []) && RecordCount(completed', n) == |blocked|
  {
    var blocked := FailedEntries(completed, n.dependsOn);
    FailedEntriesFrame(completed, completed[n.id := SkipRecord(n, blocked[|blocked| - 1])], n.dependsOn);
    assert forall retry: bool :: (n.id, retry) in calls ==> (n.id, retry).0 in completed;
  }

  lemma {:induction false} DelegatedRule(n: TaskNode, delegate: Delegate, completed: Completed, calls: seq<Call>)
    requires n.id !in completed && forall d :: d in n.dependsOn ==> d in completed
    requires forall c :: c in calls ==> c.0 in completed
    requires FailedEntries(completed, n.dependsOn) == []
    ensures var completed' := completed[n.id := RunRecord(n, LastAttempt(delegate, n.id))];
      LocalRule(n, delegate, completed', calls + CallsFor(delegate, n.id)) && RecordCount(completed', n) == 1
  {
    FailedEntriesFrame(completed, completed[n.id := RunRecord(n, LastAttempt(delegate, n.id))], n.dependsOn);
    assert forall retry: bool :: (n.id, retry) in calls ==> (n.id, retry).0 in completed;
  }

  /** Delegation with one retry. */
  method DelegateWithRetry(id: Id, delegate: Delegate) returns (result: Attempt, made: seq<Call>)
    ensures result == LastAttempt(delegate, id) && made == CallsFor(delegate, id)
  {
    result, made := delegate(id, false), [(id, false)];
    if result.Failed? {
      result, made := delegate(id, true), made + [(id, true)];
    }
  }

  lemma {:induction false} SkippedRecords(n: TaskNode, completed: Completed)
    requires n.id !in completed && (forall d :: d in n.dependsOn ==> d in completed)
    requires FailedEntries(completed, n.dependsOn) != []
    ensures var blocked := FailedEntries(completed, n.dependsOn);
      RecordsFor(n, completed[n.id := SkipRecord(n, blocked[|blocked| - 1])]) == WithSkips([], n, blocked)
  {
    var blocked := FailedEntries(completed, n.dependsOn);
    FailedEntriesFrame(completed, completed[n.id := SkipRecord(n, blocked[|blocked| - 1])], n.dependsOn);
  }

  lemma {:induction false} HandleSkip(done: seq<TaskNode>, n: TaskNode, delegate: Delegate, completed: Completed,
                                      calls: seq<Call>, results: seq<SubtaskResult>)
    requires Handled(done, delegate, completed, calls, results)
    requires n.id !in completed && (forall d :: d in n.dependsOn ==> d in completed)
    requires FailedEntries(completed, n.dependsOn) != []
    ensures var blocked := FailedEntries(completed, n.dependsOn);
      && Handled(done + [n], delegate, WithSkip(completed, n, blocked), calls, WithSkips(results, n, blocked))
      && SumTokens(WithSkips(results, n, blocked)) == SumTokens(results)
  {
    var blocked := FailedEntries(completed, n.dependsOn);
    CountSkips(results, n, blocked);
    SkipsAppend(results, n, blocked);
    SkippedRecords(n, completed);
    SkippedRule(n, delegate, completed, calls);
    HandleNode(done, n, delegate, completed, calls, results, SkipRecord(n, blocked[|blocked| - 1]), [],
               WithSkips(results, n, blocked));
    assert calls + [] == calls;
  }

  lemma {:induction false} HandleRun(done: seq<TaskNode>, n: TaskNode, delegate: Delegate, completed: Completed,
                                     calls: seq<Call>, results: seq<SubtaskResult>)
    requires Handled(done, delegate, completed, calls, results)
    requires n.id !in completed && (forall d :: d in n.dependsOn ==> d in completed)
    requires FailedEntries(completed, n.dependsOn) == []
    ensures var r := RunRecord(n, LastAttempt(delegate, n.id));
      && Handled(done + [n], delegate, completed[n.id := r], calls + CallsFor(delegate, n.id), results + [r])
      && SumTokens(results + [r]) == SumTokens(results) + r.tokensUsed
  {
    var r := RunRecord(n, LastAttempt(delegate, n.id));
    AppendRecord(results, r);
    FailedEntriesFrame(completed, completed[n.id := r], n.dependsOn);
    DelegatedRule(n, delegate, completed, calls);
    HandleNode(done, n, delegate, completed, calls, results, r, CallsFor(delegate, n.id), results + [r]);
  }

  /** The tokens recorded for a subtask. */
  function Spent(completed: Completed): Id -> int {
    id => if id in completed then completed[id].tokensUsed else 0
  }

  ghost predicate Tallied(done: seq<TaskNode>, completed: Completed, results: seq<SubtaskResult>, total: int) {
    total == SumTokens(results) == Sum(Spent(completed), Ids(done))
  }

  lemma {:induction false} SpentNext(done: seq<TaskNode>, n: TaskNode, delegate: Delegate, completed: Completed,
                                     calls: seq<Call>, r: SubtaskResult)
    requires n.id !in completed && LocalRules(done, delegate, completed, calls)
    ensures Sum(Spent(completed[n.id := r]), Ids(done + [n])) == Sum(Spent(completed), Ids(done)) + r.tokensUsed
  {
    forall id | id in Ids(done) ensures Spent(completed[n.id := r])(id) == Spent(completed)(id) {
      assert Known(done, completed, id);
    }
    SumSame(Spent(completed[n.id := r]), Spent(completed), Ids(done));
    assert Ids(done + [n]) == Ids(done) + [n.id];
    assert (Ids(done) + [n.id])[..|Ids(done)|] == Ids(done);
  }

  /** One turn of the outer loop. */
  method ExecuteNode(n: TaskNode, delegate: Delegate, ghost done: seq<TaskNode>,
                     completed0: Completed, results0: seq<SubtaskResult>, tokens0: int, calls0: seq<Call>)
    returns (missing: Option<Id>, completed: Completed, results: seq<SubtaskResult>, totalTokens: int, calls: seq<Call>)
    requires Handled(done, delegate, completed0, calls0, results0) && Tallied(done, completed0, results0, tokens0)
    requires n.id !in completed0 && forall d :: d in n.dependsOn ==> d in completed0
    ensures missing.None? && Handled(done + [n], delegate, completed, calls, results)
    ensures Tallied(done + [n], completed, results, totalTokens)
  {
    missing, completed, results := CheckDependencies(n, completed0, results0);
    totalTokens, calls := tokens0, calls0;
    if n.id in completed {
      HandleSkip(done, n, delegate, completed0, calls0, results0);
      SpentNext(done, n, delegate, completed0, calls0, completed[n.id]);
      return;
    }
    HandleRun(done, n, delegate, completed0, calls0, results0);
    var result, made := DelegateWithRetry(n.id, delegate);
    if result.Finished? { totalTokens := totalTokens + result.tokens; }
    var r := RunRecord(n, result);
    SpentNext(done, n, delegate, completed0, calls0, r);
    results, completed, calls := results + [r], completed[n.id := r], calls + made;
  }

  // ---------------------------------------------------------------- from direct to transitive dependencies

  /** A node is delegated exactly when everything upstream succeeded, and succeeds exactly when it and
      everything upstream are good. */
  ghost predicate Meaning(arcs: seq<Arc>, delegate: Delegate, completed: Completed, calls: seq<Call>, id: Id) {
    && id in completed
    && (forall d :: Upstream(arcs, d, id) ==> d in completed)
    && ((id, false) in calls <==> forall d :: Upstream(arcs, d, id) ==> completed[d].ok)
    && ((id, true) in calls <==> (id, false) in calls && delegate(id, false).Failed?)
    && (completed[id].ok <==> Good(delegate, id) && forall d :: Upstream(arcs, d, id) ==> Good(delegate, d))
  }

  /** The local rule of the node that lists an arc. */
  lemma {:induction false} DirectDependency(nodes: seq<TaskNode>, delegate: Delegate, completed: Completed,
                                            calls: seq<Call>, d: Id, id: Id)
    requires LocalRules(nodes, delegate, completed, calls) && (d, id) in Arcs(nodes)
    ensures d in completed && id in completed && (completed[id].ok ==> completed[d].ok)
    ensures (id, false) in calls ==> completed[d].ok
  {
    ArcListed(nodes, (d, id));
    var i :| 0 <= i < |nodes| && nodes[i].id == id && d in nodes[i].dependsOn;
    assert LocalRule(nodes[i], delegate, completed, calls);
    FailedEntriesAre(completed, nodes[i].dependsOn);
  }

  lemma {:induction false} OkUpstream(nodes: seq<TaskNode>, delegate: Delegate, completed: Completed, calls: seq<Call>,
                                      p: seq<Id>)
    requires LocalRules(nodes, delegate, completed, calls) && |p| >= 2 && IsWalk(Arcs(nodes), p)
    ensures p[0] in completed && p[|p| - 1] in completed
    ensures completed[p[|p| - 1]].ok || (p[|p| - 1], false) in calls ==> completed[p[0]].ok
  {
    var m := |p| - 1;
    DirectDependency(nodes, delegate, completed, calls, p[m - 1], p[m]);
    if m > 1 { OkUpstream(nodes, delegate, completed, calls, p[..m]); }
  }

  lemma {:induction false} OkIsGood(nodes: seq<TaskNode>, delegate: Delegate, completed: Completed, calls: seq<Call>,
                                    id: Id)
    requires LocalRules(nodes, delegate, completed, calls) && id in completed
    ensures completed[id].ok <==> (id, false) in calls && Good(delegate, id)
    ensures (id, true) in calls <==> (id, false) in calls && delegate(id, false).Failed?
  {
    assert Known(nodes, completed, id);
    var i :| 0 <= i < |nodes| && Ids(nodes)[i] == id;
    assert LocalRule(nodes[i], delegate, completed, calls);
  }

  /** A blocked node has a direct dependency that failed. */
  lemma {:induction false} BlockedBy(nodes: seq<TaskNode>, delegate: Delegate, completed: Completed, calls: seq<Call>,
                                     id: Id)
    returns (d: Id)
    requires LocalRules(nodes, delegate, completed, calls) && id in completed && (id, false) !in calls
    ensures (d, id) in Arcs(nodes) && d in completed && !completed[d].ok
  {
    assert Known(nodes, completed, id);
    var i :| 0 <= i < |nodes| && Ids(nodes)[i] == id;
    assert LocalRule(nodes[i], delegate, completed, calls);
    var blocked := FailedEntries(completed, nodes[i].dependsOn);
    FailedEntriesAre(completed, nodes[i].dependsOn);
    d := blocked[0];
    assert d in blocked;
    ArcListed(nodes, (d, id));
    assert Lists(nodes, (d, id));
  }

  /** Behind every failure there is a subtask that is not good. */
  lemma {:induction false} FailureHasCause(nodes: seq<TaskNode>, delegate: Delegate, completed: Completed,
                                           calls: seq<Call>, order: seq<Id>, k: nat) returns (p: seq<Id>)
    requires LocalRules(nodes, delegate, completed, calls) && NoDup(order) && Respects(Arcs(nodes), order)
    requires k < |order| && order[k] in completed && !completed[order[k]].ok
    ensures |p| >= 1 && IsWalk(Arcs(nodes), p) && p[|p| - 1] == order[k] && !Good(delegate, p[0])
    decreases k
  {
    var id := order[k];
    OkIsGood(nodes, delegate, completed, calls, id);
    if !Good(delegate, id) {
      p := [id];
    } else {
      var d := BlockedBy(nodes, delegate, completed, calls, id);
      assert Before(order, (d, id).0, (d, id).1);
      var i, j :| 0 <= i < j < |order| && order[i] == d && order[j] == id;
      assert j == k;
      var q := FailureHasCause(nodes, delegate, completed, calls, order, i);
      p := q + [id];
      WalkSnoc(Arcs(nodes), q, id);
    }
  }

  /** A blocked node has a failed subtask upstream, and one that is not good. */
  lemma {:induction false} BlockedCauses(nodes: seq<TaskNode>, delegate: Delegate, completed: Completed,
                                         calls: seq<Call>, order: seq<Id>, id: Id) returns (d: Id, c: Id)
    requires LocalRules(nodes, delegate, completed, calls) && NoDup(order) && Respects(Arcs(nodes), order)
    requires id in completed && (id, false) !in calls && forall x :: x in completed ==> x in order
    ensures Upstream(Arcs(nodes), d, id) && d in completed && !completed[d].ok
    ensures Upstream(Arcs(nodes), c, id) && !Good(delegate, c)
  {
    var arcs := Arcs(nodes);
    d := BlockedBy(nodes, delegate, completed, calls, id);
    WalkSnoc(arcs, [d], id);
    assert [d] + [id] == [d, id];
    var k :| 0 <= k < |order| && order[k] == d;
    var p := FailureHasCause(nodes, delegate, completed, calls, order, k);
    c := p[0];
    WalkSnoc(arcs, p, id);
    var q := p + [id];
    assert q[0] == c && q[|q| - 1] == id;
  }

  lemma {:induction false} RulesGiveMeaning(nodes: seq<TaskNode>, delegate: Delegate, completed: Completed,
                                            calls: seq<Call>, order: seq<Id>, id: Id)
    requires LocalRules(nodes, delegate, completed, calls) && NoDup(order) && Respects(Arcs(nodes), order)
    requires id in completed && forall x :: x in completed ==> x in order
    ensures Meaning(Arcs(nodes), delegate, completed, calls, id)
  {
    var arcs := Arcs(nodes);
    OkIsGood(nodes, delegate, completed, calls, id);
    forall d | Upstream(arcs, d, id)
      ensures d in completed && ((id, false) in calls ==> completed[d].ok && Good(delegate, d))
    {
      var p :| |p| >= 2 && IsWalk(arcs, p) && p[0] == d && p[|p| - 1] == id;
      OkUpstream(nodes, delegate, completed, calls, p);
      OkIsGood(nodes, delegate, completed, calls, d);
    }
    if (id, false) !in calls {
      var d, c := BlockedCauses(nodes, delegate, completed, calls, order, id);
    }
  }

  // ---------------------------------------------------------------- the whole execution

  lemma {:induction false} NothingHandled(delegate: Delegate)
    ensures Handled([], delegate, map[], [], []) && Tallied([], map[], [], 0)
  {
    assert Succeeded(map[]) == {};
  }

  /** The next node of a plan in dependency order. */
  method ExecuteNext(ordered: seq<TaskNode>, i: nat, delegate: Delegate, completed0: Completed,
                     results0: seq<SubtaskResult>, tokens0: int, calls0: seq<Call>)
    returns (missing: Option<Id>, completed: Completed, results: seq<SubtaskResult>, totalTokens: int, calls: seq<Call>)
    requires i < |ordered| && NoDup(Ids(ordered)) && StrictSort.DependenciesFirst(ordered)
    requires Handled(ordered[..i], delegate, completed0, calls0, results0)
    requires Tallied(ordered[..i], completed0, results0, tokens0)
    ensures missing.None? && Handled(ordered[..i + 1], delegate, completed, calls, results)
    ensures Tallied(ordered[..i + 1], completed, results, totalTokens)
  {
    NextIsFresh(ordered, i, delegate, completed0, calls0);
    missing, completed, results, totalTokens, calls :=
      ExecuteNode(ordered[i], delegate, ordered[..i], completed0, results0, tokens0, calls0);
    assert ordered[..i + 1] == ordered[..i] + [ordered[i]];
  }

  /** The outer loop over a plan in dependency order never misses a dependency. */
  method RunInOrder(ordered: seq<TaskNode>, delegate: Delegate)
    returns (missing: Option<Id>, completed: Completed, results: seq<SubtaskResult>, totalTokens: int, calls: seq<Call>)
    requires NoDup(Ids(ordered)) && StrictSort.DependenciesFirst(ordered)
    ensures missing.None? && Handled(ordered, delegate, completed, calls, results)
    ensures Tallied(ordered, completed, results, totalTokens)
  {
    missing, completed, calls, results, totalTokens := None, map[], [], [], 0;
    NothingHandled(delegate);
    assert ordered[..0] == [];
    for i := 0 to |ordered|
      invariant missing.None? && Tallied(ordered[..i], completed, results, totalTokens)
      invariant Handled(ordered[..i], delegate, completed, calls, results)
    {
      missing, completed, results, totalTokens, calls :=
        ExecuteNext(ordered, i, delegate, completed, results, totalTokens, calls);
      if missing.Some? { return; }
    }
    assert ordered[..|ordered|] == ordered;
  }

  /** What an execution of a plan guarantees; `plan` is the order in which it was carried out. */
  ghost predicate Executed(tasks: seq<TaskNode>, plan: seq<TaskNode>, delegate: Delegate, completed: Completed,
                           calls: seq<Call>, report: Report) {
    && multiset(plan) == multiset(tasks) && IsKahnOrder(Ids(tasks), Arcs(tasks), Ids(plan))
    // who is delegated and who succeeds
    && (forall id :: id in completed <==> id in Ids(tasks)) && NoDup(calls)
    && (forall id :: id in Ids(tasks) ==> Meaning(Arcs(tasks), delegate, completed, calls, id))
    && AllFit(tasks, delegate, completed, calls, report.results)
    // the records, in the order of the plan, and how many there are
    && report.results == RecordsIn(plan, completed) && RecordsCounted(tasks, completed, report.results)
    // tokens and counts
    && report.totalTokens == SumTokens(report.results) == DelegatedTokens(delegate, calls, Ids(tasks))
    && report.totalSubtasks == |completed|
    && report.succeededCount == |set id | id in completed && completed[id].ok|
    && report.failedCount == |set id | id in completed && !completed[id].ok|
  }

  /** Every outcome and every record says what it should. */
  ghost predicate AllFit(tasks: seq<TaskNode>, delegate: Delegate, completed: Completed, calls: seq<Call>,
                         results: seq<SubtaskResult>) {
    && (forall n :: n in tasks ==> n.id in completed && Fits(n, completed[n.id], delegate, completed, calls))
    && (forall x :: x in results ==> exists n :: n in tasks && Fits(n, x, delegate, completed, calls))
  }

  /** Errors exactly on an empty or unsortable plan: the "not found in execution plan" branch is dead. */
  method Execute(tasks: seq<TaskNode>, delegate: Delegate)
    returns (r: Result<Report, string>, completed: Completed, calls: seq<Call>, ghost plan: seq<TaskNode>)
    ensures r.Ok? <==> tasks != [] && StrictSort.WellFormed(tasks)
    ensures r.Ok? ==> Executed(tasks, plan, delegate, completed, calls, r.value)
  {
    completed, calls, plan := map[], [], [];
    if tasks == [] { return Err("No decomposition found for taskId"), completed, calls, plan; }
    var sorted := StrictSort.Sort(tasks);
    if sorted.Err? {
      return Err("Stored decomposition has invalid dependency graph: " + sorted.error), completed, calls, plan;
    }
    plan := sorted.value;
    var missing, results, totalTokens;
    missing, completed, results, totalTokens, calls := RunInOrder(sorted.value, delegate);
    if missing.Some? { return Err("Dependency was not found in execution plan"), completed, calls, plan; }
    var succeeded := CountOk(results);
    SortedPlan(tasks, plan);
    PlanExecuted(tasks, plan, delegate, completed, calls, results, totalTokens);
    r := Ok(Report(results, |sorted.value|, succeeded, |sorted.value| - succeeded, totalTokens));
  }

  lemma {:induction false} SortedPlan(tasks: seq<TaskNode>, plan: seq<TaskNode>)
    requires multiset(plan) == multiset(tasks)
    ensures (forall n :: n in plan <==> n in tasks) && forall id :: id in Ids(tasks) <==> id in Ids(plan)
  {
    SameMembers(tasks, plan);
    forall id ensures id in Ids(tasks) <==> id in Ids(plan) {
      if id in Ids(tasks) {
        var i :| 0 <= i < |tasks| && Ids(tasks)[i] == id;
        assert tasks[i] in plan;
        var k :| 0 <= k < |plan| && plan[k] == tasks[i];
        assert Ids(plan)[k] == id;
      }
      if id in Ids(plan) {
        var i :| 0 <= i < |plan| && Ids(plan)[i] == id;
        assert plan[i] in tasks;
        var k :| 0 <= k < |tasks| && tasks[k] == plan[i];
        assert Ids(tasks)[k] == id;
      }
    }
  }

  lemma {:induction false} PlanExecuted(tasks: seq<TaskNode>, plan: seq<TaskNode>, delegate: Delegate,
                                        completed: Completed, calls: seq<Call>, results: seq<SubtaskResult>, total: int)
    requires Handled(plan, delegate, completed, calls, results) && Tallied(plan, completed, results, total)
    requires multiset(plan) == multiset(tasks) && IsKahnOrder(Ids(tasks), Arcs(tasks), Ids(plan))
    requires NoDup(Ids(plan)) && NoDup(Ids(tasks)) && Respects(Arcs(tasks), Ids(plan))
    requires (forall n :: n in plan <==> n in tasks) && forall id :: id in Ids(tasks) <==> id in Ids(plan)
    ensures Executed(tasks, plan, delegate, completed, calls,
                     Report(results, |plan|, CountOk(results), |plan| - CountOk(results), total))
  {
    SameRules(tasks, plan, delegate, completed, calls);
    SamePlan(tasks, plan, delegate, completed, calls, results);
    EverythingFits(tasks, plan, delegate, completed, calls, results);
    CountFailures(Ids(plan), completed);
  }

  lemma {:induction false} SameMembers<T>(s: seq<T>, t: seq<T>)
    requires multiset(s) == multiset(t)
    ensures forall x :: x in s <==> x in t
  {
    assert forall x :: x in s <==> x in multiset(s);
    assert forall x :: x in t <==> x in multiset(t);
  }

  lemma {:induction false} NextIsFresh(ordered: seq<TaskNode>, i: nat, delegate: Delegate, completed: Completed,
                                       calls: seq<Call>)
    requires i < |ordered| && NoDup(Ids(ordered)) && StrictSort.DependenciesFirst(ordered)
    requires LocalRules(ordered[..i], delegate, completed, calls)
    ensures ordered[i].id !in completed && forall d :: d in ordered[i].dependsOn ==> d in completed
  {
    assert StrictSort.AfterDependencies(ordered, i) && Known(ordered[..i], completed, ordered[i].id);
    forall d | d in ordered[i].dependsOn ensures d in completed { assert Known(ordered[..i], completed, d); }
    assert Ids(ordered)[i] == ordered[i].id;
    forall k | 0 <= k < i ensures Ids(ordered[..i])[k] != ordered[i].id {
      assert Ids(ordered)[k] != Ids(ordered)[i];
    }
  }

  /** Sorting only permutes the plan, so the rules for the sorted plan are the rules for the plan. */
  lemma {:induction false} SameRules(tasks: seq<TaskNode>, ordered: seq<TaskNode>, delegate: Delegate,
                                     completed: Completed, calls: seq<Call>)
    requires LocalRules(ordered, delegate, completed, calls)
    requires (forall id :: id in Ids(tasks) <==> id in Ids(ordered)) && forall n :: n in ordered <==> n in tasks
    ensures LocalRules(tasks, delegate, completed, calls)
    ensures forall id :: id in completed <==> id in Ids(tasks)
    ensures forall id :: id in completed <==> id in Ids(ordered)
  {
    forall id ensures Known(tasks, completed, id) && (id in completed <==> id in Ids(ordered)) {
      assert Known(ordered, completed, id);
    }
    forall id ensures id in completed <==> id in Ids(tasks) {
      assert Known(tasks, completed, id);
    }
  }

  lemma {:induction false} SamePlan(tasks: seq<TaskNode>, ordered: seq<TaskNode>, delegate: Delegate,
                                    completed: Completed, calls: seq<Call>, results: seq<SubtaskResult>)
    requires LocalRules(tasks, delegate, completed, calls) && RecordsCounted(ordered, completed, results)
    requires NoDup(Ids(ordered)) && Respects(Arcs(tasks), Ids(ordered)) && forall n :: n in ordered <==> n in tasks
    requires forall id :: id in completed <==> id in Ids(tasks)
    requires forall id :: id in completed <==> id in Ids(ordered)
    ensures forall id :: id in Ids(tasks) ==> Meaning(Arcs(tasks), delegate, completed, calls, id)
    ensures RecordsCounted(tasks, completed, results)
  {
    forall id | id in Ids(tasks) ensures Meaning(Arcs(tasks), delegate, completed, calls, id) {
      RulesGiveMeaning(tasks, delegate, completed, calls, Ids(ordered), id);
    }
  }

  /** Outcomes and records of the sorted plan, stated for the plan as given. */
  lemma {:induction false} EverythingFits(tasks: seq<TaskNode>, ordered: seq<TaskNode>, delegate: Delegate,
                                          completed: Completed, calls: seq<Call>, results: seq<SubtaskResult>)
    requires Handled(ordered, delegate, completed, calls, results) && NoDup(Ids(ordered)) && NoDup(Ids(tasks))
    requires (forall id :: id in Ids(tasks) <==> id in Ids(ordered)) && forall n :: n in ordered <==> n in tasks
    ensures AllFit(tasks, delegate, completed, calls, results)
    ensures Sum(Spent(completed), Ids(ordered)) == DelegatedTokens(delegate, calls, Ids(tasks))
  {
    forall n | n in tasks ensures n.id in completed && Fits(n, completed[n.id], delegate, completed, calls) {
      assert LocalRule(n, delegate, completed, calls);
      RuleFits(n, delegate, completed, calls, completed[n.id]);
    }
    forall x | x in results ensures exists n :: n in tasks && Fits(n, x, delegate, completed, calls) {
      var n := RecordOf(ordered, completed, x);
      assert LocalRule(n, delegate, completed, calls);
      RuleFits(n, delegate, completed, calls, x);
    }
    TokensFit(ordered, delegate, completed, calls);
    StrictSort.SameMembersPermute(Ids(ordered), Ids(tasks));
    SumPermutes(id => TokensFor(delegate, calls, id), Ids(ordered), Ids(tasks));
  }

  lemma {:induction false} TokensFit(ordered: seq<TaskNode>, delegate: Delegate, completed: Completed, calls: seq<Call>)
    requires LocalRules(ordered, delegate, completed, calls)
    ensures Sum(Spent(completed), Ids(ordered)) == DelegatedTokens(delegate, calls, Ids(ordered))
  {
    forall id | id in Ids(ordered) ensures Spent(completed)(id) == TokensFor(delegate, calls, id) {
      var i :| 0 <= i < |ordered| && Ids(ordered)[i] == id;
      assert LocalRule(ordered[i], delegate, completed, calls);
      RuleFits(ordered[i], delegate, completed, calls, completed[id]);
    }
    SumSame(Spent(completed), id => TokensFor(delegate, calls, id), Ids(ordered));
  }

  lemma {:induction false} CountFailures(ids: seq<Id>, completed: Completed)
    requires NoDup(ids) && forall id :: id in completed <==> id in ids
    ensures |completed| == |ids|
    ensures |set id | id in completed && !completed[id].ok| == |ids| - |Succeeded(completed)|
  {
    var good, bad := Succeeded(completed), set id | id in completed && !completed[id].ok;
    CountDistinct(ids);
    assert completed.Keys == set id | id in ids;
    assert good + bad == completed.Keys && good !! bad;
  }
}

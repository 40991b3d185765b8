/** What every reduction guarantees: independence of interleavings, isolation of tasks and turns, the exact
    meaning of "pass", and monotonicity in the policy. */
module ReducerProperties {
  import opened Wrappers
  import opened Digraph
  import opened Decimal
  import opened Reducer

  // ---------------------------------------------------------------- convergence

  /** Equal but for the order of the contributing signals. */
  ghost predicate SamePacket(p: Packet, q: Packet) {
    p.(contributing := []) == q.(contributing := []) && multiset(p.contributing) == multiset(q.contributing)
  }

  lemma {:induction false} TaggedKinds(kind: Kind, signals: seq<Signal>, c: Contribution)
    ensures c.kind != kind ==> multiset(Tagged(kind, signals))[c] == 0
  {
    if signals != [] { TaggedKinds(kind, signals[..|signals| - 1], c); }
  }

  /** A contribution is counted once per signal of its kind, wherever that kind stands in the order. */
  lemma {:induction false} CountContribution(order: seq<Kind>, signals: Signals, c: Contribution)
    requires NoDup(order) && forall k :: k in order ==> k in signals
    ensures multiset(Contributing(order, signals))[c] ==
            if c.kind in order then multiset(Tagged(c.kind, signals[c.kind]))[c] else 0
  {
    if order != [] {
      var front, k := order[..|order| - 1], order[|order| - 1];
      assert order == front + [k];
      assert forall i :: 0 <= i < |front| ==> front[i] != k;
      CountContribution(front, signals, c);
      TaggedKinds(k, signals[k], c);
    }
  }

  lemma {:induction false} ContributingPermutes(a: TaskStore, b: TaskStore)
    requires Kept(a) && Kept(b) && a.signals == b.signals
    ensures multiset(Contributing(a.order, a.signals)) == multiset(Contributing(b.order, b.signals))
  {
    forall c ensures multiset(Contributing(a.order, a.signals))[c] == multiset(Contributing(b.order, b.signals))[c] {
      CountContribution(a.order, a.signals, c);
      CountContribution(b.order, b.signals, c);
    }
  }

  lemma {:induction false} SameSignalsSamePacket(a: TaskStore, b: TaskStore, taskId: string, turn: int,
                                                 policy: Option<Policy>, hash: Option<string>)
    requires Kept(a) && Kept(b) && a.signals == b.signals
    ensures SamePacket(Reduce(a, taskId, turn, policy, hash), Reduce(b, taskId, turn, policy, hash))
  {
    ContributingPermutes(a, b);
  }

  lemma {:induction false} SameSignals(a: TaskStore, b: TaskStore)
    requires Kept(a) && Kept(b) && forall k :: All(a.signals, k) == All(b.signals, k)
    ensures a.signals == b.signals
  {
    forall k ensures k in a.signals <==> k in b.signals {
      assert All(a.signals, k) == All(b.signals, k);
    }
    forall k | k in a.signals ensures a.signals[k] == b.signals[k] {
      assert All(a.signals, k) == All(b.signals, k);
    }
  }

  /** Two histories that deliver, per kind, the same signals for a task reduce to the same packet, however
      emitters, other tasks and resets are interleaved. */
  lemma {:induction false} ReductionConverges(h: seq<Op>, h': seq<Op>, task: string, turn: int, policy: Option<Policy>,
                           hash: Option<string>)
    requires forall k :: Delivered(h, task, k) == Delivered(h', task, k)
    ensures Kept(Of(Run(h), task)) && Kept(Of(Run(h'), task))
    ensures SamePacket(Reduce(Of(Run(h), task), task, turn, policy, hash),
                       Reduce(Of(Run(h'), task), task, turn, policy, hash))
  {
    StoredIsDelivered(h, task);
    StoredIsDelivered(h', task);
    SameSignals(Of(Run(h), task), Of(Run(h'), task));
    SameSignalsSamePacket(Of(Run(h), task), Of(Run(h'), task), task, turn, policy, hash);
  }

  // ---------------------------------------------------------------- isolation

  /** The part of a history that concerns one task. */
  function Only(ops: seq<Op>, task: string): seq<Op> {
    if ops == [] then [] else
    var front, op := Only(ops[..|ops| - 1], task), ops[|ops| - 1];
    if op.task == task then front + [op] else front
  }

  /** Other tasks' events and resets leave no trace, not even in the order of the signals. */
  lemma {:induction false} OtherTasksInvisible(ops: seq<Op>, task: string)
    ensures Of(Run(ops), task) == Of(Run(Only(ops, task)), task)
  {
    if ops != [] {
      var front, op := ops[..|ops| - 1], ops[|ops| - 1];
      OtherTasksInvisible(front, task);
      StepFrame(Run(front), Run(Only(front, task)), op, task);
      if op.task == task {
        var mine := Only(front, task);
        assert (mine + [op])[..|mine|] == mine;
      }
    }
  }

  lemma {:induction false} StepFrame(a: Store, b: Store, op: Op, task: string)
    requires Of(a, task) == Of(b, task)
    ensures op.task != task ==> Of(Apply(a, op), task) == Of(a, task)
    ensures op.task == task ==> Of(Apply(a, op), task) == Of(Apply(b, op), task)
  {
  }

  /** The task id of a turn of the correction loop. */
  function TurnTaskId(base: string, turn: nat): string {
    if turn == 0 then base else base + ("-c" + Print(turn))
  }

  lemma {:induction false} SuffixesDistinct(base: string, s: string, t: string)
    requires base + s == base + t
    ensures s == t
  {
    assert (base + s)[|base|..] == s && (base + t)[|base|..] == t;
  }

  lemma {:induction false} TurnIdsDistinct(base: string, i: nat, j: nat)
    requires i != j
    ensures TurnTaskId(base, i) != TurnTaskId(base, j)
  {
    if i > 0 && j > 0 && TurnTaskId(base, i) == TurnTaskId(base, j) {
      SuffixesDistinct(base, "-c" + Print(i), "-c" + Print(j));
      SuffixesDistinct("-c", Print(i), Print(j));
      PrintInjective(i, j);
    }
  }

  /** Signals and resets of one turn never reach the packet of another turn of the same loop. */
  lemma {:induction false} TurnsDoNotMix(ops: seq<Op>, op: Op, base: string, i: nat, j: nat)
    requires i != j && op.task == TurnTaskId(base, i)
    ensures Of(Run(ops + [op]), TurnTaskId(base, j)) == Of(Run(ops), TurnTaskId(base, j))
  {
    TurnIdsDistinct(base, i, j);
    assert (ops + [op])[..|ops|] == ops;
    StepFrame(Run(ops), Run(ops), op, TurnTaskId(base, j));
  }

  // ---------------------------------------------------------------- the meaning of "pass"

  /** A required slot has reported, and not by skipping. */
  ghost predicate Reported(signals: Signals, slot: Slot) {
    var v := Latest(signals, KindOfSlot(slot));
    v.Some? && StatusOf(v.value) != Some(Skipped)
  }

  ghost predicate AllReported(signals: Signals, required: seq<Slot>) {
    forall slot :: slot in required ==> Reported(signals, slot)
  }

  lemma {:induction false} NoneMissing(signals: Signals, required: seq<Slot>)
    ensures |Missing(signals, required)| == 0 && |SkippedOf(signals, required)| == 0 <==> AllReported(signals, required)
  {
    if required != [] {
      var front, slot := required[..|required| - 1], required[|required| - 1];
      NoneMissing(signals, front);
      assert required == front + [slot];
      assert AllReported(signals, required) <==> AllReported(signals, front) && Reported(signals, slot);
    }
  }

  /** A packet with nothing to object to. */
  ghost predicate Spotless(p: Packet) {
    && p.lint.status != Erroneous && p.types.status != Erroneous && p.security.status != Erroneous
    && p.graph.status != Erroneous
    && p.lint.errors <= 0 && p.types.errors <= 0 && p.security.critical <= 0
    && p.lint.warnings <= 0 && p.security.high <= 0
    && p.enforcement.None?
  }

  lemma {:induction false} JudgePasses(policy: Option<Policy>, parts: Parts, e: Option<Enforcement>,
                                       result: Option<PolicyResult>)
    ensures Judge(policy, parts, e, result) == Pass <==>
      && parts.lint.status != Erroneous && parts.types.status != Erroneous && parts.security.status != Erroneous
      && parts.graph.status != Erroneous
      && parts.lint.errors <= 0 && parts.types.errors <= 0 && parts.security.critical <= 0
      && parts.lint.warnings <= 0 && parts.security.high <= 0 && e.None?
      && (Requires(policy, Graph) || GraphAdvisory(policy) ==> parts.graph.brokenEdges <= 0)
      && (result.Some? ==> |result.value.missingRequired| == 0 && |result.value.skippedRequired| == 0)
  {
  }

  /** A packet passes exactly when it is spotless, its graph is unbroken if the policy looks at it, and every
      required slot has reported. */
  lemma {:induction false} PassIff(ts: TaskStore, taskId: string, turn: int, policy: Option<Policy>,
                                   hash: Option<string>)
    requires Kept(ts)
    ensures var p := Reduce(ts, taskId, turn, policy, hash);
      p.overall == Pass <==>
        && Spotless(p)
        && (Requires(policy, Graph) || GraphAdvisory(policy) ==> p.graph.brokenEdges <= 0)
        && (policy.Some? ==> AllReported(ts.signals, policy.value.required))
  {
    JudgePasses(policy, ReduceParts(ts.signals, policy), EnforcementOf(ts.signals), CheckPolicy(ts.signals, policy));
    if policy.Some? { NoneMissing(ts.signals, policy.value.required); }
  }

  /** A slot that has not reported and need not. */
  ghost predicate Excused(signals: Signals, policy: Option<Policy>, slot: Slot) {
    && Latest(signals, KindOfSlot(slot)).None? && policy.Some?
    && (slot in policy.value.required ==> slot in policy.value.advisory)
  }

  /** The verifier ran and did not break. */
  predicate Ran(status: Option<Status>) {
    status.Some? && status.value != Erroneous
  }

  ghost predicate LintClean(signals: Signals, policy: Option<Policy>) {
    match Latest(signals, VerifyLint)
    case Some(LintValue(s, _, errors, warnings, _)) => Ran(s) && errors <= 0 && warnings <= 0
    case _ => Excused(signals, policy, Lint)
  }

  ghost predicate TypesClean(signals: Signals, policy: Option<Policy>) {
    match Latest(signals, VerifyTypes)
    case Some(TypesValue(s, _, errors)) => Ran(s) && errors <= 0
    case _ => Excused(signals, policy, Types)
  }

  ghost predicate SecurityClean(signals: Signals, policy: Option<Policy>) {
    match Latest(signals, VerifySecurity)
    case Some(SecurityValue(s, _, _, critical, high)) => Ran(s) && critical <= 0 && high <= 0
    case _ => Excused(signals, policy, Security)
  }

  /** Broken edges count unless the verifier skipped or the policy does not look at the graph. */
  ghost predicate GraphClean(signals: Signals, policy: Option<Policy>) {
    match Latest(signals, StateGraph)
    case Some(GraphValue(s, _, _, _, broken, _)) =>
      Ran(s) && (s == Some(Skipped) || broken <= 0 || !(Requires(policy, Graph) || GraphAdvisory(policy)))
    case _ => Excused(signals, policy, Graph)
  }

  /** The four judged verifiers, in terms of their latest signals. */
  ghost predicate VerifiersClean(signals: Signals, policy: Option<Policy>) {
    && LintClean(signals, policy) && TypesClean(signals, policy)
    && SecurityClean(signals, policy) && GraphClean(signals, policy)
  }

  // The same four verifiers, as reasons to fail a packet rather than to warn.

  ghost predicate LintFaulty(signals: Signals, policy: Option<Policy>) {
    match Latest(signals, VerifyLint)
    case Some(LintValue(s, _, errors, _, _)) => !Ran(s) || errors > 0
    case _ => !Excused(signals, policy, Lint)
  }

  ghost predicate TypesFaulty(signals: Signals, policy: Option<Policy>) {
    match Latest(signals, VerifyTypes)
    case Some(TypesValue(s, _, errors)) => !Ran(s) || errors > 0
    case _ => !Excused(signals, policy, Types)
  }

  ghost predicate SecurityFaulty(signals: Signals, policy: Option<Policy>) {
    match Latest(signals, VerifySecurity)
    case Some(SecurityValue(s, _, _, critical, _)) => !Ran(s) || critical > 0
    case _ => !Excused(signals, policy, Security)
  }

  ghost predicate GraphFaulty(signals: Signals, policy: Option<Policy>) {
    match Latest(signals, StateGraph)
    case Some(GraphValue(s, _, _, _, broken, _)) =>
      !Ran(s) || (s != Some(Skipped) && broken > 0 && Requires(policy, Graph))
    case _ => !Excused(signals, policy, Graph)
  }

  /** A required slot is missing or skipped, a judged verifier broke, is silent without excuse or found errors, or the
      output is not intact. */
  ghost predicate Faulty(signals: Signals, policy: Option<Policy>) {
    || (policy.Some? && !AllReported(signals, policy.value.required))
    || LintFaulty(signals, policy) || TypesFaulty(signals, policy)
    || SecurityFaulty(signals, policy) || GraphFaulty(signals, policy)
    || !OutputIntact(signals)
  }

  /** Clean in every respect that counts. */
  ghost predicate Clean(signals: Signals, policy: Option<Policy>) {
    && VerifiersClean(signals, policy) && OutputIntact(signals)
    && (policy.Some? ==> AllReported(signals, policy.value.required))
  }

  /** No path was blocked and the output was neither left open nor cut. */
  ghost predicate OutputIntact(signals: Signals) {
    && (match Latest(signals, ArtifactBlocked) { case Some(BlockedValue(paths, _)) => paths == [] case _ => true })
    && Latest(signals, ArtifactUnterminated).None? && Latest(signals, ArtifactTruncated).None?
  }

  lemma {:induction false} LatestKind(signals: Signals, kind: Kind)
    requires Filed(signals) && Latest(signals, kind).Some?
    ensures exists s: Signal :: s.value == Latest(signals, kind).value && KindOf(s) == kind
  {
    var s := signals[kind][|signals[kind]| - 1];
    assert KindOf(s) == kind;
  }

  lemma {:induction false} ExcusedIsNotApplicable(ts: TaskStore, policy: Option<Policy>, slot: Slot)
    requires Kept(ts)
    ensures Latest(ts.signals, KindOfSlot(slot)).None? ==>
              (NotApplicable(ts.signals, policy, slot) <==> Excused(ts.signals, policy, slot))
    ensures Latest(ts.signals, KindOfSlot(slot)).Some? ==> !NotApplicable(ts.signals, policy, slot)
  {
  }

  lemma {:induction false} LintPartClean(ts: TaskStore, policy: Option<Policy>)
    requires Kept(ts)
    ensures var p := ReduceParts(ts.signals, policy).lint;
      && (LintClean(ts.signals, policy) <==> p.status != Erroneous && p.errors <= 0 && p.warnings <= 0)
      && (LintFaulty(ts.signals, policy) <==> p.status == Erroneous || p.errors > 0)
  {
    ExcusedIsNotApplicable(ts, policy, Lint);
    if Latest(ts.signals, VerifyLint).Some? { LatestKind(ts.signals, VerifyLint); }
  }

  lemma {:induction false} TypesPartClean(ts: TaskStore, policy: Option<Policy>)
    requires Kept(ts)
    ensures var p := ReduceParts(ts.signals, policy).types;
      && (TypesClean(ts.signals, policy) <==> p.status != Erroneous && p.errors <= 0)
      && (TypesFaulty(ts.signals, policy) <==> p.status == Erroneous || p.errors > 0)
  {
    ExcusedIsNotApplicable(ts, policy, Types);
    if Latest(ts.signals, VerifyTypes).Some? { LatestKind(ts.signals, VerifyTypes); }
  }

  lemma {:induction false} SecurityPartClean(ts: TaskStore, policy: Option<Policy>)
    requires Kept(ts)
    ensures var p := ReduceParts(ts.signals, policy).security;
      && (SecurityClean(ts.signals, policy) <==> p.status != Erroneous && p.critical <= 0 && p.high <= 0)
      && (SecurityFaulty(ts.signals, policy) <==> p.status == Erroneous || p.critical > 0)
  {
    ExcusedIsNotApplicable(ts, policy, Security);
    if Latest(ts.signals, VerifySecurity).Some? { LatestKind(ts.signals, VerifySecurity); }
  }

  lemma {:induction false} GraphPartClean(ts: TaskStore, policy: Option<Policy>)
    requires Kept(ts)
    ensures var p := ReduceParts(ts.signals, policy).graph;
      && (GraphClean(ts.signals, policy) <==>
            p.status != Erroneous && (Requires(policy, Graph) || GraphAdvisory(policy) ==> p.brokenEdges <= 0))
      && (GraphFaulty(ts.signals, policy) <==>
            p.status == Erroneous || (Requires(policy, Graph) && p.brokenEdges > 0))
  {
    ExcusedIsNotApplicable(ts, policy, Graph);
    if Latest(ts.signals, StateGraph).Some? { LatestKind(ts.signals, StateGraph); }
    GraphValueClean(Latest(ts.signals, StateGraph), NotApplicable(ts.signals, policy, Graph),
                    Requires(policy, Graph) || GraphAdvisory(policy));
    GraphValueClean(Latest(ts.signals, StateGraph), NotApplicable(ts.signals, policy, Graph), Requires(policy, Graph));
  }

  lemma {:induction false} GraphValueClean(v: Option<Value>, nac: bool, judged: bool)
    requires v.Some? ==> v.value.GraphValue? && !nac
    ensures var p := ReduceGraph(v, nac);
      p.status != Erroneous && (judged ==> p.brokenEdges <= 0) <==>
      if v.None? then nac
      else Ran(v.value.status) && (v.value.status == Some(Skipped) || v.value.brokenEdges <= 0 || !judged)
  {
  }

  lemma {:induction false} NoEnforcementIffIntact(ts: TaskStore)
    requires Kept(ts)
    ensures EnforcementOf(ts.signals).None? <==> OutputIntact(ts.signals)
  {
    if Latest(ts.signals, ArtifactUnterminated).Some? { LatestKind(ts.signals, ArtifactUnterminated); }
    if Latest(ts.signals, ArtifactTruncated).Some? { LatestKind(ts.signals, ArtifactTruncated); }
  }

  /** "Pass" in terms of the stored signals alone: all four verifiers are clean or excused, the output is intact
      and every required slot, imports included, has reported. */
  lemma {:induction false} PassIffSignalsClean(ts: TaskStore, taskId: string, turn: int, policy: Option<Policy>,
                                               hash: Option<string>)
    requires Kept(ts)
    ensures Reduce(ts, taskId, turn, policy, hash).overall == Pass <==> Clean(ts.signals, policy)
  {
    PassIff(ts, taskId, turn, policy, hash);
    LintPartClean(ts, policy);
    TypesPartClean(ts, policy);
    SecurityPartClean(ts, policy);
    GraphPartClean(ts, policy);
    NoEnforcementIffIntact(ts);
  }

  lemma {:induction false} JudgeFails(policy: Option<Policy>, parts: Parts, e: Option<Enforcement>,
                                      result: Option<PolicyResult>)
    ensures Judge(policy, parts, e, result) == Fail <==>
      || (result.Some? && !(|result.value.missingRequired| == 0 && |result.value.skippedRequired| == 0))
      || parts.lint.status == Erroneous || parts.lint.errors > 0
      || parts.types.status == Erroneous || parts.types.errors > 0
      || parts.security.status == Erroneous || parts.security.critical > 0
      || parts.graph.status == Erroneous || (Requires(policy, Graph) && parts.graph.brokenEdges > 0)
      || e.Some?
  {
  }

  /** "Fail" in terms of the stored signals alone; what neither passes nor fails is a warning. */
  lemma {:induction false} FailIffSignalsFaulty(ts: TaskStore, taskId: string, turn: int, policy: Option<Policy>,
                                                hash: Option<string>)
    requires Kept(ts)
    ensures Reduce(ts, taskId, turn, policy, hash).overall == Fail <==> Faulty(ts.signals, policy)
  {
    JudgeFails(policy, ReduceParts(ts.signals, policy), EnforcementOf(ts.signals), CheckPolicy(ts.signals, policy));
    if policy.Some? { NoneMissing(ts.signals, policy.value.required); }
    LintPartClean(ts, policy);
    TypesPartClean(ts, policy);
    SecurityPartClean(ts, policy);
    GraphPartClean(ts, policy);
    NoEnforcementIffIntact(ts);
  }

  // ---------------------------------------------------------------- what a packet reports

  /** The kinds delivered for a task since its reset, in the order of their first delivery. */
  function FirstDeliveries(ops: seq<Op>, task: string): seq<Kind> {
    if ops == [] then [] else
    var front, op := FirstDeliveries(ops[..|ops| - 1], task), ops[|ops| - 1];
    if op.task != task then front
    else if op.Reset? then []
    else if KindOf(op.signal) in front then front
    else front + [KindOf(op.signal)]
  }

  lemma {:induction false} OrderStep(store: Store, op: Op, task: string)
    requires Kept(Of(store, task))
    ensures var order := Of(store, task).order;
      Of(Apply(store, op), task).order ==
      if op.task != task then order
      else if op.Reset? then []
      else if KindOf(op.signal) in order then order
      else order + [KindOf(op.signal)]
  {
  }

  /** Contributions are listed by kind, in the order in which the kinds were first delivered. */
  lemma {:induction false} OrderIsFirstDelivery(ops: seq<Op>, task: string)
    ensures Of(Run(ops), task).order == FirstDeliveries(ops, task)
  {
    if ops != [] {
      var front := ops[..|ops| - 1];
      OrderIsFirstDelivery(front, task);
      StoredIsDelivered(front, task);
      OrderStep(Run(front), ops[|ops| - 1], task);
    }
  }

  /** What counts of a kind is the signal delivered last since the task's reset. */
  lemma {:induction false} LatestIsLastDelivered(ops: seq<Op>, task: string, kind: Kind)
    ensures var delivered := Delivered(ops, task, kind);
      Latest(Of(Run(ops), task).signals, kind) ==
      if delivered == [] then None else Some(delivered[|delivered| - 1].value)
  {
    StoredIsDelivered(ops, task);
    assert All(Of(Run(ops), task).signals, kind) == Delivered(ops, task, kind);
  }

  /** A status, or an error where none was given. */
  function Told(status: Option<Status>): Status {
    if status.Some? then status.value else Erroneous
  }

  // The figures of a part are those of the latest signal; a silent verifier is skipped if excused, else in error.

  ghost predicate LintTold(v: Option<Value>, excused: bool, part: LintPart) {
    match v
    case Some(LintValue(s, e, errors, warnings, suppressed)) =>
      part == LintPart(errors, warnings, if suppressed.Some? then suppressed.value else 0, Told(s), e)
    case _ => part == if excused then LintPart(0, 0, 0, Skipped, None) else LintPart(1, 0, 0, Erroneous, None)
  }

  ghost predicate TypesTold(v: Option<Value>, excused: bool, part: TypesPart) {
    match v
    case Some(TypesValue(s, e, errors)) =>
      part == TypesPart(errors, Told(s), e)
    case _ => part == if excused then TypesPart(0, Skipped, None) else TypesPart(1, Erroneous, None)
  }

  ghost predicate SecurityTold(v: Option<Value>, excused: bool, part: SecurityPart) {
    match v
    case Some(SecurityValue(s, e, findings, critical, high)) =>
      part == SecurityPart(findings, critical, high, Told(s), e)
    case _ => part == if excused then SecurityPart(0, 0, 0, Skipped, None) else SecurityPart(1, 0, 1, Erroneous, None)
  }

  ghost predicate ImportsTold(v: Option<Value>, excused: bool, part: ImportsPart) {
    match v
    case Some(ImportsValue(s, e, findings, warnings, info)) =>
      part == ImportsPart(findings, warnings, info, Told(s), e)
    case _ => part == if excused then ImportsPart(0, 0, 0, Skipped, None) else ImportsPart(0, 0, 0, Erroneous, None)
  }

  ghost predicate GraphTold(v: Option<Value>, excused: bool, part: GraphPart) {
    match v
    case Some(GraphValue(s, e, edges, newEdges, broken, cycles)) =>
      part == GraphPart(edges, newEdges, if s == Some(Skipped) then 0 else broken, cycles, Told(s), e)
    case _ => part == if excused then GraphPart(0, 0, 0, 0, Skipped, None) else GraphPart(0, 0, 1, 0, Erroneous, None)
  }

  ghost predicate ChangesTold(v: Option<Value>, part: ChangesPart) {
    match v
    case Some(ChangesValue(n, paths, insertions, deletions)) => part == ChangesPart(n, paths, insertions, deletions)
    case _ => part == ChangesPart(0, [], 0, 0)
  }

  lemma {:induction false} LintReported(ts: TaskStore, policy: Option<Policy>)
    requires Kept(ts)
    ensures LintTold(Latest(ts.signals, VerifyLint), Excused(ts.signals, policy, Lint),
                     ReduceParts(ts.signals, policy).lint)
  {
    ExcusedIsNotApplicable(ts, policy, Lint);
    LintFromSignal(Latest(ts.signals, VerifyLint), NotApplicable(ts.signals, policy, Lint));
  }

  lemma {:induction false} LintFromSignal(v: Option<Value>, nac: bool)
    requires v.Some? ==> !nac
    ensures LintTold(v, nac, ReduceLint(v, nac))
  {
  }

  lemma {:induction false} TypesReported(ts: TaskStore, policy: Option<Policy>)
    requires Kept(ts)
    ensures TypesTold(Latest(ts.signals, VerifyTypes), Excused(ts.signals, policy, Types),
                      ReduceParts(ts.signals, policy).types)
  {
    ExcusedIsNotApplicable(ts, policy, Types);
    TypesFromSignal(Latest(ts.signals, VerifyTypes), NotApplicable(ts.signals, policy, Types));
  }

  lemma {:induction false} TypesFromSignal(v: Option<Value>, nac: bool)
    requires v.Some? ==> !nac
    ensures TypesTold(v, nac, ReduceTypes(v, nac))
  {
  }

  lemma {:induction false} SecurityReported(ts: TaskStore, policy: Option<Policy>)
    requires Kept(ts)
    ensures SecurityTold(Latest(ts.signals, VerifySecurity), Excused(ts.signals, policy, Security),
                         ReduceParts(ts.signals, policy).security)
  {
    ExcusedIsNotApplicable(ts, policy, Security);
    SecurityFromSignal(Latest(ts.signals, VerifySecurity), NotApplicable(ts.signals, policy, Security));
  }

  lemma {:induction false} SecurityFromSignal(v: Option<Value>, nac: bool)
    requires v.Some? ==> !nac
    ensures SecurityTold(v, nac, ReduceSecurity(v, nac))
  {
  }

  lemma {:induction false} ImportsReported(ts: TaskStore, policy: Option<Policy>)
    requires Kept(ts)
    ensures ImportsTold(Latest(ts.signals, VerifyImports), Excused(ts.signals, policy, Imports),
                        ReduceParts(ts.signals, policy).imports)
  {
    ExcusedIsNotApplicable(ts, policy, Imports);
    ImportsFromSignal(Latest(ts.signals, VerifyImports), NotApplicable(ts.signals, policy, Imports));
  }

  lemma {:induction false} ImportsFromSignal(v: Option<Value>, nac: bool)
    requires v.Some? ==> !nac
    ensures ImportsTold(v, nac, ReduceImports(v, nac))
  {
  }

  lemma {:induction false} GraphReported(ts: TaskStore, policy: Option<Policy>)
    requires Kept(ts)
    ensures GraphTold(Latest(ts.signals, StateGraph), Excused(ts.signals, policy, Graph),
                      ReduceParts(ts.signals, policy).graph)
  {
    ExcusedIsNotApplicable(ts, policy, Graph);
    GraphFromSignal(Latest(ts.signals, StateGraph), NotApplicable(ts.signals, policy, Graph));
  }

  lemma {:induction false} GraphFromSignal(v: Option<Value>, nac: bool)
    requires v.Some? ==> !nac
    ensures GraphTold(v, nac, ReduceGraph(v, nac))
  {
  }

  /** The blocked paths, and the notes about output that was left open or cut, of the latest signals. */
  ghost predicate EnforcementTold(signals: Signals, e: Enforcement) {
    && (match Latest(signals, ArtifactBlocked)
        case Some(BlockedValue(paths, warnings)) => e.blockedPaths == paths && e.parseWarnings == warnings
        case _ => e.blockedPaths == [] && e.parseWarnings == [])
    && (match Latest(signals, ArtifactUnterminated)
        case Some(UnterminatedValue(notes)) => e.unterminated == Some(notes)
        case _ => e.unterminated == None)
    && (match Latest(signals, ArtifactTruncated)
        case Some(TruncatedValue(reason, notes)) => e.truncated == Some((reason, notes))
        case _ => e.truncated == None)
  }

  lemma {:induction false} EnforcementReported(ts: TaskStore)
    requires Kept(ts)
    ensures EnforcementOf(ts.signals).None? <==> OutputIntact(ts.signals)
    ensures EnforcementOf(ts.signals).Some? ==> EnforcementTold(ts.signals, EnforcementOf(ts.signals).value)
  {
    NoEnforcementIffIntact(ts);
  }

  /** The figures of the whole packet. */
  lemma {:induction false} PacketReports(ts: TaskStore, taskId: string, turn: int, policy: Option<Policy>,
                                         hash: Option<string>)
    requires Kept(ts)
    ensures var p, signals := Reduce(ts, taskId, turn, policy, hash), ts.signals;
      && p.taskId == taskId && p.turn == turn && p.policyHash == hash
      && LintTold(Latest(signals, VerifyLint), Excused(signals, policy, Lint), p.lint)
      && TypesTold(Latest(signals, VerifyTypes), Excused(signals, policy, Types), p.types)
      && SecurityTold(Latest(signals, VerifySecurity), Excused(signals, policy, Security), p.security)
      && ImportsTold(Latest(signals, VerifyImports), Excused(signals, policy, Imports), p.imports)
      && GraphTold(Latest(signals, StateGraph), Excused(signals, policy, Graph), p.graph)
      && ChangesTold(Latest(signals, StateChanges), p.changes)
      && (p.enforcement.None? <==> OutputIntact(signals))
      && (p.enforcement.Some? ==> EnforcementTold(signals, p.enforcement.value))
      && p.emissions == Emitted(All(signals, ArtifactEmitted))
  {
    EnforcementReported(ts);
    LintReported(ts, policy);
    TypesReported(ts, policy);
    SecurityReported(ts, policy);
    ImportsReported(ts, policy);
    GraphReported(ts, policy);
  }

  /** Missing are the required slots without a signal, skipped those whose latest signal says so. */
  lemma {:induction false} MissingAre(signals: Signals, required: seq<Slot>, slot: Slot)
    ensures slot in Missing(signals, required) <==> slot in required && Latest(signals, KindOfSlot(slot)).None?
    ensures slot in SkippedOf(signals, required) <==>
      slot in required && var v := Latest(signals, KindOfSlot(slot)); v.Some? && StatusOf(v.value) == Some(Skipped)
  {
    if required != [] {
      MissingAre(signals, required[..|required| - 1], slot);
      assert required == required[..|required| - 1] + [required[|required| - 1]];
    }
  }

  /** Every file of every emission, and nothing else. */
  lemma {:induction false} EmittedFilesAre(emitted: seq<Signal>, f: File)
    ensures f in AllFiles(emitted) <==>
      exists i :: 0 <= i < |emitted| && emitted[i].value.EmittedValue? && f in emitted[i].value.files
  {
    if emitted != [] {
      var n := |emitted| - 1;
      EmittedFilesAre(emitted[..n], f);
      assert f in FilesOf(emitted[n]) <==> emitted[n].value.EmittedValue? && f in emitted[n].value.files;
      assert forall i :: 0 <= i < n ==> emitted[..n][i] == emitted[i];
    }
  }

  /** Every signal of a kind contributes under that kind, with its own time and source. */
  lemma {:induction false} TaggedAre(kind: Kind, signals: seq<Signal>)
    ensures |Tagged(kind, signals)| == |signals|
    ensures forall i :: 0 <= i < |signals| ==>
              Tagged(kind, signals)[i] == Contribution(kind, signals[i].timestamp, signals[i].source)
  {
    if signals != [] { TaggedAre(kind, signals[..|signals| - 1]); }
  }

  // ---------------------------------------------------------------- monotonicity in the policy

  /** Required above advisory above absent. */
  function Level(policy: Policy, slot: Slot): nat {
    if slot in policy.required then 2 else if slot in policy.advisory then 1 else 0
  }

  ghost predicate Demotes(p: Policy, q: Policy) {
    forall slot :: Level(q, slot) <= Level(p, slot)
  }

  function Rank(o: Overall): nat {
    match o
    case Fail => 0
    case Warn => 1
    case Pass => 2
  }

  /** Once every required slot has reported, applicability is a matter of the signals alone. */
  lemma {:induction false} ApplicableIffSignalled(signals: Signals, p: Policy, slot: Slot)
    requires AllReported(signals, p.required)
    ensures NotApplicable(signals, Some(p), slot) <==> KindOfSlot(slot) !in signals
  {
    if slot in p.required { assert Reported(signals, slot); }
  }

  lemma {:induction false} PartsIgnorePolicy(signals: Signals, p: Policy, q: Policy)
    requires AllReported(signals, p.required) && AllReported(signals, q.required)
    ensures ReduceParts(signals, Some(p)) == ReduceParts(signals, Some(q))
  {
    forall slot ensures NotApplicable(signals, Some(p), slot) == NotApplicable(signals, Some(q), slot) {
      ApplicableIffSignalled(signals, p, slot);
      ApplicableIffSignalled(signals, q, slot);
    }
  }

  lemma {:induction false} JudgeMonotone(p: Policy, q: Policy, parts: Parts, e: Option<Enforcement>,
                                         rp: Option<PolicyResult>, rq: Option<PolicyResult>)
    requires Level(q, Graph) <= Level(p, Graph)
    requires rq.Some? ==> rq.value.missingRequired == [] && rq.value.skippedRequired == []
    ensures Rank(Judge(Some(p), parts, e, rp)) <= Rank(Judge(Some(q), parts, e, rq))
  {
  }

  lemma {:induction false} JudgeUnreported(signals: Signals, p: Policy, parts: Parts, e: Option<Enforcement>)
    requires !AllReported(signals, p.required)
    ensures Judge(Some(p), parts, e, CheckPolicy(signals, Some(p))) == Fail
  {
    NoneMissing(signals, p.required);
  }

  /** Demoting slots never lowers the overall result. */
  lemma {:induction false} DemotionNeverHurts(ts: TaskStore, taskId: string, turn: int, p: Policy, q: Policy,
                                              hash: Option<string>)
    requires Kept(ts) && Demotes(p, q)
    ensures Rank(Reduce(ts, taskId, turn, Some(p), hash).overall) <=
            Rank(Reduce(ts, taskId, turn, Some(q), hash).overall)
  {
    var signals := ts.signals;
    if AllReported(signals, p.required) {
      forall slot | slot in q.required ensures Reported(signals, slot) {
        assert Level(q, slot) <= Level(p, slot);
      }
      NoneMissing(signals, q.required);
      PartsIgnorePolicy(signals, p, q);
      JudgeMonotone(p, q, ReduceParts(signals, Some(p)), EnforcementOf(signals),
                    CheckPolicy(signals, Some(p)), CheckPolicy(signals, Some(q)));
    } else {
      JudgeUnreported(signals, p, ReduceParts(signals, Some(p)), EnforcementOf(signals));
    }
  }

  // ---------------------------------------------------------------- the class

  /** The nested loop that gathers every emitted file and the byte total. */
  method CollectEmissions(emitted: seq<Signal>) returns (emissions: Option<Emissions>)
    ensures emissions == Emitted(emitted)
  {
    if emitted == [] { return None; }
    var allFiles: seq<File> := [];
    var totalBytes := 0;
    for i := 0 to |emitted|
      invariant allFiles == AllFiles(emitted[..i]) && totalBytes == SumBytes(allFiles)
    {
      assert emitted[..i + 1][..i] == emitted[..i];
      ghost var before := allFiles;
      var files := FilesOf(emitted[i]);
      for j := 0 to |files|
        invariant allFiles == before + files[..j] && totalBytes == SumBytes(allFiles)
      {
        assert (allFiles + [files[j]])[..|allFiles|] == allFiles;
        allFiles := allFiles + [files[j]];
        totalBytes := totalBytes + files[j].bytes;
      }
    }
    assert emitted[..|emitted|] == emitted;
    return Some(Emissions(totalBytes, allFiles));
  }

  /** The loop over the required slots. */
  method ClassifyRequired(signals: Signals, required: seq<Slot>) returns (missing: seq<Slot>, skipped: seq<Slot>)
    ensures missing == Missing(signals, required) && skipped == SkippedOf(signals, required)
  {
    missing, skipped := [], [];
    for i := 0 to |required|
      invariant missing == Missing(signals, required[..i]) && skipped == SkippedOf(signals, required[..i])
    {
      assert required[..i + 1][..i] == required[..i];
      var signal := Latest(signals, KindOfSlot(required[i]));
      if signal.None? {
        missing := missing + [required[i]];
      } else if StatusOf(signal.value) == Some(Skipped) {
        skipped := skipped + [required[i]];
      }
    }
    assert required[..|required|] == required;
  }

  /** The signals of one kind. */
  method TagSignals(kind: Kind, signals: seq<Signal>) returns (tagged: seq<Contribution>)
    ensures tagged == Tagged(kind, signals)
  {
    tagged := [];
    for j := 0 to |signals|
      invariant tagged == Tagged(kind, signals[..j])
    {
      assert signals[..j + 1][..j] == signals[..j];
      tagged := tagged + [Contribution(kind, signals[j].timestamp, signals[j].source)];
    }
    assert signals[..|signals|] == signals;
  }

  /** The nested loop over kinds and signals. */
  method ListContributions(ts: TaskStore) returns (contributing: seq<Contribution>)
    requires Kept(ts)
    ensures contributing == Contributing(ts.order, ts.signals)
  {
    contributing := [];
    for i := 0 to |ts.order|
      invariant contributing == Contributing(ts.order[..i], ts.signals)
    {
      var kind := ts.order[i];
      assert kind in ts.order && ts.order[..i + 1][..i] == ts.order[..i];
      var tagged := TagSignals(kind, ts.signals[kind]);
      contributing := contributing + tagged;
    }
    assert ts.order[..|ts.order|] == ts.order;
  }

  /** The kind's list is extended; a new kind is also listed. */
  method PushSignal(ts: TaskStore, signal: Signal) returns (pushed: TaskStore)
    requires Kept(ts)
    ensures pushed == Push(ts, signal) && Kept(pushed)
  {
    var kind := KindOf(signal);
    var arr := if kind in ts.signals then ts.signals[kind] else [];
    var order := if kind in ts.signals then ts.order else ts.order + [kind];
    pushed := TaskStore(order, ts.signals[kind := arr + [signal]]);
    PushKept(ts, signal);
  }

  class StateReducer {
    var perTask: Store

    ghost predicate Valid()
      reads this
    {
      forall task :: task in perTask ==> Kept(perTask[task])
    }

    constructor ()
      ensures Valid() && perTask == Run([])
    {
      perTask := map[];
    }

    method Store(task: string, signal: Signal)
      requires Valid()
      modifies this
      ensures Valid() && perTask == Apply(old(perTask), Deliver(task, signal))
    {
      var ts := if task in perTask then perTask[task] else NO_SIGNALS;
      var pushed := PushSignal(ts, signal);
      perTask := perTask[task := pushed];
    }

    method ResetTask(task: string)
      requires Valid()
      modifies this
      ensures Valid() && perTask == Apply(old(perTask), Reset(task))
    {
      perTask := perTask - {task};
    }

    method Reduce(taskId: string, turn: int, policy: Option<Policy>, policyHash: Option<string>)
      returns (packet: Packet)
      requires Valid()
      ensures Kept(Of(perTask, taskId))
      ensures packet == Reducer.Reduce(Of(perTask, taskId), taskId, turn, policy, policyHash)
    {
      var ts := if taskId in perTask then perTask[taskId] else NO_SIGNALS;
      var signals := ts.signals;
      var parts := ReduceParts(signals, policy);
      var enforcement := EnforcementOf(signals);
      var emissions := CollectEmissions(All(signals, ArtifactEmitted));
      var contributing := ListContributions(ts);
      var result: Option<PolicyResult> := None;
      if policy.Some? {
        var missing, skipped := ClassifyRequired(signals, policy.value.required);
        result := Some(PolicyResult(policy.value.required, policy.value.advisory, missing, skipped));
      }
      packet := Packet(taskId, turn, ReduceChanges(Latest(signals, StateChanges)), parts.graph, parts.lint, parts.types,
                       parts.security, parts.imports, Judge(policy, parts, enforcement, result), enforcement,
                       emissions, result, contributing, policyHash);
    }
  }
}

/** The `StateReducer` of packages/orchestrator/src/reducer.ts: delivered signals are stored per task and kind,
    and reduced to one packet.  The packet's own timestamp is left out. */
module Reducer {
  import opened Wrappers
  import opened Digraph

  datatype Kind =
    | VerifyLint | VerifyTypes | VerifySecurity | VerifyImports | StateChanges | StateGraph
    | ArtifactBlocked | ArtifactUnterminated | ArtifactTruncated | ArtifactEmitted

  datatype Status = Passing | Failing | Erroneous | Skipped

  datatype Slot = Lint | Types | Security | Graph | Imports

  datatype File = File(path: string, sha256: string, bytes: int, beforeHash: Option<string>, existed: bool)

  datatype Value =
    | LintValue(status: Option<Status>, error: Option<string>, errors: int, warnings: int, suppressed: Option<int>)
    | TypesValue(status: Option<Status>, error: Option<string>, errors: int)
    | SecurityValue(status: Option<Status>, error: Option<string>, findings: int, critical: int, high: int)
    | ImportsValue(status: Option<Status>, error: Option<string>, findings: int, warnings: int, info: int)
    | ChangesValue(filesChanged: int, paths: seq<string>, insertions: int, deletions: int)
    | GraphValue(status: Option<Status>, error: Option<string>, edgeCount: int, newEdges: int, brokenEdges: int,
                 cycles: int)
    | BlockedValue(blockedPaths: seq<string>, parseWarnings: seq<string>)
    | UnterminatedValue(notes: seq<string>)
    | TruncatedValue(finishReason: string, notes: seq<string>)
    | EmittedValue(files: seq<File>)

  datatype Signal = Signal(value: Value, timestamp: string, source: Option<string>)

  function KindOf(s: Signal): Kind {
    match s.value
    case LintValue(_, _, _, _, _) => VerifyLint
    case TypesValue(_, _, _) => VerifyTypes
    case SecurityValue(_, _, _, _, _) => VerifySecurity
    case ImportsValue(_, _, _, _, _) => VerifyImports
    case ChangesValue(_, _, _, _) => StateChanges
    case GraphValue(_, _, _, _, _, _) => StateGraph
    case BlockedValue(_, _) => ArtifactBlocked
    case UnterminatedValue(_) => ArtifactUnterminated
    case TruncatedValue(_, _) => ArtifactTruncated
    case EmittedValue(_) => ArtifactEmitted
  }

  type Signals = map<Kind, seq<Signal>>

  /** The signals of one task by kind; `order` is the insertion order of the kinds. */
  datatype TaskStore = TaskStore(order: seq<Kind>, signals: Signals)

  type Store = map<string, TaskStore>

  const NO_SIGNALS := TaskStore([], map[])

  function Of(store: Store, task: string): TaskStore {
    if task in store then store[task] else NO_SIGNALS
  }

  function All(signals: Signals, kind: Kind): seq<Signal> {
    if kind in signals then signals[kind] else []
  }

  /** `_store` for one task. */
  function Push(ts: TaskStore, s: Signal): TaskStore {
    var kind := KindOf(s);
    TaskStore(if kind in ts.signals then ts.order else ts.order + [kind],
              ts.signals[kind := All(ts.signals, kind) + [s]])
  }

  // ---------------------------------------------------------------- delivered histories

  datatype Op = Deliver(task: string, signal: Signal) | Reset(task: string)

  function Apply(store: Store, op: Op): Store {
    match op
    case Deliver(task, s) => store[task := Push(Of(store, task), s)]
    case Reset(task) => store - {task}
  }

  function Run(ops: seq<Op>): Store {
    if ops == [] then map[] else Apply(Run(ops[..|ops| - 1]), ops[|ops| - 1])
  }

  /** What was delivered of one kind for one task since its last reset, in order of delivery. */
  function Delivered(ops: seq<Op>, task: string, kind: Kind): seq<Signal> {
    if ops == [] then [] else
    var front, op := Delivered(ops[..|ops| - 1], task, kind), ops[|ops| - 1];
    if op.task != task then front
    else if op.Reset? then []
    else if KindOf(op.signal) == kind then front + [op.signal]
    else front
  }

  /** Signals are filed under their own kind. */
  ghost predicate Filed(signals: Signals) {
    forall k, i :: k in signals && 0 <= i < |signals[k]| ==> KindOf(signals[k][i]) == k
  }

  /** A task's store is well kept: its kinds are listed once each, exactly those with signals. */
  ghost predicate Kept(ts: TaskStore) {
    && NoDup(ts.order)
    && (forall k :: k in ts.order <==> k in ts.signals)
    && (forall k :: k in ts.signals ==> ts.signals[k] != [])
    && Filed(ts.signals)
  }

  /** The stores that a reducer can hold. */
  type KeptStore = ts: TaskStore | Kept(ts) witness NO_SIGNALS

  lemma {:induction false} PushKept(ts: TaskStore, s: Signal)
    requires Kept(ts)
    ensures Kept(Push(ts, s))
    ensures forall k :: All(Push(ts, s).signals, k) == All(ts.signals, k) + if KindOf(s) == k then [s] else []
  {
  }

  lemma {:induction false} StoredIsDelivered(ops: seq<Op>, task: string)
    ensures Kept(Of(Run(ops), task))
    ensures forall k :: All(Of(Run(ops), task).signals, k) == Delivered(ops, task, k)
  {
    if ops != [] {
      var front, op := ops[..|ops| - 1], ops[|ops| - 1];
      StoredIsDelivered(front, task);
      StepStored(Run(front), op, task);
    }
  }

  lemma {:induction false} StepStored(store: Store, op: Op, task: string)
    requires Kept(Of(store, task))
    ensures var ts, ts' := Of(store, task), Of(Apply(store, op), task);
      && Kept(ts')
      && (op.task != task ==> ts' == ts)
      && (op.task == task && op.Reset? ==> forall k :: All(ts'.signals, k) == [])
      && (op.task == task && op.Deliver? ==>
            forall k :: All(ts'.signals, k) == All(ts.signals, k) + if KindOf(op.signal) == k then [op.signal] else [])
  {
    if op.Deliver? && op.task == task { PushKept(Of(store, task), op.signal); }
  }

  // ---------------------------------------------------------------- the packet

  datatype Policy = Policy(required: seq<Slot>, advisory: seq<Slot>)

  datatype PolicyResult = PolicyResult(
    required: seq<Slot>, advisory: seq<Slot>, missingRequired: seq<Slot>, skippedRequired: seq<Slot>)

  datatype Overall = Fail | Warn | Pass

  datatype LintPart = LintPart(errors: int, warnings: int, suppressed: int, status: Status, error: Option<string>)
  datatype TypesPart = TypesPart(errors: int, status: Status, error: Option<string>)
  datatype SecurityPart = SecurityPart(findings: int, critical: int, high: int, status: Status, error: Option<string>)
  datatype ImportsPart = ImportsPart(findings: int, warnings: int, info: int, status: Status, error: Option<string>)
  datatype ChangesPart = ChangesPart(filesChanged: int, paths: seq<string>, insertions: int, deletions: int)
  datatype GraphPart = GraphPart(
    edgeCount: int, newEdges: int, brokenEdges: int, cycles: int, status: Status, error: Option<string>)

  datatype Enforcement = Enforcement(
    blockedPaths: seq<string>, parseWarnings: seq<string>, unterminated: Option<seq<string>>,
    truncated: Option<(string, seq<string>)>)

  datatype Emissions = Emissions(totalBytes: int, files: seq<File>)

  datatype Contribution = Contribution(kind: Kind, ts: string, source: Option<string>)

  datatype Packet = Packet(
    taskId: string, turn: int, changes: ChangesPart, graph: GraphPart, lint: LintPart, types: TypesPart,
    security: SecurityPart, imports: ImportsPart, overall: Overall, enforcement: Option<Enforcement>,
    emissions: Option<Emissions>, policy: Option<PolicyResult>, contributing: seq<Contribution>,
    policyHash: Option<string>)

  function KindOfSlot(slot: Slot): Kind {
    match slot
    case Lint => VerifyLint
    case Types => VerifyTypes
    case Security => VerifySecurity
    case Graph => StateGraph
    case Imports => VerifyImports
  }

  /** The latest signal of a kind. */
  function Latest(signals: Signals, kind: Kind): Option<Value> {
    var all := All(signals, kind);
    if all == [] then None else Some(all[|all| - 1].value)
  }

  /** Some slot status: the latest signal's, if it has one. */
  function StatusOf(v: Value): Option<Status> {
    match v
    case LintValue(s, _, _, _, _) => s
    case TypesValue(s, _, _) => s
    case SecurityValue(s, _, _, _, _) => s
    case ImportsValue(s, _, _, _, _) => s
    case GraphValue(s, _, _, _, _, _) => s
    case ChangesValue(_, _, _, _) => None
    case BlockedValue(_, _) => None
    case UnterminatedValue(_) => None
    case TruncatedValue(_, _) => None
    case EmittedValue(_) => None
  }

  /** No signal is expected: the slot is not in the policy, or only advises. */
  predicate NotApplicable(signals: Signals, policy: Option<Policy>, slot: Slot) {
    && policy.Some? && KindOfSlot(slot) !in signals
    && ((slot !in policy.value.required && slot !in policy.value.advisory) || slot in policy.value.advisory)
  }

  function StatusOr(status: Option<Status>, nac: bool): Status {
    if status.Some? then status.value else if nac then Skipped else Erroneous
  }

  function ReduceLint(v: Option<Value>, nac: bool): LintPart {
    match v
    case Some(LintValue(s, e, errors, warnings, suppressed)) =>
      LintPart(errors, warnings, if suppressed.Some? then suppressed.value else 0, StatusOr(s, nac), e)
    case _ => LintPart(if nac then 0 else 1, 0, 0, StatusOr(None, nac), None)
  }

  function ReduceTypes(v: Option<Value>, nac: bool): TypesPart {
    match v
    case Some(TypesValue(s, e, errors)) => TypesPart(errors, StatusOr(s, nac), e)
    case _ => TypesPart(if nac then 0 else 1, StatusOr(None, nac), None)
  }

  function ReduceSecurity(v: Option<Value>, nac: bool): SecurityPart {
    match v
    case Some(SecurityValue(s, e, findings, critical, high)) =>
      SecurityPart(findings, critical, high, StatusOr(s, nac), e)
    case _ => SecurityPart(if nac then 0 else 1, 0, if nac then 0 else 1, StatusOr(None, nac), None)
  }

  function ReduceImports(v: Option<Value>, nac: bool): ImportsPart {
    match v
    case Some(ImportsValue(s, e, findings, warnings, info)) =>
      ImportsPart(findings, warnings, info, StatusOr(s, nac), e)
    case _ => ImportsPart(0, 0, 0, StatusOr(None, nac), None)
  }

  function ReduceGraph(v: Option<Value>, nac: bool): GraphPart {
    match v
    case Some(GraphValue(s, e, edgeCount, newEdges, brokenEdges, cycles)) =>
      GraphPart(edgeCount, newEdges, if s == Some(Skipped) || nac then 0 else brokenEdges, cycles, StatusOr(s, nac), e)
    case _ => GraphPart(0, 0, if nac then 0 else 1, 0, StatusOr(None, nac), None)
  }

  function ReduceChanges(v: Option<Value>): ChangesPart {
    match v
    case Some(ChangesValue(filesChanged, paths, insertions, deletions)) =>
      ChangesPart(filesChanged, paths, insertions, deletions)
    case _ => ChangesPart(0, [], 0, 0)
  }

  /** Present when paths were blocked or the output was cut or left open. */
  function Enforce(blocked: Option<Value>, unterminated: Option<Value>, truncated: Option<Value>): Option<Enforcement> {
    var (paths, warnings) := match blocked { case Some(BlockedValue(p, w)) => (p, w) case _ => ([], []) };
    var open := match unterminated { case Some(UnterminatedValue(w)) => Some(w) case _ => None };
    var cut := match truncated { case Some(TruncatedValue(reason, w)) => Some((reason, w)) case _ => None };
    if |paths| > 0 || open.Some? || cut.Some? then Some(Enforcement(paths, warnings, open, cut)) else None
  }

  function FilesOf(s: Signal): seq<File> {
    match s.value
    case EmittedValue(files) => files
    case _ => []
  }

  function AllFiles(emitted: seq<Signal>): seq<File> {
    if emitted == [] then [] else AllFiles(emitted[..|emitted| - 1]) + FilesOf(emitted[|emitted| - 1])
  }

  function SumBytes(files: seq<File>): int {
    if files == [] then 0 else SumBytes(files[..|files| - 1]) + files[|files| - 1].bytes
  }

  function Emitted(emitted: seq<Signal>): Option<Emissions> {
    if emitted == [] then None else Some(Emissions(SumBytes(AllFiles(emitted)), AllFiles(emitted)))
  }

  function Missing(signals: Signals, required: seq<Slot>): seq<Slot> {
    if required == [] then [] else
    var front, slot := Missing(signals, required[..|required| - 1]), required[|required| - 1];
    if Latest(signals, KindOfSlot(slot)).None? then front + [slot] else front
  }

  function SkippedOf(signals: Signals, required: seq<Slot>): seq<Slot> {
    if required == [] then [] else
    var front, slot := SkippedOf(signals, required[..|required| - 1]), required[|required| - 1];
    var v := Latest(signals, KindOfSlot(slot));
    if v.Some? && StatusOf(v.value) == Some(Skipped) then front + [slot] else front
  }

  function CheckPolicy(signals: Signals, policy: Option<Policy>): Option<PolicyResult> {
    if policy.None? then None else
    Some(PolicyResult(policy.value.required, policy.value.advisory,
                      Missing(signals, policy.value.required), SkippedOf(signals, policy.value.required)))
  }

  /** Without a policy every slot is required. */
  predicate Requires(policy: Option<Policy>, slot: Slot) {
    policy.None? || slot in policy.value.required
  }

  predicate GraphAdvisory(policy: Option<Policy>) {
    policy.Some? && Graph !in policy.value.required && Graph in policy.value.advisory
  }

  /** The verdict: any hard problem fails, any soft one warns, and a required slot that is missing or skipped fails. */
  function Judge(policy: Option<Policy>, parts: Parts, enforcement: Option<Enforcement>,
                 result: Option<PolicyResult>): Overall {
    var Parts(lint, types, security, _, graph) := parts;
    var verifierError := lint.status == Erroneous || types.status == Erroneous || security.status == Erroneous
                         || graph.status == Erroneous;
    var first :=
      if verifierError || types.errors > 0 || lint.errors > 0 || security.critical > 0
         || (Requires(policy, Graph) && graph.brokenEdges > 0) || enforcement.Some? then Fail
      else if lint.warnings > 0 || security.high > 0 || (GraphAdvisory(policy) && graph.brokenEdges > 0) then Warn
      else Pass;
    if result.Some? && (|result.value.missingRequired| > 0 || |result.value.skippedRequired| > 0) then Fail else first
  }

  function Tagged(kind: Kind, signals: seq<Signal>): seq<Contribution> {
    if signals == [] then [] else
    var s := signals[|signals| - 1];
    Tagged(kind, signals[..|signals| - 1]) + [Contribution(kind, s.timestamp, s.source)]
  }

  function Contributing(order: seq<Kind>, signals: Signals): seq<Contribution>
    requires forall k :: k in order ==> k in signals
  {
    if order == [] then [] else
    var k := order[|order| - 1];
    assert k in order;
    Contributing(order[..|order| - 1], signals) + Tagged(k, signals[k])
  }

  datatype Parts = Parts(
    lint: LintPart, types: TypesPart, security: SecurityPart, imports: ImportsPart, graph: GraphPart)

  function ReduceParts(signals: Signals, policy: Option<Policy>): Parts {
    Parts(ReduceLint(Latest(signals, VerifyLint), NotApplicable(signals, policy, Lint)),
          ReduceTypes(Latest(signals, VerifyTypes), NotApplicable(signals, policy, Types)),
          ReduceSecurity(Latest(signals, VerifySecurity), NotApplicable(signals, policy, Security)),
          ReduceImports(Latest(signals, VerifyImports), NotApplicable(signals, policy, Imports)),
          ReduceGraph(Latest(signals, StateGraph), NotApplicable(signals, policy, Graph)))
  }

  function EnforcementOf(signals: Signals): Option<Enforcement> {
    Enforce(Latest(signals, ArtifactBlocked), Latest(signals, ArtifactUnterminated), Latest(signals, ArtifactTruncated))
  }

  /** The packet of a set of signals, its contributing signals being listed in `contributing`. */
  function Assemble(signals: Signals, contributing: seq<Contribution>, taskId: string, turn: int,
                    policy: Option<Policy>, policyHash: Option<string>): Packet {
    var parts, enforcement, result :=
      ReduceParts(signals, policy), EnforcementOf(signals), CheckPolicy(signals, policy);
    Packet(taskId, turn, ReduceChanges(Latest(signals, StateChanges)), parts.graph, parts.lint, parts.types,
           parts.security, parts.imports, Judge(policy, parts, enforcement, result), enforcement,
           Emitted(All(signals, ArtifactEmitted)), result, contributing, policyHash)
  }

  /** `reduce` for one task. */
  function Reduce(ts: TaskStore, taskId: string, turn: int, policy: Option<Policy>, policyHash: Option<string>): Packet
    requires forall k :: k in ts.order ==> k in ts.signals
  {
    Assemble(ts.signals, Contributing(ts.order, ts.signals), taskId, turn, policy, policyHash)
  }
}

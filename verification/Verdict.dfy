/** Deciding about one turn (packages/orchestrator/src/correction-loop.ts) and about a whole run
    (packages/orchestrator/src/truth-model.ts), and the packet override of
    packages/orchestrator/src/orchestrator-finalize.ts.  Rationale texts are left out. */
module Verdict {
  import opened Wrappers
  import opened Reducer
  import opened ReducerProperties

  datatype Action = Accept | Correct | Escalate

  datatype Validation = ValidationPass | ValidationFail | ValidationError | ValidationSkipped

  datatype FinalVerdict = VerdictPass | VerdictFail | VerdictUnknown

  datatype Source = TaskValidator | Verifier

  const SCHEMA_CONTRACT := "schema-contract"
  const ARTIFACT := "artifact"

  /** The policy a packet was reduced under, as the packet records it. */
  function RecordedPolicy(p: Packet): Option<Policy> {
    if p.policy.None? then None else Some(Policy(p.policy.value.required, p.policy.value.advisory))
  }

  /** A zero or missing budget is no budget. */
  predicate OverBudget(cost: real, maxCost: Option<real>) {
    maxCost.Some? && maxCost.value != 0.0 && cost >= maxCost.value
  }

  function Decide(p: Packet, count: int, maxCorrections: int, cost: real, maxCost: Option<real>,
                  taskPass: Option<bool>): Action {
    if taskPass.Some? && taskPass.value then Accept
    else if taskPass.Some? then
      if count >= maxCorrections || OverBudget(cost, maxCost) then Escalate else Correct
    else if p.security.critical > 0 && Requires(RecordedPolicy(p), Security) then Escalate
    else if p.graph.brokenEdges > 0 && Requires(RecordedPolicy(p), Graph) then Escalate
    else if count >= maxCorrections then Escalate
    else if OverBudget(cost, maxCost) then Escalate
    else if p.overall == Pass then Accept
    else Correct
  }

  /** A finding that correction cannot be trusted to repair. */
  predicate HardObjection(p: Packet) {
    || (p.security.critical > 0 && Requires(RecordedPolicy(p), Security))
    || (p.graph.brokenEdges > 0 && Requires(RecordedPolicy(p), Graph))
  }

  /** The decision table read backwards: acceptance is the validator's (or caller's) word, or an unobjectionable pass
      before the turn limit and within the budget; another turn is ordered exactly for a refused or merely imperfect
      result, before the limit and within the budget. */
  lemma {:induction false} DecideMeans(p: Packet, count: int, maxCorrections: int, cost: real, maxCost: Option<real>,
                                       taskPass: Option<bool>)
    ensures var action, room := Decide(p, count, maxCorrections, cost, maxCost, taskPass),
                                count < maxCorrections && !OverBudget(cost, maxCost);
      && (action == Accept <==>
            taskPass == Some(true) || (taskPass == None && !HardObjection(p) && room && p.overall == Pass))
      && (action == Correct <==>
            room && (taskPass == Some(false) || (taskPass == None && !HardObjection(p) && p.overall != Pass)))
  {
    if taskPass.Some? {
      assert taskPass == if taskPass.value then Some(true) else Some(false);
    }
  }

  function VerdictFromValidation(v: Validation): FinalVerdict {
    match v
    case ValidationPass => VerdictPass
    case ValidationFail => VerdictFail
    case ValidationError => VerdictUnknown
    case ValidationSkipped => VerdictUnknown
  }

  function VerdictFromVerifier(action: Action, packet: Option<Packet>): FinalVerdict {
    if action == Accept && packet.Some? && packet.value.overall == Pass then VerdictPass
    else if action == Escalate && (packet.None? || packet.value.overall != Fail) then VerdictUnknown
    else VerdictFail
  }

  /** The single precedence table. */
  function FinalVerdictOf(validation: Validation, hasValidator: bool, action: Action, packet: Option<Packet>,
                          validatorRequired: bool, mode: string, protocolBroken: bool): (FinalVerdict, Source) {
    if protocolBroken then (VerdictFail, if hasValidator then TaskValidator else Verifier)
    else if hasValidator then (VerdictFromValidation(validation), TaskValidator)
    else if validatorRequired then (VerdictUnknown, Verifier)
    else if mode == SCHEMA_CONTRACT then
      if packet.Some? && packet.value.overall == Pass then (VerdictUnknown, Verifier)
      else (VerdictFromVerifier(action, packet), Verifier)
    else (VerdictFromVerifier(action, packet), Verifier)
  }

  /** Unterminated or truncated output: nothing that was written can be trusted. */
  predicate Untrusted(e: Option<Enforcement>) {
    e.Some? && (e.value.unterminated.Some? || e.value.truncated.Some?)
  }

  predicate ProtocolBroken(p: Packet) {
    Untrusted(p.enforcement)
  }

  /** A delegation that should have written something and did not is failed after the fact. */
  function Finalize(p: Packet, mode: string): Packet {
    var failed := p.(overall := Fail, enforcement := Some(Enforcement([], [], None, None)));
    if mode == SCHEMA_CONTRACT && p.changes.filesChanged == 0 && p.emissions.None? then failed
    else if mode == ARTIFACT && p.changes.filesChanged == 0 && p.enforcement.None? then failed
    else p
  }

  /** The table says "pass" on a validator's word or on an accepted passing packet, "fail" on a broken protocol, a
      validator's word or a packet that contradicts its acceptance or fails, and "unknown" otherwise. */
  lemma {:induction false} VerdictIff(validation: Validation, hasValidator: bool, action: Action,
                                      packet: Option<Packet>, validatorRequired: bool, mode: string,
                                      protocolBroken: bool)
    requires action != Correct
    ensures var verdict :=
        FinalVerdictOf(validation, hasValidator, action, packet, validatorRequired, mode, protocolBroken).0;
      var passing := packet.Some? && packet.value.overall == Pass;
      var failing := packet.Some? && packet.value.overall == Fail;
      && (verdict == VerdictPass <==>
            && !protocolBroken
            && (if hasValidator then validation == ValidationPass
                else !validatorRequired && mode != SCHEMA_CONTRACT && action == Accept && passing))
      && (verdict == VerdictFail <==>
            protocolBroken ||
            (if hasValidator then validation == ValidationFail
             else !validatorRequired && (if action == Accept then !passing else failing)))
  {
  }

  /** What a passing packet stands for, in terms of the signals it was reduced from. */
  ghost predicate Trustworthy(signals: Signals, policy: Option<Policy>, p: Packet) {
    && Spotless(p)
    && (Requires(policy, Graph) || GraphAdvisory(policy) ==> p.graph.brokenEdges <= 0)
    && (policy.Some? ==> AllReported(signals, policy.value.required))
    && RecordedPolicy(p) == policy
  }

  /** Neither reduction nor the override lets a packet pass that is not trustworthy. */
  lemma {:induction false} PassIsTrustworthy(ts: TaskStore, taskId: string, turn: int, policy: Option<Policy>,
                                             hash: Option<string>, mode: string)
    requires Kept(ts)
    ensures var p := Reduce(ts, taskId, turn, policy, hash);
      && (p.overall == Pass ==> Trustworthy(ts.signals, policy, p))
      && (Finalize(p, mode).overall == Pass ==> Finalize(p, mode) == p)
  {
    PassIff(ts, taskId, turn, policy, hash);
  }

  // ---------------------------------------------------------------- protocol integrity and the override

  /** A signal says that the output was left unterminated or truncated. */
  predicate CutOff(signals: Signals) {
    Latest(signals, ArtifactUnterminated).Some? || Latest(signals, ArtifactTruncated).Some?
  }

  /** Nothing was changed or emitted under a schema contract, so the override replaces the packet's enforcement. */
  predicate Overridden(signals: Signals, mode: string) {
    && mode == SCHEMA_CONTRACT && ReduceChanges(Latest(signals, StateChanges)).filesChanged == 0
    && All(signals, ArtifactEmitted) == []
  }

  /** The number of changed files that the latest signal tells. */
  function FilesChanged(signals: Signals): int {
    match Latest(signals, StateChanges)
    case Some(ChangesValue(n, _, _, _)) => n
    case _ => 0
  }

  /** An artifact delegation changed files, a schema-contract delegation changed files or emitted something. */
  predicate Produced(signals: Signals, mode: string) {
    && (mode == "artifact" ==> FilesChanged(signals) != 0)
    && (mode == "schema-contract" ==> FilesChanged(signals) != 0 || All(signals, ArtifactEmitted) != [])
  }

  /** Finalising changes only the overall result and the enforcement, and both only where nothing was produced. */
  lemma {:induction false} FinalizedIs(ts: TaskStore, taskId: string, turn: int, policy: Option<Policy>,
                                       hash: Option<string>, mode: string)
    requires Kept(ts)
    ensures var p := Reduce(ts, taskId, turn, policy, hash);
      var q := Finalize(p, mode);
      && q.(overall := p.overall, enforcement := p.enforcement) == p
      && (Produced(ts.signals, mode) ==> q == p)
      && (!Produced(ts.signals, mode) ==> q.overall == Fail && q.enforcement.Some?)
      && (mode == "artifact" && !OutputIntact(ts.signals) ==> q == p)
      && (!Produced(ts.signals, mode) && (mode == "schema-contract" || OutputIntact(ts.signals)) ==>
            q.enforcement == Some(Enforcement([], [], None, None)))
  {
    FailIffSignalsFaulty(ts, taskId, turn, policy, hash);
    NoEnforcementIffIntact(ts);
  }

  /** A finalised packet passes, and fails, exactly when the stored signals say so and something was produced. */
  lemma {:induction false} FinalizedIff(ts: TaskStore, taskId: string, turn: int, policy: Option<Policy>,
                                        hash: Option<string>, mode: string)
    requires Kept(ts)
    ensures var q := Finalize(Reduce(ts, taskId, turn, policy, hash), mode);
      && (q.overall == Pass <==> Clean(ts.signals, policy) && Produced(ts.signals, mode))
      && (q.overall == Fail <==> Faulty(ts.signals, policy) || !Produced(ts.signals, mode))
  {
    PassIffSignalsClean(ts, taskId, turn, policy, hash);
    FailIffSignalsFaulty(ts, taskId, turn, policy, hash);
    FinalizedIs(ts, taskId, turn, policy, hash, mode);
  }

  lemma {:induction false} EnforceTells(blocked: Option<Value>, unterminated: Option<Value>, truncated: Option<Value>)
    requires unterminated.Some? ==> unterminated.value.UnterminatedValue?
    requires truncated.Some? ==> truncated.value.TruncatedValue?
    ensures Untrusted(Enforce(blocked, unterminated, truncated)) <==> unterminated.Some? || truncated.Some?
  {
  }

  lemma {:induction false} LatestIsOfKind(signals: Signals)
    requires Filed(signals)
    ensures var u := Latest(signals, ArtifactUnterminated); u.Some? ==> u.value.UnterminatedValue?
    ensures var t := Latest(signals, ArtifactTruncated); t.Some? ==> t.value.TruncatedValue?
  {
    if Latest(signals, ArtifactUnterminated).Some? { LatestKind(signals, ArtifactUnterminated); }
    if Latest(signals, ArtifactTruncated).Some? { LatestKind(signals, ArtifactTruncated); }
  }

  lemma {:induction false} BrokenIffCutOff(ts: TaskStore, taskId: string, turn: int, policy: Option<Policy>,
                                           hash: Option<string>)
    requires Kept(ts)
    ensures ProtocolBroken(Reduce(ts, taskId, turn, policy, hash)) <==> CutOff(ts.signals)
  {
    LatestIsOfKind(ts.signals);
    EnforceTells(Latest(ts.signals, ArtifactBlocked), Latest(ts.signals, ArtifactUnterminated),
                 Latest(ts.signals, ArtifactTruncated));
  }

  /** What a finalised packet says about the protocol, in terms of the stored signals: cut-off output shows unless the
      override has replaced the enforcement that would have told. */
  lemma {:induction false} FinalizedBrokenIff(ts: TaskStore, taskId: string, turn: int, policy: Option<Policy>,
                                              hash: Option<string>, mode: string)
    requires Kept(ts)
    ensures ProtocolBroken(Finalize(Reduce(ts, taskId, turn, policy, hash), mode)) <==>
            CutOff(ts.signals) && !Overridden(ts.signals, mode)
  {
    BrokenIffCutOff(ts, taskId, turn, policy, hash);
  }
}

/** `runCorrectionLoop` of packages/orchestrator/src/orchestrator-correction.ts.  What each turn's delegation and
    validator return is given by the function `inputs`. */
module CorrectionLoop {
  import opened Wrappers
  import opened Digraph
  import opened Decimal
  import opened Reducer
  import opened ReducerProperties
  import opened Verdict

  /** The outcome of one delegation: the signals stored for its task id, the policy and mode under which it was
      finalised (if it was), and what the validator says afterwards. */
  datatype TurnInput =
    | DelegationFailed(store: KeptStore)
    | Delegated(store: KeptStore, finalized: bool, policy: Option<Policy>, mode: string, format: string,
                tokens: int, cost: real, validation: Validation)

  datatype Profile = Profile(policy: Option<Policy>, validatorRequired: bool)

  datatype Config = Config(
    baseId: string, maxCorrections: int, maxCost: Option<real>, hasValidator: bool, taskPass: Option<bool>,
    profile: Profile, policyHash: Option<string>, initialMode: string)

  datatype Decision = Decision(
    action: Action, packet: Packet, correctionCount: int, workerTokens: int, sessionTokens: int)

  /** The loop's variables. */
  datatype Session = Session(turns: seq<Decision>, packets: seq<Packet>, taskIds: seq<string>, validation: Validation,
                             tokens: int, cost: real, mode: string)

  /** What is returned, with the loop's variables at its end. */
  datatype Outcome = Outcome(finalAction: Action, verdict: FinalVerdict, source: Source, session: Session)

  /** A task with everything its turns will meet; `packets` gives each turn's packet. */
  datatype Job = Job(config: Config, inputs: nat -> TurnInput, packets: nat -> Packet)

  // ---------------------------------------------------------------- the packet of a turn

  /** The policy under which a turn's packet is reduced. */
  function PolicyOf(config: Config, input: TurnInput): Option<Policy> {
    if input.Delegated? && input.finalized then input.policy else config.profile.policy
  }

  /** The packet of a turn: the finalised one when the delegation carries it, otherwise a reduction. */
  function PacketOf(config: Config, input: TurnInput, turn: nat): Packet {
    var taskId := TurnTaskId(config.baseId, turn);
    if input.Delegated? && input.finalized
    then Finalize(Reduce(input.store, taskId, 0, input.policy, config.policyHash), input.mode)
    else Reduce(input.store, taskId, turn, config.profile.policy, config.policyHash)
  }

  function JobOf(config: Config, inputs: nat -> TurnInput): Job {
    Job(config, inputs, (turn: nat) => PacketOf(config, inputs(turn), turn))
  }

  ghost predicate ReducedAt(job: Job, turn: nat) {
    job.packets(turn) == PacketOf(job.config, job.inputs(turn), turn)
  }

  /** Every turn has the packet of its own input and task id. */
  ghost predicate Reduced(job: Job) {
    forall turn: nat :: ReducedAt(job, turn)
  }

  lemma {:induction false} JobIsReduced(config: Config, inputs: nat -> TurnInput)
    ensures Reduced(JobOf(config, inputs))
  {
  }

  /** The override of the finalised packet has hidden whatever the signals say about the protocol. */
  predicate Hidden(input: TurnInput) {
    input.Delegated? && input.finalized && Overridden(input.store.signals, input.mode)
  }

  /** The turn's packet shows that the output was cut off. */
  predicate ShownCutOff(input: TurnInput) {
    CutOff(input.store.signals) && !Hidden(input)
  }

  /** The turn's signals are clean under its policy and, if it was finalised, something was produced. */
  ghost predicate CleanTurn(config: Config, input: TurnInput) {
    && Clean(input.store.signals, PolicyOf(config, input))
    && (input.Delegated? && input.finalized ==> Produced(input.store.signals, input.mode))
  }

  /** The turn's signals give a reason to fail, or it was finalised with nothing produced. */
  ghost predicate FaultyTurn(config: Config, input: TurnInput) {
    || Faulty(input.store.signals, PolicyOf(config, input))
    || (input.Delegated? && input.finalized && !Produced(input.store.signals, input.mode))
  }

  /** What a turn's packet says, in terms of the stored signals. */
  ghost predicate Says(config: Config, input: TurnInput, p: Packet) {
    && (ProtocolBroken(p) <==> ShownCutOff(input))
    && (p.overall == Pass <==> CleanTurn(config, input))
    && (p.overall == Fail <==> FaultyTurn(config, input))
    && (p.overall == Pass ==>
          && Trustworthy(input.store.signals, PolicyOf(config, input), p)
          && !HardObjection(p) && !CutOff(input.store.signals))
  }

  lemma {:induction false} FinalizedSays(config: Config, input: TurnInput, taskId: string)
    requires input.Delegated? && input.finalized
    ensures Says(config, input, Finalize(Reduce(input.store, taskId, 0, input.policy, config.policyHash), input.mode))
  {
    PassIsTrustworthy(input.store, taskId, 0, input.policy, config.policyHash, input.mode);
    BrokenIffCutOff(input.store, taskId, 0, input.policy, config.policyHash);
    FinalizedBrokenIff(input.store, taskId, 0, input.policy, config.policyHash, input.mode);
    FinalizedIff(input.store, taskId, 0, input.policy, config.policyHash, input.mode);
  }

  lemma {:induction false} ReducedSays(config: Config, input: TurnInput, taskId: string, turn: nat)
    requires !(input.Delegated? && input.finalized)
    ensures Says(config, input, Reduce(input.store, taskId, turn, config.profile.policy, config.policyHash))
  {
    PassIsTrustworthy(input.store, taskId, turn, config.profile.policy, config.policyHash, ARTIFACT);
    BrokenIffCutOff(input.store, taskId, turn, config.profile.policy, config.policyHash);
    PassIffSignalsClean(input.store, taskId, turn, config.profile.policy, config.policyHash);
    FailIffSignalsFaulty(input.store, taskId, turn, config.profile.policy, config.policyHash);
  }

  lemma {:induction false} PacketFacts(job: Job, turn: nat)
    requires Reduced(job)
    ensures Says(job.config, job.inputs(turn), job.packets(turn))
  {
    assert ReducedAt(job, turn);
    var config, input, taskId := job.config, job.inputs(turn), TurnTaskId(job.config.baseId, turn);
    if input.Delegated? && input.finalized {
      FinalizedSays(config, input, taskId);
    } else {
      ReducedSays(config, input, taskId, turn);
    }
  }

  // ---------------------------------------------------------------- totals along the turns

  /** A failed delegation costs nothing. */
  function TurnCost(input: TurnInput): real {
    if input.Delegated? then input.cost else 0.0
  }

  /** Cost spent by the first `n` turns. */
  function CostOf(job: Job, n: nat): real {
    if n == 0 then 0.0 else CostOf(job, n - 1) + TurnCost(job.inputs(n - 1))
  }

  function TokensOf(turns: seq<Decision>): int {
    if turns == [] then 0 else TokensOf(turns[..|turns| - 1]) + turns[|turns| - 1].workerTokens
  }

  /** The format of the last successful delegation among the first `n`. */
  function ModeAfter(job: Job, n: nat): string {
    if n == 0 then job.config.initialMode
    else if job.inputs(n - 1).Delegated? then job.inputs(n - 1).format
    else ModeAfter(job, n - 1)
  }

  /** What the validator said last: a failed delegation leaves that as it was. */
  function ValidationAfter(job: Job, n: nat): Validation {
    if n == 0 || !job.config.hasValidator then ValidationSkipped
    else if job.inputs(n - 1).Delegated? then job.inputs(n - 1).validation
    else ValidationAfter(job, n - 1)
  }

  function TaskIdsOf(config: Config, n: nat): (ids: seq<string>)
    ensures |ids| == n
  {
    if n == 0 then [] else TaskIdsOf(config, n - 1) + [TurnTaskId(config.baseId, n - 1)]
  }

  lemma {:induction false} TaskIdAt(config: Config, n: nat, i: nat)
    requires i < n
    ensures TaskIdsOf(config, n)[i] == TurnTaskId(config.baseId, i)
  {
    if i < n - 1 { TaskIdAt(config, n - 1, i); }
  }

  /** No two turns share a task id. */
  lemma {:induction false} TaskIdsDistinct(config: Config, n: nat)
    ensures NoDup(TaskIdsOf(config, n))
  {
    forall i, j | 0 <= i < j < n ensures TaskIdsOf(config, n)[i] != TaskIdsOf(config, n)[j] {
      TaskIdAt(config, n, i);
      TaskIdAt(config, n, j);
      TurnIdsDistinct(config.baseId, i, j);
    }
  }

  // ---------------------------------------------------------------- the action of a turn

  function TaskPassOf(v: Validation): Option<bool> {
    match v
    case ValidationPass => Some(true)
    case ValidationFail => Some(false)
    case ValidationError => None
    case ValidationSkipped => None
  }

  /** The verdict on the task that the decision of a delegated turn sees. */
  function TaskPassAt(config: Config, input: TurnInput): Option<bool>
    requires input.Delegated?
  {
    if config.hasValidator then TaskPassOf(input.validation) else config.taskPass
  }

  /** The action that a turn with this input and packet leads to, `cost` having been spent. */
  function ActionFor(config: Config, input: TurnInput, packet: Packet, turn: nat, cost: real): Action {
    if input.DelegationFailed? || (config.hasValidator && input.validation == ValidationError) then Escalate else
    Decide(packet, turn, config.maxCorrections, cost, config.maxCost, TaskPassAt(config, input))
  }

  function ActionOf(job: Job, turn: nat): Action {
    ActionFor(job.config, job.inputs(turn), job.packets(turn), turn, CostOf(job, turn + 1))
  }

  /** No budget was given, or a zero one, or less than the budget is spent. */
  predicate WithinBudget(cost: real, maxCost: Option<real>) {
    maxCost == None || maxCost == Some(0.0) || cost < maxCost.value
  }

  /** A turn after which the loop goes on: within the turn limit and the budget, and not vouched for. */
  ghost predicate GoesOn(job: Job, turn: nat) {
    var input := job.inputs(turn);
    && ActionOf(job, turn) == Correct && turn < job.config.maxCorrections
    && input.Delegated? && WithinBudget(CostOf(job, turn + 1), job.config.maxCost)
    && (job.config.hasValidator ==> input.validation == ValidationFail || input.validation == ValidationSkipped)
  }

  /** An accepted turn: the validator's word, or without one the caller's, or without both a clean turn reached
      before the turn limit and within the budget. */
  ghost predicate AcceptedAt(job: Job, turn: nat) {
    && job.inputs(turn).Delegated?
    && (VouchedFor(job.config, job.inputs(turn)) || PassedUnvouched(job, turn))
  }

  predicate VouchedFor(config: Config, input: TurnInput)
    requires input.Delegated?
  {
    if config.hasValidator then input.validation == ValidationPass else config.taskPass == Some(true)
  }

  ghost predicate PassedUnvouched(job: Job, turn: nat)
    requires job.inputs(turn).Delegated?
  {
    && (if job.config.hasValidator then job.inputs(turn).validation == ValidationSkipped
        else job.config.taskPass == None)
    && turn < job.config.maxCorrections && WithinBudget(CostOf(job, turn + 1), job.config.maxCost)
    && CleanTurn(job.config, job.inputs(turn))
  }

  lemma {:induction false} ActionMeans(job: Job, turn: nat)
    requires Reduced(job)
    ensures ActionOf(job, turn) == Accept <==> AcceptedAt(job, turn)
    ensures ActionOf(job, turn) == Correct <==> GoesOn(job, turn)
  {
    PacketFacts(job, turn);
    if job.inputs(turn).Delegated? {
      DecideMeans(job.packets(turn), turn, job.config.maxCorrections, CostOf(job, turn + 1), job.config.maxCost,
                  TaskPassAt(job.config, job.inputs(turn)));
    }
  }

  /** The first turn that does not lead to another one. */
  ghost predicate StopsAt(job: Job, last: nat) {
    (forall i :: 0 <= i < last ==> GoesOn(job, i)) && ActionOf(job, last) != Correct
  }

  // ---------------------------------------------------------------- what the session records

  /** Turn `i` is recorded with its own packet, the action its input and packet call for, its tokens and the running
      sum of tokens. */
  ghost predicate RecordedAt(job: Job, turns: seq<Decision>, packets: seq<Packet>, i: nat)
    requires i < |turns| == |packets|
  {
    && turns[i].packet == packets[i] == job.packets(i)
    && turns[i].correctionCount == i && turns[i].action == ActionOf(job, i)
    && turns[i].workerTokens == (if job.inputs(i).Delegated? then job.inputs(i).tokens else 0)
    && turns[i].sessionTokens == TokensOf(turns[..i + 1])
  }

  ghost predicate AllRecorded(job: Job, turns: seq<Decision>, packets: seq<Packet>) {
    |packets| == |turns| && forall i :: 0 <= i < |turns| ==> RecordedAt(job, turns, packets, i)
  }

  ghost predicate Recorded(job: Job, s: Session) {
    AllRecorded(job, s.turns, s.packets) && s.taskIds == TaskIdsOf(job.config, |s.turns|)
  }

  ghost predicate Totalled(job: Job, s: Session) {
    var n := |s.turns|;
    && s.tokens == TokensOf(s.turns) && s.cost == CostOf(job, n) && s.mode == ModeAfter(job, n)
    && s.validation == ValidationAfter(job, n)
  }

  /** What is known between two turns. */
  ghost predicate Underway(job: Job, s: Session) {
    Recorded(job, s) && Totalled(job, s) && forall i :: 0 <= i < |s.turns| ==> GoesOn(job, i)
  }

  /** What is known when the loop stops after its last turn. */
  ghost predicate Stopped(job: Job, s: Session) {
    && Recorded(job, s) && Totalled(job, s)
    && 1 <= |s.turns| <= job.config.maxCorrections + 1 && StopsAt(job, |s.turns| - 1)
    && (ActionOf(job, |s.turns| - 1) == Accept <==> AcceptedAt(job, |s.turns| - 1))
  }

  /** The decision of a turn, given the session's tokens and cost before it. */
  ghost predicate DecidedFor(config: Config, input: TurnInput, packet: Packet, turn: nat, tokens0: int, cost0: real,
                             d: Decision)
  {
    && d.action == ActionFor(config, input, packet, turn, cost0 + TurnCost(input))
    && d.packet == packet && d.correctionCount == turn && d.sessionTokens == tokens0 + d.workerTokens
    && d.workerTokens == if input.Delegated? then input.tokens else 0
  }

  /** The session after a turn that led to `d`. */
  function NextSession(config: Config, input: TurnInput, s: Session, d: Decision): Session {
    Session(s.turns + [d], s.packets + [d.packet], s.taskIds + [TurnTaskId(config.baseId, |s.turns|)],
            if config.hasValidator && input.Delegated? then input.validation else s.validation,
            d.sessionTokens, s.cost + TurnCost(input),
            if input.Delegated? then input.format else s.mode)
  }

  lemma {:induction false} StaysRecorded(job: Job, turns: seq<Decision>, packets: seq<Packet>, d: Decision, i: nat)
    requires i < |turns| == |packets| && RecordedAt(job, turns, packets, i)
    ensures RecordedAt(job, turns + [d], packets + [d.packet], i)
  {
    assert (turns + [d])[..i + 1] == turns[..i + 1];
  }

  lemma {:induction false} NewlyRecorded(job: Job, turns: seq<Decision>, packets: seq<Packet>, tokens0: int,
                                         cost0: real, d: Decision)
    requires var n := |turns|;
      && n == |packets| && tokens0 == TokensOf(turns) && cost0 == CostOf(job, n)
      && DecidedFor(job.config, job.inputs(n), job.packets(n), n, tokens0, cost0, d)
    ensures RecordedAt(job, turns + [d], packets + [d.packet], |turns|)
    ensures TokensOf(turns + [d]) == d.sessionTokens
    ensures cost0 + TurnCost(job.inputs(|turns|)) == CostOf(job, |turns| + 1)
  {
    var all := turns + [d];
    assert all[..|turns|] == turns && all[..|turns| + 1] == all;
  }

  lemma {:induction false} AllStayRecorded(job: Job, turns: seq<Decision>, packets: seq<Packet>, d: Decision)
    requires AllRecorded(job, turns, packets) && RecordedAt(job, turns + [d], packets + [d.packet], |turns|)
    ensures AllRecorded(job, turns + [d], packets + [d.packet])
  {
    var turns', packets' := turns + [d], packets + [d.packet];
    forall i | 0 <= i < |turns'| ensures RecordedAt(job, turns', packets', i) {
      if i < |turns| {
        assert RecordedAt(job, turns, packets, i);
        StaysRecorded(job, turns, packets, d, i);
      }
    }
  }

  lemma {:induction false} StaysTotalled(job: Job, s: Session, d: Decision)
    requires Totalled(job, s) && TokensOf(s.turns + [d]) == d.sessionTokens
    ensures Totalled(job, NextSession(job.config, job.inputs(|s.turns|), s, d))
  {
  }

  /** One more turn is recorded. */
  lemma {:induction false} TurnRecorded(job: Job, s: Session, d: Decision)
    requires Recorded(job, s) && Totalled(job, s)
    requires DecidedFor(job.config, job.inputs(|s.turns|), job.packets(|s.turns|), |s.turns|, s.tokens, s.cost, d)
    ensures var s' := NextSession(job.config, job.inputs(|s.turns|), s, d);
      Recorded(job, s') && Totalled(job, s') && d.action == ActionOf(job, |s.turns|)
  {
    NewlyRecorded(job, s.turns, s.packets, s.tokens, s.cost, d);
    AllStayRecorded(job, s.turns, s.packets, d);
    StaysTotalled(job, s, d);
  }

  /** The decision of one turn, given its input and packet and the session's tokens and cost before it. */
  method TakeOneTurn(config: Config, input: TurnInput, packet: Packet, turn: nat, tokens0: int, cost0: real)
    returns (d: Decision)
    ensures DecidedFor(config, input, packet, turn, tokens0, cost0, d)
  {
    if input.DelegationFailed? { return Decision(Escalate, packet, turn, 0, tokens0); }
    var sessionTokens, sessionCost := tokens0 + input.tokens, cost0 + input.cost;
    var taskPass := config.taskPass;
    if config.hasValidator {
      if input.validation == ValidationError { return Decision(Escalate, packet, turn, input.tokens, sessionTokens); }
      taskPass := TaskPassOf(input.validation);
    }
    var action := Decide(packet, turn, config.maxCorrections, sessionCost, config.maxCost, taskPass);
    return Decision(action, packet, turn, input.tokens, sessionTokens);
  }

  ghost predicate Follows(job: Job, s: Session, s': Session) {
    && |s'.turns| == |s.turns| + 1
    && if s'.turns[|s.turns|].action == Correct then Underway(job, s') else Stopped(job, s')
  }

  lemma {:induction false} TurnFollows(job: Job, s: Session, d: Decision)
    requires Reduced(job) && |s.turns| <= job.config.maxCorrections && Underway(job, s)
    requires DecidedFor(job.config, job.inputs(|s.turns|), job.packets(|s.turns|), |s.turns|, s.tokens, s.cost, d)
    ensures Follows(job, s, NextSession(job.config, job.inputs(|s.turns|), s, d))
  {
    TurnRecorded(job, s, d);
    ActionMeans(job, |s.turns|);
  }

  /** One turn of the loop. */
  method Advance(job: Job, s: Session) returns (s': Session)
    requires Reduced(job) && |s.turns| <= job.config.maxCorrections && Underway(job, s)
    ensures Follows(job, s, s')
  {
    var turn := |s.turns|;
    var d := TakeOneTurn(job.config, job.inputs(turn), job.packets(turn), turn, s.tokens, s.cost);
    TurnFollows(job, s, d);
    s' := NextSession(job.config, job.inputs(turn), s, d);
  }

  /** The turn loop. */
  method RunTurns(job: Job) returns (s: Session)
    requires Reduced(job) && job.config.maxCorrections >= 0
    ensures Stopped(job, s)
  {
    s := Session([], [], [], ValidationSkipped, 0, 0.0, job.config.initialMode);
    var turn, done := 0, false;
    while turn <= job.config.maxCorrections && !done
      invariant turn == |s.turns| <= job.config.maxCorrections + 1
      invariant if done then Stopped(job, s) else Underway(job, s)
    {
      s := Advance(job, s);
      if s.turns[turn].action != Correct { done := true; }
      turn := turn + 1;
    }
    assert !done ==> GoesOn(job, job.config.maxCorrections);
  }

  // ---------------------------------------------------------------- the verdict

  /** The last turn may have been accepted, but with a validator only its pass keeps that. */
  function FinalAction(config: Config, last: Action, validation: Validation): Action {
    if last != Accept || (config.hasValidator && validation != ValidationPass) then Escalate else Accept
  }

  /** The outcome drawn from a session that has ended. */
  function Conclude(config: Config, s: Session): Outcome
    requires |s.turns| == |s.packets| > 0
  {
    var last := |s.turns| - 1;
    var action := FinalAction(config, s.turns[last].action, s.validation);
    var (verdict, source) :=
      FinalVerdictOf(s.validation, config.hasValidator, action, Some(s.packets[last]),
                     config.profile.validatorRequired, s.mode, ProtocolBroken(s.packets[last]));
    Outcome(action, verdict, source, s)
  }

  /** Exactly when a run that stops after turn `last` passes: its delegation succeeded, its packet does not show
      cut-off output, and either the validator passed it or, without one and where none is required, the turn was
      accepted, its signals are clean, and it stands for files and not for a schema only. */
  ghost predicate Passes(job: Job, last: nat) {
    var input := job.inputs(last);
    && input.Delegated? && !ShownCutOff(input)
    && (if job.config.hasValidator then input.validation == ValidationPass
        else
          && !job.config.profile.validatorRequired && input.format != SCHEMA_CONTRACT
          && CleanTurn(job.config, input) && AcceptedAt(job, last))
  }

  /** Exactly when it fails, the rest being "unknown". */
  ghost predicate Fails(job: Job, last: nat) {
    || ShownCutOff(job.inputs(last))
    || (if job.config.hasValidator then ValidationAfter(job, last + 1) == ValidationFail
        else
          && !job.config.profile.validatorRequired
          && if AcceptedAt(job, last) then !CleanTurn(job.config, job.inputs(last))
             else FaultyTurn(job.config, job.inputs(last)))
  }

  /** When the last delegation failed, the validation is that of the turn before, and not a pass. */
  lemma {:induction false} ValidationLeft(job: Job, last: nat)
    requires StopsAt(job, last) && job.config.hasValidator && !job.inputs(last).Delegated?
    ensures last == 0 ==> ValidationAfter(job, last + 1) == ValidationSkipped
    ensures last > 0 ==>
      && job.inputs(last - 1).Delegated? && ValidationAfter(job, last + 1) == job.inputs(last - 1).validation
      && (job.inputs(last - 1).validation == ValidationFail || job.inputs(last - 1).validation == ValidationSkipped)
  {
    if last > 0 { assert GoesOn(job, last - 1); }
  }

  /** The last turn as the verdict sees it. */
  lemma {:induction false} LastTurn(job: Job, s: Session)
    requires Stopped(job, s)
    ensures var last := |s.turns| - 1;
      && s.packets[last] == job.packets(last) && s.turns[last].action == ActionOf(job, last) != Correct
      && s.validation == ValidationAfter(job, last + 1) && s.mode == ModeAfter(job, last + 1)
      && (job.config.hasValidator && s.validation == ValidationPass <==>
            job.config.hasValidator && job.inputs(last).Delegated? && job.inputs(last).validation == ValidationPass)
  {
    var last := |s.turns| - 1;
    assert RecordedAt(job, s.turns, s.packets, last);
    if job.config.hasValidator && !job.inputs(last).Delegated? { ValidationLeft(job, last); }
  }

  /** A validated turn is accepted whatever its packet says. */
  lemma {:induction false} ValidatedAction(job: Job, turn: nat)
    requires job.config.hasValidator && job.inputs(turn).Delegated? && job.inputs(turn).validation == ValidationPass
    ensures ActionOf(job, turn) == Accept
  {
  }

  /** The final action, exactly. */
  lemma {:induction false} FinalActionIff(job: Job, s: Session)
    requires Stopped(job, s)
    ensures var last := |s.turns| - 1;
      FinalAction(job.config, s.turns[last].action, s.validation) == Accept <==>
        if job.config.hasValidator then job.inputs(last).Delegated? && job.inputs(last).validation == ValidationPass
        else ActionOf(job, last) == Accept
  {
    var last := |s.turns| - 1;
    LastTurn(job, s);
    if job.config.hasValidator && job.inputs(last).Delegated? && job.inputs(last).validation == ValidationPass {
      ValidatedAction(job, last);
    }
  }

  /** The verdict on the last turn's packet. */
  ghost predicate PassesByPacket(job: Job, last: nat) {
    && job.inputs(last).Delegated? && !ProtocolBroken(job.packets(last))
    && (if job.config.hasValidator then job.inputs(last).validation == ValidationPass
        else
          && !job.config.profile.validatorRequired && job.inputs(last).format != SCHEMA_CONTRACT
          && job.packets(last).overall == Pass && ActionOf(job, last) == Accept)
  }

  ghost predicate FailsByPacket(job: Job, last: nat) {
    || ProtocolBroken(job.packets(last))
    || (if job.config.hasValidator then ValidationAfter(job, last + 1) == ValidationFail
        else
          && !job.config.profile.validatorRequired
          && if ActionOf(job, last) == Accept then job.packets(last).overall != Pass
             else job.packets(last).overall == Fail)
  }

  lemma {:induction false} AcceptedIsDelegated(job: Job, turn: nat)
    requires ActionOf(job, turn) == Accept
    ensures job.inputs(turn).Delegated?
  {
  }

  lemma {:induction false} VerdictByPacket(job: Job, s: Session)
    requires Stopped(job, s)
    ensures var last, o := |s.turns| - 1, Conclude(job.config, s);
      && (o.verdict == VerdictPass <==> PassesByPacket(job, last))
      && (o.verdict == VerdictFail <==> FailsByPacket(job, last))
      && (o.source == TaskValidator <==> job.config.hasValidator)
  {
    var last := |s.turns| - 1;
    LastTurn(job, s);
    FinalActionIff(job, s);
    if ActionOf(job, last) == Accept { AcceptedIsDelegated(job, last); }
    VerdictIff(s.validation, job.config.hasValidator, FinalAction(job.config, s.turns[last].action, s.validation),
               Some(s.packets[last]), job.config.profile.validatorRequired, s.mode, ProtocolBroken(s.packets[last]));
  }

  lemma {:induction false} PacketVerdict(job: Job, last: nat)
    requires Says(job.config, job.inputs(last), job.packets(last))
    requires ActionOf(job, last) == Accept <==> AcceptedAt(job, last)
    ensures PassesByPacket(job, last) <==> Passes(job, last)
    ensures FailsByPacket(job, last) <==> Fails(job, last)
  {
  }

  /** The verdict of every run, exactly. */
  lemma {:induction false} VerdictSettled(job: Job, s: Session)
    requires Reduced(job) && Stopped(job, s)
    ensures var last, o := |s.turns| - 1, Conclude(job.config, s);
      && (o.verdict == VerdictPass <==> Passes(job, last))
      && (o.verdict == VerdictFail <==> Fails(job, last))
      && (o.source == TaskValidator <==> job.config.hasValidator)
  {
    VerdictByPacket(job, s);
    PacketFacts(job, |s.turns| - 1);
    PacketVerdict(job, |s.turns| - 1);
  }

  /** When the run is accepted; without any outside verdict, only strictly before the turn limit. */
  ghost predicate AcceptsExactly(job: Job, last: nat, o: Outcome) {
    var input := job.inputs(last);
    && (o.finalAction == Accept <==>
          if job.config.hasValidator then input.Delegated? && input.validation == ValidationPass
          else AcceptedAt(job, last))
    && (o.finalAction == Accept && !job.config.hasValidator && job.config.taskPass == None ==>
          last < job.config.maxCorrections)
  }

  /** What a final "pass" proves: acceptance; with a validator that the last validation passed, and that the output was
      not cut off, except where the override has hidden that; without one that the last packet is trustworthy, its
      signals are clean and the output was not cut off at all. */
  ghost predicate PassProves(job: Job, last: nat, o: Outcome) {
    var input, packet := job.inputs(last), job.packets(last);
    && (o.verdict == VerdictPass ==> o.finalAction == Accept && input.Delegated?)
    && (o.verdict == VerdictPass && job.config.hasValidator ==>
          && o.session.validation == input.validation == ValidationPass
          && (CutOff(input.store.signals) ==> Hidden(input)))
    && (o.verdict == VerdictPass && !job.config.hasValidator ==>
          && !job.config.profile.validatorRequired && !CutOff(input.store.signals) && CleanTurn(job.config, input)
          && Trustworthy(input.store.signals, PolicyOf(job.config, input), packet))
  }

  ghost predicate FailsClosed(job: Job, last: nat, o: Outcome) {
    AcceptsExactly(job, last, o) && PassProves(job, last, o)
  }

  lemma {:induction false} PassedMeans(job: Job, last: nat)
    requires Reduced(job) && Passes(job, last) && !job.config.hasValidator
    ensures var input := job.inputs(last);
      && !CutOff(input.store.signals)
      && Trustworthy(input.store.signals, PolicyOf(job.config, input), job.packets(last))
  {
    PacketFacts(job, last);
  }

  lemma {:induction false} PassProven(job: Job, last: nat, o: Outcome)
    requires Reduced(job) && AcceptsExactly(job, last, o) && (o.verdict == VerdictPass ==> Passes(job, last))
    requires job.config.hasValidator && job.inputs(last).Delegated? ==>
      o.session.validation == job.inputs(last).validation
    ensures PassProves(job, last, o)
  {
    if Passes(job, last) && !job.config.hasValidator { PassedMeans(job, last); }
  }

  lemma {:induction false} AcceptedExactly(job: Job, s: Session)
    requires Reduced(job) && Stopped(job, s)
    ensures AcceptsExactly(job, |s.turns| - 1, Conclude(job.config, s))
  {
    FinalActionIff(job, s);
    ActionMeans(job, |s.turns| - 1);
  }

  lemma {:induction false} FailClosed(job: Job, s: Session, o: Outcome)
    requires Reduced(job) && Stopped(job, s) && o == Conclude(job.config, s)
    ensures FailsClosed(job, |s.turns| - 1, o)
  {
    LastTurn(job, s);
    AcceptedExactly(job, s);
    VerdictSettled(job, s);
    PassProven(job, |s.turns| - 1, o);
  }

  /** With a validator, cut-off output passes if and only if the validator passed it and the override has hidden the
      cut: a schema-contract delegation that was finalised with nothing changed and nothing emitted. */
  lemma {:induction false} CutOffPassesIff(job: Job, s: Session)
    requires Reduced(job) && Stopped(job, s) && job.config.hasValidator
    requires CutOff(job.inputs(|s.turns| - 1).store.signals)
    ensures var input := job.inputs(|s.turns| - 1);
      Conclude(job.config, s).verdict == VerdictPass <==>
      && input.Delegated? && input.validation == ValidationPass
      && input.finalized && Overridden(input.store.signals, input.mode)
  {
    VerdictSettled(job, s);
  }

  /** One truncated answer to a schema contract. */
  function TruncatedStore(note: Signal): TaskStore {
    TaskStore([ArtifactTruncated], map[ArtifactTruncated := [note]])
  }

  /** The table's first precedence does not hold: this truncated answer passes on the validator's word. */
  lemma {:induction false} TruncationOverlooked(config: Config, inputs: nat -> TurnInput, note: Signal)
    requires config.hasValidator && note.value.TruncatedValue?
    requires var input := inputs(0);
      && input.Delegated? && input.store == TruncatedStore(note) && input.finalized && input.mode == SCHEMA_CONTRACT
      && input.validation == ValidationPass
    ensures CutOff(inputs(0).store.signals) && StopsAt(JobOf(config, inputs), 0) && Passes(JobOf(config, inputs), 0)
  {
    var signals := inputs(0).store.signals;
    assert All(signals, ArtifactTruncated) == [note] && All(signals, ArtifactEmitted) == [];
    assert Latest(signals, StateChanges) == None;
  }

  // ---------------------------------------------------------------- the whole run

  lemma {:induction false} BudgetKept(job: Job, last: nat)
    requires StopsAt(job, last)
    ensures job.config.maxCost.Some? && job.config.maxCost.value > 0.0 ==> CostOf(job, last) < job.config.maxCost.value
  {
    if last > 0 { assert GoesOn(job, last - 1); }
  }

  /** The turns of every run: what they record, their distinct task ids and the budget. */
  ghost predicate TurnsHold(job: Job, s: Session) {
    && Stopped(job, s) && NoDup(s.taskIds)
    && (forall i :: 0 <= i < |s.taskIds| ==>
          s.taskIds[i] == if i == 0 then job.config.baseId else job.config.baseId + ("-c" + Print(i)))
    // before the last delegation less than the budget was spent
    && (job.config.maxCost.Some? && job.config.maxCost.value > 0.0 ==>
          CostOf(job, |s.turns| - 1) < job.config.maxCost.value)
  }

  /** The result of every run: exactly when it passes and fails, and what that proves. */
  ghost predicate ResultHolds(job: Job, o: Outcome, last: nat) {
    && (o.verdict == VerdictPass <==> Passes(job, last))
    && (o.verdict == VerdictFail <==> Fails(job, last))
    && (o.source == TaskValidator <==> job.config.hasValidator)
    && FailsClosed(job, last, o)
  }

  ghost predicate Holds(job: Job, o: Outcome) {
    TurnsHold(job, o.session) && ResultHolds(job, o, |o.session.turns| - 1)
  }

  lemma {:induction false} TaskIdsNamed(config: Config, ids: seq<string>, n: nat)
    requires ids == TaskIdsOf(config, n)
    ensures NoDup(ids)
    ensures forall i :: 0 <= i < |ids| ==> ids[i] == if i == 0 then config.baseId else config.baseId + ("-c" + Print(i))
  {
    TaskIdsDistinct(config, n);
    forall i | 0 <= i < n ensures ids[i] == TurnTaskId(config.baseId, i) {
      TaskIdAt(config, n, i);
    }
  }

  lemma {:induction false} SessionHolds(job: Job, s: Session)
    requires Stopped(job, s)
    ensures TurnsHold(job, s)
  {
    TaskIdsNamed(job.config, s.taskIds, |s.turns|);
    BudgetKept(job, |s.turns| - 1);
  }

  lemma {:induction false} ResultSettled(job: Job, s: Session)
    requires Reduced(job) && Stopped(job, s)
    ensures ResultHolds(job, Conclude(job.config, s), |s.turns| - 1)
  {
    VerdictSettled(job, s);
    FailClosed(job, s, Conclude(job.config, s));
  }

  lemma {:induction false} OutcomeHolds(job: Job, s: Session, o: Outcome)
    requires Reduced(job) && Stopped(job, s) && o.session == s && ResultHolds(job, o, |s.turns| - 1)
    ensures Holds(job, o)
  {
    SessionHolds(job, s);
  }

  /** Every run: its turns, its totals and its verdict.  With a negative turn limit the loop body never runs and the
      crash path answers: one escalated turn, verdict unknown. */
  method Run(config: Config, inputs: nat -> TurnInput) returns (o: Outcome)
    ensures config.maxCorrections < 0 ==>
      |o.session.turns| == 1 && o.finalAction == Escalate && o.verdict == VerdictUnknown
    ensures config.maxCorrections >= 0 ==> Holds(JobOf(config, inputs), o)
  {
    if config.maxCorrections < 0 {
      var packet := Reduce(inputs(0).store, config.baseId, 0, config.profile.policy, config.policyHash);
      var d := Decision(Escalate, packet, 0, 0, 0);
      var s := Session([d], [packet], [config.baseId], ValidationError, 0, 0.0, config.initialMode);
      return Outcome(Escalate, VerdictUnknown, Verifier, s);
    }
    JobIsReduced(config, inputs);
    var s := RunTurns(JobOf(config, inputs));
    ResultSettled(JobOf(config, inputs), s);
    o := Conclude(config, s);
    OutcomeHolds(JobOf(config, inputs), s, o);
  }

  // ---------------------------------------------------------------- limits only cut runs short

  /** At least the turns and at least the budget. */
  ghost predicate LooserLimits(config: Config, config': Config) {
    && config' == config.(maxCorrections := config'.maxCorrections, maxCost := config'.maxCost)
    && config.maxCorrections <= config'.maxCorrections
    && forall cost :: WithinBudget(cost, config.maxCost) ==> WithinBudget(cost, config'.maxCost)
  }

  /** The same task under looser limits. */
  ghost predicate Looser(job: Job, job': Job) {
    && LooserLimits(job.config, job'.config)
    && (forall turn :: job'.inputs(turn) == job.inputs(turn)) && forall turn :: job'.packets(turn) == job.packets(turn)
  }

  lemma {:induction false} LooserJobs(config: Config, config': Config, inputs: nat -> TurnInput)
    requires LooserLimits(config, config')
    ensures Looser(JobOf(config, inputs), JobOf(config', inputs))
  {
    forall turn: nat ensures PacketOf(config', inputs(turn), turn) == PacketOf(config, inputs(turn), turn) {
    }
  }

  lemma {:induction false} SameCost(job: Job, job': Job, n: nat)
    requires Looser(job, job')
    ensures CostOf(job', n) == CostOf(job, n)
  {
    if n > 0 { SameCost(job, job', n - 1); }
  }

  lemma {:induction false} LooserAction(job: Job, job': Job, turn: nat)
    requires Looser(job, job') && ActionOf(job, turn) != Escalate
    ensures ActionOf(job', turn) == ActionOf(job, turn)
  {
    SameCost(job, job', turn + 1);
    assert WithinBudget(CostOf(job, turn + 1), job.config.maxCost) ==>
           WithinBudget(CostOf(job, turn + 1), job'.config.maxCost);
  }

  lemma {:induction false} LooserStop(job: Job, job': Job, last: nat)
    requires Looser(job, job') && Reduced(job') && StopsAt(job, last) && ActionOf(job, last) == Accept
    ensures StopsAt(job', last) && ActionOf(job', last) == Accept
  {
    forall i | 0 <= i < last ensures GoesOn(job', i) {
      assert GoesOn(job, i);
      LooserAction(job, job', i);
      ActionMeans(job', i);
    }
    LooserAction(job, job', last);
  }

  lemma {:induction false} StopsOnce(job: Job, last: nat, last': nat)
    requires StopsAt(job, last) && StopsAt(job, last')
    ensures last == last'
  {
    forall i | 0 <= i < last || 0 <= i < last' ensures ActionOf(job, i) == Correct {
      assert GoesOn(job, i);
    }
  }

  lemma {:induction false} SameTurn(config: Config, config': Config, input: TurnInput)
    requires LooserLimits(config, config')
    ensures CleanTurn(config', input) <==> CleanTurn(config, input)
  {
    assert PolicyOf(config', input) == PolicyOf(config, input);
  }

  lemma {:induction false} LooserPasses(job: Job, job': Job, last: nat)
    requires Looser(job, job') && Passes(job, last)
    ensures Passes(job', last)
  {
    SameCost(job, job', last + 1);
    SameTurn(job.config, job'.config, job.inputs(last));
    assert WithinBudget(CostOf(job, last + 1), job.config.maxCost) ==>
           WithinBudget(CostOf(job, last + 1), job'.config.maxCost);
  }

  lemma {:induction false} LooserRun(job: Job, job': Job, last: nat, last': nat)
    requires Looser(job, job') && Reduced(job') && StopsAt(job, last) && StopsAt(job', last')
    requires ActionOf(job, last) == Accept
    ensures last' == last && ActionOf(job', last') == Accept
    ensures Passes(job, last) ==> Passes(job', last')
  {
    LooserStop(job, job', last);
    StopsOnce(job', last, last');
    if Passes(job, last) { LooserPasses(job, job', last); }
  }

  /** A run that ends in acceptance stops at the same turn under looser limits, accepted, and a pass stays a pass: the
      turn limit and the budget can only cut a run short. */
  lemma {:induction false} LooserLimitsKeepAcceptance(config: Config, config': Config, inputs: nat -> TurnInput,
                                                      last: nat, last': nat)
    requires LooserLimits(config, config')
    requires StopsAt(JobOf(config, inputs), last) && StopsAt(JobOf(config', inputs), last')
    requires ActionOf(JobOf(config, inputs), last) == Accept
    ensures last' == last && ActionOf(JobOf(config', inputs), last') == Accept
    ensures Passes(JobOf(config, inputs), last) ==> Passes(JobOf(config', inputs), last')
  {
    LooserJobs(config, config', inputs);
    JobIsReduced(config', inputs);
    LooserRun(JobOf(config, inputs), JobOf(config', inputs), last, last');
  }
}

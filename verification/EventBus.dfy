/** The `EventBus` of packages/core-events/src/index.ts.  Every stretch of code between two awaits is one
    atomic step; a run is any interleaving of such steps.  An event is known by its content hash `id` and,
    in the buffer, by its object identity `ref`. */
module EventBus {
  import opened Wrappers

  const KEEP_BUFFERED := 500

  datatype Config = Config(bufferCapacity: int, cacheSize: nat, ttlMs: int)

  datatype Event = Event(id: string, ref: nat)

  /** An idempotency entry, in insertion order of the cache. */
  datatype Seen = Seen(id: string, at: int)

  /** `active` lists the events whose handlers are being run, `started` counts handler invocations,
      `waiting` is the shutdown call that would be woken by the drain, `resolved` the ones that were,
      `drained` the ones that have ended other than by timeout. */
  datatype State = State(
    buffer: seq<Event>, cache: seq<Seen>, inflight: int, running: bool, shuttingDown: bool,
    waiting: Option<nat>, resolved: set<nat>, drained: set<nat>, active: seq<Event>, started: nat)

  /** `handled` says whether the kind of the dispatched event has handlers at that moment, `overflow`
      is the notice emitted instead when the buffer is full. */
  datatype Step =
    | Emit(event: Event, now: int, handled: bool, overflow: Event, overflowHandled: bool)
    | HandlerReturns(i: nat, more: bool)
    | DrainBuffer
    | Shutdown
    | GracefulShutdown(call: nat)
    | GracefulResume(call: nat)
    | GracefulTimeout

  datatype Answer = NotRunning | Overflowed | Duplicate | Accepted | Silent

  const INITIAL := State([], [], 0, true, false, None, {}, {}, [], 0)

  // ---------------------------------------------------------------- one step

  function DropOld(cache: seq<Seen>, cutoff: int): seq<Seen> {
    if cache == [] then [] else
    var rest := DropOld(cache[1..], cutoff);
    if cache[0].at < cutoff then rest else [cache[0]] + rest
  }

  function DropExcess(cache: seq<Seen>, size: nat): seq<Seen> {
    if |cache| > size then cache[|cache| - size..] else cache
  }

  function Trim(config: Config, cache: seq<Seen>, now: int): seq<Seen> {
    DropExcess(DropOld(cache, now - config.ttlMs), config.cacheSize)
  }

  predicate HasId(cache: seq<Seen>, id: string) {
    exists k :: 0 <= k < |cache| && cache[k].id == id
  }

  function Without(buffer: seq<Event>, e: Event): seq<Event> {
    if buffer == [] then [] else
    if buffer[0] == e then buffer[1..] else [buffer[0]] + Without(buffer[1..], e)
  }

  function Capped(buffer: seq<Event>): seq<Event> {
    if |buffer| > KEEP_BUFFERED then buffer[|buffer| - KEEP_BUFFERED..] else buffer
  }

  /** The synchronous beginning of `_process`. */
  function Begin(s: State, e: Event, handled: bool): State {
    if handled then s.(inflight := s.inflight + 1, active := s.active + [e], started := s.started + 1) else s
  }

  /** The `finally` block of `_process`. */
  function Finish(s: State, i: nat): State
    requires i < |s.active|
  {
    var left := if s.inflight - 1 > 0 then s.inflight - 1 else 0;
    s.(inflight := left,
       active := s.active[..i] + s.active[i + 1..],
       resolved := s.resolved + if s.shuttingDown && left == 0 && s.waiting.Some? then {s.waiting.value} else {},
       buffer := Capped(Without(s.buffer, s.active[i])))
  }

  function Apply(config: Config, s: State, step: Step): (State, Answer) {
    match step
    case Emit(e, now, handled, overflow, overflowHandled) =>
      if !s.running || s.shuttingDown then (s, NotRunning)
      else if |s.buffer| >= config.bufferCapacity then (Begin(s, overflow, overflowHandled), Overflowed)
      else if HasId(s.cache, e.id) then (s, Duplicate)
      else
        var s1 := s.(buffer := s.buffer + [e], cache := Trim(config, s.cache + [Seen(e.id, now)], now));
        (Begin(s1, e, handled), Accepted)
    case HandlerReturns(i, more) =>
      if i >= |s.active| then (s, Silent)
      else if more then (s.(started := s.started + 1), Silent)
      else (Finish(s, i), Silent)
    case DrainBuffer => (s.(buffer := []), Silent)
    case Shutdown => (s.(running := false, shuttingDown := true), Silent)
    case GracefulShutdown(call) =>
      if s.inflight == 0
      then (s.(shuttingDown := true, running := false, drained := s.drained + {call}), Silent)
      else (s.(shuttingDown := true, waiting := Some(call)), Silent)
    case GracefulResume(call) =>
      if call in s.resolved then (s.(running := false, drained := s.drained + {call}), Silent) else (s, Silent)
    case GracefulTimeout =>
      // only a shutdown in progress can time out
      if s.shuttingDown then (s.(running := false), Silent) else (s, Silent)
  }

  function Run(config: Config, steps: seq<Step>): State {
    if steps == [] then INITIAL else Apply(config, Run(config, steps[..|steps| - 1]), steps[|steps| - 1]).0
  }

  function Respond(config: Config, steps: seq<Step>, step: Step): Answer {
    Apply(config, Run(config, steps), step).1
  }

  // ---------------------------------------------------------------- accounting and drain

  /** What every interleaving keeps. */
  ghost predicate Accounted(config: Config, s: State) {
    && s.inflight == |s.active|
    && |s.buffer| <= (if config.bufferCapacity > 0 then config.bufferCapacity else 0)
    && |s.cache| <= config.cacheSize
    && (!s.running ==> s.shuttingDown)
    && (s.resolved != {} || s.drained != {} ==> s.shuttingDown && s.active == [])
    && (s.drained != {} ==> !s.running)
  }

  lemma {:induction false} WithoutShrinks(buffer: seq<Event>, e: Event)
    ensures |Without(buffer, e)| <= |buffer|
  {
    if buffer != [] { WithoutShrinks(buffer[1..], e); }
  }

  lemma {:induction false} StepAccounted(config: Config, s: State, step: Step)
    requires Accounted(config, s)
    ensures Accounted(config, Apply(config, s, step).0)
  {
    if step.HandlerReturns? && step.i < |s.active| {
      WithoutShrinks(s.buffer, s.active[step.i]);
    }
  }

  /** Under every interleaving the buffer stays within capacity, the cache within its size, and the in-flight
      counter is the number of dispatches begun and not finished, so the clamp at zero never acts. */
  lemma {:induction false} AlwaysAccounted(config: Config, steps: seq<Step>)
    ensures Accounted(config, Run(config, steps))
  {
    if steps != [] {
      AlwaysAccounted(config, steps[..|steps| - 1]);
      StepAccounted(config, Run(config, steps[..|steps| - 1]), steps[|steps| - 1]);
    }
  }

  lemma {:induction false} ClampNeverActs(config: Config, steps: seq<Step>, i: nat)
    requires i < |Run(config, steps).active|
    ensures Finish(Run(config, steps), i).inflight == Run(config, steps).inflight - 1
  {
    AlwaysAccounted(config, steps);
  }

  lemma {:induction false} QuietStep(config: Config, s: State, step: Step)
    requires Accounted(config, s) && s.shuttingDown && s.active == []
    ensures var s' := Apply(config, s, step).0;
      s'.shuttingDown && s'.active == [] && s'.started == s.started && s.drained <= s'.drained
  {
  }

  lemma {:induction false} LastStep(config: Config, steps: seq<Step>, later: seq<Step>)
    requires later != []
    ensures var m := |later| - 1;
      Run(config, steps + later) == Apply(config, Run(config, steps + later[..m]), later[m]).0
  {
    assert (steps + later)[..|steps| + |later| - 1] == steps + later[..|later| - 1];
  }

  /** Once a graceful shutdown has ended other than by timeout, no handler is running and, whatever happens
      afterwards, none ever starts. */
  lemma {:induction false} DrainedForever(config: Config, steps: seq<Step>, call: nat, later: seq<Step>)
    requires call in Run(config, steps).drained
    ensures var s, s' := Run(config, steps), Run(config, steps + later);
      s'.active == [] && s'.inflight == 0 && s'.started == s.started && s'.shuttingDown && !s'.running
  {
    AlwaysAccounted(config, steps + later);
    if later == [] {
      assert steps + later == steps;
    } else {
      var m := |later| - 1;
      DrainedForever(config, steps, call, later[..m]);
      LastStep(config, steps, later);
      AlwaysAccounted(config, steps + later[..m]);
      QuietStep(config, Run(config, steps + later[..m]), later[m]);
      RunningStaysOff(config, Run(config, steps + later[..m]), later[m]);
    }
  }

  lemma {:induction false} RunningStaysOff(config: Config, s: State, step: Step)
    requires !s.running
    ensures !Apply(config, s, step).0.running
  {
  }

  // ---------------------------------------------------------------- dispatches, counted on the steps

  /** The dispatch that a step begins, if it begins one. */
  function BegunBy(step: Step, answer: Answer): seq<Event> {
    if step.Emit? && answer == Accepted && step.handled then [step.event]
    else if step.Emit? && answer == Overflowed && step.overflowHandled then [step.overflow]
    else []
  }

  /** The events of all dispatches begun. */
  function Begun(config: Config, steps: seq<Step>): seq<Event> {
    if steps == [] then [] else
    var front, step := steps[..|steps| - 1], steps[|steps| - 1];
    Begun(config, front) + BegunBy(step, Respond(config, front, step))
  }

  /** How many dispatches have had the return of their last handler. */
  function LastReturns(config: Config, steps: seq<Step>): int
    decreases |steps|, 0
  {
    if steps == [] then 0 else
    var front, step := steps[..|steps| - 1], steps[|steps| - 1];
    LastReturns(config, front) +
    if step.HandlerReturns? && !step.more && step.i < Open(config, front) then 1 else 0
  }

  /** How often a handler has returned with another one to follow. */
  function FurtherReturns(config: Config, steps: seq<Step>): int {
    if steps == [] then 0 else
    var front, step := steps[..|steps| - 1], steps[|steps| - 1];
    FurtherReturns(config, front) +
    if step.HandlerReturns? && step.more && step.i < Open(config, front) then 1 else 0
  }

  /** How many dispatches are open. */
  function Open(config: Config, steps: seq<Step>): int
    decreases |steps|, 1
  {
    |Begun(config, steps)| - LastReturns(config, steps)
  }

  /** The graceful shutdown that waits: the latest one that found a dispatch open. */
  function Waiter(config: Config, steps: seq<Step>): Option<nat> {
    if steps == [] then None else
    var front, step := steps[..|steps| - 1], steps[|steps| - 1];
    if step.GracefulShutdown? && Open(config, front) != 0 then Some(step.call) else Waiter(config, front)
  }

  /** One step, against the counts before it. */
  lemma {:induction false} StepCounted(config: Config, s: State, step: Step, open: int)
    requires Accounted(config, s) && s.inflight == open
    ensures var (s', answer) := Apply(config, s, step);
      var back := step.HandlerReturns? && step.i < open;
      && s'.inflight == open + |BegunBy(step, answer)| - (if back && !step.more then 1 else 0)
      && s'.started == s.started + |BegunBy(step, answer)| + (if back && step.more then 1 else 0)
      && s'.waiting == if step.GracefulShutdown? && open != 0 then Some(step.call) else s.waiting
  {
  }

  /** In-flight is the number of dispatches begun and without their last return, handlers are started once per
      dispatch and once per further return, and the waiting shutdown is the latest that found a dispatch open. */
  lemma {:induction false} DispatchesCounted(config: Config, steps: seq<Step>)
    ensures var s := Run(config, steps);
      && s.inflight == Open(config, steps) && s.started == |Begun(config, steps)| + FurtherReturns(config, steps)
      && s.waiting == Waiter(config, steps)
  {
    if steps != [] {
      var front := steps[..|steps| - 1];
      DispatchesCounted(config, front);
      AlwaysAccounted(config, front);
      StepCounted(config, Run(config, front), steps[|steps| - 1], Open(config, front));
    }
  }

  /** A graceful shutdown that has ended other than by timeout found every dispatch with its last return. */
  lemma {:induction false} DrainedMeansReturned(config: Config, steps: seq<Step>)
    requires Run(config, steps).drained != {}
    ensures |Begun(config, steps)| == LastReturns(config, steps)
  {
    DispatchesCounted(config, steps);
    AlwaysAccounted(config, steps);
  }

  lemma {:induction false} StepWakes(config: Config, s: State, step: Step)
    requires Accounted(config, s) && (s.waiting.Some? ==> s.shuttingDown)
    requires s.waiting.Some? && s.inflight == 0 ==> s.waiting.value in s.resolved
    ensures var s' := Apply(config, s, step).0;
      && (s'.waiting.Some? ==> s'.shuttingDown)
      && (s'.waiting.Some? && s'.inflight == 0 ==> s'.waiting.value in s'.resolved)
  {
  }

  /** The waiting shutdown is woken as soon as no dispatch is open. */
  lemma {:induction false} WaiterIsWoken(config: Config, steps: seq<Step>)
    ensures var s := Run(config, steps);
      && (s.waiting.Some? ==> s.shuttingDown)
      && (Waiter(config, steps).Some? && Open(config, steps) == 0 ==> Waiter(config, steps).value in s.resolved)
  {
    DispatchesCounted(config, steps);
    WokenWhenIdle(config, steps);
  }

  lemma {:induction false} WokenWhenIdle(config: Config, steps: seq<Step>)
    ensures var s := Run(config, steps);
      && (s.waiting.Some? ==> s.shuttingDown)
      && (s.waiting.Some? && s.inflight == 0 ==> s.waiting.value in s.resolved)
  {
    if steps != [] {
      var front := steps[..|steps| - 1];
      WokenWhenIdle(config, front);
      AlwaysAccounted(config, front);
      StepWakes(config, Run(config, front), steps[|steps| - 1]);
    }
  }

  // ---------------------------------------------------------------- the answer to an emit

  predicate Stops(step: Step) {
    step.Shutdown? || step.GracefulShutdown?
  }

  ghost predicate StopRequested(steps: seq<Step>) {
    exists i :: 0 <= i < |steps| && Stops(steps[i])
  }

  lemma {:induction false} StopStep(config: Config, s: State, step: Step)
    requires Accounted(config, s)
    ensures Apply(config, s, step).0.shuttingDown <==> s.shuttingDown || Stops(step)
  {
  }

  lemma {:induction false} StoppedIffRequested(config: Config, steps: seq<Step>)
    ensures Run(config, steps).shuttingDown <==> StopRequested(steps)
  {
    if steps != [] {
      var m := |steps| - 1;
      StoppedIffRequested(config, steps[..m]);
      AlwaysAccounted(config, steps[..m]);
      StopStep(config, Run(config, steps[..m]), steps[m]);
      assert forall i :: 0 <= i < m ==> steps[..m][i] == steps[i];
    }
  }

  // ---------------------------------------------------------------- what stays buffered

  /** The buffered events are in dispatch or never had a handler. */
  ghost predicate Covered(buffer: seq<Event>, active: seq<Event>, unhandled: seq<Event>) {
    multiset(buffer) <= multiset(active) + multiset(unhandled)
  }

  function UnhandledAfter(unhandled: seq<Event>, step: Step, answer: Answer): seq<Event> {
    if step.Emit? && answer == Accepted && !step.handled then unhandled + [step.event] else unhandled
  }

  /** Accepted events that had no handler: nothing ever takes them out of the buffer again. */
  function Unhandled(config: Config, steps: seq<Step>): seq<Event> {
    if steps == [] then [] else
    var front, step := steps[..|steps| - 1], steps[|steps| - 1];
    UnhandledAfter(Unhandled(config, front), step, Respond(config, front, step))
  }

  lemma {:induction false} RemoveAt(s: seq<Event>, i: nat)
    requires i < |s|
    ensures multiset(s[..i] + s[i + 1..]) == multiset(s) - multiset{s[i]}
  {
    assert s == s[..i] + [s[i]] + s[i + 1..];
  }

  lemma {:induction false} TakeFromRest(first: Event, rest: multiset<Event>, e: Event)
    requires first != e
    ensures multiset{first} + (rest - multiset{e}) == (multiset{first} + rest) - multiset{e}
  {
  }

  lemma {:induction false} Cons(first: Event, rest: seq<Event>)
    ensures multiset([first] + rest) == multiset{first} + multiset(rest)
  {
  }

  /** One occurrence goes, if there is one. */
  lemma {:induction false} WithoutRemovesOne(buffer: seq<Event>, e: Event)
    ensures multiset(Without(buffer, e)) == multiset(buffer) - multiset{e}
  {
    if buffer != [] {
      var first, rest := buffer[0], buffer[1..];
      assert buffer == [first] + rest;
      Cons(first, rest);
      if first != e {
        WithoutRemovesOne(rest, e);
        Cons(first, Without(rest, e));
        TakeFromRest(first, multiset(rest), e);
      }
    }
  }

  lemma {:induction false} SuffixFewer(s: seq<Event>, k: nat)
    requires k <= |s|
    ensures multiset(s[k..]) <= multiset(s)
  {
    assert s == s[..k] + s[k..];
  }

  lemma {:induction false} RemoveFromBoth(b: multiset<Event>, a: multiset<Event>, u: multiset<Event>, e: Event)
    requires b <= a + u && e in a
    ensures b - multiset{e} <= (a - multiset{e}) + u
  {
  }

  /** A finished dispatch takes its event out of both. */
  lemma {:induction false} TakeOut(buffer: seq<Event>, active: seq<Event>, i: nat, unhandled: multiset<Event>)
    requires i < |active| && multiset(buffer) <= multiset(active) + unhandled
    ensures multiset(Without(buffer, active[i])) <= multiset(active[..i] + active[i + 1..]) + unhandled
  {
    WithoutRemovesOne(buffer, active[i]);
    RemoveAt(active, i);
    RemoveFromBoth(multiset(buffer), multiset(active), unhandled, active[i]);
  }

  /** The latest 500 are kept. */
  lemma {:induction false} CappedIs(buffer: seq<Event>)
    ensures |Capped(buffer)| == (if |buffer| > 500 then 500 else |buffer|)
    ensures Capped(buffer) == buffer[|buffer| - |Capped(buffer)|..]
  {
  }

  lemma {:induction false} CappedFewer(buffer: seq<Event>)
    ensures multiset(Capped(buffer)) <= multiset(buffer)
  {
    SuffixFewer(buffer, |buffer| - |Capped(buffer)|);
    assert Capped(buffer) == buffer[|buffer| - |Capped(buffer)|..];
  }

  lemma {:induction false} FinishBuffer(s: State, i: nat, unhandled: multiset<Event>)
    requires i < |s.active| && multiset(s.buffer) <= multiset(s.active) + unhandled
    ensures multiset(Finish(s, i).buffer) <= multiset(Finish(s, i).active) + unhandled
  {
    TakeOut(s.buffer, s.active, i, unhandled);
    CappedFewer(Without(s.buffer, s.active[i]));
  }

  /** An accepted event is put into the buffer, and into dispatch or among the unhandled. */
  lemma {:induction false} PutIn(buffer: seq<Event>, active: seq<Event>, unhandled: seq<Event>, e: Event, handled: bool)
    requires Covered(buffer, active, unhandled)
    ensures if handled then Covered(buffer + [e], active + [e], unhandled)
            else Covered(buffer + [e], active, unhandled + [e])
  {
    AppendOne(buffer, e);
    AppendOne(active, e);
    AppendOne(unhandled, e);
  }

  lemma {:induction false} MoreActive(buffer: seq<Event>, active: seq<Event>, unhandled: seq<Event>, e: Event)
    requires Covered(buffer, active, unhandled)
    ensures Covered(buffer, active + [e], unhandled)
  {
    AppendOne(active, e);
  }

  lemma {:induction false} EmitEffect(config: Config, s: State, step: Step)
    requires step.Emit?
    ensures var (s', answer) := Apply(config, s, step);
      && s'.buffer == s.buffer + (if answer == Accepted then [step.event] else [])
      && s'.active == s.active + BegunBy(step, answer)
  {
  }

  lemma {:induction false} EmitBuffer(config: Config, s: State, step: Step, unhandled: seq<Event>)
    requires step.Emit? && Covered(s.buffer, s.active, unhandled)
    ensures var (s', answer) := Apply(config, s, step);
      Covered(s'.buffer, s'.active, UnhandledAfter(unhandled, step, answer))
  {
    EmitEffect(config, s, step);
    PutIn(s.buffer, s.active, unhandled, step.event, step.handled);
    MoreActive(s.buffer, s.active, unhandled, step.overflow);
  }

  lemma {:induction false} StepBuffer(config: Config, s: State, step: Step, unhandled: seq<Event>)
    requires Covered(s.buffer, s.active, unhandled)
    ensures var (s', answer) := Apply(config, s, step);
      Covered(s'.buffer, s'.active, UnhandledAfter(unhandled, step, answer))
  {
    if step.Emit? {
      EmitBuffer(config, s, step, unhandled);
    } else if step.HandlerReturns? && step.i < |s.active| && !step.more {
      FinishBuffer(s, step.i, multiset(unhandled));
    }
  }

  lemma {:induction false} AppendOne(s: seq<Event>, e: Event)
    ensures multiset(s + [e]) == multiset(s) + multiset{e}
  {
  }

  /** Every buffered event is being dispatched or never had a handler, counted with multiplicity.  So an idle bus
      whose events were all handled has an empty buffer. */
  lemma {:induction false} BufferedIsActiveOrUnhandled(config: Config, steps: seq<Step>)
    ensures var s := Run(config, steps);
      && Covered(s.buffer, s.active, Unhandled(config, steps))
      && (s.inflight == 0 && Unhandled(config, steps) == [] ==> s.buffer == [])
  {
    if steps != [] {
      BufferedIsActiveOrUnhandled(config, steps[..|steps| - 1]);
      StepBuffer(config, Run(config, steps[..|steps| - 1]), steps[|steps| - 1],
                 Unhandled(config, steps[..|steps| - 1]));
    }
    AlwaysAccounted(config, steps);
    var s := Run(config, steps);
    assert |multiset(s.buffer)| == |s.buffer|;
  }

  /** Every accepted event. */
  function AcceptedEvents(config: Config, steps: seq<Step>): seq<Event> {
    if steps == [] then [] else
    var front, step := steps[..|steps| - 1], steps[|steps| - 1];
    AcceptedEvents(config, front) + AcceptedBy(step, Respond(config, front, step))
  }

  function AcceptedBy(step: Step, answer: Answer): seq<Event> {
    if step.Emit? && answer == Accepted then [step.event] else []
  }

  /** The event whose dispatch a step ends, if it ends one. */
  function EndedBy(s: State, step: Step): seq<Event> {
    if step.HandlerReturns? && step.i < |s.active| && !step.more then [s.active[step.i]] else []
  }

  function EndedEvents(config: Config, steps: seq<Step>): seq<Event> {
    if steps == [] then [] else
    var front, step := steps[..|steps| - 1], steps[|steps| - 1];
    EndedEvents(config, front) + EndedBy(Run(config, front), step)
  }

  /** The buffer is never drained by hand nor cut to its last 500 events, and no notice is an emitted event. */
  ghost predicate Undisturbed(config: Config, steps: seq<Step>) {
    && config.bufferCapacity <= 500
    && (forall i :: 0 <= i < |steps| ==> !steps[i].DrainBuffer?)
    && (forall i, j :: 0 <= i < |steps| && 0 <= j < |steps| && steps[i].Emit? && steps[j].Emit? ==>
          steps[i].event != steps[j].overflow)
  }

  lemma {:induction false} ConcatMultiset(s: seq<Event>, t: seq<Event>)
    ensures multiset(s + t) == multiset(s) + multiset(t)
  {
  }

  /** The open dispatches after a step. */
  lemma {:induction false} OpenAfter(config: Config, s: State, step: Step)
    ensures var (s', answer) := Apply(config, s, step);
      if EndedBy(s, step) != [] then s'.active == s.active[..step.i] + s.active[step.i + 1..] && !step.Emit?
      else s'.active == s.active + BegunBy(step, answer)
  {
    if step.Emit? { EmitEffect(config, s, step); }
  }

  lemma {:induction false} MoveToEnded(active: seq<Event>, i: nat, ended: multiset<Event>)
    requires i < |active|
    ensures multiset(active[..i] + active[i + 1..]) + (ended + multiset([active[i]])) == multiset(active) + ended
  {
    RemoveAt(active, i);
    assert active[i] in multiset(active);
  }

  /** Dispatches begun are open or ended, event by event. */
  lemma {:induction false} StepActive(config: Config, s: State, step: Step, begun: multiset<Event>,
                                      ended: multiset<Event>)
    requires multiset(s.active) + ended == begun
    ensures var (s', answer) := Apply(config, s, step);
      multiset(s'.active) + (ended + multiset(EndedBy(s, step))) == begun + multiset(BegunBy(step, answer))
  {
    OpenAfter(config, s, step);
    if EndedBy(s, step) != [] {
      MoveToEnded(s.active, step.i, ended);
    } else {
      ConcatMultiset(s.active, BegunBy(step, Apply(config, s, step).1));
    }
  }

  lemma {:induction false} BegunAreOpenOrEnded(config: Config, steps: seq<Step>)
    ensures multiset(Run(config, steps).active) + multiset(EndedEvents(config, steps)) == multiset(Begun(config, steps))
  {
    if steps != [] {
      var front, step := steps[..|steps| - 1], steps[|steps| - 1];
      BegunAreOpenOrEnded(config, front);
      StepActive(config, Run(config, front), step, multiset(Begun(config, front)),
                 multiset(EndedEvents(config, front)));
      ConcatMultiset(EndedEvents(config, front), EndedBy(Run(config, front), step));
      ConcatMultiset(Begun(config, front), BegunBy(step, Respond(config, front, step)));
    }
  }

  /** No more dispatches of an emitted event are begun than acceptances of it. */
  lemma {:induction false} BegunWereAccepted(config: Config, steps: seq<Step>, e: Event)
    requires forall j :: 0 <= j < |steps| && steps[j].Emit? ==> steps[j].overflow != e
    ensures multiset(Begun(config, steps))[e] <= multiset(AcceptedEvents(config, steps))[e]
  {
    if steps != [] {
      var front, step := steps[..|steps| - 1], steps[|steps| - 1];
      BegunWereAccepted(config, front, e);
      ConcatMultiset(Begun(config, front), BegunBy(step, Respond(config, front, step)));
      ConcatMultiset(AcceptedEvents(config, front), AcceptedBy(step, Respond(config, front, step)));
    }
  }

  lemma {:induction false} PushAndTake(a: multiset<Event>, f: multiset<Event>, e: Event)
    ensures f[e] <= a[e] ==> (a + multiset{e}) - f == (a - f) + multiset{e}
    ensures (a - f) - multiset{e} == a - (f + multiset{e})
  {
  }

  /** The buffer after a step, unless it is drained or cut. */
  lemma {:induction false} BufferAfter(config: Config, s: State, step: Step)
    requires !step.DrainBuffer? && |s.buffer| <= KEEP_BUFFERED
    ensures var (s', answer) := Apply(config, s, step);
      if EndedBy(s, step) != [] then s'.buffer == Without(s.buffer, s.active[step.i]) && !step.Emit?
      else s'.buffer == s.buffer + AcceptedBy(step, answer)
  {
    if step.Emit? { EmitEffect(config, s, step); }
    if EndedBy(s, step) != [] { WithoutShrinks(s.buffer, s.active[step.i]); }
  }

  /** One step of an undisturbed buffer. */
  lemma {:induction false} StepUnfinished(config: Config, s: State, step: Step, accepted: multiset<Event>,
                                          ended: multiset<Event>)
    requires multiset(s.buffer) == accepted - ended && !step.DrainBuffer? && |s.buffer| <= KEEP_BUFFERED
    requires step.Emit? ==> ended[step.event] <= accepted[step.event]
    ensures var (s', answer) := Apply(config, s, step);
      multiset(s'.buffer) == (accepted + multiset(AcceptedBy(step, answer))) - (ended + multiset(EndedBy(s, step)))
  {
    BufferAfter(config, s, step);
    if EndedBy(s, step) != [] {
      WithoutRemovesOne(s.buffer, s.active[step.i]);
      PushAndTake(accepted, ended, s.active[step.i]);
    } else if step.Emit? {
      ConcatMultiset(s.buffer, AcceptedBy(step, Apply(config, s, step).1));
      PushAndTake(accepted, ended, step.event);
    }
  }

  /** An undisturbed buffer holds exactly the accepted events whose dispatch has not ended: one by one, an event stays
      from its acceptance until the last of its handlers has returned. */
  lemma {:induction false} BufferIsUnfinished(config: Config, steps: seq<Step>)
    requires Undisturbed(config, steps)
    ensures multiset(Run(config, steps).buffer) ==
            multiset(AcceptedEvents(config, steps)) - multiset(EndedEvents(config, steps))
  {
    if steps != [] {
      var front, step := steps[..|steps| - 1], steps[|steps| - 1];
      BufferIsUnfinished(config, front);
      AlwaysAccounted(config, front);
      if step.Emit? {
        BegunAreOpenOrEnded(config, front);
        BegunWereAccepted(config, front, step.event);
      }
      StepUnfinished(config, Run(config, front), step, multiset(AcceptedEvents(config, front)),
                     multiset(EndedEvents(config, front)));
      ConcatMultiset(AcceptedEvents(config, front), AcceptedBy(step, Respond(config, front, step)));
      ConcatMultiset(EndedEvents(config, front), EndedBy(Run(config, front), step));
    }
  }

  // ---------------------------------------------------------------- idempotency

  function Logged(log: seq<Seen>, step: Step, answer: Answer): seq<Seen> {
    if step.Emit? && answer == Accepted then log + [Seen(step.event.id, step.now)] else log
  }

  /** Every accepted event with its time, nothing forgotten. */
  function AcceptedLog(config: Config, steps: seq<Step>): seq<Seen> {
    if steps == [] then [] else
    var front, step := steps[..|steps| - 1], steps[|steps| - 1];
    Logged(AcceptedLog(config, front), step, Respond(config, front, step))
  }

  ghost predicate Sorted(log: seq<Seen>) {
    forall i, j :: 0 <= i < j < |log| ==> log[i].at <= log[j].at
  }

  /** Entry `j` is among the last `cacheSize` and was no older than the TTL at the latest acceptance. */
  ghost predicate Remembered(config: Config, log: seq<Seen>, j: int)
    requires 0 <= j < |log|
  {
    j >= |log| - config.cacheSize && log[j].at >= log[|log| - 1].at - config.ttlMs
  }

  /** The cache is the end of the log that starts at `from`, and holds exactly the remembered entries. */
  ghost predicate Caches(config: Config, cache: seq<Seen>, log: seq<Seen>, from: nat) {
    && Sorted(log) && from <= |log| && cache == log[from..]
    && (forall j :: 0 <= j < |log| ==> (from <= j <==> Remembered(config, log, j)))
  }

  lemma {:induction false} DropOldIsSuffix(cache: seq<Seen>, cutoff: int) returns (k: nat)
    requires Sorted(cache)
    ensures k <= |cache| && DropOld(cache, cutoff) == cache[k..]
    ensures forall j :: 0 <= j < |cache| ==> (k <= j <==> cache[j].at >= cutoff)
  {
    if cache == [] {
      k := 0;
    } else {
      k := DropOldIsSuffix(cache[1..], cutoff);
      assert forall j :: 1 <= j < |cache| ==> cache[j] == cache[1..][j - 1];
      if cache[0].at < cutoff { k := k + 1; }
    }
  }

  lemma {:induction false} TrimIsSuffix(config: Config, cache: seq<Seen>, now: int) returns (k: nat)
    requires Sorted(cache)
    ensures k <= |cache| && Trim(config, cache, now) == cache[k..]
    ensures forall j :: 0 <= j < |cache| ==>
              (k <= j <==> cache[j].at >= now - config.ttlMs && j >= |cache| - config.cacheSize)
  {
    k := DropOldIsSuffix(cache, now - config.ttlMs);
    if |cache| - k > config.cacheSize {
      assert cache[k..][|cache| - k - config.cacheSize..] == cache[|cache| - config.cacheSize..];
      k := |cache| - config.cacheSize;
    }
  }

  /** What is forgotten stays forgotten. */
  lemma {:induction false} StaysForgotten(config: Config, log: seq<Seen>, x: Seen, j: nat)
    requires j < |log| && !Remembered(config, log, j) && log[|log| - 1].at <= x.at
    ensures !Remembered(config, log + [x], j)
  {
  }

  /** Trimming after an insertion keeps exactly what the longer log says is remembered. */
  lemma {:induction false} TrimCaches(config: Config, cache: seq<Seen>, log: seq<Seen>, from: nat, x: Seen)
    returns (from': nat)
    requires Caches(config, cache, log, from) && forall j :: 0 <= j < |log| ==> log[j].at <= x.at
    ensures Caches(config, Trim(config, cache + [x], x.at), log + [x], from')
  {
    var log', all := log + [x], cache + [x];
    assert Sorted(log');
    assert all == log'[from..];
    var k := TrimIsSuffix(config, all, x.at);
    from' := from + k;
    assert log'[from..][k..] == log'[from'..];
    forall j | 0 <= j < |log'| ensures from' <= j <==> Remembered(config, log', j) {
      if j < from {
        StaysForgotten(config, log, x, j);
      } else {
        assert all[j - from] == log'[j];
      }
    }
  }

  ghost predicate Monotone(steps: seq<Step>) {
    forall i, j :: 0 <= i < j < |steps| && steps[i].Emit? && steps[j].Emit? ==> steps[i].now <= steps[j].now
  }

  lemma {:induction false} StepCaches(config: Config, s: State, log: seq<Seen>, from: nat, step: Step)
    returns (from': nat)
    requires Caches(config, s.cache, log, from)
    requires step.Emit? ==> forall j :: 0 <= j < |log| ==> log[j].at <= step.now
    ensures Caches(config, Apply(config, s, step).0.cache, Logged(log, step, Apply(config, s, step).1), from')
  {
    from' := from;
    if step.Emit? && Apply(config, s, step).1 == Accepted {
      from' := TrimCaches(config, s.cache, log, from, Seen(step.event.id, step.now));
    }
  }

  lemma {:induction false} LogNotAfter(config: Config, steps: seq<Step>, t: int)
    requires forall i :: 0 <= i < |steps| && steps[i].Emit? ==> steps[i].now <= t
    ensures forall j :: 0 <= j < |AcceptedLog(config, steps)| ==> AcceptedLog(config, steps)[j].at <= t
  {
    if steps != [] {
      var front, step := steps[..|steps| - 1], steps[|steps| - 1];
      LogNotAfter(config, front, t);
      assert AcceptedLog(config, steps) == Logged(AcceptedLog(config, front), step, Respond(config, front, step));
    }
  }

  lemma {:induction false} MonotoneFront(steps: seq<Step>)
    requires Monotone(steps) && steps != []
    ensures var front, step := steps[..|steps| - 1], steps[|steps| - 1];
      Monotone(front) && (step.Emit? ==> forall i :: 0 <= i < |front| && front[i].Emit? ==> front[i].now <= step.now)
  {
  }

  lemma {:induction false} RunCaches(config: Config, steps: seq<Step>) returns (from: nat)
    requires Monotone(steps)
    ensures Caches(config, Run(config, steps).cache, AcceptedLog(config, steps), from)
  {
    if steps == [] {
      from := 0;
    } else {
      var front, step := steps[..|steps| - 1], steps[|steps| - 1];
      MonotoneFront(steps);
      var log := AcceptedLog(config, front);
      from := RunCaches(config, front);
      if step.Emit? {
        LogNotAfter(config, front, step.now);
      }
      from := StepCaches(config, Run(config, front), log, from, step);
    }
  }

  /** Some remembered entry of the log carries the id. */
  ghost predicate Recalls(config: Config, log: seq<Seen>, id: string) {
    exists j :: 0 <= j < |log| && log[j].id == id && Remembered(config, log, j)
  }

  lemma {:induction false} CachedIffRecalled(config: Config, cache: seq<Seen>, log: seq<Seen>, from: nat, id: string)
    requires Caches(config, cache, log, from)
    ensures HasId(cache, id) <==> Recalls(config, log, id)
  {
    if HasId(cache, id) {
      var k :| 0 <= k < |cache| && cache[k].id == id;
      assert log[from + k] == cache[k] && Remembered(config, log, from + k);
    }
    if Recalls(config, log, id) {
      var j :| 0 <= j < |log| && log[j].id == id && Remembered(config, log, j);
      assert cache[j - from] == log[j];
    }
  }

  /** With a nondecreasing clock, an event that reaches the duplicate test is refused exactly when an entry with
      its id is among the last `cacheSize` accepted and was within the TTL at the latest acceptance. */
  lemma {:induction false} DuplicateIffRecalled(config: Config, steps: seq<Step>, step: Step)
    requires Monotone(steps) && step.Emit?
    requires Respond(config, steps, step) == Accepted || Respond(config, steps, step) == Duplicate
    ensures Respond(config, steps, step) == Duplicate <==> Recalls(config, AcceptedLog(config, steps), step.event.id)
  {
    var from := RunCaches(config, steps);
    CachedIffRecalled(config, Run(config, steps).cache, AcceptedLog(config, steps), from, step.event.id);
    AnswerByCache(config, Run(config, steps), step);
  }

  lemma {:induction false} AnswerByCache(config: Config, s: State, step: Step)
    requires step.Emit?
    ensures Apply(config, s, step).1 == Duplicate ==> HasId(s.cache, step.event.id)
    ensures Apply(config, s, step).1 == Accepted ==> !HasId(s.cache, step.event.id)
  {
  }

  /** The answer to every emit: refused once a shutdown was requested, answered by a notice while the buffer is full,
      refused as a duplicate while the id is recalled, accepted otherwise. */
  lemma {:induction false} AnswerIs(config: Config, steps: seq<Step>, step: Step)
    requires Monotone(steps) && step.Emit?
    ensures Respond(config, steps, step) ==
      if StopRequested(steps) then NotRunning
      else if |Run(config, steps).buffer| >= config.bufferCapacity then Overflowed
      else if Recalls(config, AcceptedLog(config, steps), step.event.id) then Duplicate
      else Accepted
  {
    StoppedIffRequested(config, steps);
    AlwaysAccounted(config, steps);
    var from := RunCaches(config, steps);
    CachedIffRecalled(config, Run(config, steps).cache, AcceptedLog(config, steps), from, step.event.id);
  }

  /** An accepted event is not accepted again while its age is at most the TTL and fewer than `cacheSize`
      events have been accepted after it. */
  lemma {:induction false} NeverRedispatched(config: Config, steps: seq<Step>, step: Step, j: nat)
    requires Monotone(steps + [step]) && step.Emit?
    requires var log := AcceptedLog(config, steps);
      && j < |log| && log[j].id == step.event.id
      && step.now - log[j].at <= config.ttlMs && |log| - 1 - j < config.cacheSize
    ensures Respond(config, steps, step) != Accepted
  {
    var run, log := steps + [step], AcceptedLog(config, steps);
    assert run[..|steps|] == steps && run[|steps|] == step;
    MonotoneFront(run);
    LogNotAfter(config, steps, step.now);
    assert Remembered(config, log, j);
    if Respond(config, steps, step) == Accepted { DuplicateIffRecalled(config, steps, step); }
  }

  // ---------------------------------------------------------------- the class

  class Bus {
    const config: Config
    var buffer: seq<Event>
    var cache: seq<Seen>
    var inflight: int
    var running: bool
    var shuttingDown: bool
    var waiting: Option<nat>
    ghost var resolved: set<nat>
    ghost var drained: set<nat>
    ghost var active: seq<Event>
    ghost var started: nat

    ghost function Model(): State
      reads this
    {
      State(buffer, cache, inflight, running, shuttingDown, waiting, resolved, drained, active, started)
    }

    constructor (config: Config)
      ensures this.config == config && Model() == Run(config, [])
    {
      this.config := config;
      buffer, cache, inflight, running, shuttingDown, waiting := [], [], 0, true, false, None;
      resolved, drained, active, started := {}, {}, [], 0;
    }

    method TrimIdempotency(now: int)
      modifies this`cache
      ensures cache == Trim(config, old(cache), now)
    {
      var cutoff := now - config.ttlMs;
      var kept: seq<Seen> := [];
      for i := 0 to |cache|
        invariant cache == old(cache)
        invariant DropOld(cache, cutoff) == kept + DropOld(cache[i..], cutoff)
      {
        assert cache[i..][0] == cache[i] && cache[i..][1..] == cache[i + 1..];
        if cache[i].at >= cutoff { kept := kept + [cache[i]]; }
      }
      cache := kept;
      while |cache| > config.cacheSize
        invariant DropExcess(cache, config.cacheSize) == DropExcess(kept, config.cacheSize)
      {
        cache := cache[1..];
      }
    }

    method KnowsId(id: string) returns (known: bool)
      ensures known <==> HasId(cache, id)
    {
      for k := 0 to |cache|
        invariant forall m :: 0 <= m < k ==> cache[m].id != id
      {
        if cache[k].id == id { return true; }
      }
      return false;
    }

    method BeginDispatch(e: Event, handled: bool)
      modifies this`inflight, this`active, this`started
      ensures Model() == Begin(old(Model()), e, handled)
    {
      if handled {
        inflight := inflight + 1;
        active, started := active + [e], started + 1;
      }
    }

    method Emit(e: Event, now: int, handled: bool, overflow: Event, overflowHandled: bool) returns (answer: Answer)
      modifies this
      ensures (Model(), answer) == Apply(config, old(Model()), Step.Emit(e, now, handled, overflow, overflowHandled))
    {
      if !running || shuttingDown { return NotRunning; }
      if |buffer| >= config.bufferCapacity {
        BeginDispatch(overflow, overflowHandled);
        return Overflowed;
      }
      var known := KnowsId(e.id);
      if known { return Duplicate; }
      buffer := buffer + [e];
      cache := cache + [Seen(e.id, now)];
      TrimIdempotency(now);
      BeginDispatch(e, handled);
      return Accepted;
    }

    /** `indexOf` and `splice`: the first occurrence goes. */
    method RemoveFromBuffer(e: Event)
      modifies this`buffer
      ensures buffer == Without(old(buffer), e)
    {
      for i := 0 to |buffer|
        invariant buffer == old(buffer)
        invariant Without(buffer, e) == buffer[..i] + Without(buffer[i..], e)
      {
        assert buffer[i..][0] == buffer[i] && buffer[i..][1..] == buffer[i + 1..];
        if buffer[i] == e {
          buffer := buffer[..i] + buffer[i + 1..];
          return;
        }
      }
    }

    /** The handler of dispatch `i` returned; `more` says whether another handler of the event follows. */
    method HandlerReturned(e: Event, more: bool, ghost i: nat)
      requires i < |active| && active[i] == e
      modifies this
      ensures Model() == Apply(config, old(Model()), HandlerReturns(i, more)).0
    {
      if more {
        started := started + 1;
        return;
      }
      inflight := if inflight - 1 > 0 then inflight - 1 else 0;
      active := active[..i] + active[i + 1..];
      if shuttingDown && inflight == 0 && waiting.Some? {
        resolved := resolved + {waiting.value};
      }
      LeaveBuffer(e);
    }

    method LeaveBuffer(e: Event)
      modifies this`buffer
      ensures buffer == Capped(Without(old(buffer), e))
    {
      RemoveFromBuffer(e);
      if |buffer| > KEEP_BUFFERED {
        buffer := buffer[|buffer| - KEEP_BUFFERED..];
      }
    }

    method DrainBuffer()
      modifies this`buffer
      ensures Model() == Apply(config, old(Model()), Step.DrainBuffer).0
    {
      buffer := [];
    }

    method Shutdown()
      modifies this`running, this`shuttingDown
      ensures Model() == Apply(config, old(Model()), Step.Shutdown).0
    {
      running, shuttingDown := false, true;
    }

    /** Up to its await; `ended` says that nothing was in flight and the call has returned. */
    method GracefulShutdown(call: nat) returns (ended: bool)
      modifies this
      ensures Model() == Apply(config, old(Model()), Step.GracefulShutdown(call)).0
      ensures ended <==> old(inflight) == 0
    {
      shuttingDown := true;
      if inflight == 0 {
        running, drained := false, drained + {call};
        return true;
      }
      waiting := Some(call);
      return false;
    }

    /** The rest of a graceful shutdown that the last handler to finish has woken. */
    method GracefulResumed(ghost call: nat)
      requires call in resolved
      modifies this`running, this`drained
      ensures Model() == Apply(config, old(Model()), Step.GracefulResume(call)).0
    {
      running := false;
      drained := drained + {call};
    }

    /** The rest of a graceful shutdown whose time is up. */
    method GracefulTimedOut()
      requires shuttingDown
      modifies this`running
      ensures Model() == Apply(config, old(Model()), Step.GracefulTimeout).0
    {
      running := false;
    }
  }
}

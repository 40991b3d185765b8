/** The FIFO slot limiter of packages/model-client/src/model-client.ts.  A waiter is the callback that
    `acquire` queues; it is granted when `release` calls it. */
module Concurrency {
  type Waiter = nat

  datatype State = State(running: int, queue: seq<Waiter>)

  datatype Op = Acquire(who: Waiter) | Release

  /** The new state, and who obtains a slot in this step. */
  function Apply(max: nat, s: State, op: Op): (State, seq<Waiter>) {
    match op
    case Acquire(who) =>
      if s.running < max then (s.(running := s.running + 1), [who]) else (s.(queue := s.queue + [who]), [])
    case Release =>
      if s.queue == [] then (s.(running := s.running - 1), [])
      else (State(s.running - 1 + 1, s.queue[1..]), [s.queue[0]])
  }

  function Run(max: nat, ops: seq<Op>): State {
    if ops == [] then State(0, []) else Apply(max, Run(max, ops[..|ops| - 1]), ops[|ops| - 1]).0
  }

  /** Everyone granted a slot, in order. */
  function Grants(max: nat, ops: seq<Op>): seq<Waiter> {
    if ops == [] then [] else
    var front := ops[..|ops| - 1];
    Grants(max, front) + Apply(max, Run(max, front), ops[|ops| - 1]).1
  }

  /** Everyone who asked, in order. */
  function Arrivals(ops: seq<Op>): seq<Waiter> {
    if ops == [] then [] else
    var op := ops[|ops| - 1];
    Arrivals(ops[..|ops| - 1]) + if op.Acquire? then [op.who] else []
  }

  function Releases(ops: seq<Op>): nat {
    if ops == [] then 0 else Releases(ops[..|ops| - 1]) + if ops[|ops| - 1].Release? then 1 else 0
  }

  /** Every release gives back a slot that was granted before and not yet given back. */
  ghost predicate Paired(max: nat, ops: seq<Op>) {
    forall i :: 0 <= i < |ops| && ops[i].Release? ==> Releases(ops[..i]) < |Grants(max, ops[..i])|
  }

  /** Slots held are between 0 and the maximum, someone waits only when all are held, and those granted
      followed by those waiting are exactly the arrivals. */
  ghost predicate Fair(max: nat, s: State, grants: seq<Waiter>, arrivals: seq<Waiter>, releases: nat) {
    && s.running == |grants| - releases && 0 <= s.running <= max
    && (s.queue != [] ==> s.running == max)
    && grants + s.queue == arrivals
  }

  lemma {:induction false} StepFair(max: nat, s: State, grants: seq<Waiter>, arrivals: seq<Waiter>, releases: nat,
                                    op: Op)
    requires Fair(max, s, grants, arrivals, releases) && (op.Release? ==> releases < |grants|)
    ensures var (s', granted) := Apply(max, s, op);
      Fair(max, s', grants + granted, arrivals + (if op.Acquire? then [op.who] else []),
           releases + if op.Release? then 1 else 0)
  {
    var (s', granted) := Apply(max, s, op);
    if op.Acquire? {
      if s.running < max {
        assert s.queue == [] && grants + s.queue == grants;
      } else {
        assert grants + [] + (s.queue + [op.who]) == arrivals + [op.who];
      }
    } else if s.queue != [] {
      assert s.queue == [s.queue[0]] + s.queue[1..];
      assert grants + [s.queue[0]] + s.queue[1..] == arrivals;
      assert arrivals + [] == arrivals;
    }
  }

  /** In every paired run grants are strictly first come, first served: nobody overtakes a waiter. */
  lemma {:induction false} FirstComeFirstServed(max: nat, ops: seq<Op>)
    requires Paired(max, ops)
    ensures Fair(max, Run(max, ops), Grants(max, ops), Arrivals(ops), Releases(ops))
  {
    if ops != [] {
      var front := ops[..|ops| - 1];
      assert forall i :: 0 <= i < |front| ==> front[..i] == ops[..i];
      FirstComeFirstServed(max, front);
      StepFair(max, Run(max, front), Grants(max, front), Arrivals(front), Releases(front), ops[|ops| - 1]);
    }
  }

  /** `releases` slots have been handed on to the head of the queue `q` and nothing else was granted. */
  ghost predicate HandedOn(max: nat, s: State, grants: seq<Waiter>, before: seq<Waiter>, q: seq<Waiter>,
                           releases: nat, arrived: seq<Waiter>) {
    releases <= |q| ==>
      s.running == max && s.queue == q[releases..] + arrived && grants == before + q[..releases]
  }

  lemma {:induction false} StepHandsOn(max: nat, s: State, grants: seq<Waiter>, before: seq<Waiter>, q: seq<Waiter>,
                                       releases: nat, arrived: seq<Waiter>, op: Op)
    requires HandedOn(max, s, grants, before, q, releases, arrived)
    ensures var (s', granted) := Apply(max, s, op);
      HandedOn(max, s', grants + granted, before, q, releases + (if op.Release? then 1 else 0),
               arrived + if op.Acquire? then [op.who] else [])
  {
    var (s', granted) := Apply(max, s, op);
    if op.Acquire? {
      if releases <= |q| {
        assert q[releases..] + arrived + [op.who] == q[releases..] + (arrived + [op.who]);
        assert grants + [] == grants;
      }
    } else if releases < |q| {
      assert s.queue[0] == q[releases];
      assert s.queue[1..] == q[releases + 1..] + arrived;
      assert q[..releases + 1] == q[..releases] + [q[releases]];
      assert before + q[..releases] + [q[releases]] == before + q[..releases + 1];
      assert arrived + [] == arrived;
    }
  }

  lemma {:induction false} QueueServedInOrder(max: nat, ops: seq<Op>, more: seq<Op>)
    requires Paired(max, ops) && Run(max, ops).queue != []
    ensures HandedOn(max, Run(max, ops + more), Grants(max, ops + more), Grants(max, ops), Run(max, ops).queue,
                     Releases(more), Arrivals(more))
  {
    if more == [] {
      FirstComeFirstServed(max, ops);
      assert ops + more == ops;
    } else {
      var front := more[..|more| - 1];
      QueueServedInOrder(max, ops, front);
      assert (ops + more)[..|ops + more| - 1] == ops + front && (ops + more)[|ops + more| - 1] == more[|more| - 1];
      StepHandsOn(max, Run(max, ops + front), Grants(max, ops + front), Grants(max, ops), Run(max, ops).queue,
                  Releases(front), Arrivals(front), more[|more| - 1]);
    }
  }

  lemma {:induction false} GrantsGrow(max: nat, ops: seq<Op>, op: Op)
    ensures Grants(max, ops) <= Grants(max, ops + [op])
  {
    assert (ops + [op])[..|ops|] == ops;
  }

  /** The waiter at position `p` obtains its slot, as the `p`-th grant from now, with the `(p+1)`-th later
      release and not before. */
  lemma {:induction false} GrantedByRelease(max: nat, ops: seq<Op>, more: seq<Op>, p: nat)
    requires Paired(max, ops) && p < |Run(max, ops).queue|
    ensures var n := |Grants(max, ops)|;
      && (Releases(more) > p <==> |Grants(max, ops + more)| > n + p)
      && (Releases(more) > p ==> Grants(max, ops + more)[n + p] == Run(max, ops).queue[p])
  {
    if Releases(more) <= |Run(max, ops).queue| {
      QueueServedInOrder(max, ops, more);
    } else {
      var front, last := more[..|more| - 1], more[|more| - 1];
      GrantedByRelease(max, ops, front, p);
      GrantsGrow(max, ops + front, last);
      assert ops + more == ops + front + [last];
    }
  }

  class Limiter {
    const maxConcurrent: nat
    var running: int
    var queue: seq<Waiter>

    ghost function Model(): State
      reads this
    {
      State(running, queue)
    }

    constructor (maxConcurrent: nat)
      ensures this.maxConcurrent == maxConcurrent && Model() == Run(maxConcurrent, [])
    {
      this.maxConcurrent, running, queue := maxConcurrent, 0, [];
    }

    /** Returns whether the slot is obtained at once. */
    method Acquire(who: Waiter) returns (immediate: bool)
      modifies this
      ensures (Model(), if immediate then [who] else []) == Apply(maxConcurrent, old(Model()), Op.Acquire(who))
    {
      if running < maxConcurrent {
        running := running + 1;
        return true;
      }
      queue := queue + [who];
      return false;
    }

    /** Returns who is resumed, if anyone. */
    method Release() returns (resumed: seq<Waiter>)
      modifies this
      ensures (Model(), resumed) == Apply(maxConcurrent, old(Model()), Op.Release)
    {
      running := running - 1;
      if queue == [] { return []; }
      var next := queue[0];
      queue := queue[1..];
      running := running + 1;
      return [next];
    }
  }
}

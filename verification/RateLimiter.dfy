/** The sliding-window `RateLimiter` of packages/core-enterprise/src/quotas.ts.  Time is an argument;
    a run is a list of operations, and the plain log of what a run allowed is the reference. */
module RateLimiting {
  const CLEANUP_INTERVAL_MS := 60_000
  const STALE_AFTER_MS := 3_600_000

  datatype Config = Config(maxRequests: int, windowMs: int)

  datatype Bucket = Bucket(timestamp: int, count: int)

  type Windows = map<string, seq<Bucket>>

  datatype State = State(windows: Windows, lastCleanup: int)

  datatype Op =
    | Check(key: string, config: Config, now: int)
    | GetCurrentCount(key: string, windowMs: int, now: int)
    | Reset(key: string)
    | Cleanup(now: int)

  datatype Answer = Allowed | Denied(current: int) | Count(count: int) | Done

  // ---------------------------------------------------------------- one operation

  function Recent(buckets: seq<Bucket>, cutoff: int): seq<Bucket> {
    if buckets == [] then [] else
    var front, b := Recent(buckets[..|buckets| - 1], cutoff), buckets[|buckets| - 1];
    if b.timestamp > cutoff then front + [b] else front
  }

  function Total(buckets: seq<Bucket>): int {
    if buckets == [] then 0 else Total(buckets[..|buckets| - 1]) + buckets[|buckets| - 1].count
  }

  function Stored(w: Windows, key: string): seq<Bucket> {
    if key in w then w[key] else []
  }

  /** Empty lists are not kept. */
  function Put(w: Windows, key: string, buckets: seq<Bucket>): Windows {
    if buckets == [] then w - {key} else w[key := buckets]
  }

  function DropStale(w: Windows, now: int): Windows {
    map key | key in w && Recent(w[key], now - STALE_AFTER_MS) != [] :: Recent(w[key], now - STALE_AFTER_MS)
  }

  function CheckStep(s: State, key: string, config: Config, now: int): (State, Answer) {
    var live := Recent(Stored(s.windows, key), now - config.windowMs);
    if Total(live) >= config.maxRequests then
      (s.(windows := Put(s.windows, key, live)), Denied(Total(live)))
    else
      var w := s.windows[key := live + [Bucket(now, 1)]];
      if now - s.lastCleanup > CLEANUP_INTERVAL_MS
      then (State(DropStale(w, now), now), Allowed)
      else (s.(windows := w), Allowed)
  }

  function Apply(s: State, op: Op): (State, Answer) {
    match op
    case Check(key, config, now) => CheckStep(s, key, config, now)
    case GetCurrentCount(key, windowMs, now) =>
      (s, Count(Total(Recent(Stored(s.windows, key), now - windowMs))))
    case Reset(key) => (s.(windows := s.windows - {key}), Done)
    case Cleanup(now) => (s.(windows := DropStale(s.windows, now)), Done)
  }

  function RunState(ops: seq<Op>): State {
    if ops == [] then State(map[], 0) else Apply(RunState(ops[..|ops| - 1]), ops[|ops| - 1]).0
  }

  /** What the limiter answers to `op` after the run `ops`. */
  function Respond(ops: seq<Op>, op: Op): Answer {
    Apply(RunState(ops), op).1
  }

  // ---------------------------------------------------------------- the reference: an unpruned log

  /** The log of `key` after one more operation and its answer. */
  function Logged(log: seq<int>, op: Op, answer: Answer, key: string): seq<int> {
    if op.Check? && op.key == key && answer == Allowed then log + [op.now]
    else if op.Reset? && op.key == key then []
    else log
  }

  /** The times at which `key` was allowed since its last reset. */
  function AllowedLog(ops: seq<Op>, key: string): seq<int> {
    if ops == [] then [] else
    var front, op := ops[..|ops| - 1], ops[|ops| - 1];
    Logged(AllowedLog(front, key), op, Respond(front, op), key)
  }

  function CountAfter(log: seq<int>, cutoff: int): nat {
    if log == [] then 0 else
    CountAfter(log[..|log| - 1], cutoff) + if log[|log| - 1] > cutoff then 1 else 0
  }

  /** The entries in the half-open window `(t - windowMs, t]`. */
  function CountWindow(log: seq<int>, windowMs: int, t: int): nat {
    if log == [] then 0 else
    CountWindow(log[..|log| - 1], windowMs, t) + if t - windowMs < log[|log| - 1] <= t then 1 else 0
  }

  function Buckets(log: seq<int>): seq<Bucket> {
    if log == [] then [] else Buckets(log[..|log| - 1]) + [Bucket(log[|log| - 1], 1)]
  }

  /** The answer that a log calls for. */
  ghost predicate Faithful(answer: Answer, log: seq<int>, op: Op) {
    match op
    case Check(_, config, now) =>
      var n := CountAfter(log, now - config.windowMs);
      answer == if n < config.maxRequests then Allowed else Denied(n)
    case GetCurrentCount(_, windowMs, now) => answer == Count(CountAfter(log, now - windowMs))
    case Reset(_) => true
    case Cleanup(_) => true
  }

  /** The limiter's answer is the one the log gives. */
  ghost predicate Exact(ops: seq<Op>, op: Op) {
    (op.Check? || op.GetCurrentCount?) ==> Faithful(Respond(ops, op), AllowedLog(ops, op.key), op)
  }

  // ---------------------------------------------------------------- lists of buckets

  lemma {:induction false} AppendBucket(buckets: seq<Bucket>, b: Bucket, cutoff: int)
    ensures Recent(buckets + [b], cutoff) == Recent(buckets, cutoff) + if b.timestamp > cutoff then [b] else []
    ensures Total(buckets + [b]) == Total(buckets) + b.count
  {
    assert (buckets + [b])[..|buckets|] == buckets;
  }

  /** Pruning at an earlier cutoff is invisible at a later one. */
  lemma {:induction false} RecentOfRecent(buckets: seq<Bucket>, c: int, c': int)
    requires c <= c'
    ensures Recent(Recent(buckets, c), c') == Recent(buckets, c')
  {
    if buckets != [] {
      var front, b := buckets[..|buckets| - 1], buckets[|buckets| - 1];
      RecentOfRecent(front, c, c');
      if b.timestamp > c { AppendBucket(Recent(front, c), b, c'); }
    }
  }

  lemma {:induction false} RecentKeepsAll(buckets: seq<Bucket>, cutoff: int)
    ensures |Recent(buckets, cutoff)| <= |buckets|
    ensures |Recent(buckets, cutoff)| == |buckets| ==> Recent(buckets, cutoff) == buckets
  {
    if buckets != [] {
      RecentKeepsAll(buckets[..|buckets| - 1], cutoff);
    }
  }

  lemma {:induction false} RecentOfLog(log: seq<int>, cutoff: int)
    ensures Total(Recent(Buckets(log), cutoff)) == CountAfter(log, cutoff)
  {
    if log != [] {
      var front, b := Buckets(log[..|log| - 1]), Bucket(log[|log| - 1], 1);
      RecentOfLog(log[..|log| - 1], cutoff);
      assert Buckets(log) == front + [b];
      AppendBucket(front, b, cutoff);
      AppendBucket(Recent(front, cutoff), b, cutoff);
      assert Total(Recent(front + [b], cutoff)) == Total(Recent(front, cutoff)) + if b.timestamp > cutoff then 1 else 0;
    }
  }

  lemma {:induction false} BucketsAppend(log: seq<int>, t: int)
    ensures Buckets(log + [t]) == Buckets(log) + [Bucket(t, 1)]
  {
    assert (log + [t])[..|log|] == log;
  }

  // ---------------------------------------------------------------- what pruning may forget

  /** The latest time before which `op` may drop entries of `key`, if any, is at most `cutoff`. */
  predicate Forgets(op: Op, key: string, cutoff: int) {
    match op
    case Check(k, config, now) => now - STALE_AFTER_MS <= cutoff && (k == key ==> now - config.windowMs <= cutoff)
    case Cleanup(now) => now - STALE_AFTER_MS <= cutoff
    case GetCurrentCount(_, _, _) => true
    case Reset(_) => true
  }

  ghost predicate Safe(ops: seq<Op>, key: string, cutoff: int) {
    forall i :: 0 <= i < |ops| ==> Forgets(ops[i], key, cutoff)
  }

  lemma {:induction false} DropStaleStored(w: Windows, now: int, key: string, cutoff: int)
    requires now - STALE_AFTER_MS <= cutoff
    ensures Recent(Stored(DropStale(w, now), key), cutoff) == Recent(Stored(w, key), cutoff)
  {
    RecentOfRecent(Stored(w, key), now - STALE_AFTER_MS, cutoff);
  }

  /** Pruning one key at `start` and, if the request is allowed, recording it. */
  lemma {:induction false} PushStored(w: Windows, k: string, start: int, now: int, key: string, cutoff: int)
    requires k == key ==> start <= cutoff
    ensures var live := Recent(Stored(w, k), start);
      && Recent(Stored(Put(w, k, live), key), cutoff) == Recent(Stored(w, key), cutoff)
      && Recent(Stored(w[k := live + [Bucket(now, 1)]], key), cutoff) ==
         Recent(Stored(w, key), cutoff) + if k == key && now > cutoff then [Bucket(now, 1)] else []
  {
    if k == key {
      var live := Recent(Stored(w, k), start);
      RecentOfRecent(Stored(w, k), start, cutoff);
      AppendBucket(live, Bucket(now, 1), cutoff);
      assert Stored(Put(w, k, live), key) == live;
    }
  }

  /** The windows after a check, by its three outcomes. */
  lemma {:induction false} CheckWindows(s: State, k: string, config: Config, now: int)
    ensures var live := Recent(Stored(s.windows, k), now - config.windowMs);
      var w := s.windows[k := live + [Bucket(now, 1)]];
      var (s', answer) := CheckStep(s, k, config, now);
      if answer == Allowed then s'.windows == w || s'.windows == DropStale(w, now)
      else s'.windows == Put(s.windows, k, live)
  {
  }

  lemma {:induction false} CheckStored(s: State, k: string, config: Config, now: int, key: string, cutoff: int)
    requires now - STALE_AFTER_MS <= cutoff && (k == key ==> now - config.windowMs <= cutoff)
    ensures Recent(Stored(CheckStep(s, k, config, now).0.windows, key), cutoff) ==
      Recent(Stored(s.windows, key), cutoff) +
      if k == key && CheckStep(s, k, config, now).1 == Allowed && now > cutoff then [Bucket(now, 1)] else []
  {
    CheckWindows(s, k, config, now);
    WindowsStored(s.windows, CheckStep(s, k, config, now).0.windows, CheckStep(s, k, config, now).1 == Allowed, k,
                  now - config.windowMs, now, key, cutoff);
  }

  lemma {:induction false} WindowsStored(w: Windows, w': Windows, allowed: bool, k: string, start: int, now: int,
                                         key: string, cutoff: int)
    requires now - STALE_AFTER_MS <= cutoff && (k == key ==> start <= cutoff)
    requires var live := Recent(Stored(w, k), start);
      var pushed := w[k := live + [Bucket(now, 1)]];
      if allowed then w' == pushed || w' == DropStale(pushed, now) else w' == Put(w, k, live)
    ensures Recent(Stored(w', key), cutoff) ==
            Recent(Stored(w, key), cutoff) + if k == key && allowed && now > cutoff then [Bucket(now, 1)] else []
  {
    PushStored(w, k, start, now, key, cutoff);
    DropStaleStored(w[k := Recent(Stored(w, k), start) + [Bucket(now, 1)]], now, key, cutoff);
  }

  lemma {:induction false} LogOne(log: seq<int>, t: int, cutoff: int)
    ensures Recent(Buckets(log + [t]), cutoff) ==
            Recent(Buckets(log), cutoff) + if t > cutoff then [Bucket(t, 1)] else []
  {
    BucketsAppend(log, t);
    AppendBucket(Buckets(log), Bucket(t, 1), cutoff);
  }

  lemma {:induction false} StepAgrees(s: State, log: seq<int>, op: Op, key: string, cutoff: int)
    requires Forgets(op, key, cutoff)
    requires Recent(Stored(s.windows, key), cutoff) == Recent(Buckets(log), cutoff)
    ensures Recent(Stored(Apply(s, op).0.windows, key), cutoff) ==
            Recent(Buckets(Logged(log, op, Apply(s, op).1, key)), cutoff)
  {
    match op
    case Check(k, config, now) =>
      CheckStored(s, k, config, now, key, cutoff);
      LogOne(log, now, cutoff);
    case Cleanup(now) =>
      DropStaleStored(s.windows, now, key, cutoff);
    case Reset(k) =>
      assert k != key ==> Stored(s.windows - {k}, key) == Stored(s.windows, key);
    case GetCurrentCount(_, _, _) =>
  }

  /** After any run, whatever its clock and configurations, storage and log agree beyond every cutoff
      that no operation has pruned past. */
  lemma {:induction false} StorageAgrees(ops: seq<Op>, key: string, cutoff: int)
    requires Safe(ops, key, cutoff)
    ensures Recent(Stored(RunState(ops).windows, key), cutoff) == Recent(Buckets(AllowedLog(ops, key)), cutoff)
  {
    if ops != [] {
      var front, op := ops[..|ops| - 1], ops[|ops| - 1];
      StorageAgrees(front, key, cutoff);
      StepAgrees(RunState(front), AllowedLog(front, key), op, key, cutoff);
    }
  }

  lemma {:induction false} StoredCount(ops: seq<Op>, key: string, cutoff: int)
    requires Safe(ops, key, cutoff)
    ensures Total(Recent(Stored(RunState(ops).windows, key), cutoff)) == CountAfter(AllowedLog(ops, key), cutoff)
  {
    StorageAgrees(ops, key, cutoff);
    RecentOfLog(AllowedLog(ops, key), cutoff);
  }

  lemma {:induction false} AnswerFaithful(s: State, log: seq<int>, op: Op, windowMs: int)
    requires (op.Check? && op.config.windowMs == windowMs) || (op.GetCurrentCount? && op.windowMs == windowMs)
    requires Total(Recent(Stored(s.windows, op.key), op.now - windowMs)) == CountAfter(log, op.now - windowMs)
    ensures Faithful(Apply(s, op).1, log, op)
  {
  }

  /** A check or count whose window starts no earlier than anything pruned is answered from the full log. */
  lemma {:induction false} ExactWhenSafe(ops: seq<Op>, op: Op, windowMs: int)
    requires (op.Check? && op.config.windowMs == windowMs) || (op.GetCurrentCount? && op.windowMs == windowMs)
    requires Safe(ops, op.key, op.now - windowMs)
    ensures Exact(ops, op)
  {
    StoredCount(ops, op.key, op.now - windowMs);
    AnswerFaithful(RunState(ops), AllowedLog(ops, op.key), op, windowMs);
  }

  // ---------------------------------------------------------------- runs with one configuration per key

  predicate Configured(op: Op, configs: string -> Config) {
    match op
    case Check(key, config, _) => config == configs(key)
    case GetCurrentCount(key, windowMs, _) => windowMs == configs(key).windowMs
    case Reset(_) => true
    case Cleanup(_) => true
  }

  /** The clock reading an operation takes, if it takes one, is at most `t`. */
  predicate NotAfter(op: Op, t: int) {
    op.Reset? || op.now <= t
  }

  ghost predicate Steady(ops: seq<Op>, configs: string -> Config) {
    && (forall i :: 0 <= i < |ops| ==> Configured(ops[i], configs))
    && (forall i, j :: 0 <= i < j < |ops| && !ops[j].Reset? ==> NotAfter(ops[i], ops[j].now))
  }

  lemma {:induction false} SteadyIsSafe(ops: seq<Op>, op: Op, configs: string -> Config)
    requires Steady(ops + [op], configs) && (op.Check? || op.GetCurrentCount?)
    requires configs(op.key).windowMs <= STALE_AFTER_MS
    ensures Configured(op, configs) && Safe(ops, op.key, op.now - configs(op.key).windowMs)
  {
    var run := ops + [op];
    assert run[|ops|] == op && Configured(run[|ops|], configs);
    forall i | 0 <= i < |ops| ensures Forgets(ops[i], op.key, op.now - configs(op.key).windowMs) {
      assert run[i] == ops[i] && Configured(run[i], configs) && NotAfter(run[i], run[|ops|].now);
    }
  }

  /** With a nondecreasing clock and one configuration per key, no answer about a key whose window is at most an hour
      ever betrays that entries were pruned, whatever the windows of the other keys. */
  lemma {:induction false} PruningUnobservable(ops: seq<Op>, op: Op, configs: string -> Config)
    requires Steady(ops + [op], configs)
    requires op.Check? || op.GetCurrentCount? ==> configs(op.key).windowMs <= 3_600_000
    ensures Exact(ops, op)
  {
    if op.Check? || op.GetCurrentCount? {
      SteadyIsSafe(ops, op, configs);
      ExactWhenSafe(ops, op, configs(op.key).windowMs);
    }
  }

  lemma {:induction false} SteadyPrefix(ops: seq<Op>, configs: string -> Config, k: nat)
    requires Steady(ops, configs) && k <= |ops|
    ensures Steady(ops[..k], configs)
  {
  }

  lemma {:induction false} LogNotAfter(ops: seq<Op>, configs: string -> Config, key: string, t: int)
    requires Steady(ops, configs) && forall i :: 0 <= i < |ops| ==> NotAfter(ops[i], t)
    ensures forall i :: 0 <= i < |AllowedLog(ops, key)| ==> AllowedLog(ops, key)[i] <= t
  {
    if ops != [] {
      SteadyPrefix(ops, configs, |ops| - 1);
      LogNotAfter(ops[..|ops| - 1], configs, key, t);
    }
  }

  lemma {:induction false} WindowCounts(log: seq<int>, windowMs: int, now: int, t: int)
    requires forall i :: 0 <= i < |log| ==> log[i] <= now
    ensures now <= t ==> CountWindow(log, windowMs, t) <= CountAfter(log, now - windowMs)
    ensures now <= t && windowMs <= 0 ==> CountWindow(log, windowMs, t) == 0
  {
    if log != [] {
      WindowCounts(log[..|log| - 1], windowMs, now, t);
    }
  }

  lemma {:induction false} WindowAppend(log: seq<int>, e: int, windowMs: int, t: int)
    ensures CountWindow(log + [e], windowMs, t) ==
            CountWindow(log, windowMs, t) + if t - windowMs < e <= t then 1 else 0
  {
    assert (log + [e])[..|log|] == log;
  }

  /** One more answered operation keeps the window within the limit. */
  lemma {:induction false} LoggedFits(log: seq<int>, op: Op, answer: Answer, key: string, config: Config, limit: nat,
                                      t: int)
    requires config.maxRequests <= limit && CountWindow(log, config.windowMs, t) <= limit
    requires op.Check? && op.key == key ==>
      op.config == config && Faithful(answer, log, op) && forall i :: 0 <= i < |log| ==> log[i] <= op.now
    ensures CountWindow(Logged(log, op, answer, key), config.windowMs, t) <= limit
  {
    if op.Check? && op.key == key && answer == Allowed {
      WindowAppend(log, op.now, config.windowMs, t);
      WindowCounts(log, config.windowMs, op.now, t);
    }
  }

  lemma {:induction false} LogNotAfterNow(ops: seq<Op>, op: Op, configs: string -> Config, key: string)
    requires Steady(ops + [op], configs) && op.Check?
    ensures var log := AllowedLog(ops, key); forall i :: 0 <= i < |log| ==> log[i] <= op.now
  {
    var run := ops + [op];
    SteadyPrefix(run, configs, |ops|);
    assert run[..|ops|] == ops;
    forall i | 0 <= i < |ops| ensures NotAfter(ops[i], op.now) {
      assert run[i] == ops[i] && NotAfter(run[i], run[|ops|].now);
    }
    LogNotAfter(ops, configs, key, op.now);
  }

  /** What a configuration allows in one window. */
  function Limit(config: Config): nat {
    if config.maxRequests > 0 then config.maxRequests else 0
  }

  /** No window of a key's configured length ever holds more than the configured number of allowed requests. */
  lemma {:induction false} NeverOverLimit(ops: seq<Op>, configs: string -> Config, key: string, t: int)
    requires Steady(ops, configs) && configs(key).windowMs <= 3_600_000
    ensures CountWindow(AllowedLog(ops, key), configs(key).windowMs, t) <= Limit(configs(key))
  {
    if ops != [] {
      var front, op := ops[..|ops| - 1], ops[|ops| - 1];
      SteadyPrefix(ops, configs, |front|);
      NeverOverLimit(front, configs, key, t);
      assert front + [op] == ops;
      if op.Check? && op.key == key {
        PruningUnobservable(front, op, configs);
        assert Configured(ops[|front|], configs);
        LogNotAfterNow(front, op, configs, key);
      }
      LoggedFits(AllowedLog(front, key), op, Respond(front, op), key, configs(key),
                 Limit(configs(key)), t);
    }
  }

  // ---------------------------------------------------------------- exactly when pruning shows

  /** Every steady run in which all keys have this configuration is answered from the full log. */
  ghost predicate AlwaysExact(config: Config) {
    forall ops, op :: Steady(ops + [op], key => config) ==> Exact(ops, op)
  }

  lemma {:induction false} RunAppend(ops: seq<Op>, op: Op, key: string)
    ensures RunState(ops + [op]) == Apply(RunState(ops), op).0
    ensures AllowedLog(ops + [op], key) == Logged(AllowedLog(ops, key), op, Respond(ops, op), key)
  {
    assert (ops + [op])[..|ops|] == ops;
  }

  lemma {:induction false} FirstCheck(config: Config, key: string)
    requires config.windowMs > 0 && config.maxRequests > 0
    ensures CheckStep(State(map[], 0), key, config, 0) == (State(map[key := [Bucket(0, 1)]], 0), Allowed)
  {
    var empty: Windows := map[];
    var one: seq<Bucket> := [Bucket(0, 1)];
    assert Stored(empty, key) == [] && [] + one == one;
    assert empty[key := one] == map[key := one];
  }

  lemma {:induction false} HourLater(key: string)
    ensures DropStale(map[key := [Bucket(0, 1)]], STALE_AFTER_MS) == map[]
  {
    AppendBucket([], Bucket(0, 1), 0);
    assert [] + [Bucket(0, 1)] == [Bucket(0, 1)];
    assert Recent([Bucket(0, 1)], STALE_AFTER_MS - STALE_AFTER_MS) == [];
  }

  /** One allowed request at time zero, then a clean-up one hour later. */
  lemma {:induction false} RequestForgotten(config: Config, key: string)
    requires config.windowMs > 0 && config.maxRequests > 0
    ensures var ops := [Check(key, config, 0)] + [Cleanup(STALE_AFTER_MS)];
      AllowedLog(ops, key) == [0] && RunState(ops).windows == map[]
  {
    var first := Check(key, config, 0);
    FirstCheck(config, key);
    RunAppend([], first, key);
    assert [] + [first] == [first] && [] + [0] == [0];
    HourLater(key);
    RunAppend([first], Cleanup(STALE_AFTER_MS), key);
  }

  /** A window longer than the clean-up horizon loses a request that is still inside it. */
  lemma {:induction false} LongWindowForgets(config: Config, key: string)
    requires config.windowMs > STALE_AFTER_MS && config.maxRequests > 0
    ensures var ops := [Check(key, config, 0)] + [Cleanup(STALE_AFTER_MS)];
      !Exact(ops, GetCurrentCount(key, config.windowMs, STALE_AFTER_MS))
  {
    var ops := [Check(key, config, 0)] + [Cleanup(STALE_AFTER_MS)];
    var op := GetCurrentCount(key, config.windowMs, STALE_AFTER_MS);
    RequestForgotten(config, key);
    var log, start := [0], STALE_AFTER_MS - config.windowMs;
    assert log[..0] == [] && CountAfter(log, start) == CountAfter([], start) + 1;
    EmptyCount(RunState(ops), op);
  }

  lemma {:induction false} EmptyCount(s: State, op: Op)
    requires s.windows == map[] && op.GetCurrentCount?
    ensures Apply(s, op).1 == Count(0)
  {
  }

  lemma {:induction false} NothingAllowed(ops: seq<Op>, config: Config, key: string)
    requires Steady(ops, key => config) && config.maxRequests <= 0
    ensures RunState(ops).windows == map[] && AllowedLog(ops, key) == []
  {
    if ops != [] {
      var front, op := ops[..|ops| - 1], ops[|ops| - 1];
      SteadyPrefix(ops, key => config, |front|);
      NothingAllowed(front, config, key);
      assert Configured(ops[|front|], key => config);
      NothingHappens(RunState(front), op, config);
    }
  }

  lemma {:induction false} NothingHappens(s: State, op: Op, config: Config)
    requires s.windows == map[] && config.maxRequests <= 0 && Configured(op, key => config)
    ensures Apply(s, op).0.windows == map[] && Apply(s, op).1 != Allowed
  {
  }

  /** The limiter answers from the full log on every steady run exactly when the window fits the
      clean-up horizon or nothing is ever allowed. */
  lemma {:induction false} AlwaysExactIff(config: Config)
    ensures AlwaysExact(config) <==> config.windowMs <= 3_600_000 || config.maxRequests <= 0
  {
    if config.windowMs <= STALE_AFTER_MS {
      forall ops, op | Steady(ops + [op], key => config) ensures Exact(ops, op) {
        PruningUnobservable(ops, op, key => config);
      }
    } else if config.maxRequests <= 0 {
      forall ops, op | Steady(ops + [op], key => config) ensures Exact(ops, op) {
        SteadyPrefix(ops + [op], key => config, |ops|);
        assert (ops + [op])[..|ops|] == ops && Configured((ops + [op])[|ops|], key => config);
        if op.Check? || op.GetCurrentCount? {
          NothingAllowed(ops, config, op.key);
          AnswerFaithful(RunState(ops), [], op, config.windowMs);
        }
      }
    } else {
      var ops := [Check("", config, 0)] + [Cleanup(STALE_AFTER_MS)];
      var op := GetCurrentCount("", config.windowMs, STALE_AFTER_MS);
      LongWindowForgets(config, "");
      assert Steady(ops + [op], key => config) && !Exact(ops, op);
    }
  }

  // ---------------------------------------------------------------- exactly when the limit holds

  /** No steady run in which all keys have this configuration ever exceeds the limit in any window. */
  ghost predicate AlwaysWithinLimit(config: Config) {
    forall ops, key, t :: Steady(ops, k => config) ==>
      CountWindow(AllowedLog(ops, key), config.windowMs, t) <= Limit(config)
  }

  function Zeros(n: nat): (zeros: seq<int>)
    ensures |zeros| == n && forall i :: 0 <= i < n ==> zeros[i] == 0
  {
    if n == 0 then [] else Zeros(n - 1) + [0]
  }

  /** `n` requests at time zero. */
  function Burst(key: string, config: Config, n: nat): (ops: seq<Op>)
    ensures |ops| == n && forall i :: 0 <= i < n ==> ops[i] == Check(key, config, 0)
  {
    if n == 0 then [] else Burst(key, config, n - 1) + [Check(key, config, 0)]
  }

  lemma {:induction false} ZeroBuckets(n: nat, cutoff: int)
    ensures Recent(Buckets(Zeros(n)), cutoff) == if cutoff < 0 then Buckets(Zeros(n)) else []
    ensures Total(Buckets(Zeros(n))) == n
  {
    if n > 0 {
      ZeroBuckets(n - 1, cutoff);
      BucketsAppend(Zeros(n - 1), 0);
      AppendBucket(Buckets(Zeros(n - 1)), Bucket(0, 1), cutoff);
    }
  }

  lemma {:induction false} AllInWindow(log: seq<int>, windowMs: int, t: int)
    requires forall i :: 0 <= i < |log| ==> t - windowMs < log[i] <= t
    ensures CountWindow(log, windowMs, t) == |log|
  {
    if log != [] { AllInWindow(log[..|log| - 1], windowMs, t); }
  }

  lemma {:induction false} CheckAllows(s: State, key: string, config: Config, now: int, live: seq<Bucket>)
    requires live == Recent(Stored(s.windows, key), now - config.windowMs) && Total(live) < config.maxRequests
    requires now - s.lastCleanup <= CLEANUP_INTERVAL_MS
    ensures CheckStep(s, key, config, now) == (s.(windows := s.windows[key := live + [Bucket(now, 1)]]), Allowed)
  {
  }

  lemma {:induction false} BurstStep(s: State, key: string, config: Config, n: nat)
    requires config.windowMs > 0 && n < config.maxRequests
    requires Stored(s.windows, key) == Buckets(Zeros(n)) && s.lastCleanup == 0
    ensures var (s', answer) := CheckStep(s, key, config, 0);
      answer == Allowed && Stored(s'.windows, key) == Buckets(Zeros(n + 1)) && s'.lastCleanup == 0
  {
    ZeroBuckets(n, 0 - config.windowMs);
    CheckAllows(s, key, config, 0, Buckets(Zeros(n)));
    BucketsAppend(Zeros(n), 0);
    assert Zeros(n + 1) == Zeros(n) + [0];
  }

  /** The whole burst is allowed. */
  lemma {:induction false} BurstAllowed(key: string, config: Config, n: nat)
    requires config.windowMs > 0 && n <= config.maxRequests
    ensures AllowedLog(Burst(key, config, n), key) == Zeros(n)
    ensures var s := RunState(Burst(key, config, n));
      Stored(s.windows, key) == Buckets(Zeros(n)) && s.lastCleanup == 0
  {
    if n > 0 {
      BurstAllowed(key, config, n - 1);
      RunAppend(Burst(key, config, n - 1), Check(key, config, 0), key);
      BurstStep(RunState(Burst(key, config, n - 1)), key, config, n - 1);
    }
  }

  /** A clean-up one hour later forgets the burst, and one more request is allowed. */
  lemma {:induction false} ForgottenStep(s: State, key: string, config: Config, n: nat)
    requires config.maxRequests > 0 && Stored(s.windows, key) == Buckets(Zeros(n))
    ensures var cleaned := Apply(s, Cleanup(STALE_AFTER_MS)).0;
      CheckStep(cleaned, key, config, STALE_AFTER_MS).1 == Allowed
  {
    ZeroBuckets(n, 0);
    var cleaned := DropStale(s.windows, STALE_AFTER_MS);
    assert Stored(cleaned, key) == [];
  }

  /** A burst, a clean-up one hour later, and one more request. */
  function Overrun(key: string, config: Config, n: nat): seq<Op> {
    Burst(key, config, n) + [Cleanup(STALE_AFTER_MS)] + [Check(key, config, STALE_AFTER_MS)]
  }

  lemma {:induction false} OverrunIsSteady(key: string, config: Config, n: nat)
    ensures Steady(Overrun(key, config, n), k => config)
  {
  }

  lemma {:induction false} OverrunLog(key: string, config: Config, n: nat)
    requires config.windowMs > 0 && 0 < n <= config.maxRequests
    ensures AllowedLog(Overrun(key, config, n), key) == Zeros(n) + [STALE_AFTER_MS]
  {
    var burst, cleanup := Burst(key, config, n), Cleanup(STALE_AFTER_MS);
    BurstAllowed(key, config, n);
    RunAppend(burst, cleanup, key);
    RunAppend(burst + [cleanup], Check(key, config, STALE_AFTER_MS), key);
    ForgottenStep(RunState(burst), key, config, n);
  }

  /** With a window longer than an hour, a full burst, a clean-up and one more request overrun the limit. */
  lemma {:induction false} LongWindowOverruns(config: Config, key: string)
    requires config.windowMs > STALE_AFTER_MS && config.maxRequests > 0
    ensures var log := AllowedLog(Overrun(key, config, config.maxRequests), key);
      CountWindow(log, config.windowMs, STALE_AFTER_MS) == config.maxRequests + 1
  {
    OverrunLog(key, config, config.maxRequests);
    AllInWindow(Zeros(config.maxRequests), config.windowMs, STALE_AFTER_MS);
    WindowAppend(Zeros(config.maxRequests), STALE_AFTER_MS, config.windowMs, STALE_AFTER_MS);
  }

  /** The limit holds in every window of every steady run exactly when the window fits the clean-up horizon or
      nothing is ever allowed. */
  lemma {:induction false} AlwaysWithinLimitIff(config: Config)
    ensures AlwaysWithinLimit(config) <==> config.windowMs <= 3_600_000 || config.maxRequests <= 0
  {
    if config.windowMs <= STALE_AFTER_MS || config.maxRequests <= 0 {
      forall ops, key, t | Steady(ops, k => config)
        ensures CountWindow(AllowedLog(ops, key), config.windowMs, t) <= Limit(config)
      {
        if config.maxRequests <= 0 {
          NothingAllowed(ops, config, key);
        } else {
          NeverOverLimit(ops, k => config, key, t);
        }
      }
    } else {
      LongWindowOverruns(config, "");
      OverrunIsSteady("", config, config.maxRequests);
    }
  }

  // ---------------------------------------------------------------- the class

  class RateLimiter {
    var windows: Windows
    var lastCleanup: int

    ghost function Model(): State
      reads this
    {
      State(windows, lastCleanup)
    }

    constructor ()
      ensures Model() == RunState([])
    {
      windows, lastCleanup := map[], 0;
    }

    method Check(key: string, config: Config, now: int) returns (answer: Answer)
      modifies this
      ensures (Model(), answer) == Apply(old(Model()), Op.Check(key, config, now))
    {
      var buckets := if key in windows then windows[key] else [];
      buckets := Recent(buckets, now - config.windowMs);
      if buckets == [] {
        windows := windows - {key};
      } else {
        windows := windows[key := buckets];
      }
      var currentCount := Total(buckets);
      if currentCount >= config.maxRequests {
        return Denied(currentCount);
      }
      buckets := buckets + [Bucket(now, 1)];
      windows := windows[key := buckets];
      assert windows == old(windows)[key := buckets];
      if now - lastCleanup > CLEANUP_INTERVAL_MS {
        CleanupStaleKeys(now);
        lastCleanup := now;
      }
      return Allowed;
    }

    method GetCurrentCount(key: string, windowMs: int, now: int) returns (count: int)
      ensures Apply(Model(), Op.GetCurrentCount(key, windowMs, now)) == (Model(), Count(count))
    {
      var buckets := if key in windows then windows[key] else [];
      return Total(Recent(buckets, now - windowMs));
    }

    method Reset(key: string)
      modifies this
      ensures Model() == Apply(old(Model()), Op.Reset(key)).0
    {
      windows := windows - {key};
    }

    method Cleanup(now: int)
      modifies this
      ensures Model() == Apply(old(Model()), Op.Cleanup(now)).0
    {
      CleanupStaleKeys(now);
    }

    /** Visits every key once; a key without a recent bucket goes, a shortened list is stored. */
    method CleanupStaleKeys(now: int)
      modifies this
      ensures windows == DropStale(old(windows), now) && lastCleanup == old(lastCleanup)
    {
      var todo := windows.Keys;
      while todo != {}
        invariant todo <= old(windows).Keys && lastCleanup == old(lastCleanup)
        invariant forall key :: key in todo ==> key in windows && windows[key] == old(windows)[key]
        invariant forall key :: key in windows && key !in todo ==>
                    key in DropStale(old(windows), now) && windows[key] == DropStale(old(windows), now)[key]
        invariant forall key :: key in DropStale(old(windows), now) ==> key in windows
        decreases |todo|
      {
        var key :| key in todo;
        var recent := Recent(windows[key], now - STALE_AFTER_MS);
        RecentKeepsAll(windows[key], now - STALE_AFTER_MS);
        if recent == [] {
          windows := windows - {key};
        } else if |recent| < |windows[key]| {
          windows := windows[key := recent];
        }
        todo := todo - {key};
      }
    }
  }
}

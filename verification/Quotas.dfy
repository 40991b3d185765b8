/** The `QuotaManager` of packages/core-enterprise/src/quotas.ts: counters with automatic hourly and
    daily reset, against a ledger of everything that was recorded.  Time is an argument. */
module Quotas {
  import opened Wrappers

  const HOUR_MS := 3_600_000
  const DAY_MS := 86_400_000

  datatype Usage = Usage(
    concurrentTasks: int, storageMb: int, observationCount: int, dailyTokens: int,
    hourlyToolInvocations: int, hourlyVerifyRuns: int, hourlyCorrections: int)

  /** The limits, in the order of the usage fields they bound. */
  datatype Quota = Quota(limits: Usage)

  /** The limits a caller gives; the ones left out are filled in. */
  datatype PartialQuota = PartialQuota(
    concurrentTasks: Option<int>, storageMb: Option<int>, observationCount: Option<int>, dailyTokens: Option<int>,
    hourlyToolInvocations: Option<int>, hourlyVerifyRuns: Option<int>, hourlyCorrections: Option<int>)

  const ZERO := Usage(0, 0, 0, 0, 0, 0, 0)
  const DEFAULT_QUOTA := Quota(Usage(4, 1024, 10000, 1000000, 1000, 500, 200))

  datatype Action =
    ConcurrentTask | Storage | Observation | TokenSpend | ToolInvocation | VerifyRun | Correction

  datatype Op =
    | GetUsage(tenant: string, now: int)
    | CheckQuota(tenant: string, action: Action, now: int)
    | RecordUsage(tenant: string, delta: Usage, now: int)
    | ResetHourly(tenant: string)
    | ResetDaily(tenant: string)
    | RemoveTenant(tenant: string)
    | SetQuota(tenant: string, quota: PartialQuota)

  datatype Answer = Current(usage: Usage) | Permitted | Exceeded(limit: int, current: int) | Done

  datatype State = State(
    defaultQuota: Quota, quotas: map<string, Quota>, usage: map<string, Usage>,
    lastHourBoundary: map<string, int>, lastDayBoundary: map<string, int>)

  // ---------------------------------------------------------------- one operation

  /** `Math.floor(now / size)`; the divisor is positive, so Euclidean division is the floor. */
  function Period(now: int, size: int): int
    requires size > 0
  {
    now / size
  }

  function Field(u: Usage, action: Action): int {
    match action
    case ConcurrentTask => u.concurrentTasks
    case Storage => u.storageMb
    case Observation => u.observationCount
    case TokenSpend => u.dailyTokens
    case ToolInvocation => u.hourlyToolInvocations
    case VerifyRun => u.hourlyVerifyRuns
    case Correction => u.hourlyCorrections
  }

  function Plus(a: Usage, b: Usage): Usage {
    Usage(a.concurrentTasks + b.concurrentTasks, a.storageMb + b.storageMb, a.observationCount + b.observationCount,
          a.dailyTokens + b.dailyTokens, a.hourlyToolInvocations + b.hourlyToolInvocations,
          a.hourlyVerifyRuns + b.hourlyVerifyRuns, a.hourlyCorrections + b.hourlyCorrections)
  }

  function ClearHourly(u: Usage): Usage {
    u.(hourlyToolInvocations := 0, hourlyVerifyRuns := 0, hourlyCorrections := 0)
  }

  function ClearDaily(u: Usage): Usage {
    u.(dailyTokens := 0)
  }

  function UsageOf(s: State, tenant: string): Usage {
    if tenant in s.usage then s.usage[tenant] else ZERO
  }

  function Or(given: Option<int>, otherwise: int): int {
    if given.Some? then given.value else otherwise
  }

  /** Missing limits are those of `DEFAULT_QUOTA`, also where the manager has a default quota of its own. */
  function Filled(given: PartialQuota): Quota {
    var d := DEFAULT_QUOTA.limits;
    Quota(Usage(Or(given.concurrentTasks, d.concurrentTasks), Or(given.storageMb, d.storageMb),
                Or(given.observationCount, d.observationCount), Or(given.dailyTokens, d.dailyTokens),
                Or(given.hourlyToolInvocations, d.hourlyToolInvocations),
                Or(given.hourlyVerifyRuns, d.hourlyVerifyRuns), Or(given.hourlyCorrections, d.hourlyCorrections)))
  }

  function QuotaOf(s: State, tenant: string): Quota {
    if tenant in s.quotas then s.quotas[tenant] else s.defaultQuota
  }

  function HourlyCleared(s: State, tenant: string): State {
    if tenant in s.usage then s.(usage := s.usage[tenant := ClearHourly(s.usage[tenant])]) else s
  }

  function DailyCleared(s: State, tenant: string): State {
    if tenant in s.usage then s.(usage := s.usage[tenant := ClearDaily(s.usage[tenant])]) else s
  }

  function RefreshHour(s: State, tenant: string, hour: int): State {
    if tenant !in s.lastHourBoundary then s.(lastHourBoundary := s.lastHourBoundary[tenant := hour])
    else if hour > s.lastHourBoundary[tenant] then
      HourlyCleared(s, tenant).(lastHourBoundary := s.lastHourBoundary[tenant := hour])
    else s
  }

  function RefreshDay(s: State, tenant: string, day: int): State {
    if tenant !in s.lastDayBoundary then s.(lastDayBoundary := s.lastDayBoundary[tenant := day])
    else if day > s.lastDayBoundary[tenant] then
      DailyCleared(s, tenant).(lastDayBoundary := s.lastDayBoundary[tenant := day])
    else s
  }

  function AutoReset(s: State, tenant: string, now: int): State {
    RefreshDay(RefreshHour(s, tenant, Period(now, HOUR_MS)), tenant, Period(now, DAY_MS))
  }

  function Apply(s: State, op: Op): (State, Answer) {
    match op
    case GetUsage(t, now) =>
      var s1 := AutoReset(s, t, now);
      (s1, Current(UsageOf(s1, t)))
    case CheckQuota(t, action, now) =>
      var s1 := AutoReset(s, t, now);
      var limit, current := Field(QuotaOf(s1, t).limits, action), Field(UsageOf(s1, t), action);
      (s1, if current >= limit then Exceeded(limit, current) else Permitted)
    case RecordUsage(t, delta, now) =>
      var s1 := AutoReset(s, t, now);
      (s1.(usage := s1.usage[t := Plus(UsageOf(s1, t), delta)]), Done)
    case ResetHourly(t) => (HourlyCleared(s, t), Done)
    case ResetDaily(t) => (DailyCleared(s, t), Done)
    case RemoveTenant(t) =>
      (s.(quotas := s.quotas - {t}, usage := s.usage - {t}, lastHourBoundary := s.lastHourBoundary - {t},
          lastDayBoundary := s.lastDayBoundary - {t}), Done)
    case SetQuota(t, quota) => (s.(quotas := s.quotas[t := Filled(quota)]), Done)
  }

  /** A run of a manager that was constructed with the default quota `given`. */
  function RunState(given: PartialQuota, ops: seq<Op>): State {
    if ops == [] then State(Filled(given), map[], map[], map[], map[])
    else Apply(RunState(given, ops[..|ops| - 1]), ops[|ops| - 1]).0
  }

  function Respond(given: PartialQuota, ops: seq<Op>, op: Op): Answer {
    Apply(RunState(given, ops), op).1
  }

  // ---------------------------------------------------------------- the reference: a ledger per tenant

  /** An hour and a day. */
  datatype Stamp = Stamp(hour: int, day: int)

  datatype Entry = Delta(at: Stamp, delta: Usage) | HourlyMark | DailyMark

  predicate Timed(op: Op) {
    op.GetUsage? || op.CheckQuota? || op.RecordUsage?
  }

  function ClockStamp(now: int): Stamp {
    Stamp(Period(now, HOUR_MS), Period(now, DAY_MS))
  }

  function Max(a: int, b: int): int {
    if a < b then b else a
  }

  function Raised(mark: Option<Stamp>, now: int): Stamp {
    var clock := ClockStamp(now);
    if mark.None? then clock else Stamp(Max(mark.value.hour, clock.hour), Max(mark.value.day, clock.day))
  }

  function MarkAfter(mark: Option<Stamp>, op: Op, tenant: string): Option<Stamp> {
    if op.tenant != tenant then mark
    else if Timed(op) then Some(Raised(mark, op.now))
    else if op.RemoveTenant? then None
    else mark
  }

  /** The latest hour and day the tenant's operations have read since it was last removed. */
  function HighWater(ops: seq<Op>, tenant: string): Option<Stamp> {
    if ops == [] then None else MarkAfter(HighWater(ops[..|ops| - 1], tenant), ops[|ops| - 1], tenant)
  }

  /** How a ledger dates what is recorded: by the clock, or by the latest hour and day read so far. */
  datatype Dating = ByClock | ByHighWater

  function Dated(dating: Dating, mark: Option<Stamp>, now: int): Stamp {
    if dating.ByClock? then ClockStamp(now) else Raised(mark, now)
  }

  function Noted(ledger: seq<Entry>, op: Op, tenant: string, dating: Dating, mark: Option<Stamp>): seq<Entry> {
    if op.tenant != tenant then ledger else
    match op
    case RecordUsage(_, delta, now) => ledger + [Delta(Dated(dating, mark, now), delta)]
    case ResetHourly(_) => ledger + [HourlyMark]
    case ResetDaily(_) => ledger + [DailyMark]
    case RemoveTenant(_) => []
    case GetUsage(_, _) => ledger
    case CheckQuota(_, _, _) => ledger
    case SetQuota(_, _) => ledger
  }

  /** Everything recorded and every manual reset since the tenant was last removed. */
  function Ledger(ops: seq<Op>, tenant: string, dating: Dating): seq<Entry> {
    if ops == [] then [] else
    var front, op := ops[..|ops| - 1], ops[|ops| - 1];
    Noted(Ledger(front, tenant, dating), op, tenant, dating, HighWater(front, tenant))
  }

  /** The part of a delta that counts in the given hour and day. */
  function Counted(e: Entry, now: Stamp): Usage
    requires e.Delta?
  {
    var u := if e.at.hour == now.hour then e.delta else ClearHourly(e.delta);
    if e.at.day == now.day then u else ClearDaily(u)
  }

  function Booked(u: Usage, e: Entry, now: Stamp): Usage {
    match e
    case Delta(_, _) => Plus(u, Counted(e, now))
    case HourlyMark => ClearHourly(u)
    case DailyMark => ClearDaily(u)
  }

  /** The deltas of the given hour (hourly fields), the given day (tokens) or all of them (the rest), from the last
      manual reset that applies. */
  function Balance(ledger: seq<Entry>, now: Stamp): Usage {
    if ledger == [] then ZERO else Booked(Balance(ledger[..|ledger| - 1], now), ledger[|ledger| - 1], now)
  }

  /** The usage that was really recorded in the hour and on the day of `now`. */
  function TrueUsage(ops: seq<Op>, tenant: string, now: int): Usage {
    Balance(Ledger(ops, tenant, ByClock), ClockStamp(now))
  }

  /** The quota last set since the tenant was removed, or the manager's default. */
  function QuotaInForce(given: PartialQuota, ops: seq<Op>, tenant: string): Quota {
    if ops == [] then Filled(given) else
    var front, op := QuotaInForce(given, ops[..|ops| - 1], tenant), ops[|ops| - 1];
    if op.SetQuota? && op.tenant == tenant then Filled(op.quota)
    else if op.RemoveTenant? && op.tenant == tenant then Filled(given)
    else front
  }

  function Verdict(given: PartialQuota, ops: seq<Op>, tenant: string, action: Action, usage: Usage): Answer {
    var limit, current := Field(QuotaInForce(given, ops, tenant).limits, action), Field(usage, action);
    if current >= limit then Exceeded(limit, current) else Permitted
  }

  // ---------------------------------------------------------------- balances

  /** No delta lies after the given hour and day. */
  ghost predicate UpTo(ledger: seq<Entry>, now: Stamp) {
    forall i :: 0 <= i < |ledger| && ledger[i].Delta? ==> ledger[i].at.hour <= now.hour && ledger[i].at.day <= now.day
  }

  /** In an hour (a day) after all deltas the hourly (daily) fields are zero and the others are unchanged. */
  lemma {:induction false} LaterBalance(ledger: seq<Entry>, now: Stamp, later: Stamp)
    requires UpTo(ledger, now) && now.hour <= later.hour && now.day <= later.day
    ensures var u := Balance(ledger, now);
      var v := if now.hour < later.hour then ClearHourly(u) else u;
      Balance(ledger, later) == if now.day < later.day then ClearDaily(v) else v
  {
    if ledger != [] {
      LaterBalance(ledger[..|ledger| - 1], now, later);
    }
  }

  lemma {:induction false} BalanceAppend(ledger: seq<Entry>, e: Entry, now: Stamp)
    ensures Balance(ledger + [e], now) == Booked(Balance(ledger, now), e, now)
  {
    assert (ledger + [e])[..|ledger|] == ledger;
  }

  // ---------------------------------------------------------------- counters against ledger

  /** The tenant's boundaries are the high-water mark and its counters the balance of that hour and day. */
  ghost predicate Represents(s: State, ledger: seq<Entry>, mark: Option<Stamp>, tenant: string) {
    match mark
    case None =>
      && tenant !in s.lastHourBoundary && tenant !in s.lastDayBoundary && tenant !in s.usage
      && forall i :: 0 <= i < |ledger| ==> !ledger[i].Delta?
    case Some(at) =>
      && tenant in s.lastHourBoundary && s.lastHourBoundary[tenant] == at.hour
      && tenant in s.lastDayBoundary && s.lastDayBoundary[tenant] == at.day
      && UpTo(ledger, at) && UsageOf(s, tenant) == Balance(ledger, at)
  }

  lemma {:induction false} NoDeltasBalance(ledger: seq<Entry>, now: Stamp)
    requires forall i :: 0 <= i < |ledger| ==> !ledger[i].Delta?
    ensures Balance(ledger, now) == ZERO
  {
    if ledger != [] { NoDeltasBalance(ledger[..|ledger| - 1], now); }
  }

  /** After the automatic reset the counters hold the balance of the raised mark. */
  lemma {:induction false} AutoResetBalances(s: State, ledger: seq<Entry>, mark: Option<Stamp>, tenant: string,
                                             now: int)
    requires Represents(s, ledger, mark, tenant)
    ensures var s', at := AutoReset(s, tenant, now), Raised(mark, now);
      && Represents(s', ledger, Some(at), tenant) && UsageOf(s', tenant) == Balance(ledger, at)
      && s'.quotas == s.quotas && s'.defaultQuota == s.defaultQuota
  {
    var at := Raised(mark, now);
    match mark
    case None => NoDeltasBalance(ledger, at);
    case Some(m) => LaterBalance(ledger, m, at);
  }

  /** The automatic reset of one tenant does not touch another. */
  lemma {:induction false} AutoResetFrame(s: State, other: string, now: int, ledger: seq<Entry>, mark: Option<Stamp>,
                                          tenant: string)
    requires other != tenant && Represents(s, ledger, mark, tenant)
    ensures Represents(AutoReset(s, other, now), ledger, mark, tenant)
  {
  }

  lemma {:induction false} RecordRepresents(s: State, ledger: seq<Entry>, at: Stamp, tenant: string, delta: Usage)
    requires Represents(s, ledger, Some(at), tenant)
    ensures Represents(s.(usage := s.usage[tenant := Plus(UsageOf(s, tenant), delta)]), ledger + [Delta(at, delta)],
                       Some(at), tenant)
  {
    BalanceAppend(ledger, Delta(at, delta), at);
  }

  lemma {:induction false} ResetRepresents(s: State, ledger: seq<Entry>, mark: Option<Stamp>, tenant: string)
    requires Represents(s, ledger, mark, tenant)
    ensures Represents(HourlyCleared(s, tenant), ledger + [HourlyMark], mark, tenant)
    ensures Represents(DailyCleared(s, tenant), ledger + [DailyMark], mark, tenant)
  {
    if mark.Some? {
      BalanceAppend(ledger, HourlyMark, mark.value);
      BalanceAppend(ledger, DailyMark, mark.value);
    }
  }

  /** What other tenants do is not seen. */
  lemma {:induction false} OthersRepresent(s: State, ledger: seq<Entry>, mark: Option<Stamp>, op: Op, tenant: string)
    requires Represents(s, ledger, mark, tenant) && op.tenant != tenant
    ensures Represents(Apply(s, op).0, ledger, mark, tenant)
  {
    if Timed(op) { AutoResetFrame(s, op.tenant, op.now, ledger, mark, tenant); }
  }

  lemma {:induction false} StepRepresents(s: State, ledger: seq<Entry>, mark: Option<Stamp>, op: Op, tenant: string)
    requires Represents(s, ledger, mark, tenant)
    ensures Represents(Apply(s, op).0, Noted(ledger, op, tenant, ByHighWater, mark), MarkAfter(mark, op, tenant),
                       tenant)
  {
    if op.tenant != tenant {
      OthersRepresent(s, ledger, mark, op, tenant);
    } else if Timed(op) {
      AutoResetBalances(s, ledger, mark, tenant, op.now);
      if op.RecordUsage? {
        RecordRepresents(AutoReset(s, tenant, op.now), ledger, Raised(mark, op.now), tenant, op.delta);
      }
    } else if op.ResetHourly? || op.ResetDaily? {
      ResetRepresents(s, ledger, mark, tenant);
    }
  }

  // ---------------------------------------------------------------- whole runs, whatever the clock does

  lemma {:induction false} RunRepresents(given: PartialQuota, ops: seq<Op>, tenant: string)
    ensures Represents(RunState(given, ops), Ledger(ops, tenant, ByHighWater), HighWater(ops, tenant), tenant)
  {
    if ops != [] {
      var front, op := ops[..|ops| - 1], ops[|ops| - 1];
      RunRepresents(given, front, tenant);
      StepRepresents(RunState(given, front), Ledger(front, tenant, ByHighWater), HighWater(front, tenant), op, tenant);
    }
  }

  lemma {:induction false} AutoResetKeepsQuotas(s: State, tenant: string, now: int)
    ensures var s' := AutoReset(s, tenant, now); s'.quotas == s.quotas && s'.defaultQuota == s.defaultQuota
  {
  }

  lemma {:induction false} QuotaStep(s: State, op: Op, tenant: string)
    ensures Apply(s, op).0.defaultQuota == s.defaultQuota
    ensures QuotaOf(Apply(s, op).0, tenant) ==
      if op.SetQuota? && op.tenant == tenant then Filled(op.quota)
      else if op.RemoveTenant? && op.tenant == tenant then s.defaultQuota
      else QuotaOf(s, tenant)
  {
    if Timed(op) { AutoResetKeepsQuotas(s, op.tenant, op.now); }
  }

  lemma {:induction false} RunQuota(given: PartialQuota, ops: seq<Op>, tenant: string)
    ensures RunState(given, ops).defaultQuota == Filled(given)
    ensures QuotaOf(RunState(given, ops), tenant) == QuotaInForce(given, ops, tenant)
  {
    if ops != [] {
      RunQuota(given, ops[..|ops| - 1], tenant);
      QuotaStep(RunState(given, ops[..|ops| - 1]), ops[|ops| - 1], tenant);
    }
  }

  /** On every run, with any clock: the reported usage is the balance of the latest hour and day read, every delta
      dated by the latest hour and day read when it was recorded. */
  lemma {:induction false} UsageIsHighWaterBalance(given: PartialQuota, ops: seq<Op>, tenant: string, now: int)
    ensures Respond(given, ops, GetUsage(tenant, now)) ==
            Current(Balance(Ledger(ops, tenant, ByHighWater), Raised(HighWater(ops, tenant), now)))
  {
    RunRepresents(given, ops, tenant);
    AutoResetBalances(RunState(given, ops), Ledger(ops, tenant, ByHighWater), HighWater(ops, tenant), tenant, now);
  }

  /** On every run, with any clock, that balance decides about an action, against the limit in force. */
  lemma {:induction false} CheckIsHighWaterBalance(given: PartialQuota, ops: seq<Op>, tenant: string, action: Action,
                                                   now: int)
    ensures Respond(given, ops, CheckQuota(tenant, action, now)) ==
            Verdict(given, ops, tenant, action,
                    Balance(Ledger(ops, tenant, ByHighWater), Raised(HighWater(ops, tenant), now)))
  {
    RunRepresents(given, ops, tenant);
    RunQuota(given, ops, tenant);
    AutoResetBalances(RunState(given, ops), Ledger(ops, tenant, ByHighWater), HighWater(ops, tenant), tenant, now);
  }

  // ---------------------------------------------------------------- when that is what was really recorded

  predicate ClearsHour(op: Op, tenant: string) {
    op.tenant == tenant && (op.ResetHourly? || op.RemoveTenant?)
  }

  predicate ClearsDay(op: Op, tenant: string) {
    op.tenant == tenant && (op.ResetDaily? || op.RemoveTenant?)
  }

  /** Operation `p` recorded usage of the tenant that no later operation has cleared from the hourly counters. */
  ghost predicate HourLive(ops: seq<Op>, tenant: string, p: nat)
  {
    && p < |ops| && ops[p].RecordUsage? && ops[p].tenant == tenant
    && forall j :: p < j < |ops| ==> !ClearsHour(ops[j], tenant)
  }

  ghost predicate DayLive(ops: seq<Op>, tenant: string, p: nat)
  {
    && p < |ops| && ops[p].RecordUsage? && ops[p].tenant == tenant
    && forall j :: p < j < |ops| ==> !ClearsDay(ops[j], tenant)
  }

  /** The date that an operation after `front` has in a ledger, if it records usage. */
  function DateAfter(front: seq<Op>, op: Op, tenant: string, dating: Dating): Stamp {
    if op.RecordUsage? then Dated(dating, HighWater(front, tenant), op.now) else Stamp(0, 0)
  }

  function DateOf(ops: seq<Op>, tenant: string, dating: Dating, p: nat): Stamp
    requires p < |ops|
  {
    DateAfter(ops[..p], ops[p], tenant, dating)
  }

  /** The clock readings put every live record into the hour (the day) that is asked for exactly when the high-water
      marks put it into the hour (the day) that is answered for. */
  ghost predicate HoursAligned(ops: seq<Op>, tenant: string, asked: int, answered: int) {
    forall p: nat :: HourLive(ops, tenant, p) ==>
      (DateOf(ops, tenant, ByClock, p).hour == asked <==> DateOf(ops, tenant, ByHighWater, p).hour == answered)
  }

  ghost predicate DaysAligned(ops: seq<Op>, tenant: string, asked: int, answered: int) {
    forall p: nat :: DayLive(ops, tenant, p) ==>
      (DateOf(ops, tenant, ByClock, p).day == asked <==> DateOf(ops, tenant, ByHighWater, p).day == answered)
  }

  ghost predicate Aligned(ops: seq<Op>, tenant: string, now: int) {
    var asked, answered := ClockStamp(now), Raised(HighWater(ops, tenant), now);
    HoursAligned(ops, tenant, asked.hour, answered.hour) && DaysAligned(ops, tenant, asked.day, answered.day)
  }

  function Hourly(u: Usage): (int, int, int) {
    (u.hourlyToolInvocations, u.hourlyVerifyRuns, u.hourlyCorrections)
  }

  function Lasting(u: Usage): (int, int, int) {
    (u.concurrentTasks, u.storageMb, u.observationCount)
  }

  /** The balance after one more operation. */
  function Settled(u: Usage, op: Op, tenant: string, date: Stamp, at: Stamp): Usage {
    if op.tenant != tenant then u
    else if op.RecordUsage? then Plus(u, Counted(Delta(date, op.delta), at))
    else if op.ResetHourly? then ClearHourly(u)
    else if op.ResetDaily? then ClearDaily(u)
    else if op.RemoveTenant? then ZERO
    else u
  }

  lemma {:induction false} LedgerStep(front: seq<Op>, op: Op, tenant: string, dating: Dating, at: Stamp)
    ensures Balance(Ledger(front + [op], tenant, dating), at) ==
            Settled(Balance(Ledger(front, tenant, dating), at), op, tenant, DateAfter(front, op, tenant, dating), at)
  {
    assert (front + [op])[..|front|] == front;
    var ledger := Ledger(front, tenant, dating);
    if op.tenant == tenant {
      if op.RecordUsage? {
        BalanceAppend(ledger, Delta(DateAfter(front, op, tenant, dating), op.delta), at);
      } else if op.ResetHourly? {
        BalanceAppend(ledger, HourlyMark, at);
      } else if op.ResetDaily? {
        BalanceAppend(ledger, DailyMark, at);
      }
    }
  }

  /** One more operation in two ledgers. */
  lemma {:induction false} SettledAlike(u: Usage, v: Usage, op: Op, tenant: string, d: Stamp, e: Stamp, asked: Stamp,
                                        answered: Stamp)
    ensures var u', v' := Settled(u, op, tenant, d, asked), Settled(v, op, tenant, e, answered);
      var recorded := op.RecordUsage? && op.tenant == tenant;
      var hours := recorded ==> (d.hour == asked.hour <==> e.hour == answered.hour);
      var days := recorded ==> (d.day == asked.day <==> e.day == answered.day);
      && (hours && (ClearsHour(op, tenant) || Hourly(u) == Hourly(v)) ==> Hourly(u') == Hourly(v'))
      && (days && (ClearsDay(op, tenant) || u.dailyTokens == v.dailyTokens) ==> u'.dailyTokens == v'.dailyTokens)
      && (Lasting(u) == Lasting(v) ==> Lasting(u') == Lasting(v'))
  {
  }

  lemma {:induction false} HoursAlignedFront(ops: seq<Op>, tenant: string, asked: int, answered: int)
    requires ops != [] && HoursAligned(ops, tenant, asked, answered)
    ensures var n := |ops| - 1;
      && (!ClearsHour(ops[n], tenant) ==> HoursAligned(ops[..n], tenant, asked, answered))
      && (ops[n].RecordUsage? && ops[n].tenant == tenant ==>
            (DateOf(ops, tenant, ByClock, n).hour == asked <==> DateOf(ops, tenant, ByHighWater, n).hour == answered))
  {
    var n := |ops| - 1;
    assert ops[n].RecordUsage? && ops[n].tenant == tenant ==> HourLive(ops, tenant, n);
    if !ClearsHour(ops[n], tenant) {
      forall p: nat | HourLive(ops[..n], tenant, p)
        ensures DateOf(ops[..n], tenant, ByClock, p).hour == asked <==>
                DateOf(ops[..n], tenant, ByHighWater, p).hour == answered
      {
        assert HourLive(ops, tenant, p) && ops[..n][..p] == ops[..p];
      }
    }
  }

  lemma {:induction false} DaysAlignedFront(ops: seq<Op>, tenant: string, asked: int, answered: int)
    requires ops != [] && DaysAligned(ops, tenant, asked, answered)
    ensures var n := |ops| - 1;
      && (!ClearsDay(ops[n], tenant) ==> DaysAligned(ops[..n], tenant, asked, answered))
      && (ops[n].RecordUsage? && ops[n].tenant == tenant ==>
            (DateOf(ops, tenant, ByClock, n).day == asked <==> DateOf(ops, tenant, ByHighWater, n).day == answered))
  {
    var n := |ops| - 1;
    assert ops[n].RecordUsage? && ops[n].tenant == tenant ==> DayLive(ops, tenant, n);
    if !ClearsDay(ops[n], tenant) {
      forall p: nat | DayLive(ops[..n], tenant, p)
        ensures DateOf(ops[..n], tenant, ByClock, p).day == asked <==>
                DateOf(ops[..n], tenant, ByHighWater, p).day == answered
      {
        assert DayLive(ops, tenant, p) && ops[..n][..p] == ops[..p];
      }
    }
  }

  /** The balances of one run in the two ledgers, before and after its last operation. */
  lemma {:induction false} LastOperation(ops: seq<Op>, tenant: string, asked: Stamp, answered: Stamp)
    requires ops != []
    ensures var n := |ops| - 1;
      var u, v := Balance(Ledger(ops[..n], tenant, ByClock), asked),
                  Balance(Ledger(ops[..n], tenant, ByHighWater), answered);
      && Balance(Ledger(ops, tenant, ByClock), asked) ==
         Settled(u, ops[n], tenant, DateOf(ops, tenant, ByClock, n), asked)
      && Balance(Ledger(ops, tenant, ByHighWater), answered) ==
         Settled(v, ops[n], tenant, DateOf(ops, tenant, ByHighWater, n), answered)
  {
    var n := |ops| - 1;
    assert ops[..n] + [ops[n]] == ops;
    LedgerStep(ops[..n], ops[n], tenant, ByClock, asked);
    LedgerStep(ops[..n], ops[n], tenant, ByHighWater, answered);
  }

  lemma {:induction false} LastOperationAlike(ops: seq<Op>, tenant: string, asked: Stamp, answered: Stamp)
    requires ops != []
    ensures var n := |ops| - 1;
      var u, v := Balance(Ledger(ops[..n], tenant, ByClock), asked),
                  Balance(Ledger(ops[..n], tenant, ByHighWater), answered);
      var u', v' := Balance(Ledger(ops, tenant, ByClock), asked), Balance(Ledger(ops, tenant, ByHighWater), answered);
      var hours := HoursAligned(ops, tenant, asked.hour, answered.hour);
      var days := DaysAligned(ops, tenant, asked.day, answered.day);
      && (hours && (ClearsHour(ops[n], tenant) || Hourly(u) == Hourly(v)) ==> Hourly(u') == Hourly(v'))
      && (days && (ClearsDay(ops[n], tenant) || u.dailyTokens == v.dailyTokens) ==> u'.dailyTokens == v'.dailyTokens)
      && (Lasting(u) == Lasting(v) ==> Lasting(u') == Lasting(v'))
  {
    var n := |ops| - 1;
    LastOperation(ops, tenant, asked, answered);
    SettledAlike(Balance(Ledger(ops[..n], tenant, ByClock), asked),
                 Balance(Ledger(ops[..n], tenant, ByHighWater), answered), ops[n], tenant,
                 DateOf(ops, tenant, ByClock, n), DateOf(ops, tenant, ByHighWater, n), asked, answered);
    if HoursAligned(ops, tenant, asked.hour, answered.hour) {
      HoursAlignedFront(ops, tenant, asked.hour, answered.hour);
    }
    if DaysAligned(ops, tenant, asked.day, answered.day) {
      DaysAlignedFront(ops, tenant, asked.day, answered.day);
    }
  }

  lemma {:induction false} AlignedHours(ops: seq<Op>, tenant: string, asked: Stamp, answered: Stamp)
    requires HoursAligned(ops, tenant, asked.hour, answered.hour)
    ensures Hourly(Balance(Ledger(ops, tenant, ByClock), asked)) ==
            Hourly(Balance(Ledger(ops, tenant, ByHighWater), answered))
  {
    if ops != [] {
      var n := |ops| - 1;
      LastOperationAlike(ops, tenant, asked, answered);
      HoursAlignedFront(ops, tenant, asked.hour, answered.hour);
      if !ClearsHour(ops[n], tenant) { AlignedHours(ops[..n], tenant, asked, answered); }
    }
  }

  lemma {:induction false} AlignedDays(ops: seq<Op>, tenant: string, asked: Stamp, answered: Stamp)
    requires DaysAligned(ops, tenant, asked.day, answered.day)
    ensures Balance(Ledger(ops, tenant, ByClock), asked).dailyTokens ==
            Balance(Ledger(ops, tenant, ByHighWater), answered).dailyTokens
  {
    if ops != [] {
      var n := |ops| - 1;
      LastOperationAlike(ops, tenant, asked, answered);
      DaysAlignedFront(ops, tenant, asked.day, answered.day);
      if !ClearsDay(ops[n], tenant) { AlignedDays(ops[..n], tenant, asked, answered); }
    }
  }

  /** The counters that are never reset do not depend on dates. */
  lemma {:induction false} SameLasting(ops: seq<Op>, tenant: string, asked: Stamp, answered: Stamp)
    ensures Lasting(Balance(Ledger(ops, tenant, ByClock), asked)) ==
            Lasting(Balance(Ledger(ops, tenant, ByHighWater), answered))
  {
    if ops != [] {
      SameLasting(ops[..|ops| - 1], tenant, asked, answered);
      LastOperationAlike(ops, tenant, asked, answered);
    }
  }

  lemma {:induction false} AlignedBalance(ops: seq<Op>, tenant: string, now: int)
    requires Aligned(ops, tenant, now)
    ensures Balance(Ledger(ops, tenant, ByHighWater), Raised(HighWater(ops, tenant), now)) ==
            TrueUsage(ops, tenant, now)
  {
    var asked, answered := ClockStamp(now), Raised(HighWater(ops, tenant), now);
    AlignedHours(ops, tenant, asked, answered);
    AlignedDays(ops, tenant, asked, answered);
    SameLasting(ops, tenant, asked, answered);
  }

  /** When the readings are aligned, the reported usage is what was recorded in this hour, on this day or at all. */
  lemma {:induction false} UsageIsBalance(given: PartialQuota, ops: seq<Op>, tenant: string, now: int)
    requires Aligned(ops, tenant, now)
    ensures Respond(given, ops, GetUsage(tenant, now)) == Current(TrueUsage(ops, tenant, now))
  {
    UsageIsHighWaterBalance(given, ops, tenant, now);
    AlignedBalance(ops, tenant, now);
  }

  /** When the readings are aligned, an action is refused exactly when that usage has reached the limit in force. */
  lemma {:induction false} CheckIsBalance(given: PartialQuota, ops: seq<Op>, tenant: string, action: Action, now: int)
    requires Aligned(ops, tenant, now)
    ensures Respond(given, ops, CheckQuota(tenant, action, now)) ==
            Verdict(given, ops, tenant, action, TrueUsage(ops, tenant, now))
  {
    CheckIsHighWaterBalance(given, ops, tenant, action, now);
    AlignedBalance(ops, tenant, now);
  }

  // ---------------------------------------------------------------- and exactly when

  /** The same operation, but for what it records. */
  predicate SameReading(a: Op, b: Op) {
    a == b || (a.RecordUsage? && b.RecordUsage? && a.tenant == b.tenant && a.now == b.now)
  }

  ghost predicate SameReadings(ops: seq<Op>, ops': seq<Op>) {
    |ops| == |ops'| && forall i :: 0 <= i < |ops| ==> SameReading(ops[i], ops'[i])
  }

  /** Whatever the operations record, the reported usage is the true one. */
  ghost predicate AlwaysTrue(given: PartialQuota, ops: seq<Op>, tenant: string, now: int) {
    forall ops' :: SameReadings(ops, ops') ==>
      Respond(given, ops', GetUsage(tenant, now)) == Current(TrueUsage(ops', tenant, now))
  }

  lemma {:induction false} SameHighWater(ops: seq<Op>, ops': seq<Op>, tenant: string, k: nat)
    requires SameReadings(ops, ops') && k <= |ops|
    ensures HighWater(ops[..k], tenant) == HighWater(ops'[..k], tenant)
  {
    if k > 0 {
      SameHighWater(ops, ops', tenant, k - 1);
      assert ops[..k][..k - 1] == ops[..k - 1] && ops'[..k][..k - 1] == ops'[..k - 1];
      assert SameReading(ops[k - 1], ops'[k - 1]);
    }
  }

  lemma {:induction false} SameDates(ops: seq<Op>, ops': seq<Op>, tenant: string, p: nat)
    requires SameReadings(ops, ops')
    ensures HourLive(ops, tenant, p) <==> HourLive(ops', tenant, p)
    ensures DayLive(ops, tenant, p) <==> DayLive(ops', tenant, p)
    ensures p < |ops| ==> forall dating :: DateOf(ops, tenant, dating, p) == DateOf(ops', tenant, dating, p)
  {
    assert forall j :: 0 <= j < |ops| ==> SameReading(ops[j], ops'[j]);
    if p < |ops| { SameHighWater(ops, ops', tenant, p); }
  }

  lemma {:induction false} SameAlignment(ops: seq<Op>, ops': seq<Op>, tenant: string, now: int)
    requires SameReadings(ops, ops') && Aligned(ops, tenant, now)
    ensures Aligned(ops', tenant, now)
  {
    SameHighWater(ops, ops', tenant, |ops|);
    assert ops[..|ops|] == ops && ops'[..|ops|] == ops';
    forall p: nat { SameDates(ops, ops', tenant, p); }
  }

  const ONE := Usage(1, 1, 1, 1, 1, 1, 1)

  function Recording(op: Op, delta: Usage): Op {
    if op.RecordUsage? then op.(delta := delta) else op
  }

  /** The same readings with one unit of everything recorded by operation `p` and nothing by the others. */
  function Probe(ops: seq<Op>, p: nat): (probe: seq<Op>)
    ensures |probe| == |ops|
  {
    if ops == [] then [] else
    var n := |ops| - 1;
    Probe(ops[..n], p) + [Recording(ops[n], if n == p then ONE else ZERO)]
  }

  lemma {:induction false} ProbeReads(ops: seq<Op>, p: nat)
    ensures SameReadings(ops, Probe(ops, p))
  {
    if ops != [] { ProbeReads(ops[..|ops| - 1], p); }
  }

  /** The unit recorded on `date` shows in the hourly and daily counters in which it is still live. */
  ghost predicate Shows(u: Usage, date: Stamp, at: Stamp, hourLive: bool, dayLive: bool) {
    && (hourLive ==> u.hourlyVerifyRuns == if date.hour == at.hour then 1 else 0)
    && (dayLive ==> u.dailyTokens == if date.day == at.day then 1 else 0)
  }

  /** An operation that records nothing leaves what it does not clear. */
  lemma {:induction false} NothingRecorded(u: Usage, op: Op, tenant: string, date': Stamp, date: Stamp, at: Stamp,
                                           hourLive: bool, dayLive: bool)
    ensures var v := Settled(u, Recording(op, ZERO), tenant, date', at);
      && (u == ZERO ==> v == ZERO)
      && (Shows(u, date, at, hourLive, dayLive) ==>
            Shows(v, date, at, hourLive && !ClearsHour(op, tenant), dayLive && !ClearsDay(op, tenant)))
  {
  }

  function ProbeUsage(ops: seq<Op>, p: nat, tenant: string, dating: Dating, at: Stamp): Usage {
    Balance(Ledger(Probe(ops, p), tenant, dating), at)
  }

  lemma {:induction false} ProbeDate(front: seq<Op>, p: nat, op: Op, delta: Usage, tenant: string, dating: Dating)
    ensures DateAfter(Probe(front, p), Recording(op, delta), tenant, dating) == DateAfter(front, op, tenant, dating)
  {
    ProbeReads(front, p);
    SameHighWater(front, Probe(front, p), tenant, |front|);
    assert front[..|front|] == front && Probe(front, p)[..|front|] == Probe(front, p);
  }

  /** The probe reads the same dates, so its last operation is settled on the date of the run's. */
  lemma {:induction false} ProbeStep(ops: seq<Op>, p: nat, tenant: string, dating: Dating, at: Stamp)
    requires ops != []
    ensures var n := |ops| - 1;
      ProbeUsage(ops, p, tenant, dating, at) ==
      Settled(ProbeUsage(ops[..n], p, tenant, dating, at), Recording(ops[n], if n == p then ONE else ZERO), tenant,
              DateOf(ops, tenant, dating, n), at)
  {
    var n := |ops| - 1;
    var delta := if n == p then ONE else ZERO;
    LedgerStep(Probe(ops[..n], p), Recording(ops[n], delta), tenant, dating, at);
    ProbeDate(ops[..n], p, ops[n], delta, tenant, dating);
  }

  lemma {:induction false} ProbeBefore(ops: seq<Op>, p: nat, tenant: string, dating: Dating, at: Stamp)
    requires |ops| <= p
    ensures ProbeUsage(ops, p, tenant, dating, at) == ZERO
  {
    if ops != [] {
      var n := |ops| - 1;
      ProbeBefore(ops[..n], p, tenant, dating, at);
      ProbeStep(ops, p, tenant, dating, at);
      NothingRecorded(ZERO, ops[n], tenant, DateOf(ops, tenant, dating, n), at, at, false, false);
    }
  }

  lemma {:induction false} UnitRecorded(op: Op, tenant: string, date: Stamp, at: Stamp)
    requires op.RecordUsage? && op.tenant == tenant
    ensures Shows(Settled(ZERO, Recording(op, ONE), tenant, date, at), date, at, true, true)
  {
  }

  /** The one unit shows in the hour and on the day of its date. */
  lemma {:induction false} ProbeShows(ops: seq<Op>, p: nat, tenant: string, dating: Dating, at: Stamp)
    requires p < |ops| && ops[p].RecordUsage? && ops[p].tenant == tenant
    ensures Shows(ProbeUsage(ops, p, tenant, dating, at), DateOf(ops, tenant, dating, p), at,
                  HourLive(ops, tenant, p), DayLive(ops, tenant, p))
  {
    var n := |ops| - 1;
    ProbeStep(ops, p, tenant, dating, at);
    if n == p {
      ProbeBefore(ops[..n], p, tenant, dating, at);
      UnitRecorded(ops[n], tenant, DateOf(ops, tenant, dating, n), at);
    } else {
      ProbeShows(ops[..n], p, tenant, dating, at);
      StillLive(ops, tenant, p, dating);
      NothingRecorded(ProbeUsage(ops[..n], p, tenant, dating, at), ops[n], tenant, DateOf(ops, tenant, dating, n),
                      DateOf(ops, tenant, dating, p), at, HourLive(ops[..n], tenant, p), DayLive(ops[..n], tenant, p));
    }
  }

  lemma {:induction false} StillLive(ops: seq<Op>, tenant: string, p: nat, dating: Dating)
    requires p < |ops| - 1
    ensures var n := |ops| - 1;
      && (HourLive(ops, tenant, p) <==> HourLive(ops[..n], tenant, p) && !ClearsHour(ops[n], tenant))
      && (DayLive(ops, tenant, p) <==> DayLive(ops[..n], tenant, p) && !ClearsDay(ops[n], tenant))
      && DateOf(ops, tenant, dating, p) == DateOf(ops[..n], tenant, dating, p)
  {
    assert ops[..|ops| - 1][..p] == ops[..p];
  }

  /** A true answer to the probe of `p` means that the two ledgers agree about `p`. */
  lemma {:induction false} ProbeAligned(given: PartialQuota, ops: seq<Op>, tenant: string, now: int, p: nat)
    requires AlwaysTrue(given, ops, tenant, now)
    ensures var asked, answered := ClockStamp(now), Raised(HighWater(ops, tenant), now);
      && (HourLive(ops, tenant, p) ==>
            (DateOf(ops, tenant, ByClock, p).hour == asked.hour <==>
             DateOf(ops, tenant, ByHighWater, p).hour == answered.hour))
      && (DayLive(ops, tenant, p) ==>
            (DateOf(ops, tenant, ByClock, p).day == asked.day <==>
             DateOf(ops, tenant, ByHighWater, p).day == answered.day))
  {
    var asked, answered := ClockStamp(now), Raised(HighWater(ops, tenant), now);
    var probe := Probe(ops, p);
    ProbeReads(ops, p);
    SameHighWater(ops, probe, tenant, |ops|);
    assert ops[..|ops|] == ops && probe[..|ops|] == probe;
    UsageIsHighWaterBalance(given, probe, tenant, now);
    assert Balance(Ledger(probe, tenant, ByHighWater), answered) == TrueUsage(probe, tenant, now);
    if p < |ops| && ops[p].RecordUsage? && ops[p].tenant == tenant {
      ProbeShows(ops, p, tenant, ByClock, asked);
      ProbeShows(ops, p, tenant, ByHighWater, answered);
    }
  }

  /** The usage reported after these readings is the true one, whatever was recorded, if and only if the readings are
      aligned. */
  lemma {:induction false} AlwaysTrueIffAligned(given: PartialQuota, ops: seq<Op>, tenant: string, now: int)
    ensures AlwaysTrue(given, ops, tenant, now) <==> Aligned(ops, tenant, now)
  {
    if Aligned(ops, tenant, now) {
      forall ops' | SameReadings(ops, ops')
        ensures Respond(given, ops', GetUsage(tenant, now)) == Current(TrueUsage(ops', tenant, now))
      {
        SameAlignment(ops, ops', tenant, now);
        UsageIsBalance(given, ops', tenant, now);
      }
    }
    if AlwaysTrue(given, ops, tenant, now) {
      forall p: nat { ProbeAligned(given, ops, tenant, now, p); }
    }
  }

  // ---------------------------------------------------------------- clocks that keep the readings aligned

  /** The tenant's readings never fall back into an earlier hour or day, up to and including `now`. */
  ghost predicate NeverBack(ops: seq<Op>, tenant: string, now: int) {
    && (forall i, j :: 0 <= i < j < |ops| && Reads(ops[i], tenant) && Reads(ops[j], tenant) ==>
          NotLater(ops[i].now, ops[j].now))
    && (forall i :: 0 <= i < |ops| && Reads(ops[i], tenant) ==> NotLater(ops[i].now, now))
  }

  predicate Reads(op: Op, tenant: string) {
    Timed(op) && op.tenant == tenant
  }

  predicate NotLater(a: int, b: int) {
    Period(a, HOUR_MS) <= Period(b, HOUR_MS) && Period(a, DAY_MS) <= Period(b, DAY_MS)
  }

  /** Without a step back the mark is never ahead of the clock. */
  lemma {:induction false} MarkIsClock(ops: seq<Op>, tenant: string, now: int)
    requires NeverBack(ops, tenant, now)
    ensures Raised(HighWater(ops, tenant), now) == ClockStamp(now)
  {
    if ops != [] {
      var front, op := ops[..|ops| - 1], ops[|ops| - 1];
      MarkIsClock(front, tenant, if Reads(op, tenant) then op.now else now);
      assert Reads(op, tenant) ==> NotLater(ops[|front|].now, now);
    }
  }

  /** A clock that never falls back for this tenant keeps its readings aligned; steps back within an hour and those
      that only other tenants see do not matter. */
  lemma {:induction false} NeverBackIsAligned(ops: seq<Op>, tenant: string, now: int)
    requires NeverBack(ops, tenant, now)
    ensures Aligned(ops, tenant, now)
  {
    MarkIsClock(ops, tenant, now);
    forall p: nat | p < |ops| && Reads(ops[p], tenant)
      ensures Raised(HighWater(ops[..p], tenant), ops[p].now) == ClockStamp(ops[p].now)
    {
      MarkIsClock(ops[..p], tenant, ops[p].now);
    }
  }

  /** One record and one question: every delta is reported truly exactly when the question does not come in an
      earlier hour or on an earlier day than the record. */
  lemma {:induction false} StepBackShowsIff(given: PartialQuota, tenant: string, delta: Usage, recorded: int,
                                            asked: int)
    ensures AlwaysTrue(given, [RecordUsage(tenant, delta, recorded)], tenant, asked) <==> NotLater(recorded, asked)
  {
    var ops := [RecordUsage(tenant, delta, recorded)];
    AlwaysTrueIffAligned(given, ops, tenant, asked);
    assert ops[..0] == [];
    assert HourLive(ops, tenant, 0) && DayLive(ops, tenant, 0);
    assert HighWater(ops, tenant) == Some(ClockStamp(recorded));
  }

  lemma {:induction false} OneOperation(op: Op, tenant: string, dating: Dating)
    ensures HighWater([op], tenant) == MarkAfter(None, op, tenant)
    ensures Ledger([op], tenant, dating) == Noted([], op, tenant, dating, None)
  {
    assert [op][..0] == [];
  }

  lemma {:induction false} OneEntry(e: Entry, at: Stamp)
    requires e.Delta?
    ensures Balance([e], at) == Counted(e, at)
  {
    assert [e][..0] == [];
  }

  lemma {:induction false} OneRecord(tenant: string, delta: Usage, recorded: int, dating: Dating, at: Stamp)
    ensures var ops := [RecordUsage(tenant, delta, recorded)];
      && HighWater(ops, tenant) == Some(ClockStamp(recorded))
      && Balance(Ledger(ops, tenant, dating), at) == Counted(Delta(ClockStamp(recorded), delta), at)
  {
    OneOperation(RecordUsage(tenant, delta, recorded), tenant, dating);
    OneEntry(Delta(ClockStamp(recorded), delta), at);
  }

  /** What was recorded in hour 1 is reported in hour 0, before it happened. */
  lemma {:induction false} ClockBackwardsMisreports(given: PartialQuota, tenant: string, delta: Usage)
    requires delta.hourlyVerifyRuns != 0
    ensures var ops := [RecordUsage(tenant, delta, HOUR_MS)];
      Respond(given, ops, GetUsage(tenant, 0)) != Current(TrueUsage(ops, tenant, 0))
  {
    UsageIsHighWaterBalance(given, [RecordUsage(tenant, delta, HOUR_MS)], tenant, 0);
    OneRecord(tenant, delta, HOUR_MS, ByClock, ClockStamp(0));
    OneRecord(tenant, delta, HOUR_MS, ByHighWater, ClockStamp(HOUR_MS));
  }

  ghost predicate Monotone(ops: seq<Op>, now: int) {
    && (forall i, j :: 0 <= i < j < |ops| && Timed(ops[i]) && Timed(ops[j]) ==> ops[i].now <= ops[j].now)
    && (forall i :: 0 <= i < |ops| && Timed(ops[i]) ==> ops[i].now <= now)
  }

  /** With a nondecreasing clock, usage and checks of every tenant are true. */
  lemma {:induction false} NondecreasingClockIsTrue(given: PartialQuota, ops: seq<Op>, tenant: string, action: Action,
                                                    now: int)
    requires Monotone(ops, now)
    ensures Respond(given, ops, GetUsage(tenant, now)) == Current(TrueUsage(ops, tenant, now))
    ensures Respond(given, ops, CheckQuota(tenant, action, now)) ==
            Verdict(given, ops, tenant, action, TrueUsage(ops, tenant, now))
  {
    assert forall a, b :: a <= b ==> NotLater(a, b);
    NeverBackIsAligned(ops, tenant, now);
    UsageIsBalance(given, ops, tenant, now);
    CheckIsBalance(given, ops, tenant, action, now);
  }

  // ---------------------------------------------------------------- field by field

  /** What the deltas of one hour add to a field, since the last hourly reset. */
  function SumHourly(ledger: seq<Entry>, hour: int, field: Usage -> int): int {
    if ledger == [] then 0 else
    var front, e := SumHourly(ledger[..|ledger| - 1], hour, field), ledger[|ledger| - 1];
    match e
    case Delta(at, delta) => front + if at.hour == hour then field(delta) else 0
    case HourlyMark => 0
    case DailyMark => front
  }

  /** What the deltas of one day add to a field, since the last daily reset. */
  function SumDaily(ledger: seq<Entry>, day: int, field: Usage -> int): int {
    if ledger == [] then 0 else
    var front, e := SumDaily(ledger[..|ledger| - 1], day, field), ledger[|ledger| - 1];
    match e
    case Delta(at, delta) => front + if at.day == day then field(delta) else 0
    case HourlyMark => front
    case DailyMark => 0
  }

  function SumAll(ledger: seq<Entry>, field: Usage -> int): int {
    if ledger == [] then 0 else
    SumAll(ledger[..|ledger| - 1], field) +
    if ledger[|ledger| - 1].Delta? then field(ledger[|ledger| - 1].delta) else 0
  }

  /** Every field of a balance is the sum of that field. */
  lemma {:induction false} BalanceByField(ledger: seq<Entry>, now: Stamp)
    ensures var u := Balance(ledger, now);
      && u.concurrentTasks == SumAll(ledger, (d: Usage) => d.concurrentTasks)
      && u.storageMb == SumAll(ledger, (d: Usage) => d.storageMb)
      && u.observationCount == SumAll(ledger, (d: Usage) => d.observationCount)
      && u.dailyTokens == SumDaily(ledger, now.day, (d: Usage) => d.dailyTokens)
      && u.hourlyToolInvocations == SumHourly(ledger, now.hour, (d: Usage) => d.hourlyToolInvocations)
      && u.hourlyVerifyRuns == SumHourly(ledger, now.hour, (d: Usage) => d.hourlyVerifyRuns)
      && u.hourlyCorrections == SumHourly(ledger, now.hour, (d: Usage) => d.hourlyCorrections)
  {
    if ledger != [] { BalanceByField(ledger[..|ledger| - 1], now); }
  }

  /** The usage reported while the readings are aligned, field by field: an hour has 3600000 milliseconds and a day
      86400000. */
  lemma {:induction false} UsageByField(given: PartialQuota, ops: seq<Op>, tenant: string, now: int)
    requires Aligned(ops, tenant, now)
    ensures var ledger, hour, day := Ledger(ops, tenant, ByClock), now / 3_600_000, now / 86_400_000;
      Respond(given, ops, GetUsage(tenant, now)) == Current(Usage(
        SumAll(ledger, (d: Usage) => d.concurrentTasks), SumAll(ledger, (d: Usage) => d.storageMb),
        SumAll(ledger, (d: Usage) => d.observationCount), SumDaily(ledger, day, (d: Usage) => d.dailyTokens),
        SumHourly(ledger, hour, (d: Usage) => d.hourlyToolInvocations),
        SumHourly(ledger, hour, (d: Usage) => d.hourlyVerifyRuns),
        SumHourly(ledger, hour, (d: Usage) => d.hourlyCorrections)))
  {
    UsageIsBalance(given, ops, tenant, now);
    BalanceByField(Ledger(ops, tenant, ByClock), ClockStamp(now));
  }

  /** What was recorded is dated by the clock's hour and day. */
  lemma {:induction false} RecordIsDated(ops: seq<Op>, tenant: string, delta: Usage, now: int)
    ensures Ledger(ops + [RecordUsage(tenant, delta, now)], tenant, ByClock) ==
            Ledger(ops, tenant, ByClock) + [Delta(Stamp(now / 3_600_000, now / 86_400_000), delta)]
  {
    assert (ops + [RecordUsage(tenant, delta, now)])[..|ops|] == ops;
  }

  function Compared(limit: int, current: int): Answer {
    if current >= limit then Exceeded(limit, current) else Permitted
  }

  /** Every action is checked against its own limit and its own counter, on every run and with any clock. */
  lemma {:induction false} CheckByAction(given: PartialQuota, ops: seq<Op>, tenant: string, now: int)
    ensures var q := QuotaInForce(given, ops, tenant).limits;
      var u := Balance(Ledger(ops, tenant, ByHighWater), Raised(HighWater(ops, tenant), now));
      && Respond(given, ops, GetUsage(tenant, now)) == Current(u)
      && Respond(given, ops, CheckQuota(tenant, ConcurrentTask, now)) == Compared(q.concurrentTasks, u.concurrentTasks)
      && Respond(given, ops, CheckQuota(tenant, Storage, now)) == Compared(q.storageMb, u.storageMb)
      && Respond(given, ops, CheckQuota(tenant, Observation, now)) == Compared(q.observationCount, u.observationCount)
      && Respond(given, ops, CheckQuota(tenant, TokenSpend, now)) == Compared(q.dailyTokens, u.dailyTokens)
      && Respond(given, ops, CheckQuota(tenant, ToolInvocation, now)) ==
         Compared(q.hourlyToolInvocations, u.hourlyToolInvocations)
      && Respond(given, ops, CheckQuota(tenant, VerifyRun, now)) == Compared(q.hourlyVerifyRuns, u.hourlyVerifyRuns)
      && Respond(given, ops, CheckQuota(tenant, Correction, now)) == Compared(q.hourlyCorrections, u.hourlyCorrections)
  {
    UsageIsHighWaterBalance(given, ops, tenant, now);
    forall action { CheckIsHighWaterBalance(given, ops, tenant, action, now); }
  }

  /** The limits of a quota: the given ones, and the fixed defaults for the rest. */
  lemma {:induction false} FilledByField(q: PartialQuota)
    ensures var limits := Filled(q).limits;
      && limits.concurrentTasks == Or(q.concurrentTasks, 4) && limits.storageMb == Or(q.storageMb, 1024)
      && limits.observationCount == Or(q.observationCount, 10_000)
      && limits.dailyTokens == Or(q.dailyTokens, 1_000_000)
      && limits.hourlyToolInvocations == Or(q.hourlyToolInvocations, 1000)
      && limits.hourlyVerifyRuns == Or(q.hourlyVerifyRuns, 500)
      && limits.hourlyCorrections == Or(q.hourlyCorrections, 200)
  {
  }

  // ---------------------------------------------------------------- the class

  class QuotaManager {
    const defaultQuota: Quota
    var quotas: map<string, Quota>
    var usage: map<string, Usage>
    var lastHourBoundary: map<string, int>
    var lastDayBoundary: map<string, int>

    ghost function Model(): State
      reads this
    {
      State(defaultQuota, quotas, usage, lastHourBoundary, lastDayBoundary)
    }

    constructor (given: PartialQuota)
      ensures Model() == RunState(given, [])
    {
      defaultQuota := Filled(given);
      quotas, usage, lastHourBoundary, lastDayBoundary := map[], map[], map[], map[];
    }

    method AutoResetIfStale(tenantId: string, now: int)
      modifies this
      ensures Model() == AutoReset(old(Model()), tenantId, now)
    {
      var currentHour, currentDay := now / HOUR_MS, now / DAY_MS;
      if tenantId !in lastHourBoundary {
        lastHourBoundary := lastHourBoundary[tenantId := currentHour];
      } else if currentHour > lastHourBoundary[tenantId] {
        ResetHourly(tenantId);
        lastHourBoundary := lastHourBoundary[tenantId := currentHour];
      }
      if tenantId !in lastDayBoundary {
        lastDayBoundary := lastDayBoundary[tenantId := currentDay];
      } else if currentDay > lastDayBoundary[tenantId] {
        ResetDaily(tenantId);
        lastDayBoundary := lastDayBoundary[tenantId := currentDay];
      }
    }

    method GetUsage(tenantId: string, now: int) returns (u: Usage)
      modifies this
      ensures (Model(), Current(u)) == Apply(old(Model()), Op.GetUsage(tenantId, now))
    {
      AutoResetIfStale(tenantId, now);
      return if tenantId in usage then usage[tenantId] else ZERO;
    }

    method CheckQuota(tenantId: string, action: Action, now: int) returns (answer: Answer)
      modifies this
      ensures (Model(), answer) == Apply(old(Model()), Op.CheckQuota(tenantId, action, now))
    {
      AutoResetIfStale(tenantId, now);
      var quota := if tenantId in quotas then quotas[tenantId] else defaultQuota;
      var u := if tenantId in usage then usage[tenantId] else ZERO;
      if Field(u, action) >= Field(quota.limits, action) {
        return Exceeded(Field(quota.limits, action), Field(u, action));
      }
      return Permitted;
    }

    method RecordUsage(tenantId: string, delta: Usage, now: int)
      modifies this
      ensures Model() == Apply(old(Model()), Op.RecordUsage(tenantId, delta, now)).0
    {
      var current := GetUsage(tenantId, now);
      usage := usage[tenantId := Plus(current, delta)];
    }

    method ResetHourly(tenantId: string)
      modifies this`usage
      ensures Model() == HourlyCleared(old(Model()), tenantId)
    {
      if tenantId in usage { usage := usage[tenantId := ClearHourly(usage[tenantId])]; }
    }

    method ResetDaily(tenantId: string)
      modifies this`usage
      ensures Model() == DailyCleared(old(Model()), tenantId)
    {
      if tenantId in usage { usage := usage[tenantId := ClearDaily(usage[tenantId])]; }
    }

    method RemoveTenant(tenantId: string)
      modifies this
      ensures Model() == Apply(old(Model()), Op.RemoveTenant(tenantId)).0
    {
      quotas, usage := quotas - {tenantId}, usage - {tenantId};
      lastHourBoundary, lastDayBoundary := lastHourBoundary - {tenantId}, lastDayBoundary - {tenantId};
    }

    method SetQuota(tenantId: string, quota: PartialQuota)
      modifies this`quotas
      ensures Model() == Apply(old(Model()), Op.SetQuota(tenantId, quota)).0
    {
      quotas := quotas[tenantId := Filled(quota)];
    }
  }
}

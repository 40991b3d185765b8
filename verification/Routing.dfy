/** The arithmetic of packages/memory-palace/src/routing-engine.ts, over the reals: hashed bag-of-words vectors,
    cosine similarity, and weighted pass rates.  Text is a list of UTF-16 code units; the square root is a
    parameter. */
module Routing {
  // ---------------------------------------------------------------- hashed vectors

  type Text = seq<bv16>

  const FNV_OFFSET: bv32 := 2166136261
  const FNV_PRIME: bv32 := 16777619
  const TWO_31 := 0x8000_0000
  const TWO_32 := 0x1_0000_0000

  function Fnv(token: Text): bv32 {
    if token == [] then FNV_OFFSET else Mix(Fnv(token[..|token| - 1]), token[|token| - 1])
  }

  /** One round of FNV-1a, in 32-bit arithmetic. */
  function Mix(hash: bv32, unit: bv16): bv32 {
    (hash ^ (unit as bv32)) * FNV_PRIME
  }

  /** `Math.abs` of the hash: after the first character it is a signed 32-bit number, before that the offset itself. */
  function Magnitude(token: Text, hash: bv32): nat {
    var n := hash as int;
    if token != [] && n >= TWO_31 then TWO_32 - n else n
  }

  /** The hash as a signed 32-bit number, and its absolute value; the offset of the empty token is not signed. */
  lemma {:induction false} MagnitudeIsAbsolute(token: Text, hash: bv32)
    ensures var signed := if hash as int >= 0x8000_0000 then hash as int - 0x1_0000_0000 else hash as int;
      Magnitude(token, hash) == if token == [] then hash as int else if signed < 0 then -signed else signed
  {
  }

  function SlotOf(token: Text, dimensions: nat): (slot: nat)
    requires dimensions > 0
    ensures slot < dimensions
  {
    Magnitude(token, Fnv(token)) % dimensions
  }

  /** How many tokens fall into a slot. */
  function TokensIn(tokens: seq<Text>, dimensions: nat, slot: nat): nat
    requires dimensions > 0
  {
    if tokens == [] then 0 else
    TokensIn(tokens[..|tokens| - 1], dimensions, slot) +
    if SlotOf(tokens[|tokens| - 1], dimensions) == slot then 1 else 0
  }

  function Sum(v: seq<nat>): nat {
    if v == [] then 0 else Sum(v[..|v| - 1]) + v[|v| - 1]
  }

  lemma {:induction false} SumBump(v: seq<nat>, k: nat)
    requires k < |v|
    ensures Sum(v[k := v[k] + 1]) == Sum(v) + 1
  {
    var m := |v| - 1;
    var w := v[k := v[k] + 1];
    if k == m {
      assert w[..m] == v[..m];
    } else {
      SumBump(v[..m], k);
      assert w[..m] == v[..m][k := v[k] + 1];
    }
  }

  lemma {:induction false} SumZeros(v: seq<nat>)
    requires forall i :: 0 <= i < |v| ==> v[i] == 0
    ensures Sum(v) == 0
  {
    if v != [] { SumZeros(v[..|v| - 1]); }
  }

  /** The published hash of the letter "a". */
  lemma {:induction false} HashOfA()
    ensures Fnv([97]) == 0xE40C_292C
  {
    var a: Text := [97];
    assert a[..0] == [];
  }

  method HashToken(token: Text) returns (hash: bv32)
    ensures hash == Fnv(token)
  {
    hash := FNV_OFFSET;
    for i := 0 to |token|
      invariant hash == Fnv(token[..i])
    {
      assert token[..i + 1][..i] == token[..i];
      hash := Mix(hash, token[i]);
    }
    assert token[..|token|] == token;
  }

  method FindSlot(token: Text, dimensions: nat) returns (slot: nat)
    requires dimensions > 0
    ensures slot == SlotOf(token, dimensions)
  {
    var hash := HashToken(token);
    slot := Magnitude(token, hash) % dimensions;
  }

  /** Entry `k` counts the tokens that fall into slot `k`. */
  ghost predicate Counts(v: seq<nat>, tokens: seq<Text>, dimensions: nat)
    requires dimensions > 0
  {
    && |v| == dimensions && Sum(v) == |tokens|
    && forall k :: 0 <= k < dimensions ==> v[k] == TokensIn(tokens, dimensions, k)
  }

  lemma {:induction false} CountOne(v: seq<nat>, tokens: seq<Text>, token: Text, dimensions: nat)
    requires dimensions > 0 && Counts(v, tokens, dimensions)
    ensures var slot := SlotOf(token, dimensions);
      Counts(v[slot := v[slot] + 1], tokens + [token], dimensions)
  {
    assert (tokens + [token])[..|tokens|] == tokens;
    SumBump(v, SlotOf(token, dimensions));
  }

  /** Every token is counted once, in a slot within bounds; with no dimensions there is nowhere to count. */
  method Vectorize(tokens: seq<Text>, dimensions: nat) returns (result: seq<nat>)
    ensures if dimensions == 0 then result == [] else Counts(result, tokens, dimensions)
  {
    var vector := new nat[dimensions](_ => 0);
    SumZeros(vector[..]);
    for t := 0 to |tokens|
      invariant dimensions > 0 ==> Counts(vector[..], tokens[..t], dimensions)
    {
      if dimensions > 0 {
        var slot := FindSlot(tokens[t], dimensions);
        CountOne(vector[..], tokens[..t], tokens[t], dimensions);
        assert tokens[..t + 1] == tokens[..t] + [tokens[t]];
        ghost var before := vector[..];
        vector[slot] := vector[slot] + 1;
        assert vector[..] == before[slot := before[slot] + 1];
      }
    }
    assert tokens[..|tokens|] == tokens;
    return vector[..];
  }

  // ---------------------------------------------------------------- cosine similarity

  /** `a[i] ?? 0`. */
  function At(a: seq<real>, i: nat): real {
    if i < |a| then a[i] else 0.0
  }

  function Dot(a: seq<real>, b: seq<real>, n: nat): real {
    if n == 0 then 0.0 else Dot(a, b, n - 1) + At(a, n - 1) * At(b, n - 1)
  }

  /** The squared length of `s * a - t * b`. */
  function Spread(a: seq<real>, b: seq<real>, s: real, t: real, n: nat): real {
    if n == 0 then 0.0 else
    var d := s * At(a, n - 1) - t * At(b, n - 1);
    Spread(a, b, s, t, n - 1) + d * d
  }

  lemma {:induction false} SquareExpands(s: real, t: real, x: real, y: real)
    ensures (s * x - t * y) * (s * x - t * y) == s * s * (x * x) - 2.0 * (s * t) * (x * y) + t * t * (y * y)
  {
  }

  lemma {:induction false} SpreadStep(s: real, t: real, xx: real, xy: real, yy: real, p: real, q: real, r: real)
    ensures (s * s * xx - 2.0 * (s * t) * xy + t * t * yy) + (s * s * p - 2.0 * (s * t) * q + t * t * r) ==
            s * s * (xx + p) - 2.0 * (s * t) * (xy + q) + t * t * (yy + r)
  {
  }

  lemma {:induction false} SpreadExpands(a: seq<real>, b: seq<real>, s: real, t: real, n: nat)
    ensures Spread(a, b, s, t, n) >= 0.0
    ensures Spread(a, b, s, t, n) == s * s * Dot(a, a, n) - 2.0 * (s * t) * Dot(a, b, n) + t * t * Dot(b, b, n)
  {
    if n > 0 {
      SpreadExpands(a, b, s, t, n - 1);
      var x, y := At(a, n - 1), At(b, n - 1);
      var d := s * x - t * y;
      assert d * d >= 0.0;
      SquareExpands(s, t, x, y);
      SpreadStep(s, t, Dot(a, a, n - 1), Dot(a, b, n - 1), Dot(b, b, n - 1), x * x, x * y, y * y);
    }
  }

  lemma {:induction false} NormNonNegative(a: seq<real>, n: nat)
    ensures Dot(a, a, n) >= 0.0
  {
    if n > 0 {
      NormNonNegative(a, n - 1);
      var x := At(a, n - 1);
      assert x * x >= 0.0;
    }
  }

  lemma {:induction false} PositiveProduct(x: real, y: real)
    requires x > 0.0 && y > 0.0
    ensures x * y > 0.0
  {
  }

  lemma {:induction false} NonZeroSquare(y: real)
    requires y != 0.0
    ensures y * y > 0.0
  {
    if y > 0.0 {
      PositiveProduct(y, y);
    } else {
      PositiveProduct(-y, -y);
      assert (-y) * (-y) == y * y;
    }
  }

  lemma {:induction false} ZeroNormZeroDot(a: seq<real>, b: seq<real>, n: nat)
    requires Dot(b, b, n) == 0.0
    ensures Dot(a, b, n) == 0.0
  {
    if n > 0 {
      NormNonNegative(b, n - 1);
      var x, y := At(a, n - 1), At(b, n - 1);
      assert y * y >= 0.0;
      ZeroNormZeroDot(a, b, n - 1);
      if y != 0.0 { NonZeroSquare(y); }
      assert x * y == 0.0;
    }
  }

  lemma {:induction false} PositiveFactor(x: real, d: real)
    requires d > 0.0 && x * d >= 0.0
    ensures x >= 0.0
  {
  }

  /** From `B * (A * B - D * D) >= 0` and `B > 0`. */
  lemma {:induction false} CancelPositive(A: real, B: real, D: real)
    requires B > 0.0 && B * B * A - 2.0 * (B * D) * D + D * D * B >= 0.0
    ensures D * D <= A * B
  {
    assert B * B * A - 2.0 * (B * D) * D + D * D * B == (A * B - D * D) * B;
    PositiveFactor(A * B - D * D, B);
  }

  /** The Cauchy-Schwarz inequality for vectors of any two lengths. */
  lemma {:induction false} CauchySchwarz(a: seq<real>, b: seq<real>, n: nat)
    ensures Dot(a, b, n) * Dot(a, b, n) <= Dot(a, a, n) * Dot(b, b, n)
  {
    var A, B, D := Dot(a, a, n), Dot(b, b, n), Dot(a, b, n);
    NormNonNegative(b, n);
    if B == 0.0 {
      ZeroNormZeroDot(a, b, n);
    } else {
      SpreadExpands(a, b, B, D, n);
      CancelPositive(A, B, D);
    }
  }

  ghost predicate NonNegative(a: seq<real>) {
    forall i :: 0 <= i < |a| ==> a[i] >= 0.0
  }

  lemma {:induction false} DotNonNegative(a: seq<real>, b: seq<real>, n: nat)
    requires NonNegative(a) && NonNegative(b)
    ensures Dot(a, b, n) >= 0.0
  {
    if n > 0 {
      DotNonNegative(a, b, n - 1);
      var x, y := At(a, n - 1), At(b, n - 1);
      assert x >= 0.0 && y >= 0.0;
      assert x * y >= 0.0;
    }
  }

  lemma {:induction false} SquareGrows(x: real, y: real)
    requires 0.0 < x < y
    ensures x * x < y * y
  {
    PositiveProduct(y - x, x + y);
    assert (y - x) * (x + y) == y * y - x * x;
  }

  /** A number whose square is at most that of a positive one lies between its opposite and it. */
  lemma {:induction false} SquareBounds(d: real, q: real)
    requires q > 0.0 && d * d <= q * q
    ensures -q <= d <= q
  {
    assert (-d) * (-d) == d * d;
    if d > q { SquareGrows(q, d); }
    if d < -q { SquareGrows(q, -d); }
  }

  lemma {:induction false} QuotientBounds(p: real, d: real, lo: real, hi: real)
    requires d > 0.0 && lo * d <= p <= hi * d
    ensures lo <= p / d <= hi
  {
    var r := p / d;
    assert r * d == p;
    assert (hi - r) * d == hi * d - p && (r - lo) * d == p - lo * d;
    PositiveFactor(hi - r, d);
    PositiveFactor(r - lo, d);
  }

  ghost predicate IsSqrt(sqrt: real -> real) {
    forall x :: x >= 0.0 ==> sqrt(x) >= 0.0 && sqrt(x) * sqrt(x) == x
  }

  lemma {:induction false} RootProduct(sqrt: real -> real, A: real, B: real)
    requires IsSqrt(sqrt) && A > 0.0 && B > 0.0
    ensures sqrt(A) * sqrt(B) > 0.0 && (sqrt(A) * sqrt(B)) * (sqrt(A) * sqrt(B)) == A * B
  {
    var x, y := sqrt(A), sqrt(B);
    assert x * x == A && y * y == B;
    assert x > 0.0 && y > 0.0;
    assert (x * y) * (x * y) == (x * x) * (y * y);
  }

  /** The product of the two norms. */
  function Norms(an: real, bn: real, sqrt: real -> real): real {
    sqrt(an) * sqrt(bn)
  }

  /** The quotient of the dot product by the product of the norms. */
  function Quotient(dot: real, an: real, bn: real, sqrt: real -> real): real
    requires Norms(an, bn, sqrt) != 0.0
  {
    dot / Norms(an, bn, sqrt)
  }

  /** `r` is the cosine of the angle between `a` and `b`: in [-1, 1], in [0, 1] if no entry is negative, and
      `r` times the norms is the dot product; a zero vector is similar to nothing. */
  ghost predicate IsCosine(a: seq<real>, b: seq<real>, n: nat, sqrt: real -> real, r: real) {
    && -1.0 <= r <= 1.0
    && (NonNegative(a) && NonNegative(b) ==> r >= 0.0)
    && var an, bn := Dot(a, a, n), Dot(b, b, n);
    if an == 0.0 || bn == 0.0 then r == 0.0 else r * Norms(an, bn, sqrt) == Dot(a, b, n)
  }

  lemma {:induction false} QuotientIsCosine(a: seq<real>, b: seq<real>, n: nat, sqrt: real -> real)
    requires IsSqrt(sqrt) && Dot(a, a, n) != 0.0 && Dot(b, b, n) != 0.0
    ensures Norms(Dot(a, a, n), Dot(b, b, n), sqrt) > 0.0
    ensures IsCosine(a, b, n, sqrt, Quotient(Dot(a, b, n), Dot(a, a, n), Dot(b, b, n), sqrt))
  {
    NormNonNegative(a, n);
    NormNonNegative(b, n);
    CauchySchwarz(a, b, n);
    RootProduct(sqrt, Dot(a, a, n), Dot(b, b, n));
    var q, d := Norms(Dot(a, a, n), Dot(b, b, n), sqrt), Dot(a, b, n);
    SquareBounds(d, q);
    QuotientBounds(d, q, -1.0, 1.0);
    assert d / q * q == d;
    if NonNegative(a) && NonNegative(b) {
      DotNonNegative(a, b, n);
      QuotientBounds(d, q, 0.0, 1.0);
    }
  }

  method Cosine(a: seq<real>, b: seq<real>, sqrt: real -> real) returns (r: real)
    requires IsSqrt(sqrt)
    ensures IsCosine(a, b, if |a| > |b| then |a| else |b|, sqrt, r)
  {
    var dot, an, bn := 0.0, 0.0, 0.0;
    var length := if |a| > |b| then |a| else |b|;
    for i := 0 to length
      invariant dot == Dot(a, b, i) && an == Dot(a, a, i) && bn == Dot(b, b, i)
    {
      var av, bv := At(a, i), At(b, i);
      dot, an, bn := dot + av * bv, an + av * av, bn + bv * bv;
    }
    if an == 0.0 || bn == 0.0 { return 0.0; }
    QuotientIsCosine(a, b, length, sqrt);
    r := Quotient(dot, an, bn, sqrt);
  }

  // ---------------------------------------------------------------- weighted pass rates

  datatype OutcomeClass = Passed | Failed | Errored

  /** A selected observation: `lesson` is the explicit routing lesson, empty when unset. */
  datatype Entry = Entry(
    model: string, mode: string, outcome: OutcomeClass, lesson: string, validated: bool, similarity: real, tokens: real)

  datatype Stats = Stats(pass: real, fail: real, tokens: real, score: real)

  /** The records of modes keep no tokens. */
  datatype ModeStats = ModeStats(pass: real, fail: real, score: real)

  const NO_STATS := Stats(0.0, 0.0, 0.0, 0.0)

  function Weight(e: Entry): real {
    e.similarity * if e.validated then 2.0 else 1.0
  }

  datatype Credit = Reward | Punish | Neutral

  /** The explicit lesson decides; an unset or unknown one leaves it to the outcome. */
  function CreditOf(e: Entry): Credit {
    if e.lesson == "reward" then Reward
    else if e.lesson == "punish" then Punish
    else if e.lesson == "neutral" then Neutral
    else if e.outcome == Passed then Reward
    else if e.outcome == Failed then Punish
    else Neutral
  }

  function Passing(e: Entry): real {
    if CreditOf(e) == Reward then Weight(e) else 0.0
  }

  function Failing(e: Entry): real {
    if CreditOf(e) == Punish then Weight(e) else 0.0
  }

  function Scored(s: Stats, e: Entry): Stats {
    Stats(s.pass + Passing(e), s.fail + Failing(e), s.tokens + e.tokens * Weight(e), s.score + Weight(e))
  }

  function ScoredMode(s: ModeStats, e: Entry): ModeStats {
    ModeStats(s.pass + Passing(e), s.fail + Failing(e), s.score + Weight(e))
  }

  /** The entries of one model or of one mode. */
  datatype Group = OfModel(model: string) | OfMode(mode: string)

  predicate In(e: Entry, group: Group) {
    match group
    case OfModel(model) => e.model == model
    case OfMode(mode) => e.mode == mode
  }

  /** The sums over the entries of one group. */
  function Grouped(entries: seq<Entry>, group: Group): Stats {
    if entries == [] then NO_STATS else
    var front, e := Grouped(entries[..|entries| - 1], group), entries[|entries| - 1];
    if In(e, group) then Scored(front, e) else front
  }

  function WithoutTokens(s: Stats): ModeStats {
    ModeStats(s.pass, s.fail, s.score)
  }

  function GetModel(byModel: map<string, Stats>, model: string): Stats {
    if model in byModel then byModel[model] else NO_STATS
  }

  function GetMode(byMode: map<string, ModeStats>, mode: string): ModeStats {
    if mode in byMode then byMode[mode] else WithoutTokens(NO_STATS)
  }

  ghost predicate Occurs(entries: seq<Entry>, group: Group) {
    exists i :: 0 <= i < |entries| && In(entries[i], group)
  }

  /** One record per model that occurs, holding the sums over its entries. */
  ghost predicate AggregatesModels(entries: seq<Entry>, byModel: map<string, Stats>) {
    && (forall m :: m in byModel <==> Occurs(entries, OfModel(m)))
    && forall m :: GetModel(byModel, m) == Grouped(entries, OfModel(m))
  }

  ghost predicate AggregatesModes(entries: seq<Entry>, byMode: map<string, ModeStats>) {
    && (forall m :: m in byMode <==> Occurs(entries, OfMode(m)))
    && forall m :: GetMode(byMode, m) == WithoutTokens(Grouped(entries, OfMode(m)))
  }

  lemma {:induction false} OneMore(entries: seq<Entry>, e: Entry, group: Group)
    ensures Occurs(entries + [e], group) <==> Occurs(entries, group) || In(e, group)
    ensures Grouped(entries + [e], group) ==
            if In(e, group) then Scored(Grouped(entries, group), e) else Grouped(entries, group)
  {
    var all := entries + [e];
    assert all[..|entries|] == entries && all[|entries|] == e;
    assert forall i :: 0 <= i < |entries| ==> all[i] == entries[i];
  }

  lemma {:induction false} AggregateModel(entries: seq<Entry>, e: Entry, byModel: map<string, Stats>)
    requires AggregatesModels(entries, byModel)
    ensures AggregatesModels(entries + [e], byModel[e.model := Scored(GetModel(byModel, e.model), e)])
  {
    forall m { OneMore(entries, e, OfModel(m)); }
  }

  lemma {:induction false} AggregateMode(entries: seq<Entry>, e: Entry, byMode: map<string, ModeStats>)
    requires AggregatesModes(entries, byMode)
    ensures AggregatesModes(entries + [e], byMode[e.mode := ScoredMode(GetMode(byMode, e.mode), e)])
  {
    forall m { OneMore(entries, e, OfMode(m)); }
  }

  /** One entry scored for its model and its mode. */
  method Score(e: Entry, model0: Stats, mode0: ModeStats) returns (model: Stats, mode: ModeStats)
    ensures model == Scored(model0, e) && mode == ScoredMode(mode0, e)
  {
    model, mode := model0, mode0;
    var lesson :=
      if e.lesson != "" then e.lesson
      else if e.outcome == Passed then "reward"
      else if e.outcome == Failed then "punish"
      else "neutral";
    var truthFactor := if e.validated then 2.0 else 1.0;
    var weight := e.similarity * truthFactor;
    if lesson == "reward" {
      model, mode := model.(pass := model.pass + weight), mode.(pass := mode.pass + weight);
    } else if lesson == "punish" {
      model, mode := model.(fail := model.fail + weight), mode.(fail := mode.fail + weight);
    } else if lesson == "neutral" {
    } else if e.outcome == Passed {
      model, mode := model.(pass := model.pass + weight), mode.(pass := mode.pass + weight);
    } else if e.outcome == Failed {
      model, mode := model.(fail := model.fail + weight), mode.(fail := mode.fail + weight);
    }
    model := model.(tokens := model.tokens + e.tokens * weight, score := model.score + weight);
    mode := mode.(score := mode.score + weight);
  }

  /** The aggregation loop: models and modes that occur, each with the sums over its entries. */
  method Aggregate(entries: seq<Entry>) returns (byModel: map<string, Stats>, byMode: map<string, ModeStats>)
    ensures AggregatesModels(entries, byModel) && AggregatesModes(entries, byMode)
  {
    byModel, byMode := map[], map[];
    for i := 0 to |entries|
      invariant AggregatesModels(entries[..i], byModel) && AggregatesModes(entries[..i], byMode)
    {
      var e := entries[i];
      assert entries[..i + 1] == entries[..i] + [e];
      var model, mode := Score(e, GetModel(byModel, e.model), GetMode(byMode, e.mode));
      AggregateModel(entries[..i], e, byModel);
      AggregateMode(entries[..i], e, byMode);
      byModel, byMode := byModel[e.model := model], byMode[e.mode := mode];
    }
    assert entries[..|entries|] == entries;
  }

  predicate KnownLesson(e: Entry) {
    e.lesson == "reward" || e.lesson == "punish" || e.lesson == "neutral"
  }

  /** The similarities of the entries of a group with the given lesson or, without a known one, the given outcome; those
      a validator vouched for count twice. */
  function SumFor(entries: seq<Entry>, group: Group, lesson: string, outcome: OutcomeClass): real {
    if entries == [] then 0.0 else
    var front, e := SumFor(entries[..|entries| - 1], group, lesson, outcome), entries[|entries| - 1];
    if In(e, group) && (e.lesson == lesson || (!KnownLesson(e) && e.outcome == outcome))
    then front + (if e.validated then e.similarity + e.similarity else e.similarity) else front
  }

  /** The pass and fail sums, over lessons, outcomes and the double weight of validated entries. */
  lemma {:induction false} SumsByLesson(entries: seq<Entry>, group: Group)
    ensures Grouped(entries, group).pass == SumFor(entries, group, "reward", Passed)
    ensures Grouped(entries, group).fail == SumFor(entries, group, "punish", Failed)
  {
    if entries != [] { SumsByLesson(entries[..|entries| - 1], group); }
  }

  /** The formula for models and for modes. */
  function PassRate(pass: real, fail: real): real {
    pass / if pass + fail > 0.001 then pass + fail else 0.001
  }

  /** The share of passes, or a thousand times the passes where there is next to no evidence. */
  lemma {:induction false} PassRateIs(pass: real, fail: real)
    ensures pass + fail > 0.001 ==> PassRate(pass, fail) * (pass + fail) == pass
    ensures pass + fail <= 0.001 ==> PassRate(pass, fail) == pass * 1000.0
  {
  }

  function RateOf(s: Stats): real {
    PassRate(s.pass, s.fail)
  }

  /** Selection keeps only entries of similarity at least a quarter. */
  ghost predicate Selected(entries: seq<Entry>) {
    forall i :: 0 <= i < |entries| ==> entries[i].similarity >= 0.25
  }

  lemma {:induction false} GroupedNonNegative(entries: seq<Entry>, group: Group)
    requires Selected(entries)
    ensures Grouped(entries, group).pass >= 0.0 && Grouped(entries, group).fail >= 0.0
  {
    if entries != [] {
      GroupedNonNegative(entries[..|entries| - 1], group);
      assert entries[|entries| - 1].similarity >= 0.25;
    }
  }

  /** Every model's and every mode's pass rate is a rate. */
  lemma {:induction false} PassRateInRange(entries: seq<Entry>, group: Group)
    requires Selected(entries)
    ensures 0.0 <= RateOf(Grouped(entries, group)) <= 1.0
  {
    GroupedNonNegative(entries, group);
    var s := Grouped(entries, group);
    QuotientBounds(s.pass, if s.pass + s.fail > 0.001 then s.pass + s.fail else 0.001, 0.0, 1.0);
  }

  function Scoring(entries: seq<Entry>): seq<Entry> {
    if entries == [] then [] else
    var front, e := Scoring(entries[..|entries| - 1]), entries[|entries| - 1];
    if CreditOf(e) == Neutral then front else front + [e]
  }

  /** Neutral entries change no pass rate, wherever they stand among the others. */
  lemma {:induction false} NeutralsDoNotScore(entries: seq<Entry>, group: Group)
    ensures Grouped(Scoring(entries), group).pass == Grouped(entries, group).pass
    ensures Grouped(Scoring(entries), group).fail == Grouped(entries, group).fail
    ensures RateOf(Grouped(Scoring(entries), group)) == RateOf(Grouped(entries, group))
  {
    if entries != [] {
      var front, e := entries[..|entries| - 1], entries[|entries| - 1];
      NeutralsDoNotScore(front, group);
      if CreditOf(e) != Neutral {
        assert (Scoring(front) + [e])[..|Scoring(front)|] == Scoring(front);
      }
    }
  }

  predicate High(s: Stats) {
    RateOf(s) >= 0.62
  }

  predicate Low(s: Stats) {
    RateOf(s) <= 0.38 && s.pass + s.fail >= 0.35
  }

  /** The models of a ranking whose pass rate is high (the first two) or low with enough evidence (the first
      three). */
  function Prefer(ranked: seq<(string, Stats)>, room: nat): seq<string> {
    if ranked == [] || room == 0 then []
    else if High(ranked[0].1) then [ranked[0].0] + Prefer(ranked[1..], room - 1)
    else Prefer(ranked[1..], room)
  }

  function Avoid(ranked: seq<(string, Stats)>, room: nat): seq<string> {
    if ranked == [] || room == 0 then []
    else if Low(ranked[0].1) then [ranked[0].0] + Avoid(ranked[1..], room - 1)
    else Avoid(ranked[1..], room)
  }

  /** How many of the first `i` models have a high (low) pass rate. */
  function HighAmong(ranked: seq<(string, Stats)>, i: nat): nat
    requires i <= |ranked|
  {
    if i == 0 then 0 else (if High(ranked[0].1) then 1 else 0) + HighAmong(ranked[1..], i - 1)
  }

  function LowAmong(ranked: seq<(string, Stats)>, i: nat): nat
    requires i <= |ranked|
  {
    if i == 0 then 0 else (if Low(ranked[0].1) then 1 else 0) + LowAmong(ranked[1..], i - 1)
  }

  /** A model of high pass rate is preferred, in ranking order, as long as there is room; and one of low pass rate and
      enough evidence is avoided. */
  lemma {:induction false} PreferredInOrder(ranked: seq<(string, Stats)>, room: nat, i: nat)
    requires i < |ranked|
    ensures PassRate(ranked[i].1.pass, ranked[i].1.fail) >= 0.62 && HighAmong(ranked, i) < room ==>
      HighAmong(ranked, i) < |Prefer(ranked, room)| && Prefer(ranked, room)[HighAmong(ranked, i)] == ranked[i].0
    ensures PassRate(ranked[i].1.pass, ranked[i].1.fail) <= 0.38 && ranked[i].1.pass + ranked[i].1.fail >= 0.35 &&
            LowAmong(ranked, i) < room ==>
      LowAmong(ranked, i) < |Avoid(ranked, room)| && Avoid(ranked, room)[LowAmong(ranked, i)] == ranked[i].0
  {
    if i > 0 {
      PreferredInOrder(ranked[1..], room, i - 1);
      if room > 0 { PreferredInOrder(ranked[1..], room - 1, i - 1); }
    }
  }

  /** The ranking lists aggregated models, each with its own record. */
  ghost predicate Lists(ranked: seq<(string, Stats)>, byModel: map<string, Stats>) {
    forall i :: 0 <= i < |ranked| ==> ranked[i].0 in byModel && byModel[ranked[i].0] == ranked[i].1
  }

  lemma {:induction false} PreferredRate(ranked: seq<(string, Stats)>, byModel: map<string, Stats>, room: nat,
                                         m: string)
    requires Lists(ranked, byModel)
    ensures m in Prefer(ranked, room) ==> m in byModel && RateOf(byModel[m]) >= 0.62
    ensures m in Avoid(ranked, room) ==> m in byModel && RateOf(byModel[m]) <= 0.38
    ensures |Prefer(ranked, room)| <= room && |Avoid(ranked, room)| <= room
  {
    if ranked != [] && room > 0 {
      assert ranked[0].0 in byModel;
      PreferredRate(ranked[1..], byModel, room - 1, m);
      PreferredRate(ranked[1..], byModel, room, m);
    }
  }

  /** No model is both preferred and avoided, in whatever order the models are ranked. */
  lemma {:induction false} PreferAvoidDisjoint(ranked: seq<(string, Stats)>, byModel: map<string, Stats>, m: string)
    requires Lists(ranked, byModel)
    ensures !(m in Prefer(ranked, 2) && m in Avoid(ranked, 3))
  {
    PreferredRate(ranked, byModel, 2, m);
    PreferredRate(ranked, byModel, 3, m);
  }
}

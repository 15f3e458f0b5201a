/**
 Token pricing and the estimate that a request is admitted with. Costs are in micro-dollars: tokens times
 dollars per million tokens.
 */
module Pricing {
  import opened Shared

  /** Rates in dollars per million tokens. A rate that is not given counts as zero where it is applied. */
  datatype Rates = Rates(
    input: real,
    output: real,
    cachedInput: Option<real>,
    cacheRead: Option<real>,
    cacheWrite5m: Option<real>,
    cacheWrite1h: Option<real>)

  datatype ModelPricing = ModelPricing(
    base: Rates,
    longThreshold: Option<int>,
    longInput: Option<real>,
    longOutput: Option<real>,
    longCacheRead: Option<real>,
    longCacheWrite5m: Option<real>,
    longCacheWrite1h: Option<real>)

  datatype Usage = Usage(
    prompt: nat,
    completion: nat,
    cachedInput: nat,
    cacheRead: nat,
    cacheWrite5m: nat,
    cacheWrite1h: nat)

  /** Token counts as a provider reports them. */
  datatype Report = Report(
    prompt: real,
    completion: real,
    cachedInput: Option<real>,
    cacheRead: Option<real>,
    cacheWrite5m: Option<real>,
    cacheWrite1h: Option<real>)

  /** Truncated towards zero, and not below zero. */
  function Tokens(count: real): nat {
    if count <= 0.0 then 0 else count.Floor
  }

  function OrZero(x: Option<real>): real {
    if x.Some? then x.value else 0.0
  }

  function CreateUsageTokenCounts(report: Report): Usage {
    Usage(Tokens(report.prompt), Tokens(report.completion), Tokens(OrZero(report.cachedInput)),
          Tokens(OrZero(report.cacheRead)), Tokens(OrZero(report.cacheWrite5m)), Tokens(OrZero(report.cacheWrite1h)))
  }

  function CacheTokens(u: Usage): nat {
    u.cachedInput + u.cacheRead + u.cacheWrite5m + u.cacheWrite1h
  }

  function BaseInput(u: Usage): nat {
    if u.prompt >= CacheTokens(u) then u.prompt - CacheTokens(u) else 0
  }

  predicate HasLongRates(p: ModelPricing) {
    p.longInput.Some? || p.longOutput.Some? || p.longCacheRead.Some? || p.longCacheWrite5m.Some?
        || p.longCacheWrite1h.Some?
  }

  predicate AppliesLong(p: ModelPricing, prompt: nat) {
    p.longThreshold.Some? && prompt > p.longThreshold.value && HasLongRates(p)
  }

  /** The rates of long contexts. Plain cached input has no rate of its own there. */
  function LongRates(p: ModelPricing): Rates {
    Rates(
      if p.longInput.Some? then p.longInput.value else p.base.input,
      if p.longOutput.Some? then p.longOutput.value else p.base.output,
      p.base.cachedInput,
      OrElse(p.longCacheRead, p.base.cacheRead),
      OrElse(p.longCacheWrite5m, p.base.cacheWrite5m),
      OrElse(p.longCacheWrite1h, p.base.cacheWrite1h))
  }

  function AppliedRates(p: ModelPricing, prompt: nat): Rates {
    if AppliesLong(p, prompt) then LongRates(p) else p.base
  }

  /** What a number of tokens costs at a rate. */
  function Charge(tokens: nat, rate: real): real {
    tokens as real * rate
  }

  function CostAt(r: Rates, u: Usage): real {
    Charge(BaseInput(u), r.input)
    + Charge(u.cachedInput, OrZero(r.cachedInput))
    + Charge(u.cacheRead, OrZero(r.cacheRead))
    + Charge(u.cacheWrite5m, OrZero(r.cacheWrite5m))
    + Charge(u.cacheWrite1h, OrZero(r.cacheWrite1h))
    + Charge(u.completion, r.output)
  }

  /** The cost before rounding. */
  function ExactCost(p: ModelPricing, u: Usage): real {
    CostAt(AppliedRates(p, u.prompt), u)
  }

  /** Rounding to six decimals of a dollar; a tie goes to the larger number. */
  function Rounded(x: real): int {
    (x + 0.5).Floor
  }

  /** The cost that is charged, in micro-dollars. */
  function Cost(p: ModelPricing, u: Usage): int {
    Rounded(ExactCost(p, u))
  }

  /** What is estimated before a request is sent: all of the prompt at the input rate. */
  function Estimated(prompt: nat, completion: nat): Usage {
    Usage(prompt, completion, 0, 0, 0, 0)
  }

  predicate NonNegative(x: Option<real>) {
    x.Some? ==> x.value >= 0.0
  }

  predicate ValidRates(r: Rates) {
    && r.input >= 0.0 && r.output >= 0.0 && NonNegative(r.cachedInput) && NonNegative(r.cacheRead)
    && NonNegative(r.cacheWrite5m) && NonNegative(r.cacheWrite1h)
  }

  /** What the schema of pricing rules asks for. */
  predicate Valid(p: ModelPricing) {
    && ValidRates(p.base) && ValidRates(LongRates(p))
    && (p.longThreshold.Some? ==> p.longThreshold.value >= 1)
    && (HasLongRates(p) ==> p.longThreshold.Some?)
  }

  predicate CachesAtMostInput(r: Rates) {
    && OrZero(r.cachedInput) <= r.input && OrZero(r.cacheRead) <= r.input
    && OrZero(r.cacheWrite5m) <= r.input && OrZero(r.cacheWrite1h) <= r.input
  }

  /** Usage within an estimate: no more tokens of either kind, and the cached ones are part of the prompt. */
  predicate Within(actual: Usage, prompt: nat, completion: nat) {
    actual.prompt <= prompt && actual.completion <= completion && CacheTokens(actual) <= actual.prompt
  }

  /** The least numbers of tokens that are estimated for a request. */
  const LEAST_PROMPT := 24
  const LEAST_COMPLETION := 1

  /** Token counts that can be the estimate of a request. */
  predicate Estimable(prompt: nat, completion: nat) {
    prompt >= LEAST_PROMPT && completion >= LEAST_COMPLETION
  }

  /** The shortest prompt that is estimated at the rates of long contexts. */
  function LeastLong(threshold: nat): nat {
    if threshold + 1 < LEAST_PROMPT then LEAST_PROMPT else threshold + 1
  }

  /** The dearest rate for a token of a prompt. */
  function TopRate(r: Rates): real {
    Larger(r.input, Larger(Larger(OrZero(r.cachedInput), OrZero(r.cacheRead)),
                           Larger(OrZero(r.cacheWrite5m), OrZero(r.cacheWrite1h))))
  }

  function Larger(x: real, y: real): real {
    if x < y then y else x
  }

  /**
   * Output is no cheaper in long contexts, and the longest short prompt, at its dearest rate and with the least
   * output, is no dearer than the shortest long one.
   */
  predicate LongNoCheaper(p: ModelPricing) {
    HasLongRates(p) && p.longThreshold.Some? && p.longThreshold.value >= 0 ==>
      && p.base.output <= LongRates(p).output
      && Charge(p.longThreshold.value, TopRate(p.base)) + Charge(LEAST_COMPLETION, p.base.output)
         <= Charge(LeastLong(p.longThreshold.value), LongRates(p).input)
            + Charge(LEAST_COMPLETION, LongRates(p).output)
  }

  /** No cache rate is above the input rate, for the rates at which a prompt of this length is estimated. */
  predicate CheapCachesAt(p: ModelPricing, prompt: nat) {
    CachesAtMostInput(AppliedRates(p, prompt))
  }

  /** The condition on prices under which an estimate is never too low. */
  predicate NeverUnderestimates(p: ModelPricing) {
    && CheapCachesAt(p, LEAST_PROMPT)
    && (HasLongRates(p) && p.longThreshold.Some? && p.longThreshold.value >= 0
        ==> CheapCachesAt(p, LeastLong(p.longThreshold.value)))
    && LongNoCheaper(p)
  }

  /** Base and cache tokens make up the prompt exactly when the caches do not exceed it. */
  lemma BaseCompletesPrompt(report: Report)
    ensures var u := CreateUsageTokenCounts(report);
      BaseInput(u) + CacheTokens(u) == u.prompt <==> CacheTokens(u) <= u.prompt
  {
  }

  lemma RoundedMonotone(x: real, y: real)
    requires x <= y
    ensures Rounded(x) <= Rounded(y)
    ensures x + 1.0 <= y ==> Rounded(x) < Rounded(y)
  {
    assert (x + 0.5).Floor as real <= x + 0.5 <= y + 0.5;
    assert x + 1.0 <= y ==> ((x + 0.5).Floor + 1) as real <= y + 0.5;
  }

  lemma ChargeMonotone(n: nat, m: nat, x: real, y: real)
    requires n <= m && 0.0 <= x <= y
    ensures 0.0 <= Charge(n, x) <= Charge(m, y)
  {
    assert n as real * x <= n as real * y <= m as real * y;
  }

  lemma ChargeNothing(x: real)
    ensures Charge(0, x) == 0.0
  {
  }

  lemma ChargeApart(a: nat, b: nat, x: real)
    ensures Charge(a + b, x) == Charge(a, x) + Charge(b, x)
  {
  }

  /** Usage costs no more than its whole prompt at the dearest rate. */
  lemma CostAtMostTop(r: Rates, u: Usage)
    requires ValidRates(r) && CacheTokens(u) <= u.prompt
    ensures CostAt(r, u) <= Charge(u.prompt, TopRate(r)) + Charge(u.completion, r.output)
  {
    hide Charge;
    var top := TopRate(r);
    ChargeMonotone(BaseInput(u), BaseInput(u), r.input, top);
    ChargeMonotone(u.cachedInput, u.cachedInput, OrZero(r.cachedInput), top);
    ChargeMonotone(u.cacheRead, u.cacheRead, OrZero(r.cacheRead), top);
    ChargeMonotone(u.cacheWrite5m, u.cacheWrite5m, OrZero(r.cacheWrite5m), top);
    ChargeMonotone(u.cacheWrite1h, u.cacheWrite1h, OrZero(r.cacheWrite1h), top);
    ChargeApart(BaseInput(u) + u.cachedInput + u.cacheRead + u.cacheWrite5m, u.cacheWrite1h, top);
    ChargeApart(BaseInput(u) + u.cachedInput + u.cacheRead, u.cacheWrite5m, top);
    ChargeApart(BaseInput(u) + u.cachedInput, u.cacheRead, top);
    ChargeApart(BaseInput(u), u.cachedInput, top);
  }

  lemma CheapTop(r: Rates)
    ensures TopRate(r) >= r.input && (CachesAtMostInput(r) <==> TopRate(r) == r.input)
  {
  }

  lemma PlainCost(r: Rates, prompt: nat, completion: nat)
    ensures CostAt(r, Estimated(prompt, completion)) == Charge(prompt, r.input) + Charge(completion, r.output)
  {
    hide Charge;
    ChargeNothing(OrZero(r.cachedInput));
    ChargeNothing(OrZero(r.cacheRead));
    ChargeNothing(OrZero(r.cacheWrite5m));
    ChargeNothing(OrZero(r.cacheWrite1h));
  }

  /**
   * The estimate dominates the real cost, before rounding, whichever side of the long-context threshold they are.
   * Caches have to be cheap only if both are on the same side.
   */
  lemma EstimateDominatesExactly(p: ModelPricing, actual: Usage, prompt: nat, completion: nat)
    requires Valid(p) && Estimable(prompt, completion) && Within(actual, prompt, completion)
    requires LongNoCheaper(p)
    requires AppliesLong(p, actual.prompt) == AppliesLong(p, prompt) ==> CheapCachesAt(p, prompt)
    ensures ExactCost(p, actual) <= ExactCost(p, Estimated(prompt, completion))
  {
    hide Charge, TopRate, CachesAtMostInput;
    var before, after := AppliedRates(p, actual.prompt), AppliedRates(p, prompt);
    CostAtMostTop(before, actual);
    CheapTop(before);
    PlainCost(after, prompt, completion);
    if AppliesLong(p, actual.prompt) == AppliesLong(p, prompt) {
      ChargeMonotone(actual.completion, completion, before.output, after.output);
      ChargeMonotone(actual.prompt, prompt, before.input, after.input);
    } else {
      var t, least := p.longThreshold.value, LEAST_COMPLETION;
      ChargeMonotone(actual.prompt, t, TopRate(before), TopRate(before));
      ChargeMonotone(LeastLong(t), prompt, after.input, after.input);
      ChargeMonotone(actual.completion, completion, before.output, before.output);
      ChargeApart(completion - least, least, before.output);
      ChargeApart(completion - least, least, after.output);
      ChargeMonotone(completion - least, completion - least, before.output, after.output);
    }
  }

  /** The rounded estimate is at least what a request is charged, under the same conditions. */
  lemma EstimateDominates(p: ModelPricing, actual: Usage, prompt: nat, completion: nat)
    requires Valid(p) && Estimable(prompt, completion) && Within(actual, prompt, completion)
    requires LongNoCheaper(p)
    requires AppliesLong(p, actual.prompt) == AppliesLong(p, prompt) ==> CheapCachesAt(p, prompt)
    ensures Cost(p, actual) <= Cost(p, Estimated(prompt, completion))
  {
    EstimateDominatesExactly(p, actual, prompt, completion);
    RoundedMonotone(ExactCost(p, actual), ExactCost(p, Estimated(prompt, completion)));
  }

  ghost predicate AlwaysDominates(p: ModelPricing) {
    forall actual: Usage, prompt: nat, completion: nat ::
      Estimable(prompt, completion) && Within(actual, prompt, completion)
      ==> ExactCost(p, actual) <= ExactCost(p, Estimated(prompt, completion))
  }

  /** Usage with `n` prompt tokens of one category: a kind of cache, or none. */
  function OnlyOf(category: int, n: nat, completion: nat): Usage {
    Usage(n, completion, if category == 0 then n else 0, if category == 1 then n else 0,
          if category == 2 then n else 0, if category == 3 then n else 0)
  }

  function CategoryRate(r: Rates, category: int): real {
    if category == 0 then OrZero(r.cachedInput)
    else if category == 1 then OrZero(r.cacheRead)
    else if category == 2 then OrZero(r.cacheWrite5m)
    else if category == 3 then OrZero(r.cacheWrite1h)
    else r.input
  }

  lemma OnlyOfCost(r: Rates, category: int, n: nat, completion: nat)
    requires 0 <= category <= 4
    ensures CostAt(r, OnlyOf(category, n, completion))
        == Charge(n, CategoryRate(r, category)) + Charge(completion, r.output)
    ensures CacheTokens(OnlyOf(category, n, completion)) <= n
  {
    hide Charge;
    ChargeNothing(r.input);
    ChargeNothing(OrZero(r.cachedInput));
    ChargeNothing(OrZero(r.cacheRead));
    ChargeNothing(OrZero(r.cacheWrite5m));
    ChargeNothing(OrZero(r.cacheWrite1h));
  }

  lemma TopCategory(r: Rates) returns (category: int)
    ensures 0 <= category <= 4 && CategoryRate(r, category) == TopRate(r)
  {
    category := if TopRate(r) == OrZero(r.cachedInput) then 0
                else if TopRate(r) == OrZero(r.cacheRead) then 1
                else if TopRate(r) == OrZero(r.cacheWrite5m) then 2
                else if TopRate(r) == OrZero(r.cacheWrite1h) then 3
                else 4;
  }

  /** When an estimate is never too low, the caches of any rates that estimates are made at are no dearer than input. */
  lemma DominanceNeedsCheapCaches(p: ModelPricing, n: nat)
    requires AlwaysDominates(p) && n >= LEAST_PROMPT
    ensures CheapCachesAt(p, n)
  {
    hide Charge, TopRate, CategoryRate, CachesAtMostInput;
    var r := AppliedRates(p, n);
    var category := TopCategory(r);
    OnlyOfCost(r, category, n, LEAST_COMPLETION);
    PlainCost(r, n, LEAST_COMPLETION);
    assert Within(OnlyOf(category, n, LEAST_COMPLETION), n, LEAST_COMPLETION);
    assert ExactCost(p, OnlyOf(category, n, LEAST_COMPLETION)) <= ExactCost(p, Estimated(n, LEAST_COMPLETION));
    Cancel(n, TopRate(r), r.input);
    CheapTop(r);
  }

  lemma BothSides(p: ModelPricing)
    requires Valid(p) && HasLongRates(p)
    ensures var t := p.longThreshold.value;
      AppliedRates(p, t) == p.base && AppliedRates(p, LeastLong(t)) == LongRates(p) && t < LeastLong(t)
  {
  }

  /** And the dearest short prompt is no dearer than the shortest long one. */
  lemma DominanceNeedsDearPrompts(p: ModelPricing)
    requires Valid(p) && AlwaysDominates(p) && HasLongRates(p)
    ensures var t := p.longThreshold.value;
      Charge(t, TopRate(p.base)) + Charge(LEAST_COMPLETION, p.base.output)
      <= Charge(LeastLong(t), LongRates(p).input) + Charge(LEAST_COMPLETION, LongRates(p).output)
  {
    hide Charge, TopRate, CategoryRate, CostAt, CacheTokens, LongRates;
    var t := p.longThreshold.value;
    var category := TopCategory(p.base);
    var actual := OnlyOf(category, t, LEAST_COMPLETION);
    OnlyOfCost(p.base, category, t, LEAST_COMPLETION);
    PlainCost(LongRates(p), LeastLong(t), LEAST_COMPLETION);
    BothSides(p);
    assert Within(actual, LeastLong(t), LEAST_COMPLETION);
    assert ExactCost(p, actual) <= ExactCost(p, Estimated(LeastLong(t), LEAST_COMPLETION));
  }

  lemma Cancel(n: nat, x: real, y: real)
    requires n > 0
    ensures Charge(n, x) <= Charge(n, y) ==> x <= y
  {
    if x > y {
      assert n as real * (x - y) > 0.0;
    }
  }

  lemma DominanceNeedsDearOutput(p: ModelPricing)
    requires Valid(p) && AlwaysDominates(p) && HasLongRates(p)
    ensures p.base.output <= LongRates(p).output
  {
    hide Charge;
    var t := p.longThreshold.value;
    var low, high := p.base, LongRates(p);
    if low.output > high.output {
      var k := Beyond(high.output, low.output, Charge(LeastLong(t), high.input), LEAST_COMPLETION);
      assert Within(Estimated(t, k), LeastLong(t), k);
      ChargeMonotone(t, t, low.input, low.input);
      PlainCost(low, t, k);
      PlainCost(high, LeastLong(t), k);
    }
  }

  /** For enough tokens, the difference between two rates goes beyond any bound. */
  lemma Beyond(x: real, y: real, bound: real, least: nat) returns (k: nat)
    requires x < y
    ensures k >= least && Charge(k, y) - Charge(k, x) > bound
  {
    hide Charge;
    var d := y - x;
    k := Multiple(d, bound, least);
    Differ(k, x, y, d);
  }

  lemma Multiple(d: real, bound: real, least: nat) returns (k: nat)
    requires d > 0.0
    ensures k >= least && k as real * d > bound
  {
    var q := bound / d;
    k := if q < 0.0 then least + 1 else q.Floor + 1 + least;
    var excess := k as real - q;
    assert excess > 0.0;
    assert excess * d > 0.0;
    assert k as real * d == q * d + excess * d;
  }

  lemma Differ(k: nat, x: real, y: real, d: real)
    requires d == y - x
    ensures Charge(k, y) - Charge(k, x) == k as real * d
  {
  }

  /** The rates of an estimate decide about caches: they are those of the least prompt, or of the least long one. */
  lemma CheapCachesEverywhere(p: ModelPricing, prompt: nat)
    requires Valid(p) && NeverUnderestimates(p) && prompt >= LEAST_PROMPT
    ensures CheapCachesAt(p, prompt)
  {
    hide CachesAtMostInput, LongNoCheaper;
  }

  /** An estimate is never too low, before rounding, exactly for prices that meet the condition. */
  lemma DominanceExact(p: ModelPricing)
    requires Valid(p)
    ensures AlwaysDominates(p) <==> NeverUnderestimates(p)
  {
    hide Charge, CostAt, CheapCachesAt;
    if NeverUnderestimates(p) {
      forall actual: Usage, prompt: nat, completion: nat |
        Estimable(prompt, completion) && Within(actual, prompt, completion)
        ensures ExactCost(p, actual) <= ExactCost(p, Estimated(prompt, completion))
      {
        CheapCachesEverywhere(p, prompt);
        EstimateDominatesExactly(p, actual, prompt, completion);
      }
    }
    if AlwaysDominates(p) {
      DominanceNeedsCheapCaches(p, LEAST_PROMPT);
      if HasLongRates(p) {
        DominanceNeedsCheapCaches(p, LeastLong(p.longThreshold.value));
        DominanceNeedsDearOutput(p);
        DominanceNeedsDearPrompts(p);
      }
    }
  }

  ghost predicate ChargesAlwaysDominated(p: ModelPricing) {
    forall actual: Usage, prompt: nat, completion: nat ::
      Estimable(prompt, completion) && Within(actual, prompt, completion)
      ==> Cost(p, actual) <= Cost(p, Estimated(prompt, completion))
  }

  /**
   * Without long-context rates, rounding hides nothing: charges stay within estimates exactly when caches are cheap.
   */
  lemma ChargeDominanceExact(p: ModelPricing)
    requires Valid(p) && !HasLongRates(p)
    ensures ChargesAlwaysDominated(p) <==> CachesAtMostInput(p.base)
  {
    hide Charge, CostAt, Cost;
    if CachesAtMostInput(p.base) {
      forall actual: Usage, prompt: nat, completion: nat |
        Estimable(prompt, completion) && Within(actual, prompt, completion)
        ensures Cost(p, actual) <= Cost(p, Estimated(prompt, completion))
      {
        EstimateDominates(p, actual, prompt, completion);
      }
    } else {
      DearCachesCharge(p);
    }
  }

  lemma DearCachesCharge(p: ModelPricing)
    requires !HasLongRates(p) && !CachesAtMostInput(p.base)
    ensures !ChargesAlwaysDominated(p)
  {
    hide Charge, CostAt, TopRate, CategoryRate, Rounded;
    var r, least := p.base, LEAST_COMPLETION;
    CheapTop(r);
    var category := TopCategory(r);
    var n := Beyond(r.input, TopRate(r), 1.0, LEAST_PROMPT);
    var actual := OnlyOf(category, n, least);
    OnlyOfCost(r, category, n, least);
    PlainCost(r, n, least);
    RoundedMonotone(CostAt(r, Estimated(n, least)), CostAt(r, actual));
    assert Within(actual, n, least) && Estimable(n, least);
    assert Cost(p, actual) > Cost(p, Estimated(n, least));
  }

  /** The built-in price of claude-opus-4-1. */
  const CLAUDE_OPUS := ModelPricing(
    Rates(15.0, 75.0, None, Some(1.5), Some(18.75), Some(30.0)), None, None, None, None, None, None)

  /**
   * Writing to a cache costs more than its estimate: of 1000 tokens, with one token of output, 18825 micro-dollars
   * against 15075.
   */
  lemma CacheWritesExceedEstimate()
    ensures var written := Usage(1000, 1, 0, 0, 1000, 0);
      && Valid(CLAUDE_OPUS) && Within(written, 1000, 1)
      && Cost(CLAUDE_OPUS, written) == 18825
      && Cost(CLAUDE_OPUS, Estimated(1000, 1)) == 15075
  {
    PlainCost(CLAUDE_OPUS.base, 1000, 1);
  }
}

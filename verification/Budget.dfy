/**
 * Monthly budgets: which usage counts towards a policy, and what a policy's summary says. Money is in micro-dollars.
 */
module Budgets {
  import opened Shared
  import opened Calendar

  datatype Policy = Policy(
    id: string,
    workspaceId: string,
    projectId: Option<string>,
    environmentId: Option<string>,
    environment: Option<string>,
    active: bool,
    limit: nat,
    softPercent: nat)

  /** Where a request comes from. */
  datatype Scope = Scope(workspaceId: string, projectId: Option<string>, environmentId: Option<string>,
                         environment: string)

  datatype VirtualKey = VirtualKey(
    id: string, workspaceId: string, projectId: Option<string>, environmentId: Option<string>, environment: string)

  datatype Event = Event(
    workspaceId: string, projectId: Option<string>, environmentId: Option<string>, virtualKeyId: string,
    createdAt: int, cost: nat)

  /** The tables that the sum of usage is joined with. */
  datatype Tables = Tables(environmentRuntimes: map<string, string>, keys: map<string, VirtualKey>)

  datatype Prevented = Prevented(requests: nat, estimatedCost: nat, unestimated: nat)

  datatype Summary = Summary(
    policy: Policy, spend: nat, remaining: nat, softLimit: nat, softLimitReached: bool, hardLimitReached: bool,
    prevented: Prevented)

  /** A limit on the scope that is there and not blank. */
  predicate Restricts(part: Option<string>) {
    part.Some? && part.value != ""
  }

  predicate Applies(policy: Policy, scope: Scope) {
    && policy.active
    && policy.workspaceId == scope.workspaceId
    && (Restricts(policy.projectId) ==> policy.projectId == scope.projectId)
    && (Restricts(policy.environmentId) ==> policy.environmentId == scope.environmentId)
    && (Restricts(policy.environment) ==> policy.environment == Some(scope.environment))
  }

  function ScopeOf(key: VirtualKey): Scope {
    Scope(key.workspaceId, key.projectId, key.environmentId, key.environment)
  }

  /** The event of a request that a key has made. */
  function EventOf(key: VirtualKey, createdAt: int, cost: nat): Event {
    Event(key.workspaceId, key.projectId, key.environmentId, key.id, createdAt, cost)
  }

  /** The runtime of an event's environment, or else the environment of its key, as they are now. */
  function RuntimeOf(event: Event, tables: Tables): Option<string> {
    if event.environmentId.Some? && event.environmentId.value in tables.environmentRuntimes
    then Some(tables.environmentRuntimes[event.environmentId.value])
    else if event.virtualKeyId in tables.keys then Some(tables.keys[event.virtualKeyId].environment)
    else None
  }

  predicate InPeriod(event: Event, period: Period) {
    period.startsAt <= event.createdAt < period.endsAt
  }

  predicate Counts(policy: Policy, event: Event, tables: Tables) {
    && event.workspaceId == policy.workspaceId
    && (Restricts(policy.projectId) ==> event.projectId == policy.projectId)
    && (Restricts(policy.environmentId) ==> event.environmentId == policy.environmentId)
    && (Restricts(policy.environment) ==> RuntimeOf(event, tables) == policy.environment)
  }

  /** What the database sums up for a policy and a period. */
  function SumUsage(policy: Policy, events: seq<Event>, tables: Tables, period: Period): nat {
    if events == [] then 0
    else
      (if InPeriod(events[0], period) && Counts(policy, events[0], tables) then events[0].cost else 0)
      + SumUsage(policy, events[1..], tables, period)
  }

  function SoftLimit(policy: Policy): nat {
    (policy.limit * policy.softPercent + 50) / 100
  }

  function Remaining(limit: nat, spend: nat): nat {
    if limit > spend then limit - spend else 0
  }

  function CreateSummary(policy: Policy, spend: nat, prevented: Prevented): Summary {
    Summary(policy, spend, Remaining(policy.limit, spend), SoftLimit(policy),
            spend >= SoftLimit(policy), spend >= policy.limit, prevented)
  }

  function ApplyUsageCost(summary: Summary, cost: nat): Summary {
    var spend := summary.spend + cost;
    summary.(
      spend := spend,
      remaining := Remaining(summary.policy.limit, spend),
      softLimit := SoftLimit(summary.policy),
      softLimitReached := spend >= SoftLimit(summary.policy),
      hardLimitReached := spend >= summary.policy.limit)
  }

  function ApplyAll(summary: Summary, costs: seq<nat>): Summary
    decreases |costs|
  {
    if costs == [] then summary else ApplyAll(ApplyUsageCost(summary, costs[0]), costs[1..])
  }

  function Sum(costs: seq<nat>): nat {
    if costs == [] then 0 else costs[0] + Sum(costs[1..])
  }

  /** Applying costs one by one gives the summary of the new total. */
  lemma {:induction false} AppliedEqualsReread(policy: Policy, spend: nat, prevented: Prevented, costs: seq<nat>)
    ensures ApplyAll(CreateSummary(policy, spend, prevented), costs)
         == CreateSummary(policy, spend + Sum(costs), prevented)
    decreases |costs|
  {
    if costs == [] {
    } else {
      AppliedEqualsReread(policy, spend + costs[0], prevented, costs[1..]);
    }
  }

  /** The environment that a key's requests are charged to is the one it names. */
  predicate Settled(key: VirtualKey, tables: Tables) {
    RuntimeOf(EventOf(key, 0, 0), tables) == Some(key.environment)
  }

  /**
   * A key's usage counts towards exactly the active policies that apply to the key, if and only if its own environment
   * is the runtime of the environment it is bound to.
   */
  lemma CountsWhereApplies(key: VirtualKey, tables: Tables, createdAt: int, cost: nat)
    requires key.environment != ""
    requires key.id in tables.keys && tables.keys[key.id] == key
    requires forall e :: e in tables.environmentRuntimes ==> tables.environmentRuntimes[e] != ""
    ensures Settled(key, tables)
        <==> forall policy: Policy :: policy.active
               ==> (Counts(policy, EventOf(key, createdAt, cost), tables) <==> Applies(policy, ScopeOf(key)))
  {
    var event := EventOf(key, createdAt, cost);
    if !Settled(key, tables) {
      var probe := Policy("", key.workspaceId, None, None, Some(key.environment), true, 0, 0);
      assert Applies(probe, ScopeOf(key)) && !Counts(probe, event, tables);
    }
  }

  lemma {:induction false} SumUsageAppend(policy: Policy, events: seq<Event>, event: Event, tables: Tables,
                                          period: Period)
    ensures SumUsage(policy, events + [event], tables, period)
         == SumUsage(policy, events, tables, period)
            + if InPeriod(event, period) && Counts(policy, event, tables) then event.cost else 0
  {
    if events == [] {
      assert events + [event] == [event];
    } else {
      assert (events + [event])[1..] == events[1..] + [event];
      SumUsageAppend(policy, events[1..], event, tables, period);
    }
  }

  /**
   * Charging a settled key raises the sums of exactly the active policies that apply to it; for these, the summary
   * that was adjusted in memory is the one that a fresh read would give.
   */
  lemma ChargeEqualsReread(policy: Policy, key: VirtualKey, events: seq<Event>, tables: Tables, period: Period,
                           createdAt: int, cost: nat, prevented: Prevented)
    requires policy.active && key.environment != ""
    requires key.id in tables.keys && tables.keys[key.id] == key
    requires forall e :: e in tables.environmentRuntimes ==> tables.environmentRuntimes[e] != ""
    requires Settled(key, tables) && period.startsAt <= createdAt < period.endsAt
    ensures var before := CreateSummary(policy, SumUsage(policy, events, tables, period), prevented);
      var reread :=
          CreateSummary(policy, SumUsage(policy, events + [EventOf(key, createdAt, cost)], tables, period), prevented);
      reread == if Applies(policy, ScopeOf(key)) then ApplyUsageCost(before, cost) else before
  {
    CountsWhereApplies(key, tables, createdAt, cost);
    assert Counts(policy, EventOf(key, createdAt, cost), tables) <==> Applies(policy, ScopeOf(key));
    SumUsageAppend(policy, events, EventOf(key, createdAt, cost), tables, period);
  }

  /** A summary turns a request down: by its estimate while something is left, and altogether when nothing is. */
  predicate Blocks(summary: Summary, estimate: nat) {
    (summary.remaining > 0 && estimate > summary.remaining) || summary.hardLimitReached
  }

  /** A request passes exactly when the limit is not reached and its estimate fits under it. */
  lemma PassesExactly(policy: Policy, spend: nat, prevented: Prevented, estimate: nat)
    ensures !Blocks(CreateSummary(policy, spend, prevented), estimate)
        <==> spend < policy.limit && spend + estimate <= policy.limit
  {
  }
}

/** Concurrent requests against budgets: reading sums, deciding, and charging are separate steps. */
module BudgetRuns {
  import opened Shared
  import Budgets
  import Pricing

  /**
   * A request on its way. It fixes the period when it starts, reads the sum of each policy that applies to it, one by
   * one, and is admitted or not once it has read them all.
   */
  datatype Flight = Flight(estimate: nat, policies: set<string>, period: nat, seen: map<string, nat>, admitted: bool)

  datatype State = State(period: nat, spend: map<(nat, string), nat>, flights: seq<Flight>)

  /**
   * The fixed setting of a run: the limits, and bounds on estimates, on requests at a time, and on what a request may
   * cost beyond its estimate, which nothing checks when it is charged.
   */
  datatype Setting = Setting(limits: map<string, nat>, maxEstimate: nat, maxFlights: nat, maxOverrun: nat)

  function Spend(s: State, period: nat, policy: string): nat {
    if (period, policy) in s.spend then s.spend[(period, policy)] else 0
  }

  /** The summary a request sees when a policy's sum is `spend`. */
  function Seen(setting: Setting, policy: string, spend: nat): Budgets.Summary
    requires policy in setting.limits
  {
    Budgets.CreateSummary(Budgets.Policy(policy, "", None, None, None, true, setting.limits[policy], 100), spend,
                          Budgets.Prevented(0, 0, 0))
  }

  /** A policy that the request has read and that lets it pass. */
  predicate Passes(setting: Setting, f: Flight, policy: string) {
    policy in setting.limits && policy in f.seen && !Budgets.Blocks(Seen(setting, policy, f.seen[policy]), f.estimate)
  }

  /** A run may start with anything spent, as far as the periods have come. */
  ghost predicate Initial(s: State) {
    s.flights == [] && forall q: nat, p :: q > s.period ==> Spend(s, q, p) == 0
  }

  predicate Starts(setting: Setting, s: State, t: State, f: Flight) {
    && |s.flights| < setting.maxFlights
    && f.estimate <= setting.maxEstimate && f.policies <= setting.limits.Keys
    && f.period == s.period && f.seen == map[] && !f.admitted
    && t == s.(flights := s.flights + [f])
  }

  predicate Reads(s: State, t: State, i: nat, policy: string) {
    && i < |s.flights|
    && policy in s.flights[i].policies && policy !in s.flights[i].seen
    && var f := s.flights[i];
       t == s.(flights := s.flights[i := f.(seen := f.seen[policy := Spend(s, f.period, policy)])])
  }

  /** A request that has read all its policies goes on if none of them blocks it. */
  predicate Admits(setting: Setting, s: State, t: State, i: nat) {
    && i < |s.flights| && !s.flights[i].admitted
    && (forall p :: p in s.flights[i].policies ==> Passes(setting, s.flights[i], p))
    && t == s.(flights := s.flights[i := s.flights[i].(admitted := true)])
  }

  /** A request ends without a charge: turned down, failed, or free of cost. */
  predicate Ends(s: State, t: State, i: nat) {
    i < |s.flights| && t == s.(flights := s.flights[..i] + s.flights[i + 1..])
  }

  function Charged(s: State, policies: set<string>, cost: nat): map<(nat, string), nat> {
    s.spend + map p | p in policies :: (s.period, p) := Spend(s, s.period, p) + cost
  }

  /** The event of an admitted request counts in the period in which it is written. */
  predicate Charges(setting: Setting, s: State, t: State, i: nat, cost: nat) {
    && i < |s.flights| && s.flights[i].admitted && cost <= s.flights[i].estimate + setting.maxOverrun
    && t == State(s.period, Charged(s, s.flights[i].policies, cost), s.flights[..i] + s.flights[i + 1..])
  }

  predicate RollsOver(s: State, t: State) {
    t == s.(period := s.period + 1)
  }

  ghost predicate Step(setting: Setting, s: State, t: State) {
    || (exists f :: Starts(setting, s, t, f))
    || (exists i: nat, p :: Reads(s, t, i, p))
    || (exists i: nat :: Admits(setting, s, t, i))
    || (exists i: nat :: Ends(s, t, i))
    || (exists i: nat, cost: nat :: Charges(setting, s, t, i, cost))
    || RollsOver(s, t)
  }

  ghost predicate IsRun(setting: Setting, run: seq<State>) {
    && run != [] && Initial(run[0])
    && forall i :: 0 <= i < |run| - 1 ==> Step(setting, run[i], run[i + 1])
  }

  /** The largest estimate with which a request can pass a policy. */
  function PassingEstimate(setting: Setting, policy: string): nat
    requires policy in setting.limits
  {
    if setting.maxEstimate < setting.limits[policy] then setting.maxEstimate else setting.limits[policy]
  }

  /** The most that a single request can take from a policy; one without a limit above zero lets nothing pass. */
  function Share(setting: Setting, policy: string): nat
    requires policy in setting.limits
  {
    if setting.limits[policy] == 0 then 0 else PassingEstimate(setting, policy) + setting.maxOverrun
  }

  /** How far one request alone can take a policy over its limit. It passes only while something is left. */
  function Slack(setting: Setting, policy: string): nat
    requires policy in setting.limits
  {
    if setting.limits[policy] == 0 || setting.maxOverrun == 0 then 0
    else if setting.maxEstimate == 0 then setting.maxOverrun - 1
    else setting.maxOverrun
  }

  /** What a request may still add to a policy in the current period. One with an old period may read an old sum. */
  function Weight(setting: Setting, f: Flight, period: nat, policy: string): nat
    requires policy in setting.limits
  {
    if Passes(setting, f, policy) then f.estimate + setting.maxOverrun
    else if f.period < period && policy !in f.seen then Share(setting, policy)
    else 0
  }

  function Weights(setting: Setting, flights: seq<Flight>, period: nat, policy: string): nat
    requires policy in setting.limits
  {
    if flights == [] then 0
    else Weight(setting, flights[0], period, policy) + Weights(setting, flights[1..], period, policy)
  }

  /** What the requests that are admitted and not yet charged to a policy may still cost. */
  function InFlight(setting: Setting, flights: seq<Flight>, policy: string): nat {
    if flights == [] then 0
    else
      var first := flights[0];
      var own := if first.admitted && policy in first.policies then first.estimate + setting.maxOverrun else 0;
      own + InFlight(setting, flights[1..], policy)
  }

  predicate GoodFlight(setting: Setting, f: Flight, period: nat) {
    && f.estimate <= setting.maxEstimate
    && f.policies <= setting.limits.Keys
    && f.period <= period
    && (f.admitted ==> forall p :: p in f.policies ==> Passes(setting, f, p))
  }

  predicate GoodFlights(setting: Setting, flights: seq<Flight>, period: nat) {
    |flights| <= setting.maxFlights && forall f :: f in flights ==> GoodFlight(setting, f, period)
  }

  /** The limit, or what had been spent of a period at the start, if that is more. */
  function Ceiling(setting: Setting, start: State, period: nat, policy: string): nat
    requires policy in setting.limits
  {
    var limit, spent := setting.limits[policy], Spend(start, period, policy);
    if spent > limit then spent else limit
  }

  /** How far all requests at a time can take a policy over its limit: one by the slack, the others by their shares. */
  function Surplus(setting: Setting, policy: string): int
    requires policy in setting.limits
  {
    (setting.maxFlights - 1) * Share(setting, policy) + Slack(setting, policy)
  }

  ghost predicate Bounded(setting: Setting, start: State, s: State, policy: string)
    requires policy in setting.limits
  {
    && Spend(s, s.period, policy) + Weights(setting, s.flights, s.period, policy)
       <= Ceiling(setting, start, s.period, policy) + Surplus(setting, policy)
    && (forall q: nat ::
         q < s.period ==> Spend(s, q, policy) <= Ceiling(setting, start, q, policy) + Surplus(setting, policy))
    && (forall q: nat :: q > s.period ==> Spend(s, q, policy) == 0)
  }

  ghost predicate Inv(setting: Setting, start: State, s: State) {
    GoodFlights(setting, s.flights, s.period) && forall p :: p in setting.limits ==> Bounded(setting, start, s, p)
  }

  lemma WeightAtMostShare(setting: Setting, f: Flight, period: nat, policy: string)
    requires policy in setting.limits && f.estimate <= setting.maxEstimate
    ensures Weight(setting, f, period, policy) <= Share(setting, policy)
  {
    if Passes(setting, f, policy) {
      PassesUnderLimit(setting, f, policy);
    }
  }

  lemma PassesUnderLimit(setting: Setting, f: Flight, policy: string)
    requires policy in setting.limits && policy in f.seen
    ensures Passes(setting, f, policy)
        <==> f.seen[policy] < setting.limits[policy] && f.seen[policy] + f.estimate <= setting.limits[policy]
  {
    Budgets.PassesExactly(Seen(setting, policy, 0).policy, f.seen[policy], Budgets.Prevented(0, 0, 0), f.estimate);
  }

  lemma {:induction false} WeightsAtMostShares(setting: Setting, flights: seq<Flight>, period: nat, policy: string)
    requires policy in setting.limits
    requires forall f :: f in flights ==> f.estimate <= setting.maxEstimate
    ensures Weights(setting, flights, period, policy) <= |flights| * Share(setting, policy)
  {
    if flights == [] {
    } else {
      WeightAtMostShare(setting, flights[0], period, policy);
      WeightsAtMostShares(setting, flights[1..], period, policy);
      OneMore(|flights| - 1, Share(setting, policy));
    }
  }

  lemma OneMore(n: int, x: nat)
    ensures (n + 1) * x == n * x + x
  {
  }

  lemma {:induction false} WeightsAppend(setting: Setting, a: seq<Flight>, b: seq<Flight>, period: nat, policy: string)
    requires policy in setting.limits
    ensures Weights(setting, a + b, period, policy)
        == Weights(setting, a, period, policy) + Weights(setting, b, period, policy)
  {
    if a == [] {
      assert a + b == b;
    } else {
      assert (a + b)[1..] == a[1..] + b;
      WeightsAppend(setting, a[1..], b, period, policy);
    }
  }

  /** One request weighs what all weigh without the others. */
  lemma WeightsSplit(setting: Setting, flights: seq<Flight>, i: nat, period: nat, policy: string)
    requires policy in setting.limits && i < |flights|
    ensures Weights(setting, flights, period, policy)
         == Weights(setting, flights[..i] + flights[i + 1..], period, policy)
             + Weight(setting, flights[i], period, policy)
  {
    var before, after := flights[..i], flights[i + 1..];
    assert flights == before + ([flights[i]] + after);
    WeightsAppend(setting, before, [flights[i]] + after, period, policy);
    WeightsAppend(setting, [flights[i]], after, period, policy);
    WeightsAppend(setting, before, after, period, policy);
    assert Weights(setting, [flights[i]], period, policy) == Weight(setting, flights[i], period, policy);
  }

  lemma WeightsReplace(setting: Setting, flights: seq<Flight>, i: nat, f: Flight, period: nat, policy: string)
    requires policy in setting.limits && i < |flights|
    ensures Weights(setting, flights[i := f], period, policy)
         == Weights(setting, flights[..i] + flights[i + 1..], period, policy) + Weight(setting, f, period, policy)
  {
    var replaced := flights[i := f];
    WeightsSplit(setting, replaced, i, period, policy);
    assert replaced[..i] == flights[..i] && replaced[i + 1..] == flights[i + 1..];
  }

  lemma StartBounded(setting: Setting, start: State, s: State, t: State, f: Flight, policy: string)
    requires Starts(setting, s, t, f) && policy in setting.limits && Bounded(setting, start, s, policy)
    ensures Bounded(setting, start, t, policy)
  {
    hide Passes, Ceiling, Surplus;
    WeightsAppend(setting, s.flights, [f], s.period, policy);
    FreshWeight(setting, f, s.period, policy);
    assert Weights(setting, [f], s.period, policy) == 0;
    SameSpend(s, t, policy);
  }

  lemma FreshWeight(setting: Setting, f: Flight, period: nat, policy: string)
    requires policy in setting.limits && f.period == period && f.seen == map[]
    ensures Weight(setting, f, period, policy) == 0
  {
  }

  lemma SameSpend(s: State, t: State, policy: string)
    requires s.spend == t.spend
    ensures forall q: nat :: Spend(t, q, policy) == Spend(s, q, policy)
  {
  }

  /** A read of the current sum that passes leaves room for the shares of all others; an old read was counted before. */
  lemma ReadBounded(setting: Setting, start: State, s: State, t: State, i: nat, read: string, policy: string)
    requires Reads(s, t, i, read) && policy in setting.limits
    requires GoodFlights(setting, s.flights, s.period) && Bounded(setting, start, s, policy)
    ensures Bounded(setting, start, t, policy)
  {
    hide Passes, Share, Slack, Surplus;
    var f, g := s.flights[i], t.flights[i];
    var others := s.flights[..i] + s.flights[i + 1..];
    WeightsSplit(setting, s.flights, i, s.period, policy);
    WeightsReplace(setting, s.flights, i, g, s.period, policy);
    SameSpend(s, t, policy);
    assert f in s.flights;
    if policy != read {
      SameWeight(setting, f, g, s.period, policy);
    } else if f.period < s.period {
      WeightAtMostShare(setting, g, s.period, policy);
      OldReadWeight(setting, f, s.period, policy);
    } else {
      OthersShares(setting, s.flights, i, s.period, policy);
      CurrentReadWeight(setting, g, s.period, policy);
    }
  }

  lemma CurrentReadWeight(setting: Setting, g: Flight, period: nat, policy: string)
    requires policy in setting.limits && policy in g.seen && g.period == period && g.estimate <= setting.maxEstimate
    ensures Weight(setting, g, period, policy) > 0 ==>
      g.seen[policy] + Weight(setting, g, period, policy) <= setting.limits[policy] + Slack(setting, policy)
  {
    PassesUnderLimit(setting, g, policy);
  }

  lemma OldReadWeight(setting: Setting, f: Flight, period: nat, policy: string)
    requires policy in setting.limits && policy !in f.seen && f.period < period
    ensures Weight(setting, f, period, policy) == Share(setting, policy)
  {
  }

  lemma SameWeight(setting: Setting, f: Flight, g: Flight, period: nat, policy: string)
    requires policy in setting.limits
    requires f.estimate == g.estimate && f.period == g.period
    requires policy in f.seen <==> policy in g.seen
    requires policy in f.seen ==> f.seen[policy] == g.seen[policy]
    ensures Weight(setting, f, period, policy) == Weight(setting, g, period, policy)
  {
  }

  lemma OthersShares(setting: Setting, flights: seq<Flight>, i: nat, period: nat, policy: string)
    requires i < |flights| && policy in setting.limits && GoodFlights(setting, flights, period)
    ensures Weights(setting, flights[..i] + flights[i + 1..], period, policy)
         <= Surplus(setting, policy) - Slack(setting, policy)
  {
    hide Weights, GoodFlight, Share, Slack;
    var others := flights[..i] + flights[i + 1..];
    EstimatesBounded(setting, flights, i, period);
    WeightsAtMostShares(setting, others, period, policy);
    MoreShares(|others|, setting.maxFlights - 1, Share(setting, policy));
  }

  lemma EstimatesBounded(setting: Setting, flights: seq<Flight>, i: nat, period: nat)
    requires i < |flights| && GoodFlights(setting, flights, period)
    ensures forall f :: f in flights[..i] + flights[i + 1..] ==> f.estimate <= setting.maxEstimate
    ensures GoodFlights(setting, flights[..i] + flights[i + 1..], period)
  {
    var rest := flights[..i] + flights[i + 1..];
    forall f | f in rest
      ensures GoodFlight(setting, f, period)
    {
      assert f in flights[..i] || f in flights[i + 1..];
      assert f in flights;
    }
  }

  lemma MoreShares(n: int, m: int, x: nat)
    requires n <= m
    ensures n * x <= m * x
  {
    assert (m - n) * x >= 0;
  }

  lemma AdmitBounded(setting: Setting, start: State, s: State, t: State, i: nat, policy: string)
    requires Admits(setting, s, t, i) && policy in setting.limits && Bounded(setting, start, s, policy)
    ensures Bounded(setting, start, t, policy)
  {
    hide Passes, Ceiling, Surplus;
    var f, g := s.flights[i], t.flights[i];
    WeightsSplit(setting, s.flights, i, s.period, policy);
    WeightsReplace(setting, s.flights, i, g, s.period, policy);
    SameWeight(setting, f, g, s.period, policy);
    SameSpend(s, t, policy);
  }

  lemma EndBounded(setting: Setting, start: State, s: State, t: State, i: nat, policy: string)
    requires Ends(s, t, i) && policy in setting.limits && Bounded(setting, start, s, policy)
    ensures Bounded(setting, start, t, policy)
  {
    hide Passes, Ceiling, Surplus, Weight;
    WeightsSplit(setting, s.flights, i, s.period, policy);
    SameSpend(s, t, policy);
  }

  /** A charge moves no more from what may be spent to what is spent than the request weighed. */
  lemma ChargeBounded(setting: Setting, start: State, s: State, t: State, i: nat, cost: nat, policy: string)
    requires Charges(setting, s, t, i, cost) && policy in setting.limits
    requires GoodFlights(setting, s.flights, s.period) && Bounded(setting, start, s, policy)
    ensures Bounded(setting, start, t, policy)
  {
    hide Ceiling, Surplus;
    var f := s.flights[i];
    WeightsSplit(setting, s.flights, i, s.period, policy);
    assert f in s.flights && GoodFlight(setting, f, s.period);
    ChargedSpend(s, t, f.policies, cost, policy);
    if policy in f.policies {
      assert Passes(setting, f, policy);
    }
  }

  lemma ChargedSpend(s: State, t: State, policies: set<string>, cost: nat, policy: string)
    requires t.spend == Charged(s, policies, cost)
    ensures Spend(t, s.period, policy) == Spend(s, s.period, policy) + if policy in policies then cost else 0
    ensures forall q: nat :: q != s.period ==> Spend(t, q, policy) == Spend(s, q, policy)
  {
  }

  /** When a period ends, every request under way can take at most its share of the next one. */
  lemma RollOverBounded(setting: Setting, start: State, s: State, t: State, policy: string)
    requires RollsOver(s, t) && policy in setting.limits
    requires GoodFlights(setting, s.flights, s.period) && Bounded(setting, start, s, policy)
    ensures Bounded(setting, start, t, policy)
  {
    hide Weight;
    SameSpend(s, t, policy);
    assert forall f :: f in s.flights ==> GoodFlight(setting, f, s.period);
    WeightsAtMostShares(setting, s.flights, t.period, policy);
    MoreShares(|s.flights|, setting.maxFlights, Share(setting, policy));
    OneMore(setting.maxFlights - 1, Share(setting, policy));
    assert Share(setting, policy) <= setting.limits[policy] + Slack(setting, policy);
  }

  lemma StepGoodFlights(setting: Setting, s: State, t: State)
    requires GoodFlights(setting, s.flights, s.period) && Step(setting, s, t)
    ensures GoodFlights(setting, t.flights, t.period)
  {
    hide Weights;
    if f :| Starts(setting, s, t, f) {
    } else if i: nat, p :| Reads(s, t, i, p) {
      ReplacedGood(setting, s.flights, i, t.flights[i], s.period);
    } else if i: nat :| Admits(setting, s, t, i) {
      ReplacedGood(setting, s.flights, i, t.flights[i], s.period);
    } else if i: nat :| Ends(s, t, i) {
      EstimatesBounded(setting, s.flights, i, s.period);
    } else if i: nat, cost: nat :| Charges(setting, s, t, i, cost) {
      EstimatesBounded(setting, s.flights, i, s.period);
    }
  }

  lemma ReplacedGood(setting: Setting, flights: seq<Flight>, i: nat, g: Flight, period: nat)
    requires i < |flights| && GoodFlights(setting, flights, period)
    requires GoodFlight(setting, flights[i], period) ==> GoodFlight(setting, g, period)
    ensures GoodFlights(setting, flights[i := g], period)
  {
    assert flights[i] in flights;
  }

  lemma StepKeepsInv(setting: Setting, start: State, s: State, t: State)
    requires Inv(setting, start, s) && Step(setting, s, t)
    ensures Inv(setting, start, t)
  {
    hide GoodFlights, Bounded;
    StepGoodFlights(setting, s, t);
    forall p | p in setting.limits
      ensures Bounded(setting, start, t, p)
    {
      if f :| Starts(setting, s, t, f) {
        StartBounded(setting, start, s, t, f, p);
      } else if i: nat, read :| Reads(s, t, i, read) {
        ReadBounded(setting, start, s, t, i, read, p);
      } else if i: nat :| Admits(setting, s, t, i) {
        AdmitBounded(setting, start, s, t, i, p);
      } else if i: nat :| Ends(s, t, i) {
        EndBounded(setting, start, s, t, i, p);
      } else if i: nat, cost: nat :| Charges(setting, s, t, i, cost) {
        ChargeBounded(setting, start, s, t, i, cost, p);
      } else {
        RollOverBounded(setting, start, s, t, p);
      }
    }
  }

  lemma {:induction false} RunKeepsInv(setting: Setting, run: seq<State>)
    requires setting.maxFlights >= 1 && IsRun(setting, run)
    ensures Inv(setting, run[0], run[|run| - 1])
    decreases |run|
  {
    hide Step;
    if |run| == 1 {
      forall p | p in setting.limits
        ensures Bounded(setting, run[0], run[0], p)
      {
        MoreShares(0, setting.maxFlights - 1, Share(setting, p));
      }
    } else {
      RunKeepsInv(setting, run[..|run| - 1]);
      StepKeepsInv(setting, run[0], run[|run| - 2], run[|run| - 1]);
    }
  }

  lemma {:induction false} InFlightAtMostWeights(setting: Setting, flights: seq<Flight>, period: nat, policy: string)
    requires policy in setting.limits
    requires forall f :: f in flights ==> GoodFlight(setting, f, period)
    ensures InFlight(setting, flights, policy) <= Weights(setting, flights, period, policy)
  {
    if flights == [] {
    } else {
      InFlightAtMostWeights(setting, flights[1..], period, policy);
      assert GoodFlight(setting, flights[0], period);
    }
  }

  /**
   * In every reachable state, what is spent in the current period and what admitted requests may still cost stays
   * within the limit, or what was spent at the start, and the surplus: what one request may cost beyond its estimate,
   * and one share for each further request at a time. So does the spend of every past period. Keys are taken to be
   * settled (`Budgets.Settled`), so that a request is charged to exactly the policies that it has read.
   */
  lemma SpendBounded(setting: Setting, run: seq<State>, policy: string)
    requires setting.maxFlights >= 1 && IsRun(setting, run) && policy in setting.limits
    ensures var s := run[|run| - 1];
      && Spend(s, s.period, policy) + InFlight(setting, s.flights, policy)
         <= Ceiling(setting, run[0], s.period, policy) + Surplus(setting, policy)
      && forall q: nat :: Spend(s, q, policy) <= Ceiling(setting, run[0], q, policy) + Surplus(setting, policy)
  {
    RunKeepsInv(setting, run);
    var s := run[|run| - 1];
    assert Bounded(setting, run[0], s, policy);
    InFlightAtMostWeights(setting, s.flights, s.period, policy);
    MoreShares(0, setting.maxFlights - 1, Share(setting, policy));
  }

  /** One request at a time takes a policy over its limit by no more than it may cost beyond its estimate. */
  lemma SequentialOverrun(setting: Setting, run: seq<State>, policy: string)
    requires setting.maxFlights == 1 && IsRun(setting, run) && policy in setting.limits
    requires var start := run[0];
      forall q: nat :: Spend(start, q, policy) <= setting.limits[policy]
    ensures var s := run[|run| - 1];
      forall q: nat :: Spend(s, q, policy) <= setting.limits[policy] + setting.maxOverrun
  {
    SpendBounded(setting, run, policy);
    var s := run[|run| - 1];
    forall q: nat
      ensures Spend(s, q, policy) <= setting.limits[policy] + setting.maxOverrun
    {
      assert Spend(run[0], q, policy) <= setting.limits[policy];
      assert Spend(s, q, policy) <= Ceiling(setting, run[0], q, policy) + Surplus(setting, policy);
    }
  }

  // Runs that spend as much as the bound allows.

  lemma Extend(setting: Setting, run: seq<State>, t: State)
    requires IsRun(setting, run) && Step(setting, run[|run| - 1], t)
    ensures IsRun(setting, run + [t])
  {
    hide Step;
  }

  /** A request for one policy that has read a sum and has been admitted. */
  function Admitted(estimate: nat, policy: string, period: nat, seen: nat): Flight {
    Flight(estimate, {policy}, period, map[policy := seen], true)
  }

  /** One more request starts, reads and is admitted, if its estimate fits. */
  lemma RunAdmission(setting: Setting, run: seq<State>, policy: string, estimate: nat) returns (more: seq<State>)
    requires IsRun(setting, run) && policy in setting.limits && |run[|run| - 1].flights| < setting.maxFlights
    requires estimate <= setting.maxEstimate
    requires var s := run[|run| - 1];
      var spent := Spend(s, s.period, policy);
      spent < setting.limits[policy] && spent + estimate <= setting.limits[policy]
    ensures IsRun(setting, more) && more[0] == run[0]
    ensures var s := run[|run| - 1];
      more[|more| - 1] == s.(flights := s.flights + [Admitted(estimate, policy, s.period, Spend(s, s.period, policy))])
  {
    hide Step, Passes;
    var s := run[|run| - 1];
    var n, spent := |s.flights|, Spend(s, s.period, policy);
    var started := Flight(estimate, {policy}, s.period, map[], false);
    var read := started.(seen := map[policy := spent]);
    var s1 := s.(flights := s.flights + [started]);
    var s2 := s.(flights := s.flights + [read]);
    var s3 := s.(flights := s.flights + [Admitted(estimate, policy, s.period, spent)]);
    assert Step(setting, s, s1) by { IsStart(setting, s, started); }
    assert Step(setting, s1, s2) by {
      IsRead(setting, s1, n, policy);
      assert started.seen[policy := spent] == read.seen;
      assert s1.flights[n := read] == s2.flights;
    }
    assert Step(setting, s2, s3) by {
      PassesUnderLimit(setting, read, policy);
      IsAdmission(setting, s2, n);
      assert s2.flights[n := read.(admitted := true)] == s3.flights;
    }
    Extend(setting, run, s1);
    Extend(setting, run + [s1], s2);
    Extend(setting, run + [s1] + [s2], s3);
    more := run + [s1] + [s2] + [s3];
  }

  lemma RunCharge(setting: Setting, run: seq<State>, policy: string, cost: nat) returns (more: seq<State>)
    requires IsRun(setting, run)
    requires var s := run[|run| - 1];
      && s.flights != [] && s.flights[0].admitted && s.flights[0].policies == {policy}
      && cost <= s.flights[0].estimate + setting.maxOverrun
    ensures IsRun(setting, more) && more[0] == run[0]
    ensures var s, t := run[|run| - 1], more[|more| - 1];
      && t.period == s.period && t.flights == s.flights[1..]
      && Spend(t, s.period, policy) == Spend(s, s.period, policy) + cost
  {
    hide Step;
    var s := run[|run| - 1];
    var t := State(s.period, Charged(s, s.flights[0].policies, cost), s.flights[1..]);
    IsCharge(setting, s, cost);
    ChargedSpend(s, t, s.flights[0].policies, cost, policy);
    Extend(setting, run, t);
    more := run + [t];
  }

  /** Requests of the least cost, one after another, spend any amount up to the limit in the period after the first. */
  lemma {:induction false} RunUnits(setting: Setting, start: State, policy: string, amount: nat)
      returns (run: seq<State>)
    requires Initial(start) && setting.maxFlights >= 1 && setting.maxEstimate + setting.maxOverrun >= 1
    requires policy in setting.limits && amount <= setting.limits[policy]
    ensures IsRun(setting, run) && run[0] == start
    ensures var s := run[|run| - 1];
      s.flights == [] && s.period == start.period + 1 && Spend(s, s.period, policy) == amount
  {
    hide Step;
    if amount == 0 {
      var next := start.(period := start.period + 1);
      assert Step(setting, start, next) by { IsRollOver(setting, start); }
      SameSpend(start, next, policy);
      run := [start, next];
    } else {
      run := RunUnits(setting, start, policy, amount - 1);
      run := RunAdmission(setting, run, policy, if setting.maxEstimate == 0 then 0 else 1);
      run := RunCharge(setting, run, policy, 1);
    }
  }

  lemma IsRollOver(setting: Setting, s: State)
    ensures Step(setting, s, s.(period := s.period + 1))
  {
    assert RollsOver(s, s.(period := s.period + 1));
  }

  predicate AllAdmitted(flights: seq<Flight>, estimate: nat, policy: string) {
    forall f :: f in flights ==> f.admitted && f.policies == {policy} && f.estimate == estimate
  }

  lemma {:induction false} RunAdmissions(setting: Setting, run: seq<State>, policy: string, estimate: nat, n: nat)
    returns (more: seq<State>)
    requires IsRun(setting, run) && policy in setting.limits && run[|run| - 1].flights == []
    requires n <= setting.maxFlights && estimate <= setting.maxEstimate
    requires var s := run[|run| - 1];
      var spent := Spend(s, s.period, policy);
      spent < setting.limits[policy] && spent + estimate <= setting.limits[policy]
    ensures IsRun(setting, more) && more[0] == run[0]
    ensures var s, t := run[|run| - 1], more[|more| - 1];
      t.period == s.period && t.spend == s.spend && |t.flights| == n && AllAdmitted(t.flights, estimate, policy)
  {
    hide Step;
    if n == 0 {
      more := run;
    } else {
      more := RunAdmissions(setting, run, policy, estimate, n - 1);
      SameSpend(run[|run| - 1], more[|more| - 1], policy);
      more := RunAdmission(setting, more, policy, estimate);
    }
  }

  lemma {:induction false} RunCharges(setting: Setting, run: seq<State>, policy: string, estimate: nat, cost: nat)
      returns (more: seq<State>)
    requires IsRun(setting, run) && AllAdmitted(run[|run| - 1].flights, estimate, policy)
    requires cost <= estimate + setting.maxOverrun
    ensures IsRun(setting, more) && more[0] == run[0]
    ensures var s, t := run[|run| - 1], more[|more| - 1];
      t.period == s.period && Spend(t, s.period, policy) == Spend(s, s.period, policy) + |s.flights| * cost
    decreases |run[|run| - 1].flights|
  {
    hide Step;
    var flights := run[|run| - 1].flights;
    if flights == [] {
      more := run;
    } else {
      more := RunCharge(setting, run, policy, cost);
      OneMore(|flights| - 1, cost);
      more := RunCharges(setting, more, policy, estimate, cost);
    }
  }

  /** From any start, the requests at a time can spend the whole bound of a period: the limit and the surplus. */
  lemma BoundReached(setting: Setting, start: State, policy: string) returns (run: seq<State>)
    requires Initial(start) && setting.maxFlights >= 1 && setting.maxEstimate + setting.maxOverrun >= 1
    requires policy in setting.limits && setting.limits[policy] >= 1
    ensures IsRun(setting, run) && run[0] == start
    ensures var s := run[|run| - 1];
      s.period == start.period + 1 && Spend(s, s.period, policy) == setting.limits[policy] + Surplus(setting, policy)
  {
    hide Step;
    var estimate, share := PassingEstimate(setting, policy), Share(setting, policy);
    run := RunUnits(setting, start, policy, setting.limits[policy] - if estimate == 0 then 1 else estimate);
    run := RunAdmissions(setting, run, policy, estimate, setting.maxFlights);
    OneMore(setting.maxFlights - 1, share);
    run := RunCharges(setting, run, policy, estimate, share);
  }

  /** Two requests at a time can spend twice the limit, even if none costs more than its estimate. */
  lemma TwoRequestsReachBound(policy: string, limit: nat, start: State) returns (setting: Setting, run: seq<State>)
    requires limit > 0 && Initial(start)
    ensures setting == Setting(map[policy := limit], limit, 2, 0)
    ensures IsRun(setting, run) && run[0] == start
    ensures var s := run[|run| - 1];
      Spend(s, s.period, policy) == 2 * limit
  {
    setting := Setting(map[policy := limit], limit, 2, 0);
    run := BoundReached(setting, start, policy);
  }

  /**
   * One request at a time is not enough either. Whenever a usage costs more than its estimate, a request with this
   * usage passes a limit of just the estimate, and then spends the whole cost.
   */
  lemma OneRequestOverspends(pricing: Pricing.ModelPricing, actual: Pricing.Usage, prompt: nat, completion: nat,
                             policy: string, start: State)
      returns (setting: Setting, run: seq<State>)
    requires Initial(start)
    requires Pricing.Cost(pricing, actual) > Pricing.Cost(pricing, Pricing.Estimated(prompt, completion)) >= 1
    ensures var estimate := Pricing.Cost(pricing, Pricing.Estimated(prompt, completion));
      var cost := Pricing.Cost(pricing, actual);
      && setting == Setting(map[policy := estimate], estimate, 1, cost - estimate)
      && IsRun(setting, run) && run[0] == start
      && var s := run[|run| - 1];
         Spend(s, s.period, policy) == cost
  {
    hide Step, Pricing.Cost;
    var estimate, cost := Pricing.Cost(pricing, Pricing.Estimated(prompt, completion)), Pricing.Cost(pricing, actual);
    setting := Setting(map[policy := estimate], estimate, 1, cost - estimate);
    run := BoundReached(setting, start, policy);
  }

  /** No run takes a policy over the larger of its limit and what was spent at the start. */
  ghost predicate NeverOverspends(setting: Setting, start: State, policy: string)
    requires policy in setting.limits
  {
    forall run: seq<State> :: IsRun(setting, run) && run[0] == start
        ==> WithinCeiling(setting, start, run[|run| - 1], policy)
  }

  ghost predicate WithinCeiling(setting: Setting, start: State, s: State, policy: string)
    requires policy in setting.limits
  {
    forall q: nat :: Spend(s, q, policy) <= Ceiling(setting, start, q, policy)
  }

  /** What keeps a policy within its limit, whatever requests come. */
  predicate Guarded(setting: Setting, policy: string)
    requires policy in setting.limits
  {
    || setting.limits[policy] == 0
    || if setting.maxEstimate == 0 then setting.maxFlights * setting.maxOverrun <= 1
       else setting.maxOverrun == 0 && setting.maxFlights == 1
  }

  /**
   * From any start, a policy is never overspent if and only if its limit is zero, or requests come one at a time and
   * never cost more than their estimates, or all estimates are zero and all requests together cost at most one.
   */
  lemma LimitHoldsExactly(setting: Setting, start: State, policy: string)
    requires Initial(start) && setting.maxFlights >= 1 && policy in setting.limits
    ensures NeverOverspends(setting, start, policy) <==> Guarded(setting, policy)
  {
    hide Step;
    NoSurplus(setting, policy);
    if Guarded(setting, policy) {
      forall run: seq<State> | IsRun(setting, run) && run[0] == start
        ensures WithinCeiling(setting, start, run[|run| - 1], policy)
      {
        SpendBounded(setting, run, policy);
      }
    } else {
      NotGuarded(setting, policy);
      var run := BoundReached(setting, start, policy);
      OverCeiling(setting, start, run[|run| - 1], policy);
    }
  }

  lemma NoSurplus(setting: Setting, policy: string)
    requires policy in setting.limits && setting.maxFlights >= 1
    ensures Surplus(setting, policy) >= 0
    ensures Surplus(setting, policy) == 0 <==> Guarded(setting, policy)
  {
    var others, share := setting.maxFlights - 1, Share(setting, policy);
    MoreShares(0, others, share);
    if others > 0 {
      MoreShares(1, others, share);
    }
    if others > 0 && setting.maxOverrun > 0 {
      MoreShares(2, setting.maxFlights, setting.maxOverrun);
    }
  }

  lemma NotGuarded(setting: Setting, policy: string)
    requires policy in setting.limits && setting.maxFlights >= 1 && !Guarded(setting, policy)
    ensures setting.limits[policy] >= 1 && setting.maxEstimate + setting.maxOverrun >= 1
  {
  }

  lemma OverCeiling(setting: Setting, start: State, s: State, policy: string)
    requires Initial(start) && policy in setting.limits && s.period == start.period + 1
    requires Spend(s, s.period, policy) > setting.limits[policy]
    ensures !WithinCeiling(setting, start, s, policy)
  {
    assert Spend(start, s.period, policy) == 0;
  }

  lemma IsStart(setting: Setting, s: State, f: Flight)
    requires |s.flights| < setting.maxFlights
    requires f.estimate <= setting.maxEstimate && f.policies <= setting.limits.Keys
    requires f.period == s.period && f.seen == map[] && !f.admitted
    ensures Step(setting, s, s.(flights := s.flights + [f]))
  {
    assert Starts(setting, s, s.(flights := s.flights + [f]), f);
  }

  lemma IsRead(setting: Setting, s: State, i: nat, policy: string)
    requires i < |s.flights| && policy in s.flights[i].policies && policy !in s.flights[i].seen
    ensures var f := s.flights[i];
      Step(setting, s, s.(flights := s.flights[i := f.(seen := f.seen[policy := Spend(s, f.period, policy)])]))
  {
    var f := s.flights[i];
    assert Reads(s, s.(flights := s.flights[i := f.(seen := f.seen[policy := Spend(s, f.period, policy)])]), i, policy);
  }

  lemma IsAdmission(setting: Setting, s: State, i: nat)
    requires i < |s.flights| && !s.flights[i].admitted
    requires forall p :: p in s.flights[i].policies ==> Passes(setting, s.flights[i], p)
    ensures Step(setting, s, s.(flights := s.flights[i := s.flights[i].(admitted := true)]))
  {
    assert Admits(setting, s, s.(flights := s.flights[i := s.flights[i].(admitted := true)]), i);
  }

  lemma IsCharge(setting: Setting, s: State, cost: nat)
    requires s.flights != [] && s.flights[0].admitted && cost <= s.flights[0].estimate + setting.maxOverrun
    ensures Step(setting, s, State(s.period, Charged(s, s.flights[0].policies, cost), s.flights[1..]))
  {
    assert s.flights[..0] + s.flights[1..] == s.flights[1..];
    assert Charges(setting, s, State(s.period, Charged(s, s.flights[0].policies, cost), s.flights[1..]), 0, cost);
  }
}

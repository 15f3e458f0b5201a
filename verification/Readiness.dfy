/**
 The models a workspace is told it can use, and what happens to a request for one of them. The gateway
 lists models, the control plane labels them and the request handler routes them, each by code of its
 own; this module shows that the three agree.
 */
module Readiness {
  import opened Shared
  import opened Text
  import opened Filtering
  import opened Targets
  import opened Selection

  /** The models that the built-in price catalog covers. */
  const BUILTIN_MODELS: map<ProviderKind, set<string>> := map[
    OpenAi := {"gpt-4.1", "gpt-4.1-mini", "gpt-4.1-nano", "gpt-4o", "gpt-4o-mini", "o3", "o4-mini", "o3-mini",
               "o1-mini"},
    Anthropic := {"claude-opus-4-1", "claude-opus-4", "claude-sonnet-4", "claude-sonnet-4-5", "claude-sonnet-4-6",
                  "claude-3-7-sonnet", "claude-3-5-sonnet", "claude-3-5-haiku", "claude-haiku-4-5", "claude-3-haiku"}]

  predicate IsDigit(c: char) {
    '0' <= c <= '9'
  }

  predicate IsDash(c: char) {
    c == '-' || c == '_'
  }

  /** A date such as 2025-05-14 at the end of a name. */
  predicate EndsWithDate(s: string) {
    var n := |s|;
    && n >= 10
    && s[n - 10] == '2' && s[n - 9] == '0' && IsDigit(s[n - 8]) && IsDigit(s[n - 7])
    && IsDash(s[n - 6]) && IsDigit(s[n - 5]) && IsDigit(s[n - 4])
    && IsDash(s[n - 3]) && IsDigit(s[n - 2]) && IsDigit(s[n - 1])
  }

  /** A compact date such as -20250514 at the end of a name. */
  predicate EndsWithCompactDate(s: string) {
    |s| >= 9 && s[|s| - 9] == '-' && forall i :: |s| - 8 <= i < |s| ==> IsDigit(s[i])
  }

  function StripDate(s: string): string {
    if !EndsWithDate(s) then s
    else if |s| >= 11 && IsDash(s[|s| - 11]) then s[..|s| - 11]
    else s[..|s| - 10]
  }

  function StripCompactDate(s: string): string {
    if EndsWithCompactDate(s) then s[..|s| - 9] else s
  }

  function CanonicalModel(model: string): string {
    StripCompactDate(StripDate(Normalize(model)))
  }

  predicate CoveredManually(pricing: Option<PricingConfig>, model: string) {
    && pricing.Some? && pricing.value.manual
    && exists i :: 0 <= i < |pricing.value.rules|
                   && (pricing.value.rules[i] == CanonicalRule(CanonicalModel(model))
                       || pricing.value.rules[i] == FallbackRule)
  }

  predicate CoveredByCatalog(kind: ProviderKind, model: string) {
    kind in BUILTIN_MODELS && CanonicalModel(model) in BUILTIN_MODELS[kind]
  }

  /** Some price applies to the model at this connection. */
  predicate HasPricing(c: Candidate, model: string) {
    || CoveredManually(c.pricing, model)
    || CoveredByCatalog(c.kind, model)
    || Normalize(model) in c.legacyPriced
    || c.legacyDefault
  }

  predicate Serves(c: Candidate, protocol: Protocol, model: string) {
    Supports(c, protocol) && MatchesModel(c, Some(model))
  }

  function MatchingFor(cs: seq<Candidate>, protocol: Protocol, model: string): seq<Candidate> {
    Filter((c: Candidate) => Serves(c, protocol, model), cs)
  }

  function Priced(cs: seq<Candidate>, model: string): seq<Candidate> {
    Filter((c: Candidate) => HasPricing(c, model), cs)
  }

  // The gateway's list

  predicate IsListed(cs: seq<Candidate>, protocol: Protocol, model: string) {
    var matching := MatchingFor(cs, protocol, model);
    && matching != []
    && var priced := Priced(matching, model);
       && priced != []
       && Select(priced, protocol, map[], Some(model)).Selected?
  }

  function ConfiguredItems(c: Candidate): seq<string> {
    Dedupe(NormalTokens(c.configuredModels)
           + CollectTokens([Lookup(c.metadata, "models"), Lookup(c.metadata, "defaultModels"),
                            Lookup(c.metadata, "routing.models")])
           + ManualModelIds(c.pricing))
  }

  function AllConfigured(cs: seq<Candidate>): seq<string> {
    if cs == [] then [] else ConfiguredItems(cs[0]) + AllConfigured(cs[1..])
  }

  /** The names of `models`, without those that a name before them equals up to normalisation. */
  function FirstOfEach(models: seq<string>): seq<string> {
    if models == [] then []
    else
      var last := models[|models| - 1];
      var front := models[..|models| - 1];
      if exists i :: 0 <= i < |front| && Normalize(front[i]) == Normalize(last) then FirstOfEach(front)
      else FirstOfEach(front) + [last]
  }

  function ListReadyModels(assignedModels: seq<string>, cs: seq<Candidate>, protocol: Protocol): seq<string> {
    var configured := if assignedModels != [] then assignedModels
        else FirstOfEach(AllConfigured(ProtocolCandidates(cs, protocol)));
    Filter((m: string) => IsListed(cs, protocol, m), configured)
  }

  // The control plane's label

  datatype Availability = NoProviderAvailable | PricingUncovered | RoutingAmbiguous | ReadyToUse

  function AvailabilityOf(cs: seq<Candidate>, protocol: Protocol, model: string): Availability {
    var matching := MatchingFor(cs, protocol, model);
    if matching == [] then NoProviderAvailable
    else
      var priced := Priced(matching, model);
      if priced == [] then PricingUncovered
      else if Select(priced, protocol, map[], Some(model)).Selected? then ReadyToUse
      else RoutingAmbiguous
  }

  // The request handler

  datatype Routing =
    | RoutedTo(candidate: Candidate)
    | BindingRequired
    | ModelNotAssigned
    | NoProviderForModel
    | PricingNotConfigured
    | SelectionFailed(outcome: Outcome)

  /** The handler's steps for a key without a bound connection, from one snapshot of the candidates. */
  function RouteRequest(assignedModels: seq<string>, cs: seq<Candidate>, protocol: Protocol, headers: Headers,
                        model: string): Routing {
    var ready := ListReadyModels(assignedModels, cs, protocol);
    if ready == [] then BindingRequired
    else if forall i :: 0 <= i < |ready| ==> Normalize(ready[i]) != Normalize(model) then ModelNotAssigned
    else
      var matching := MatchingFor(cs, protocol, model);
      if matching == [] then NoProviderForModel
      else
        var priced := Priced(matching, model);
        if priced == [] then PricingNotConfigured
        else
          var outcome := Select(priced, protocol, headers, Some(model));
          if !outcome.Selected? then SelectionFailed(outcome)
          else if !HasPricing(outcome.candidate, model) then PricingNotConfigured
          else RoutedTo(outcome.candidate)
  }

  lemma {:induction false} FilterCongruent(p: Candidate -> bool, q: Candidate -> bool, s: seq<Candidate>)
    requires forall c :: c in s ==> (p(c) <==> q(c))
    ensures Filter(p, s) == Filter(q, s)
  {
    if s == [] {
    } else {
      FilterCongruent(p, q, s[1..]);
    }
  }

  /** Everything the routing looks at depends on the normalised name only. */
  lemma OnlyNormalNameMatters(cs: seq<Candidate>, protocol: Protocol, a: string, b: string)
    requires Normalize(a) == Normalize(b)
    ensures MatchingFor(cs, protocol, a) == MatchingFor(cs, protocol, b)
    ensures Priced(cs, a) == Priced(cs, b)
    ensures Matching(cs, Some(a)) == Matching(cs, Some(b))
  {
    FilterCongruent((c: Candidate) => Serves(c, protocol, a), (c: Candidate) => Serves(c, protocol, b), cs);
    FilterCongruent((c: Candidate) => HasPricing(c, a), (c: Candidate) => HasPricing(c, b), cs);
    FilterCongruent((c: Candidate) => MatchesModel(c, Some(a)), (c: Candidate) => MatchesModel(c, Some(b)), cs);
  }

  lemma PricedMatches(cs: seq<Candidate>, protocol: Protocol, model: string)
    ensures forall c :: c in Priced(MatchingFor(cs, protocol, model), model) <==>
                        c in cs && Serves(c, protocol, model) && HasPricing(c, model)
  {
    FilterMembers((c: Candidate) => Serves(c, protocol, model), cs);
    FilterMembers((c: Candidate) => HasPricing(c, model), MatchingFor(cs, protocol, model));
  }

  /** Among priced matches, an unhinted selection succeeds exactly when there is one, or one default. */
  lemma SelectionAmongPriced(cs: seq<Candidate>, protocol: Protocol, headers: Headers, model: string)
    requires Unhinted(headers)
    ensures var priced := Priced(MatchingFor(cs, protocol, model), model);
            var outcome := Select(priced, protocol, headers, Some(model));
            && (outcome.Selected? <==> |priced| == 1 || |Defaults(priced, protocol)| == 1)
            && (outcome.Selected? ==> outcome.candidate in priced)
  {
    var priced := Priced(MatchingFor(cs, protocol, model), model);
    PricedMatches(cs, protocol, model);
    FilterAll((c: Candidate) => Supports(c, protocol), priced);
    FilterAll((c: Candidate) => MatchesModel(c, Some(model)), priced);
    FilterMembers((c: Candidate) => MarksDefault(c, protocol), priced);
    if |Defaults(priced, protocol)| == 1 {
      assert Defaults(priced, protocol)[0] in Defaults(priced, protocol);
    }
  }

  /** The gateway lists a model exactly when it has one priced match, or exactly one default among them. */
  lemma ListedExactly(cs: seq<Candidate>, protocol: Protocol, model: string)
    ensures var priced := Priced(MatchingFor(cs, protocol, model), model);
            IsListed(cs, protocol, model) <==> |priced| == 1 || |Defaults(priced, protocol)| == 1
  {
    SelectionAmongPriced(cs, protocol, map[], model);
    PricedMatches(cs, protocol, model);
    var priced := Priced(MatchingFor(cs, protocol, model), model);
    FilterMembers((c: Candidate) => MarksDefault(c, protocol), priced);
    FilterMembers((c: Candidate) => HasPricing(c, model), MatchingFor(cs, protocol, model));
  }

  /** The control plane's label says why a model is not listed, and calls it ready under the same condition. */
  lemma ControlPlaneAgrees(cs: seq<Candidate>, protocol: Protocol, model: string)
    ensures var serving := MatchingFor(cs, protocol, model);
            var priced := Priced(serving, model);
            && (AvailabilityOf(cs, protocol, model) == ReadyToUse
                <==> |priced| == 1 || |Defaults(priced, protocol)| == 1)
            && (AvailabilityOf(cs, protocol, model) == ReadyToUse <==> IsListed(cs, protocol, model))
            && (AvailabilityOf(cs, protocol, model) == RoutingAmbiguous
                <==> |priced| > 1 && |Defaults(priced, protocol)| != 1)
            && (AvailabilityOf(cs, protocol, model) == NoProviderAvailable
                <==> !exists c :: c in cs && Serves(c, protocol, model))
  {
    ListedExactly(cs, protocol, model);
    FilterMembers((c: Candidate) => Serves(c, protocol, model), cs);
    FilterMembers((c: Candidate) => HasPricing(c, model), MatchingFor(cs, protocol, model));
    var serving := MatchingFor(cs, protocol, model);
    if serving != [] { assert serving[0] in serving; }
  }

  predicate Named(models: seq<string>, model: string) {
    exists i :: 0 <= i < |models| && Normalize(models[i]) == Normalize(model)
  }

  /**
   A request without hints is routed exactly when its model is listed, up to case and surrounding space;
   it then goes to a connection of the workspace that speaks the protocol, serves the model and has a
   price for it. Neither an ambiguity nor a missing price can surface.
   */
  lemma ListedModelRoutes(assignedModels: seq<string>, cs: seq<Candidate>, protocol: Protocol, headers: Headers,
                          model: string)
    requires Unhinted(headers)
    ensures var ready := ListReadyModels(assignedModels, cs, protocol);
            var routing := RouteRequest(assignedModels, cs, protocol, headers, model);
            && (routing.RoutedTo? <==> Named(ready, model))
            && (routing.RoutedTo? || routing == BindingRequired || routing == ModelNotAssigned)
            && (routing.RoutedTo? ==>
                  routing.candidate in cs && Serves(routing.candidate, protocol, model)
                      && HasPricing(routing.candidate, model))
  {
    hide Serves, HasPricing, Priced, MatchingFor, Select;
    var ready := ListReadyModels(assignedModels, cs, protocol);
    if i :| 0 <= i < |ready| && Normalize(ready[i]) == Normalize(model) {
      ListedModelServed(assignedModels, cs, protocol, headers, model, ready[i]);
    }
  }

  lemma ListedModelServed(assignedModels: seq<string>, cs: seq<Candidate>, protocol: Protocol, headers: Headers,
                          model: string, listed: string)
    requires Unhinted(headers)
    requires listed in ListReadyModels(assignedModels, cs, protocol) && Normalize(listed) == Normalize(model)
    ensures var priced := Priced(MatchingFor(cs, protocol, model), model);
            var outcome := Select(priced, protocol, headers, Some(model));
            && MatchingFor(cs, protocol, model) != [] && priced != [] && outcome.Selected?
            && outcome.candidate in cs && Serves(outcome.candidate, protocol, model)
                  && HasPricing(outcome.candidate, model)
  {
    ListedIsReady(assignedModels, cs, protocol, listed);
    ListedExactly(cs, protocol, listed);
    OnlyNormalNameMatters(cs, protocol, listed, model);
    OnlyNormalNameMatters(MatchingFor(cs, protocol, model), protocol, listed, model);
    SelectionAmongPriced(cs, protocol, headers, model);
    PricedMatches(cs, protocol, model);
  }

  lemma ListedIsReady(assignedModels: seq<string>, cs: seq<Candidate>, protocol: Protocol, listed: string)
    requires listed in ListReadyModels(assignedModels, cs, protocol)
    ensures IsListed(cs, protocol, listed)
  {
    var configured := if assignedModels != [] then assignedModels
        else FirstOfEach(AllConfigured(ProtocolCandidates(cs, protocol)));
    FilterMembers((m: string) => IsListed(cs, protocol, m), configured);
  }
}

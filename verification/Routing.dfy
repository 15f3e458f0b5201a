/** Which models a provider connection is configured to serve, read from its metadata and pricing rules. */
module Targets {
  import opened Shared
  import opened Text
  import opened Filtering

  datatype PricingRule = CanonicalRule(model: string) | FallbackRule

  datatype PricingConfig = PricingConfig(manual: bool, rules: seq<PricingRule>)

  /**
   A provider connection as routing sees it. `configuredModels` are the ids parsed from the model
   configuration; `legacyPriced` and `legacyDefault` say for which normalised models, and whether by
   default, the metadata holds a price.
   */
  datatype Candidate = Candidate(
    id: string,
    title: string,
    kind: ProviderKind,
    metadata: map<string, string>,
    configuredModels: seq<string>,
    pricing: Option<PricingConfig>,
    legacyPriced: set<string>,
    legacyDefault: bool)

  /** Exact names and name prefixes, all normal and non-empty. */
  datatype TargetSet = TargetSet(exact: seq<string>, prefixes: seq<string>)

  predicate IsToken(t: string) {
    t != "" && IsNormal(t)
  }

  predicate AreTokens(s: seq<string>) {
    forall t :: t in s ==> IsToken(t)
  }

  function Dedupe(s: seq<string>): (r: seq<string>)
    ensures forall t :: t in r <==> t in s
    ensures forall i, j :: 0 <= i < j < |r| ==> r[i] != r[j]
  {
    if s == [] then []
    else
      var front := Dedupe(s[..|s| - 1]);
      assert s == s[..|s| - 1] + [s[|s| - 1]];
      if s[|s| - 1] in front then front else front + [s[|s| - 1]]
  }

  /** The pieces of a list separated by commas or line breaks. */
  function Pieces(s: string): (r: seq<string>)
    ensures r != []
  {
    if s == "" then [""]
    else
      var rest := Pieces(s[1..]);
      if s[0] == ',' || s[0] == '\n' then [""] + rest else [[s[0]] + rest[0]] + rest[1..]
  }

  function NormalTokens(pieces: seq<string>): (r: seq<string>)
    ensures AreTokens(r)
    ensures forall t :: t in r <==> t != "" && exists i :: 0 <= i < |pieces| && Normalize(pieces[i]) == t
  {
    if pieces == [] then []
    else
      NormalizeNormal(pieces[0]);
      var t := Normalize(pieces[0]);
      var rest := NormalTokens(pieces[1..]);
      assert forall i :: 0 < i < |pieces| ==> pieces[i] == pieces[1..][i - 1];
      if t == "" then rest else [t] + rest
  }

  function TokensOf(values: seq<Option<string>>): (r: seq<string>)
    ensures AreTokens(r)
  {
    if values == [] then []
    else if values[0].Some? && Trim(values[0].value) != "" then
      NormalTokens(Pieces(values[0].value)) + TokensOf(values[1..])
    else
      TokensOf(values[1..])
  }

  function CollectTokens(values: seq<Option<string>>): (r: seq<string>)
    ensures AreTokens(r)
    ensures forall i, j :: 0 <= i < j < |r| ==> r[i] != r[j]
  {
    Dedupe(TokensOf(values))
  }

  function Join(ids: seq<string>): string {
    if ids == [] then "" else if |ids| == 1 then ids[0] else ids[0] + ", " + Join(ids[1..])
  }

  function RuleModels(rules: seq<PricingRule>): seq<string> {
    if rules == [] then []
    else if rules[0].CanonicalRule? then [rules[0].model] + RuleModels(rules[1..])
    else RuleModels(rules[1..])
  }

  function ManualModelIds(pricing: Option<PricingConfig>): seq<string> {
    if pricing.None? || !pricing.value.manual then []
    else Dedupe(NormalTokens(RuleModels(pricing.value.rules)))
  }

  function GetTargets(c: Candidate, pricing: Option<PricingConfig>): (r: TargetSet)
    ensures AreTokens(r.exact) && AreTokens(r.prefixes)
  {
    TargetSet(
      CollectTokens([
                      Lookup(c.metadata, "models"),
                      Lookup(c.metadata, "defaultModels"),
                      Lookup(c.metadata, "routing.models"),
                      Some(Join(Dedupe(NormalTokens(c.configuredModels)))),
                      Some(Join(ManualModelIds(pricing)))]),
      CollectTokens([
                      Lookup(c.metadata, "modelPrefixes"),
                      Lookup(c.metadata, "defaultModelPrefixes"),
                      Lookup(c.metadata, "routing.modelPrefixes")]))
  }

  predicate MarksDefault(c: Candidate, protocol: Protocol) {
    var tokens := CollectTokens([
                                  Lookup(c.metadata, "defaultForProtocol"),
                                  Lookup(c.metadata, "gatewayProtocol"),
                                  Lookup(c.metadata, "protocol"),
                                  Lookup(c.metadata, "protocols")]);
    || "all" in tokens
    || "default" in tokens
    || (protocol == AnthropicProtocol && ("anthropic" in tokens || "messages" in tokens))
    || (protocol == OpenAiProtocol
        && ("openai" in tokens || "openai-compatible" in tokens || "chat-completions" in tokens))
  }

  predicate Supports(c: Candidate, protocol: Protocol) {
    if protocol == AnthropicProtocol then c.kind == Anthropic else c.kind == OpenAi || c.kind == OpenAiCompatible
  }

  predicate HitsPrefix(targets: TargetSet, model: string) {
    exists i :: 0 <= i < |targets.prefixes| && targets.prefixes[i] <= model
  }

  predicate Hits(targets: TargetSet, model: string) {
    model in targets.exact || HitsPrefix(targets, model)
  }

  predicate MatchesModel(c: Candidate, model: Option<string>) {
    model.Some? && Normalize(model.value) != "" && Hits(GetTargets(c, c.pricing), Normalize(model.value))
  }

  predicate HasManualModels(c: Candidate) {
    ManualModelIds(c.pricing) != []
  }

  /** Without manual pricing rules the targets do not depend on the pricing configuration. */
  lemma TargetsWithoutManualModels(c: Candidate)
    requires !HasManualModels(c)
    ensures GetTargets(c, c.pricing) == GetTargets(c, None)
  {
  }

  predicate DistinctIds(s: seq<Candidate>) {
    forall i, j :: 0 <= i < j < |s| ==> s[i].id != s[j].id
  }

  lemma DistinctFilter(p: Candidate -> bool, s: seq<Candidate>)
    requires DistinctIds(s)
    ensures DistinctIds(Filter(p, s))
  {
    if s == [] {
    } else {
      DistinctFilter(p, s[1..]);
      FilterMembers(p, s[1..]);
      assert forall c :: c in s[1..] ==> c.id != s[0].id;
    }
  }

  lemma SameIdSame(s: seq<Candidate>, a: Candidate, b: Candidate)
    requires DistinctIds(s) && a in s && b in s && a.id == b.id
    ensures a == b
  {
    var i :| 0 <= i < |s| && s[i] == a;
    var j :| 0 <= j < |s| && s[j] == b;
    assert i == j;
  }

  function ProtocolCandidates(providers: seq<Candidate>, protocol: Protocol): seq<Candidate> {
    Filter((c: Candidate) => Supports(c, protocol), providers)
  }

  function Matching(cs: seq<Candidate>, model: Option<string>): seq<Candidate> {
    Filter((c: Candidate) => MatchesModel(c, model), cs)
  }

  function Defaults(cs: seq<Candidate>, protocol: Protocol): seq<Candidate> {
    Filter((c: Candidate) => MarksDefault(c, protocol), cs)
  }
}

/** The choice of one provider connection for a request. */
module Selection {
  import opened Shared
  import opened Text
  import opened Filtering
  import opened Targets

  datatype MatchedBy = ByConnectionId | ByProviderKind | ByModel | ByModelDefault | ByOnlyCandidate | ByProtocolDefault

  datatype Outcome =
    | Selected(candidate: Candidate, matchedBy: MatchedBy)
    | NoProviderForProtocol
    | ConnectionUnavailable(connectionId: string)
    | MultipleKindMatches(kind: ProviderKind)
    | KindUnavailable(kind: ProviderKind)
    | MultipleModelMatches(candidates: seq<Candidate>)
    | MultipleWithoutDefault(candidates: seq<Candidate>)

  type Headers = map<string, string>

  function KindHint(value: Option<string>): Option<ProviderKind> {
    if value.None? then None
    else
      var kind := Normalize(value.value);
      if kind == "anthropic" then Some(Anthropic)
      else if kind == "openai" then Some(OpenAi)
      else if kind == "openai-compatible" then Some(OpenAiCompatible)
      else if kind == "bedrock" then Some(Bedrock)
      else if kind == "vertex" then Some(Vertex)
      else None
  }

  function FirstPresent(values: seq<Option<string>>): Option<string> {
    if values == [] then None else if values[0].Some? then values[0] else FirstPresent(values[1..])
  }

  function ConnectionHint(headers: Headers): string {
    match Lookup(headers, "x-provider-connection-id")
    case Some(value) => Trim(value)
    case None => ""
  }

  function HeaderKind(headers: Headers): Option<ProviderKind> {
    KindHint(FirstPresent([
                            Lookup(headers, "x-provider-kind"),
                            Lookup(headers, "x-teamops-provider"),
                            Lookup(headers, "x-provider")]))
  }

  predicate Unhinted(headers: Headers) {
    ConnectionHint(headers) == "" && HeaderKind(headers).None?
  }

  function WithId(cs: seq<Candidate>, id: string): seq<Candidate> {
    Filter((c: Candidate) => c.id == id, cs)
  }

  function OfKind(cs: seq<Candidate>, kind: ProviderKind): seq<Candidate> {
    Filter((c: Candidate) => c.kind == kind, cs)
  }

  function SelectByModel(cs: seq<Candidate>, protocol: Protocol, model: Option<string>): Outcome
    requires cs != []
  {
    var matched := Matching(cs, model);
    if |matched| == 1 then Selected(matched[0], ByModel)
    else if |matched| > 1 then
      var defaults := Defaults(matched, protocol);
      if |defaults| == 1 then Selected(defaults[0], ByModelDefault) else MultipleModelMatches(matched)
    else if |cs| == 1 then Selected(cs[0], ByOnlyCandidate)
    else
      var defaults := Defaults(cs, protocol);
      if |defaults| == 1 then Selected(defaults[0], ByProtocolDefault) else MultipleWithoutDefault(cs)
  }

  function SelectById(cs: seq<Candidate>, id: string): Outcome {
    var found := WithId(cs, id);
    if found == [] then ConnectionUnavailable(id) else Selected(found[0], ByConnectionId)
  }

  function SelectByKind(cs: seq<Candidate>, kind: ProviderKind): Outcome {
    var hinted := OfKind(cs, kind);
    if |hinted| == 1 then Selected(hinted[0], ByProviderKind)
    else if |hinted| > 1 then MultipleKindMatches(kind)
    else KindUnavailable(kind)
  }

  function Select(providers: seq<Candidate>, protocol: Protocol, headers: Headers, model: Option<string>): Outcome {
    var cs := ProtocolCandidates(providers, protocol);
    if cs == [] then NoProviderForProtocol
    else if ConnectionHint(headers) != "" then SelectById(cs, ConnectionHint(headers))
    else if HeaderKind(headers).Some? then SelectByKind(cs, HeaderKind(headers).value)
    else SelectByModel(cs, protocol, model)
  }

  predicate SameOutcome(a: Outcome, b: Outcome) {
    match (a, b)
    case (MultipleModelMatches(x), MultipleModelMatches(y)) => multiset(x) == multiset(y)
    case (MultipleWithoutDefault(x), MultipleWithoutDefault(y)) => multiset(x) == multiset(y)
    case _ => a == b
  }

  /** Selection does not depend on the order in which the providers are listed. */
  lemma SelectionOrderIrrelevant(a: seq<Candidate>, b: seq<Candidate>, protocol: Protocol, headers: Headers,
                                 model: Option<string>)
    requires multiset(a) == multiset(b) && DistinctIds(a)
    ensures SameOutcome(Select(a, protocol, headers, model), Select(b, protocol, headers, model))
  {
    var cs, ds := ProtocolCandidates(a, protocol), ProtocolCandidates(b, protocol);
    FilterPermutation((c: Candidate) => Supports(c, protocol), a, b);
    DistinctFilter((c: Candidate) => Supports(c, protocol), a);
    if cs != [] {
      IdSelectionOrderIrrelevant(cs, ds, ConnectionHint(headers));
      if HeaderKind(headers).Some? {
        KindSelectionOrderIrrelevant(cs, ds, HeaderKind(headers).value);
      }
      ModelSelectionOrderIrrelevant(cs, ds, protocol, model);
    }
  }

  lemma IdSelectionOrderIrrelevant(cs: seq<Candidate>, ds: seq<Candidate>, id: string)
    requires multiset(cs) == multiset(ds) && DistinctIds(cs)
    ensures SelectById(cs, id) == SelectById(ds, id)
  {
    var x, y := WithId(cs, id), WithId(ds, id);
    FilterPermutation((c: Candidate) => c.id == id, cs, ds);
    FilterMembers((c: Candidate) => c.id == id, cs);
    FilterMembers((c: Candidate) => c.id == id, ds);
    if x != [] {
      assert y[0] in y && y[0] in ds;
      assert y[0] in multiset(cs);
      SameIdSame(cs, x[0], y[0]);
    }
  }

  lemma KindSelectionOrderIrrelevant(cs: seq<Candidate>, ds: seq<Candidate>, kind: ProviderKind)
    requires multiset(cs) == multiset(ds)
    ensures SelectByKind(cs, kind) == SelectByKind(ds, kind)
  {
    FilterPermutation((c: Candidate) => c.kind == kind, cs, ds);
  }

  lemma ModelSelectionOrderIrrelevant(cs: seq<Candidate>, ds: seq<Candidate>, protocol: Protocol, model: Option<string>)
    requires multiset(cs) == multiset(ds) && cs != [] && ds != []
    ensures SameOutcome(SelectByModel(cs, protocol, model), SelectByModel(ds, protocol, model))
  {
    PermutationLength(cs, ds);
    FilterPermutation((c: Candidate) => MatchesModel(c, model), cs, ds);
    FilterPermutation((c: Candidate) => MarksDefault(c, protocol), Matching(cs, model), Matching(ds, model));
    FilterPermutation((c: Candidate) => MarksDefault(c, protocol), cs, ds);
  }

  /** Without hints, a model that several candidates match is routed exactly when one default is among them. */
  lemma AmbiguousNeedsDefault(providers: seq<Candidate>, protocol: Protocol, headers: Headers, model: string)
    requires Unhinted(headers)
    requires |Matching(ProtocolCandidates(providers, protocol), Some(model))| > 1
    ensures var matched := Matching(ProtocolCandidates(providers, protocol), Some(model));
            var outcome := Select(providers, protocol, headers, Some(model));
            && (outcome.Selected? <==> |Defaults(matched, protocol)| == 1)
            && (outcome.Selected? ==> outcome == Selected(Defaults(matched, protocol)[0], ByModelDefault))
  {
    assert ProtocolCandidates(providers, protocol) != [];
  }
}

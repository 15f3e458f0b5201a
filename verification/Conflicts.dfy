/**
 The static analysis that warns of models which more than one provider connection would serve. It looks
 at exact names and name prefixes only, pair by pair; `AnalysisExact` shows that it misses no ambiguous
 model and raises no false alarm.
 */
module Conflicts {
  import opened Shared
  import opened Text
  import opened Filtering
  import opened Targets
  import opened Selection

  datatype Kind = ExactModel | ExactVsPrefix | PrefixOverlap

  datatype Reference = Reference(id: string, title: string, kind: ProviderKind)

  datatype Conflict = Conflict(
    protocol: Protocol,
    kind: Kind,
    token: string,
    sampleModel: string,
    candidates: seq<Reference>,
    defaults: seq<Reference>,
    matchingPrefixes: set<string>,
    defaultResolved: bool)

  datatype ConflictKey = ConflictKey(kind: Kind, sampleModel: string, ids: seq<string>)

  function References(cs: seq<Candidate>): (r: seq<Reference>)
    ensures |r| == |cs|
  {
    seq(|cs|, i requires 0 <= i < |cs| => Reference(cs[i].id, cs[i].title, cs[i].kind))
  }

  function Ids(rs: seq<Reference>): seq<string> {
    seq(|rs|, i requires 0 <= i < |rs| => rs[i].id)
  }

  function KeyFor(c: Conflict): ConflictKey {
    ConflictKey(c.kind, c.sampleModel, Ids(c.candidates))
  }

  /** The targets the analysis looks at leave manual pricing rules out. */
  function Listed(c: Candidate): TargetSet {
    GetTargets(c, None)
  }

  predicate OwnsExact(c: Candidate, model: string) {
    model in Listed(c).exact
  }

  predicate PrefixOnly(c: Candidate, model: string) {
    !OwnsExact(c, model) && HitsPrefix(Listed(c), model)
  }

  predicate OwnsPrefix(c: Candidate, token: string) {
    token in Listed(c).prefixes
  }

  predicate HasBroaderPrefix(c: Candidate, token: string) {
    exists i :: 0 <= i < |Listed(c).prefixes| && Listed(c).prefixes[i] < token
  }

  predicate OverlapsPrefix(c: Candidate, token: string) {
    exists i :: 0 <= i < |Listed(c).prefixes| && (Listed(c).prefixes[i] <= token || token <= Listed(c).prefixes[i])
  }

  function Owners(cs: seq<Candidate>, model: string): seq<Candidate> {
    Filter((c: Candidate) => OwnsExact(c, model), cs)
  }

  function PrefixMatched(cs: seq<Candidate>, model: string): seq<Candidate> {
    Filter((c: Candidate) => PrefixOnly(c, model), cs)
  }

  function PrefixOwners(cs: seq<Candidate>, token: string): seq<Candidate> {
    Filter((c: Candidate) => OwnsPrefix(c, token), cs)
  }

  function Overlapping(cs: seq<Candidate>, token: string): seq<Candidate> {
    Filter((c: Candidate) => OverlapsPrefix(c, token), cs)
  }

  function PrefixesOf(cs: seq<Candidate>): set<string> {
    set c, t | c in cs && t in Listed(c).prefixes :: t
  }

  function SampleModel(kind: Kind, token: string): string {
    if kind == PrefixOverlap then token + "sample" else token
  }

  function MakeConflict(protocol: Protocol, kind: Kind, token: string, providers: seq<Candidate>,
                        prefixes: set<string>): Conflict {
    var defaults := Defaults(providers, protocol);
    Conflict(protocol, kind, token, SampleModel(kind, token), References(providers), References(defaults), prefixes,
             |defaults| == 1)
  }

  /** The providers that a conflict of this kind and token lists. */
  function Involved(cs: seq<Candidate>, kind: Kind, token: string): seq<Candidate> {
    match kind
    case ExactModel => Owners(cs, token)
    case ExactVsPrefix => Owners(cs, token) + PrefixMatched(cs, token)
    case PrefixOverlap => Overlapping(cs, token)
  }

  function InvolvedPrefixes(cs: seq<Candidate>, kind: Kind, token: string): set<string> {
    match kind
    case ExactModel => {}
    case ExactVsPrefix => set p | p in PrefixesOf(PrefixMatched(cs, token)) && p <= token
    case PrefixOverlap => set p | p in PrefixesOf(Overlapping(cs, token)) && (p <= token || token <= p)
  }

  function Expected(cs: seq<Candidate>, protocol: Protocol, kind: Kind, token: string): Conflict {
    MakeConflict(protocol, kind, token, Involved(cs, kind, token), InvolvedPrefixes(cs, kind, token))
  }

  /** When the analysis reports a conflict of this kind and token. */
  predicate Warranted(cs: seq<Candidate>, kind: Kind, token: string) {
    match kind
    case ExactModel => |Owners(cs, token)| > 1
    case ExactVsPrefix => Owners(cs, token) != [] && PrefixMatched(cs, token) != []
    case PrefixOverlap =>
      && PrefixOwners(cs, token) != []
      && (|PrefixOwners(cs, token)| > 1 || exists i :: 0 <= i < |cs| && HasBroaderPrefix(cs[i], token))
      && |Overlapping(cs, token)| > 1
  }

  predicate Distinct(report: seq<Conflict>) {
    forall i, j :: 0 <= i < j < |report| ==> report[i] != report[j]
  }

  /** The report lists exactly the warranted conflicts, each of them once. */
  ghost predicate IsReport(cs: seq<Candidate>, protocol: Protocol, report: seq<Conflict>) {
    && Distinct(report)
    && forall c :: c in report <==> Warranted(cs, c.kind, c.token) && c == Expected(cs, protocol, c.kind, c.token)
  }

  // What the report means

  predicate NoManualModels(cs: seq<Candidate>) {
    forall c :: c in cs ==> !HasManualModels(c)
  }

  lemma MatchIsHit(c: Candidate, model: string)
    requires !HasManualModels(c)
    ensures MatchesModel(c, Some(model)) <==> Normalize(model) != "" && Hits(Listed(c), Normalize(model))
    ensures Hits(Listed(c), Normalize(model)) <==> OwnsExact(c, Normalize(model)) || PrefixOnly(c, Normalize(model))
  {
    TargetsWithoutManualModels(c);
  }

  lemma NameMembers(cs: seq<Candidate>, model: string)
    ensures forall c :: c in Owners(cs, model) <==> c in cs && OwnsExact(c, model)
    ensures forall c :: c in PrefixMatched(cs, model) <==> c in cs && PrefixOnly(c, model)
  {
    FilterMembers((c: Candidate) => OwnsExact(c, model), cs);
    FilterMembers((c: Candidate) => PrefixOnly(c, model), cs);
  }

  lemma PrefixMembers(cs: seq<Candidate>, token: string)
    ensures forall c :: c in PrefixOwners(cs, token) <==> c in cs && OwnsPrefix(c, token)
    ensures forall c :: c in Overlapping(cs, token) <==> c in cs && OverlapsPrefix(c, token)
  {
    FilterMembers((c: Candidate) => OwnsPrefix(c, token), cs);
    FilterMembers((c: Candidate) => OverlapsPrefix(c, token), cs);
  }

  lemma TwoAreMany(s: seq<Candidate>, a: Candidate, b: Candidate)
    requires a in s && b in s && a != b
    ensures |s| > 1
  {
  }

  /** A model that two different candidates hit is matched by more than one. */
  lemma HitTwice(cs: seq<Candidate>, a: Candidate, b: Candidate, model: string)
    requires NoManualModels(cs) && a in cs && b in cs && a != b
    requires IsToken(model) && Hits(Listed(a), model) && Hits(Listed(b), model)
    ensures |Matching(cs, Some(model))| > 1
  {
    NormalFixed(model);
    MatchIsHit(a, model);
    MatchIsHit(b, model);
    FilterMembers((c: Candidate) => MatchesModel(c, Some(model)), cs);
    TwoAreMany(Matching(cs, Some(model)), a, b);
  }

  lemma FirstTwo(s: seq<Candidate>, p: Candidate -> bool) returns (a: Candidate, b: Candidate)
    requires DistinctIds(s) && |Filter(p, s)| > 1
    ensures a in s && b in s && p(a) && p(b) && a != b
  {
    DistinctFilter(p, s);
    FilterMembers(p, s);
    a, b := Filter(p, s)[0], Filter(p, s)[1];
    assert a in Filter(p, s) && b in Filter(p, s);
  }

  /** Every warranted conflict points to a model that two candidates would serve. */
  lemma WarrantedIsAmbiguous(cs: seq<Candidate>, kind: Kind, token: string) returns (model: string)
    requires DistinctIds(cs) && NoManualModels(cs) && Warranted(cs, kind, token)
    ensures |Matching(cs, Some(model))| > 1
  {
    match kind
    case ExactModel =>
      var a, b := FirstTwo(cs, (c: Candidate) => OwnsExact(c, token));
      HitTwice(cs, a, b, token);
      model := token;
    case ExactVsPrefix =>
      NameMembers(cs, token);
      var a, b := Owners(cs, token)[0], PrefixMatched(cs, token)[0];
      assert a in Owners(cs, token) && b in PrefixMatched(cs, token);
      HitTwice(cs, a, b, token);
      model := token;
    case PrefixOverlap =>
      PrefixMembers(cs, token);
      var owner := PrefixOwners(cs, token)[0];
      assert owner in PrefixOwners(cs, token);
      var a, b := FirstTwo(cs, (c: Candidate) => OverlapsPrefix(c, token));
      model := OverlapIsAmbiguous(cs, owner, if a == owner then b else a, token);
  }

  /** The longer of two comparable prefixes is a name that both their owners would serve. */
  lemma OverlapIsAmbiguous(cs: seq<Candidate>, owner: Candidate, other: Candidate, token: string)
      returns (model: string)
    requires NoManualModels(cs) && owner in cs && other in cs && owner != other
    requires OwnsPrefix(owner, token) && OverlapsPrefix(other, token)
    ensures |Matching(cs, Some(model))| > 1
  {
    var i :| 0 <= i < |Listed(other).prefixes|
        && (Listed(other).prefixes[i] <= token || token <= Listed(other).prefixes[i]);
    var j :| 0 <= j < |Listed(owner).prefixes| && Listed(owner).prefixes[j] == token;
    var prefix := Listed(other).prefixes[i];
    assert prefix in Listed(other).prefixes;
    model := if token <= prefix then prefix else token;
    assert Listed(owner).prefixes[j] <= model && Listed(other).prefixes[i] <= model;
    HitTwice(cs, owner, other, model);
  }

  /** Two prefixes of one name are comparable. */
  lemma PrefixesComparable(p: string, q: string, s: string)
    requires p <= s && q <= s
    ensures p <= q || q <= p
  {
    if |p| <= |q| { assert p == q[..|p|]; } else { assert q == p[..|q|]; }
  }

  lemma SharedPrefixWarranted(cs: seq<Candidate>, a: Candidate, b: Candidate, p: string, q: string)
    requires a in cs && b in cs && a != b
    requires OwnsPrefix(a, p) && OwnsPrefix(b, q) && p <= q
    ensures Warranted(cs, PrefixOverlap, q)
  {
    var i :| 0 <= i < |Listed(a).prefixes| && Listed(a).prefixes[i] == p;
    var j :| 0 <= j < |Listed(b).prefixes| && Listed(b).prefixes[j] == q;
    PrefixMembers(cs, q);
    TwoAreMany(Overlapping(cs, q), a, b);
    assert b in PrefixOwners(cs, q);
    if p == q {
      TwoAreMany(PrefixOwners(cs, q), a, b);
    } else {
      var k :| 0 <= k < |cs| && cs[k] == a;
      assert HasBroaderPrefix(cs[k], q);
    }
  }

  /** Every model that two candidates would serve is behind some warranted conflict. */
  lemma AmbiguousIsWarranted(cs: seq<Candidate>, model: string) returns (kind: Kind, token: string)
    requires DistinctIds(cs) && NoManualModels(cs) && |Matching(cs, Some(model))| > 1
    ensures Warranted(cs, kind, token)
  {
    var a, b := FirstTwo(cs, (c: Candidate) => MatchesModel(c, Some(model)));
    MatchIsHit(a, model);
    MatchIsHit(b, model);
    var m := Normalize(model);
    NameMembers(cs, m);
    if OwnsExact(a, m) && OwnsExact(b, m) {
      TwoAreMany(Owners(cs, m), a, b);
      kind, token := ExactModel, m;
    } else if OwnsExact(a, m) || OwnsExact(b, m) {
      var owner, other := if OwnsExact(a, m) then a else b, if OwnsExact(a, m) then b else a;
      assert owner in Owners(cs, m) && other in PrefixMatched(cs, m);
      kind, token := ExactVsPrefix, m;
    } else {
      var i :| 0 <= i < |Listed(a).prefixes| && Listed(a).prefixes[i] <= m;
      var j :| 0 <= j < |Listed(b).prefixes| && Listed(b).prefixes[j] <= m;
      var p, q := Listed(a).prefixes[i], Listed(b).prefixes[j];
      PrefixesComparable(p, q, m);
      kind := PrefixOverlap;
      if p <= q {
        SharedPrefixWarranted(cs, a, b, p, q);
        token := q;
      } else {
        SharedPrefixWarranted(cs, b, a, q, p);
        token := p;
      }
    }
  }

  /** The report is empty if and only if no model name is matched by two protocol candidates. */
  lemma AnalysisExact(providers: seq<Candidate>, protocol: Protocol, report: seq<Conflict>)
    requires DistinctIds(providers) && NoManualModels(providers)
    requires IsReport(ProtocolCandidates(providers, protocol), protocol, report)
    ensures report == [] <==> !exists model :: |Matching(ProtocolCandidates(providers, protocol), Some(model))| > 1
  {
    var cs := ProtocolCandidates(providers, protocol);
    DistinctFilter((c: Candidate) => Supports(c, protocol), providers);
    FilterMembers((c: Candidate) => Supports(c, protocol), providers);
    if model :| |Matching(cs, Some(model))| > 1 {
      var kind, token := AmbiguousIsWarranted(cs, model);
      assert Expected(cs, protocol, kind, token) in report;
    }
    if report != [] {
      assert report[0] in report;
      var model := WarrantedIsAmbiguous(cs, report[0].kind, report[0].token);
    }
  }

  /** An exact-versus-prefix conflict lists exactly the candidates that match its sample model. */
  lemma ExactVsPrefixComplete(cs: seq<Candidate>, model: string)
    requires NoManualModels(cs) && IsToken(model)
    ensures multiset(Involved(cs, ExactVsPrefix, model)) == multiset(Matching(cs, Some(model)))
  {
    NormalFixed(model);
    forall c | c in cs
      ensures MatchesModel(c, Some(model)) <==> OwnsExact(c, model) || PrefixOnly(c, model)
    {
      MatchIsHit(c, model);
    }
    FilterSplit((c: Candidate) => OwnsExact(c, model), (c: Candidate) => PrefixOnly(c, model),
                (c: Candidate) => MatchesModel(c, Some(model)), cs);
  }

  /** And it is resolved by a default exactly when an unhinted request for that model is, by that default. */
  lemma ExactVsPrefixPredictsSelection(providers: seq<Candidate>, protocol: Protocol, headers: Headers, model: string)
    requires NoManualModels(providers) && Unhinted(headers)
    requires Warranted(ProtocolCandidates(providers, protocol), ExactVsPrefix, model)
    ensures var cs := ProtocolCandidates(providers, protocol);
            var conflict := Expected(cs, protocol, ExactVsPrefix, model);
            var outcome := Select(providers, protocol, headers, Some(model));
            && (conflict.defaultResolved <==> outcome.Selected?)
            && (outcome.Selected? ==>
                  outcome.matchedBy == ByModelDefault && conflict.defaults == References([outcome.candidate]))
  {
    var cs := ProtocolCandidates(providers, protocol);
    NameMembers(cs, model);
    FilterMembers((c: Candidate) => Supports(c, protocol), providers);
    assert Owners(cs, model)[0] in Owners(cs, model);
    InvolvedDefaults(cs, protocol, model);
    AmbiguousNeedsDefault(providers, protocol, headers, model);
  }

  /** The candidates by name and those by prefix have the defaults of all that match. */
  lemma InvolvedDefaults(cs: seq<Candidate>, protocol: Protocol, model: string)
    requires NoManualModels(cs) && IsToken(model)
    ensures var listed, matched := Involved(cs, ExactVsPrefix, model), Matching(cs, Some(model));
      && |listed| == |matched|
      && |Defaults(listed, protocol)| == |Defaults(matched, protocol)|
      && (|Defaults(matched, protocol)| == 1 ==> Defaults(listed, protocol) == [Defaults(matched, protocol)[0]])
      && Defaults(listed, protocol)
         == Defaults(Owners(cs, model), protocol) + Defaults(PrefixMatched(cs, model), protocol)
  {
    var listed, matched := Involved(cs, ExactVsPrefix, model), Matching(cs, Some(model));
    ExactVsPrefixComplete(cs, model);
    PermutationLength(listed, matched);
    FilterPermutation((c: Candidate) => MarksDefault(c, protocol), listed, matched);
    FilterAppend((c: Candidate) => MarksDefault(c, protocol), Owners(cs, model), PrefixMatched(cs, model));
  }

  /**
   An exact-model conflict lists the owners of the name only, so its resolution agrees with selection
   unless defaults among the candidates that reach the name by prefix tip the balance. Where both find a default, it is
   the same one.
   */
  lemma ExactModelPredictsSelection(providers: seq<Candidate>, protocol: Protocol, headers: Headers, model: string)
    requires NoManualModels(providers) && Unhinted(headers)
    requires Warranted(ProtocolCandidates(providers, protocol), ExactModel, model)
    ensures var cs := ProtocolCandidates(providers, protocol);
            var byName := |Defaults(Owners(cs, model), protocol)|;
            var byPrefix := |Defaults(PrefixMatched(cs, model), protocol)|;
            var conflict := Expected(cs, protocol, ExactModel, model);
            var outcome := Select(providers, protocol, headers, Some(model));
            && ((conflict.defaultResolved <==> outcome.Selected?)
                <==> byPrefix == 0 || byName > 1 || (byName == 0 && byPrefix > 1))
            && (conflict.defaultResolved && outcome.Selected? ==>
                  outcome.matchedBy == ByModelDefault && conflict.defaults == References([outcome.candidate]))
  {
    hide Defaults, Filter, MarksDefault;
    var cs := ProtocolCandidates(providers, protocol);
    NameMembers(cs, model);
    FilterMembers((c: Candidate) => Supports(c, protocol), providers);
    assert Owners(cs, model)[0] in Owners(cs, model);
    InvolvedDefaults(cs, protocol, model);
    AmbiguousNeedsDefault(providers, protocol, headers, model);
  }

  // The analysis itself

  lemma SameKeySameConflict(cs: seq<Candidate>, protocol: Protocol, kind: Kind, token: string, kind': Kind,
                            token': string)
    requires KeyFor(Expected(cs, protocol, kind, token)) == KeyFor(Expected(cs, protocol, kind', token'))
    ensures kind == kind' && token == token'
  {
    var s, s' := SampleModel(kind, token), SampleModel(kind', token');
    assert s == s' && |s| == |s'|;
    if kind == PrefixOverlap {
      assert token == s[..|token|] && token' == s'[..|token'|];
    }
  }

  /** The conflicts recorded so far are the expected ones of the kinds and tokens in `noted`. */
  ghost predicate Recorded(cs: seq<Candidate>, protocol: Protocol, conflicts: map<ConflictKey, Conflict>,
                           noted: set<(Kind, string)>) {
    && (forall k :: k in conflicts ==>
          && k == KeyFor(conflicts[k])
          && (conflicts[k].kind, conflicts[k].token) in noted
          && conflicts[k] == Expected(cs, protocol, conflicts[k].kind, conflicts[k].token))
    && (forall n :: n in noted ==> KeyFor(Expected(cs, protocol, n.0, n.1)) in conflicts)
  }

  ghost function NotedWhen(noted: set<(Kind, string)>, kind: Kind, token: string, so: bool): set<(Kind, string)> {
    if so then noted + {(kind, token)} else noted
  }

  /** Records a conflict unless it involves a single provider. */
  method AddConflict(cs: seq<Candidate>, protocol: Protocol, conflicts: map<ConflictKey, Conflict>,
                     ghost noted: set<(Kind, string)>, kind: Kind, token: string)
    returns (conflicts': map<ConflictKey, Conflict>)
    requires Recorded(cs, protocol, conflicts, noted)
    ensures Recorded(cs, protocol, conflicts', NotedWhen(noted, kind, token, |Involved(cs, kind, token)| > 1))
  {
    conflicts' := conflicts;
    if |Involved(cs, kind, token)| > 1 {
      RecordedMore(cs, protocol, conflicts, noted, kind, token);
      var conflict := Expected(cs, protocol, kind, token);
      hide Recorded, Expected, KeyFor;
      conflicts' := conflicts[KeyFor(conflict) := conflict];
    }
  }

  lemma ExpectedIs(cs: seq<Candidate>, protocol: Protocol, kind: Kind, token: string)
    ensures Expected(cs, protocol, kind, token).kind == kind && Expected(cs, protocol, kind, token).token == token
  {
  }

  lemma RecordedMore(cs: seq<Candidate>, protocol: Protocol, conflicts: map<ConflictKey, Conflict>,
                     noted: set<(Kind, string)>, kind: Kind, token: string)
    requires Recorded(cs, protocol, conflicts, noted)
    ensures var conflict := Expected(cs, protocol, kind, token);
      Recorded(cs, protocol, conflicts[KeyFor(conflict) := conflict], noted + {(kind, token)})
  {
    hide Expected, KeyFor;
    ExpectedIs(cs, protocol, kind, token);
  }

  type OwnerTable = map<string, seq<Candidate>>

  function OwnersIn(owners: OwnerTable, name: string): seq<Candidate> {
    if name in owners then owners[name] else []
  }

  ghost predicate OwnersListed(cs: seq<Candidate>, owners: OwnerTable) {
    forall m :: OwnersIn(owners, m) == Owners(cs, m) && (m in owners <==> Owners(cs, m) != [])
  }

  lemma OwnersExtend(cs: seq<Candidate>, c: Candidate, m: string)
    ensures Owners(cs + [c], m) == Owners(cs, m) + if OwnsExact(c, m) then [c] else []
    ensures PrefixOwners(cs + [c], m) == PrefixOwners(cs, m) + if OwnsPrefix(c, m) then [c] else []
  {
    FilterAppend((c: Candidate) => OwnsExact(c, m), cs, [c]);
    FilterAppend((c: Candidate) => OwnsPrefix(c, m), cs, [c]);
  }

  lemma OwnersListedStep(cs: seq<Candidate>, c: Candidate, owners: OwnerTable, owners': OwnerTable)
    requires OwnersListed(cs, owners)
    requires forall m :: m in owners' <==> m in owners || m in Listed(c).exact
    requires forall m :: OwnersIn(owners', m) == OwnersIn(owners, m) + if m in Listed(c).exact then [c] else []
    ensures OwnersListed(cs + [c], owners')
  {
    forall m
      ensures OwnersIn(owners', m) == Owners(cs + [c], m) && (m in owners' <==> Owners(cs + [c], m) != [])
    {
      OwnersExtend(cs, c, m);
    }
  }

  /** The table of exact names and their owners, in order of appearance. */
  method CollectOwners(cs: seq<Candidate>) returns (owners: OwnerTable)
    ensures OwnersListed(cs, owners)
  {
    owners := map[];
    for i := 0 to |cs|
      invariant OwnersListed(cs[..i], owners)
    {
      assert cs[..i + 1] == cs[..i] + [cs[i]];
      var next := AddOwner(owners, cs[i], Listed(cs[i]).exact);
      OwnersListedStep(cs[..i], cs[i], owners, next);
      owners := next;
    }
    assert cs[..|cs|] == cs;
  }

  method AddOwner(owners: OwnerTable, c: Candidate, names: seq<string>) returns (owners': OwnerTable)
    requires forall i, j :: 0 <= i < j < |names| ==> names[i] != names[j]
    ensures forall m :: m in owners' <==> m in owners || m in names
    ensures forall m :: OwnersIn(owners', m) == OwnersIn(owners, m) + if m in names then [c] else []
  {
    owners' := owners;
    for i := 0 to |names|
      invariant forall m :: m in owners' <==> m in owners || m in names[..i]
      invariant forall m :: OwnersIn(owners', m) == OwnersIn(owners, m) + if m in names[..i] then [c] else []
    {
      assert names[i] !in names[..i];
      assert names[..i + 1] == names[..i] + [names[i]];
      owners' := owners'[names[i] := OwnersIn(owners', names[i]) + [c]];
    }
    assert names[..|names|] == names;
  }

  ghost predicate PrefixesListed(cs: seq<Candidate>, prefixes: set<string>) {
    forall t :: t in prefixes <==> PrefixOwners(cs, t) != []
  }

  lemma PrefixesListedStep(cs: seq<Candidate>, c: Candidate, prefixes: set<string>)
    requires PrefixesListed(cs, prefixes)
    ensures PrefixesListed(cs + [c], prefixes + set t | t in Listed(c).prefixes)
  {
    hide PrefixOwners, Owners, Listed, OwnsExact;
    var next := prefixes + set t | t in Listed(c).prefixes;
    forall t
      ensures t in next <==> PrefixOwners(cs + [c], t) != []
    {
      OwnersExtend(cs, c, t);
    }
  }

  method CollectPrefixes(cs: seq<Candidate>) returns (prefixes: set<string>)
    ensures PrefixesListed(cs, prefixes)
  {
    hide PrefixOwners, Listed;
    prefixes := {};
    NoPrefixes();
    for i := 0 to |cs|
      invariant PrefixesListed(cs[..i], prefixes)
    {
      assert cs[..i + 1] == cs[..i] + [cs[i]];
      PrefixesListedStep(cs[..i], cs[i], prefixes);
      prefixes := prefixes + set t | t in Listed(cs[i]).prefixes;
    }
    assert cs[..|cs|] == cs;
  }

  lemma NoPrefixes()
    ensures PrefixesListed([], {})
  {
  }

  /** Ambiguous conflicts before resolved ones, and exact names before prefixes. */
  function Rank(c: Conflict): nat {
    (if c.defaultResolved then 3 else 0)
        + match c.kind case ExactModel => 0 case ExactVsPrefix => 1 case PrefixOverlap => 2
  }

  predicate Ranked(s: seq<Conflict>) {
    forall i, j :: 0 <= i < j < |s| ==> Rank(s[i]) <= Rank(s[j])
  }

  function InsertRanked(c: Conflict, s: seq<Conflict>): (r: seq<Conflict>)
    requires Ranked(s)
    ensures Ranked(r) && |r| == |s| + 1
    ensures forall d :: d in r <==> d == c || d in s
  {
    if s == [] || Rank(c) < Rank(s[0]) then [c] + s
    else
      var rest := InsertRanked(c, s[1..]);
      assert s == [s[0]] + s[1..];
      assert forall d :: d in s[1..] ==> Rank(s[0]) <= Rank(d);
      assert forall j :: 0 <= j < |rest| ==> rest[j] in rest;
      [s[0]] + rest
  }

  lemma {:induction false} InsertDistinct(c: Conflict, s: seq<Conflict>)
    requires Ranked(s) && Distinct(s) && c !in s
    ensures Distinct(InsertRanked(c, s))
  {
    hide Rank;
    if s == [] || Rank(c) < Rank(s[0]) {
    } else {
      InsertDistinct(c, s[1..]);
      var rest := InsertRanked(c, s[1..]);
      assert s[0] !in s[1..] by {
        assert forall j :: 0 <= j < |s[1..]| ==> s[1..][j] == s[j + 1];
      }
      assert InsertRanked(c, s) == [s[0]] + rest;
    }
  }

  predicate Keyed(conflicts: map<ConflictKey, Conflict>) {
    forall k :: k in conflicts ==> k == KeyFor(conflicts[k])
  }

  method SortConflicts(conflicts: map<ConflictKey, Conflict>) returns (report: seq<Conflict>)
    ensures Ranked(report) && |report| == |conflicts|
    ensures Keyed(conflicts) ==> Distinct(report)
    ensures forall c :: c in report <==> exists k :: k in conflicts && conflicts[k] == c
  {
    hide Ranked, Rank, KeyFor;
    report := [];
    var todo := conflicts.Keys;
    NothingListed();
    while todo != {}
      invariant todo <= conflicts.Keys && Ranked(report) && |report| + |todo| == |conflicts|
      invariant Keyed(conflicts) ==> Distinct(report)
      invariant forall c :: c in report <==> exists k :: k in conflicts && k !in todo && conflicts[k] == c
      decreases |todo|
    {
      var k :| k in todo;
      if Distinct(report) && conflicts[k] !in report {
        InsertDistinct(conflicts[k], report);
      }
      report := InsertRanked(conflicts[k], report);
      todo := todo - {k};
    }
  }

  lemma NothingListed()
    ensures Ranked([]) && Distinct([])
  {
  }

  /** A single protocol candidate conflicts with nothing. */
  lemma AloneNoConflict(cs: seq<Candidate>, kind: Kind, token: string)
    requires |cs| <= 1
    ensures !Warranted(cs, kind, token)
  {
    NameMembers(cs, token);
    FilterMembers((c: Candidate) => OverlapsPrefix(c, token), cs);
    FilterMembers((c: Candidate) => OwnsExact(c, token), cs);
    assert Owners(cs, token) != [] ==> Owners(cs, token)[0] in Owners(cs, token);
    assert PrefixMatched(cs, token) != [] ==> PrefixMatched(cs, token)[0] in PrefixMatched(cs, token);
  }

  method AnalyzeConflicts(providers: seq<Candidate>, protocol: Protocol) returns (report: seq<Conflict>)
    requires DistinctIds(providers)
    ensures Ranked(report) && IsReport(ProtocolCandidates(providers, protocol), protocol, report)
    ensures NoManualModels(providers) ==>
              (report == [] <==> !exists model :: |Matching(ProtocolCandidates(providers, protocol), Some(model))| > 1)
  {
    var cs := ProtocolCandidates(providers, protocol);
    if |cs| <= 1 {
      forall kind, token
        ensures !Warranted(cs, kind, token)
      {
        AloneNoConflict(cs, kind, token);
      }
      report := [];
    } else {
      var owners := CollectOwners(cs);
      var prefixes := CollectPrefixes(cs);
      var conflicts := AnalyzeNames(cs, protocol, owners);
      conflicts := AnalyzePrefixes(cs, protocol, prefixes, conflicts, NotedNames(cs, owners.Keys));
      report := SortConflicts(conflicts);
      NotedAll(cs, owners, prefixes);
      ReportComplete(cs, protocol, conflicts, NotedNames(cs, owners.Keys) + NotedPrefixes(cs, prefixes), report);
    }
    if NoManualModels(providers) {
      AnalysisExact(providers, protocol, report);
    }
  }

  /** The exact names of a set that warrant a conflict, with its kind. */
  ghost function NotedNames(cs: seq<Candidate>, names: set<string>): set<(Kind, string)> {
    (set t | t in names && Warranted(cs, ExactModel, t) :: (ExactModel, t))
    + (set t | t in names && Warranted(cs, ExactVsPrefix, t) :: (ExactVsPrefix, t))
  }

  ghost function NotedPrefixes(cs: seq<Candidate>, prefixes: set<string>): set<(Kind, string)> {
    set t | t in prefixes && Warranted(cs, PrefixOverlap, t) :: (PrefixOverlap, t)
  }

  /** Only names that someone owns, and only prefixes that someone owns, can warrant a conflict. */
  lemma NotedAll(cs: seq<Candidate>, owners: OwnerTable, prefixes: set<string>)
    requires OwnersListed(cs, owners)
    requires PrefixesListed(cs, prefixes)
    ensures forall kind, token ::
             (kind, token) in NotedNames(cs, owners.Keys) + NotedPrefixes(cs, prefixes) <==> Warranted(cs, kind, token)
  {
    forall kind, token
      ensures (kind, token) in NotedNames(cs, owners.Keys) + NotedPrefixes(cs, prefixes) <==> Warranted(cs, kind, token)
    {
      hide Warranted, Owners, PrefixOwners;
      assert token in owners <==> Owners(cs, token) != [];
      WarrantedOwned(cs, kind, token);
    }
  }

  lemma WarrantedOwned(cs: seq<Candidate>, kind: Kind, token: string)
    ensures Warranted(cs, kind, token)
        ==> if kind == PrefixOverlap then PrefixOwners(cs, token) != [] else Owners(cs, token) != []
  {
  }

  lemma ReportComplete(cs: seq<Candidate>, protocol: Protocol, conflicts: map<ConflictKey, Conflict>,
                       noted: set<(Kind, string)>, report: seq<Conflict>)
    requires Recorded(cs, protocol, conflicts, noted)
    requires forall kind, token :: (kind, token) in noted <==> Warranted(cs, kind, token)
    requires forall c :: c in report <==> exists k :: k in conflicts && conflicts[k] == c
    requires Keyed(conflicts) ==> Distinct(report)
    ensures IsReport(cs, protocol, report)
  {
    forall kind, token | Warranted(cs, kind, token)
      ensures Expected(cs, protocol, kind, token) in report
    {
      var n := (kind, token);
      assert n in noted;
      var k := KeyFor(Expected(cs, protocol, n.0, n.1));
      SameKeySameConflict(cs, protocol, kind, token, conflicts[k].kind, conflicts[k].token);
      assert conflicts[k] in report;
    }
    forall c | c in report
      ensures Warranted(cs, c.kind, c.token) && c == Expected(cs, protocol, c.kind, c.token)
    {
    }
  }

  /** The two checks on one exact name. */
  method AnalyzeName(cs: seq<Candidate>, protocol: Protocol, owners: seq<Candidate>, name: string,
                     conflicts: map<ConflictKey, Conflict>, ghost noted: set<(Kind, string)>)
    returns (conflicts': map<ConflictKey, Conflict>)
    requires owners == Owners(cs, name) != []
    requires Recorded(cs, protocol, conflicts, noted)
    ensures Recorded(cs, protocol, conflicts', noted + NotedNames(cs, {name}))
  {
    hide Recorded, Expected, NotedNames, Warranted, Owners, PrefixMatched;
    conflicts' := conflicts;
    ghost var so := noted;
    if |owners| > 1 {
      conflicts' := AddConflict(cs, protocol, conflicts', so, ExactModel, name);
      so := so + {(ExactModel, name)};
    }
    if PrefixMatched(cs, name) != [] {
      assert |Involved(cs, ExactVsPrefix, name)| > 1;
      conflicts' := AddConflict(cs, protocol, conflicts', so, ExactVsPrefix, name);
      so := so + {(ExactVsPrefix, name)};
    }
    NotedOne(cs, name);
    assert so == noted + NotedNames(cs, {name});
  }

  lemma NotedOne(cs: seq<Candidate>, name: string)
    requires Owners(cs, name) != []
    ensures NotedNames(cs, {name})
         == (if |Owners(cs, name)| > 1 then {(ExactModel, name)} else {})
            + if PrefixMatched(cs, name) != [] then {(ExactVsPrefix, name)} else {}
  {
  }

  method AnalyzeNames(cs: seq<Candidate>, protocol: Protocol, owners: OwnerTable)
    returns (conflicts: map<ConflictKey, Conflict>)
    requires OwnersListed(cs, owners)
    ensures Recorded(cs, protocol, conflicts, NotedNames(cs, owners.Keys))
  {
    hide Recorded, NotedNames;
    conflicts := map[];
    var todo := owners.Keys;
    NothingRecorded(cs, protocol);
    NoNames(cs, owners.Keys - todo);
    while todo != {}
      invariant todo <= owners.Keys && Recorded(cs, protocol, conflicts, NotedNames(cs, owners.Keys - todo))
      decreases |todo|
    {
      var name :| name in todo;
      assert OwnersIn(owners, name) == owners[name];
      conflicts := AnalyzeName(cs, protocol, owners[name], name, conflicts, NotedNames(cs, owners.Keys - todo));
      MoreNames(cs, owners.Keys - todo, name);
      assert owners.Keys - (todo - {name}) == owners.Keys - todo + {name};
      todo := todo - {name};
    }
    assert owners.Keys - todo == owners.Keys;
  }

  lemma NoNames(cs: seq<Candidate>, names: set<string>)
    requires names == {}
    ensures NotedNames(cs, names) == {}
  {
  }

  lemma MoreNames(cs: seq<Candidate>, names: set<string>, name: string)
    ensures NotedNames(cs, names + {name}) == NotedNames(cs, names) + NotedNames(cs, {name})
  {
    hide Warranted;
  }

  lemma NothingRecorded(cs: seq<Candidate>, protocol: Protocol)
    ensures Recorded(cs, protocol, map[], {})
  {
  }

  method AnalyzePrefixes(cs: seq<Candidate>, protocol: Protocol, prefixes: set<string>,
                         conflicts: map<ConflictKey, Conflict>, ghost noted: set<(Kind, string)>)
    returns (conflicts': map<ConflictKey, Conflict>)
    requires PrefixesListed(cs, prefixes)
    requires Recorded(cs, protocol, conflicts, noted)
    ensures Recorded(cs, protocol, conflicts', noted + NotedPrefixes(cs, prefixes))
  {
    hide Recorded, Warranted, Expected;
    conflicts' := conflicts;
    var todo := prefixes;
    assert noted + NotedPrefixes(cs, prefixes - todo) == noted;
    while todo != {}
      invariant todo <= prefixes && Recorded(cs, protocol, conflicts', noted + NotedPrefixes(cs, prefixes - todo))
      decreases |todo|
    {
      var token :| token in todo;
      conflicts' := AnalyzePrefix(cs, protocol, token, conflicts', noted + NotedPrefixes(cs, prefixes - todo));
      assert noted + NotedPrefixes(cs, prefixes - todo) + NotedPrefixes(cs, {token})
          == noted + NotedPrefixes(cs, prefixes - (todo - {token}));
      todo := todo - {token};
    }
    assert prefixes - todo == prefixes;
  }

  method AnalyzePrefix(cs: seq<Candidate>, protocol: Protocol, token: string, conflicts: map<ConflictKey, Conflict>,
                       ghost noted: set<(Kind, string)>)
    returns (conflicts': map<ConflictKey, Conflict>)
    requires PrefixOwners(cs, token) != []
    requires Recorded(cs, protocol, conflicts, noted)
    ensures Recorded(cs, protocol, conflicts', noted + NotedPrefixes(cs, {token}))
  {
    hide Recorded, Expected;
    conflicts' := conflicts;
    ghost var so := noted;
    if |PrefixOwners(cs, token)| > 1 || exists i :: 0 <= i < |cs| && HasBroaderPrefix(cs[i], token) {
      conflicts' := AddConflict(cs, protocol, conflicts', noted, PrefixOverlap, token);
      so := NotedWhen(noted, PrefixOverlap, token, |Involved(cs, PrefixOverlap, token)| > 1);
    }
    assert so == noted + NotedPrefixes(cs, {token});
  }
}

/** Three providers whose exact-model conflict is resolved differently from a request. */
module ConflictExample {
  import opened Shared
  import opened Text
  import opened Filtering
  import opened Targets
  import opened Selection
  import opened Conflicts

  const MODEL := "m"

  /** A provider that serves the model, by name or by prefix. */
  function Provider(id: string, byName: bool, marked: bool): Candidate {
    var targets := map[if byName then "models" else "modelPrefixes" := MODEL];
    Candidate(id, id, OpenAi, if marked then targets["protocol" := "all"] else targets, [], None, {}, false)
  }

  function Providers(marked: bool): seq<Candidate> {
    [Provider("a", true, marked), Provider("b", true, false), Provider("c", false, true)]
  }

  /** A text that is a single token. */
  predicate Word(t: string) {
    IsToken(t) && ',' !in t && '\n' !in t
  }

  lemma {:induction false} WordPieces(t: string)
    requires ',' !in t && '\n' !in t
    ensures Pieces(t) == [t]
  {
    if t == "" {
    } else {
      WordPieces(t[1..]);
      assert [t[0]] + t[1..] == t;
    }
  }

  predicate WithoutText(value: Option<string>) {
    value.None? || value.value == ""
  }

  lemma {:induction false} NoTokens(values: seq<Option<string>>)
    requires forall i :: 0 <= i < |values| ==> WithoutText(values[i])
    ensures TokensOf(values) == [] && CollectTokens(values) == []
  {
    if values == [] {
    } else {
      NoTokens(values[1..]);
    }
  }

  lemma {:induction false} OneToken(values: seq<Option<string>>, k: nat, t: string)
    requires k < |values| && values[k] == Some(t) && Word(t)
    requires forall i :: 0 <= i < |values| && i != k ==> WithoutText(values[i])
    ensures TokensOf(values) == [t] && CollectTokens(values) == [t]
  {
    if k > 0 {
      OneToken(values[1..], k - 1, t);
    } else {
      NoTokens(values[1..]);
      WordPieces(t);
      NormalFixed(t);
      assert NormalTokens(Pieces(t)[1..]) == [];
    }
    assert Dedupe([t]) == [t];
  }

  lemma Keys()
    ensures "models" !in {"defaultModels", "routing.models", "modelPrefixes", "defaultModelPrefixes",
                          "routing.modelPrefixes", "defaultForProtocol", "gatewayProtocol", "protocol", "protocols"}
    ensures "modelPrefixes" !in {"defaultModels", "routing.models", "defaultModelPrefixes", "routing.modelPrefixes",
                                 "defaultForProtocol", "gatewayProtocol", "protocol", "protocols"}
    ensures "protocol" !in {"defaultModels", "routing.models", "defaultModelPrefixes", "routing.modelPrefixes",
                            "defaultForProtocol", "gatewayProtocol", "protocols"}
  {
    assert |"models"| == 6 && |"protocol"| == 8 && |"protocols"| == 9 && |"modelPrefixes"| == 13;
    assert "modelPrefixes"[0] == 'm' && "defaultModels"[0] == 'd';
  }

  lemma ServesTargets(id: string, byName: bool, marked: bool)
    ensures Listed(Provider(id, byName, marked))
         == if byName then TargetSet([MODEL], []) else TargetSet([], [MODEL])
  {
    hide CollectTokens, Dedupe;
    Keys();
    var m := Provider(id, byName, marked).metadata;
    var names := [Lookup(m, "models"), Lookup(m, "defaultModels"), Lookup(m, "routing.models"), Some(""), Some("")];
    var prefixes := [Lookup(m, "modelPrefixes"), Lookup(m, "defaultModelPrefixes"), Lookup(m, "routing.modelPrefixes")];
    NothingConfigured(Provider(id, byName, marked));
    if byName {
      OneToken(names, 0, MODEL);
      NoTokens(prefixes);
    } else {
      NoTokens(names);
      OneToken(prefixes, 0, MODEL);
    }
  }

  lemma NothingConfigured(c: Candidate)
    requires c.configuredModels == [] && c.pricing == None
    ensures Join(Dedupe(NormalTokens(c.configuredModels))) == "" && Join(ManualModelIds(None)) == ""
    ensures !HasManualModels(c)
  {
  }

  lemma ServesByDefault(id: string, byName: bool, marked: bool)
    ensures MarksDefault(Provider(id, byName, marked), OpenAiProtocol) <==> marked
  {
    hide CollectTokens;
    Keys();
    var m := Provider(id, byName, marked).metadata;
    var marks := [Lookup(m, "defaultForProtocol"), Lookup(m, "gatewayProtocol"), Lookup(m, "protocol"),
                  Lookup(m, "protocols")];
    if marked {
      OneToken(marks, 2, "all");
    } else {
      NoTokens(marks);
    }
  }

  /** What counts about one of the providers. */
  lemma Serves(id: string, byName: bool, marked: bool)
    ensures var c := Provider(id, byName, marked);
      && (OwnsExact(c, MODEL) <==> byName) && (PrefixOnly(c, MODEL) <==> !byName)
      && (MarksDefault(c, OpenAiProtocol) <==> marked)
      && !HasManualModels(c) && Supports(c, OpenAiProtocol)
  {
    hide Listed, MarksDefault;
    ServesTargets(id, byName, marked);
    ServesByDefault(id, byName, marked);
    NothingConfigured(Provider(id, byName, marked));
    assert MODEL <= MODEL && TargetSet([], [MODEL]).prefixes[0] == MODEL;
  }

  /**
   With a default among the owners and another by prefix, the conflict counts as resolved and the request is refused;
   with the one by prefix alone, it is the other way around.
   */
  lemma ResolutionDiffers(marked: bool, headers: Headers)
    requires Unhinted(headers)
    ensures var cs := ProtocolCandidates(Providers(marked), OpenAiProtocol);
      && Warranted(cs, ExactModel, MODEL)
      && (Expected(cs, OpenAiProtocol, ExactModel, MODEL).defaultResolved <==> marked)
      && (Select(Providers(marked), OpenAiProtocol, headers, Some(MODEL)).Selected? <==> !marked)
  {
    hide Provider, Filter, OwnsExact, PrefixOnly, MarksDefault, Supports, HasManualModels, Select;
    Serves("a", true, marked);
    Serves("b", true, false);
    Serves("c", false, true);
    var a, b, c := Provider("a", true, marked), Provider("b", true, false), Provider("c", false, true);
    var cs := ProtocolCandidates(Providers(marked), OpenAiProtocol);
    Kept((c: Candidate) => Supports(c, OpenAiProtocol), a, b, c);
    assert cs == [a, b, c];
    Kept((c: Candidate) => OwnsExact(c, MODEL), a, b, c);
    assert Owners(cs, MODEL) == [a, b];
    Kept((c: Candidate) => PrefixOnly(c, MODEL), a, b, c);
    assert PrefixMatched(cs, MODEL) == [c];
    KeptOne((c: Candidate) => MarksDefault(c, OpenAiProtocol), c);
    KeptTwo((c: Candidate) => MarksDefault(c, OpenAiProtocol), a, b);
    ExactModelPredictsSelection(Providers(marked), OpenAiProtocol, headers, MODEL);
  }

  lemma KeptOne(p: Candidate -> bool, a: Candidate)
    ensures Filter(p, [a]) == if p(a) then [a] else []
  {
  }

  lemma KeptTwo(p: Candidate -> bool, a: Candidate, b: Candidate)
    ensures Filter(p, [a, b]) == (if p(a) then [a] else []) + (if p(b) then [b] else [])
  {
    KeptOne(p, b);
    assert [a, b][1..] == [b];
  }

  lemma Kept(p: Candidate -> bool, a: Candidate, b: Candidate, c: Candidate)
    ensures Filter(p, [a, b, c])
         == (if p(a) then [a] else []) + (if p(b) then [b] else []) + (if p(c) then [c] else [])
  {
    KeptTwo(p, b, c);
    assert [a, b, c][1..] == [b, c];
  }
}

/** The keys by which repeated budget alerts are recognised. */
module AlertKeys {
  import opened Shared
  import Text

  datatype Kind = SoftLimit | HardLimit | PreflightBlock | PricingUnavailable

  datatype Result = Key(key: string) | MissingSegment

  function KindName(kind: Kind): string {
    match kind
    case SoftLimit => "soft-limit"
    case HardLimit => "hard-limit"
    case PreflightBlock => "preflight-block"
    case PricingUnavailable => "pricing-unavailable"
  }

  /** A segment that is there and not blank. */
  predicate Given(segment: Option<string>) {
    segment.Some? && segment.value != ""
  }

  datatype Args = Args(policy: string, kind: Kind, period: Option<string>, provider: Option<string>,
                       model: Option<string>)

  /** Two segments with the separator between them. */
  function Join(head: string, tail: string): string {
    head + ":" + tail
  }

  function Prefixed(policy: string, kind: Kind, rest: string): string {
    Join("budget", Join(policy, Join(KindName(kind), rest)))
  }

  function BuildKey(args: Args): Result {
    match args.kind
    case PricingUnavailable =>
      if !Given(args.provider) || !Given(args.model) then MissingSegment
      else Key(Prefixed(args.policy, args.kind,
                        Join(Text.Normalize(args.provider.value), Text.Normalize(args.model.value))))
    case PreflightBlock =>
      if !Given(args.period) || !Given(args.model) then MissingSegment
      else Key(Prefixed(args.policy, args.kind, Join(args.period.value, Text.Normalize(args.model.value))))
    case _ =>
      if !Given(args.period) then MissingSegment
      else Key(Prefixed(args.policy, args.kind, args.period.value))
  }

  /** The key of a limit's alert in a period. */
  function LimitKey(policy: string, hard: bool, period: string): string {
    Prefixed(policy, if hard then HardLimit else SoftLimit, period)
  }

  /** The keys that demo seeds gave to the same alerts. */
  function SeedKey(policy: string, hard: bool, period: string): string {
    Join("seed", Join(policy, Join(if hard then "hard" else "soft", period)))
  }

  predicate Plain(segment: string) {
    ':' !in segment
  }

  lemma JoinInjective(a: string, x: string, b: string, y: string)
    requires Plain(a) && Plain(b)
    ensures Join(a, x) == Join(b, y) <==> a == b && x == y
  {
    if Join(a, x) == Join(b, y) {
      var k := Join(a, x);
      assert k[|a|] == ':' && k[|b|] == ':';
      assert forall i :: 0 <= i < |a| ==> k[i] == a[i] != ':';
      assert forall i :: 0 <= i < |b| ==> k[i] == b[i] != ':';
      assert k[..|a|] == a && k[..|b|] == b;
      assert k[|a| + 1..] == x && k[|b| + 1..] == y;
    }
  }

  lemma KindNames(a: Kind, b: Kind)
    ensures Plain(KindName(a))
    ensures KindName(a) == KindName(b) <==> a == b
  {
    assert KindName(a)[0] == 's' || KindName(a)[0] == 'h' || KindName(a)[1] == 'r';
    assert |KindName(PreflightBlock)| == 15 && |KindName(PricingUnavailable)| == 19;
  }

  lemma PrefixedInjective(p: string, a: Kind, x: string, q: string, b: Kind, y: string)
    requires Plain(p) && Plain(q)
    ensures Prefixed(p, a, x) == Prefixed(q, b, y) <==> p == q && a == b && x == y
  {
    hide Join, KindName;
    KindNames(a, b);
    KindNames(b, a);
    JoinInjective("budget", Join(p, Join(KindName(a), x)), "budget", Join(q, Join(KindName(b), y)));
    JoinInjective(p, Join(KindName(a), x), q, Join(KindName(b), y));
    JoinInjective(KindName(a), x, KindName(b), y);
  }

  /** The parts of an alert's identity that its kind uses, with provider and model normalised. */
  function Identity(args: Args): (string, Kind, string, string) {
    match args.kind
    case PricingUnavailable =>
      (args.policy, args.kind, if Given(args.provider) then Text.Normalize(args.provider.value) else "",
       if Given(args.model) then Text.Normalize(args.model.value) else "")
    case PreflightBlock =>
      (args.policy, args.kind, if Given(args.period) then args.period.value else "",
       if Given(args.model) then Text.Normalize(args.model.value) else "")
    case _ => (args.policy, args.kind, if Given(args.period) then args.period.value else "", "")
  }

  /** Policy ids, periods and providers have no colon; models may. */
  predicate PlainArgs(args: Args) {
    && Plain(args.policy)
    && (args.period.Some? ==> Plain(args.period.value))
    && (args.provider.Some? ==> Plain(Text.Normalize(args.provider.value)))
  }

  /** Keys are equal exactly for the same kind of alert of the same policy, up to the case of provider and model. */
  lemma KeysIdentify(a: Args, b: Args)
    requires PlainArgs(a) && PlainArgs(b)
    requires BuildKey(a).Key? && BuildKey(b).Key?
    ensures BuildKey(a) == BuildKey(b) <==> Identity(a) == Identity(b)
  {
    hide Join, Prefixed, Text.Normalize;
    var x, y := BuildKey(a), BuildKey(b);
    match a.kind
    case PricingUnavailable =>
      var m, n := Text.Normalize(a.provider.value), Text.Normalize(a.model.value);
      KeyTails(a, Join(m, n), b);
      if b.kind == PricingUnavailable {
        JoinInjective(m, n, Text.Normalize(b.provider.value), Text.Normalize(b.model.value));
      }
    case PreflightBlock =>
      var m, n := a.period.value, Text.Normalize(a.model.value);
      KeyTails(a, Join(m, n), b);
      if b.kind == PreflightBlock {
        JoinInjective(m, n, b.period.value, Text.Normalize(b.model.value));
      }
    case _ =>
      KeyTails(a, a.period.value, b);
  }

  function Tail(args: Args): string {
    match args.kind
    case PricingUnavailable =>
      if !Given(args.provider) || !Given(args.model) then ""
      else Join(Text.Normalize(args.provider.value), Text.Normalize(args.model.value))
    case PreflightBlock =>
      if !Given(args.period) || !Given(args.model) then ""
      else Join(args.period.value, Text.Normalize(args.model.value))
    case _ => if !Given(args.period) then "" else args.period.value
  }

  lemma KeyTails(a: Args, tail: string, b: Args)
    requires PlainArgs(a) && PlainArgs(b) && tail == Tail(a)
    requires BuildKey(a).Key? && BuildKey(b).Key?
    ensures BuildKey(a) == BuildKey(b) <==> a.policy == b.policy && a.kind == b.kind && tail == Tail(b)
  {
    hide Join, Text.Normalize;
    PrefixedInjective(a.policy, a.kind, Tail(a), b.policy, b.kind, Tail(b));
  }

  /** A key cannot be built exactly when a segment that its kind needs is missing. */
  lemma KeyMissing(args: Args)
    ensures BuildKey(args).MissingSegment?
        <==> (args.kind == PricingUnavailable && !Given(args.provider))
             || (args.kind in {PricingUnavailable, PreflightBlock} && !Given(args.model))
             || (args.kind != PricingUnavailable && !Given(args.period))
  {
  }

  /** A limit's keys are equal only for the same policy, limit and period, and never equal a seed's key. */
  lemma LimitKeysDiffer(p: string, a: bool, x: string, q: string, b: bool, y: string)
    requires Plain(p) && Plain(q)
    ensures LimitKey(p, a, x) == LimitKey(q, b, y) <==> p == q && a == b && x == y
    ensures LimitKey(p, a, x) != SeedKey(q, b, y)
    ensures LimitKey(p, a, x) != "" && SeedKey(p, a, x) != ""
  {
    PrefixedInjective(p, if a then HardLimit else SoftLimit, x, q, if b then HardLimit else SoftLimit, y);
    assert LimitKey(p, a, x)[0] == 'b' && SeedKey(q, b, y)[0] == 's';
  }

  lemma SeedKeysDiffer(p: string, a: bool, x: string, q: string, b: bool, y: string)
    requires Plain(p) && Plain(q)
    ensures SeedKey(p, a, x) == SeedKey(q, b, y) <==> p == q && a == b && x == y
  {
    hide Join;
    JoinInjective("seed", Join(p, Join(if a then "hard" else "soft", x)), "seed",
                  Join(q, Join(if b then "hard" else "soft", y)));
    JoinInjective(p, Join(if a then "hard" else "soft", x), q, Join(if b then "hard" else "soft", y));
    JoinInjective(if a then "hard" else "soft", x, if b then "hard" else "soft", y);
    assert "hard"[0] != "soft"[0];
  }
}

/** The table of alerts, and how budget alerts open and resolve in it. */
module AlertTables {
  import opened Shared
  import opened AlertKeys
  import Budgets
  import Calendar

  datatype Value = Text(text: string) | Number(number: int) | Other

  type Metadata = map<string, Value>

  datatype Alert = Alert(
    workspaceId: string, severity: string, code: string, open: bool, resolvedAt: Option<int>,
    dedupeKey: Option<string>, metadata: Metadata)

  datatype Input = Input(
    workspaceId: string, severity: string, code: string, dedupeKey: Option<string>, metadata: Metadata)

  type Rows = map<nat, Alert>

  function TextOf(metadata: Metadata, key: string): Option<string> {
    if key in metadata && metadata[key].Text? then Some(metadata[key].text) else None
  }

  function NumberOf(metadata: Metadata, key: string): Option<int> {
    if key in metadata && metadata[key].Number? then Some(metadata[key].number) else None
  }

  function LimitCode(hard: bool): string {
    if hard then "budget.hard-limit" else "budget.soft-limit"
  }

  function Enriched(input: Input): Metadata {
    if Given(input.dedupeKey) then input.metadata["dedupeKey" := Text(input.dedupeKey.value)] else input.metadata
  }

  /** A metadata text, trimmed, when it is not blank. */
  function TrimmedText(metadata: Metadata, key: string): Option<string> {
    var text := TextOf(metadata, key);
    if text.Some? && Trim(text.value) != "" then Some(Trim(text.value)) else None
  }

  function Trim(s: string): string {
    AlertKeys.Text.Trim(s)
  }

  /** The seed key under which an alert like this may have been stored before. */
  function LegacyKey(input: Input): Option<string> {
    var policy, period := TrimmedText(Enriched(input), "budgetPolicyId"), TrimmedText(Enriched(input), "periodKey");
    if policy.None? || period.None? then None
    else if input.code == LimitCode(false) then Some(SeedKey(policy.value, false, period.value))
    else if input.code == LimitCode(true) then Some(SeedKey(policy.value, true, period.value))
    else None
  }

  function Resolved(alert: Alert, now: int): Alert {
    alert.(open := false, resolvedAt := Some(if alert.resolvedAt.Some? then alert.resolvedAt.value else now))
  }

  function Superseded(alert: Alert, key: string, now: int): Alert {
    Resolved(alert, now).(metadata := alert.metadata["supersededByDedupeKey" := Text(key)]["supersededAt" := Other])
  }

  /** An alert after it has been opened again by an input; it keeps its workspace. */
  function Reopened(alert: Alert, input: Input): Alert {
    Alert(alert.workspaceId, input.severity, input.code, true, None, input.dedupeKey, alert.metadata + Enriched(input))
  }

  function Inserted(input: Input): Alert {
    Alert(input.workspaceId, input.severity, input.code, true, None, input.dedupeKey, Enriched(input))
  }

  predicate HasKey(rows: Rows, id: nat, key: string) {
    id in rows && rows[id].dedupeKey == Some(key)
  }

  predicate Present(rows: Rows, key: string) {
    exists id :: id in rows && HasKey(rows, id, key)
  }

  /** An open alert has this key. */
  predicate KeyOpen(rows: Rows, key: string) {
    exists id :: id in rows && HasKey(rows, id, key) && rows[id].open
  }

  predicate UniqueKeys(rows: Rows) {
    forall i, j :: i in rows && j in rows && i != j && rows[i].dedupeKey.Some?
        ==> rows[i].dedupeKey != rows[j].dedupeKey
  }

  predicate OpenIffUnresolved(rows: Rows) {
    forall i :: i in rows ==> (rows[i].open <==> rows[i].resolvedAt.None?)
  }

  predicate About(metadata: Metadata, policy: string, period: string) {
    TextOf(metadata, "budgetPolicyId") == Some(policy) && TextOf(metadata, "periodKey") == Some(period)
  }

  /** A policy id as ids are: without colons and surrounding space. */
  predicate Proper(policy: string) {
    Plain(policy) && Trim(policy) == policy && policy != ""
  }

  /** What the key of a limit says about a row or an input. Home gives the workspace of each policy. */
  ghost predicate Consistent(workspaceId: string, code: string, dedupeKey: Option<string>, metadata: Metadata,
                             home: string -> string) {
    forall policy: string, hard: bool, period: string ::
      Proper(policy) && dedupeKey == Some(LimitKey(policy, hard, period)) ==>
        workspaceId == home(policy) && code == LimitCode(hard) && About(metadata, policy, period)
  }

  /** A row under a seed key is in the workspace of its policy. */
  ghost predicate SeedAtHome(alert: Alert, home: string -> string) {
    forall policy: string, hard: bool, period: string ::
      Proper(policy) && alert.dedupeKey == Some(SeedKey(policy, hard, period)) ==> alert.workspaceId == home(policy)
  }

  ghost predicate ConsistentAlert(alert: Alert, home: string -> string) {
    Consistent(alert.workspaceId, alert.code, alert.dedupeKey, alert.metadata, home) && SeedAtHome(alert, home)
  }

  ghost predicate ConsistentRows(rows: Rows, home: string -> string) {
    forall i :: i in rows ==> ConsistentAlert(rows[i], home)
  }

  /**
   * An input whose key, if it is a limit's key, belongs to the policy and period of its metadata, and is no seed key.
   */
  ghost predicate ConsistentInput(input: Input, home: string -> string) {
    && Consistent(input.workspaceId, input.code, input.dedupeKey, input.metadata, home)
    && forall policy: string, hard: bool, period: string :: input.dedupeKey != Some(SeedKey(policy, hard, period))
  }

  predicate SoundRows(rows: Rows) {
    UniqueKeys(rows) && OpenIffUnresolved(rows)
  }

  /** One alert more, or in the place of another, that has no other's key. */
  lemma SoundAfter(rows: Rows, id: nat, alert: Alert)
    requires SoundRows(rows)
    requires alert.open <==> alert.resolvedAt.None?
    requires alert.dedupeKey.Some? ==> forall j :: j in rows && j != id ==> rows[j].dedupeKey != alert.dedupeKey
    ensures SoundRows(rows[id := alert])
  {
  }

  lemma ConsistentAfter(rows: Rows, home: string -> string, id: nat, alert: Alert)
    requires ConsistentRows(rows, home) && ConsistentAlert(alert, home)
    ensures ConsistentRows(rows[id := alert], home)
  {
    hide ConsistentAlert;
  }

  lemma ChangedConsistent(before: Alert, after: Alert, home: string -> string)
    requires ConsistentAlert(before, home)
    requires after.workspaceId == before.workspaceId && after.code == before.code && after.dedupeKey == before.dedupeKey
    requires TextOf(after.metadata, "budgetPolicyId") == TextOf(before.metadata, "budgetPolicyId")
    requires TextOf(after.metadata, "periodKey") == TextOf(before.metadata, "periodKey")
    ensures ConsistentAlert(after, home)
  {
    hide LimitKey, SeedKey, LimitCode, TextOf;
  }

  /** An input opens the row with its own key. */
  lemma ReopenedConsistent(alert: Alert, input: Input, home: string -> string)
    requires ConsistentAlert(alert, home) && ConsistentInput(input, home)
    requires alert.dedupeKey == input.dedupeKey
    ensures ConsistentAlert(Reopened(alert, input), home)
  {
    hide LimitKey, SeedKey, LimitCode;
    EnrichedTexts(input);
  }

  lemma EnrichedTexts(input: Input)
    ensures TextOf(Enriched(input), "budgetPolicyId") == TextOf(input.metadata, "budgetPolicyId")
    ensures TextOf(Enriched(input), "periodKey") == TextOf(input.metadata, "periodKey")
  {
    assert "dedupeKey"[0] == 'd' && "budgetPolicyId"[0] == 'b' && "periodKey"[0] == 'p';
  }

  /** An input opens the row with the seed key of its alert. */
  lemma CanonicalConsistent(alert: Alert, input: Input, home: string -> string)
    requires ConsistentAlert(alert, home) && ConsistentInput(input, home)
    requires LegacyKey(input).Some? && alert.dedupeKey == LegacyKey(input)
    ensures ConsistentAlert(Reopened(alert, input), home)
  {
    hide LimitKey, SeedKey;
    EnrichedTexts(input);
    forall policy: string, hard: bool, period: string |
      Proper(policy) && input.dedupeKey == Some(LimitKey(policy, hard, period))
      ensures alert.workspaceId == home(policy)
    {
      assert About(input.metadata, policy, period);
      assert TrimmedText(Enriched(input), "budgetPolicyId") == Some(policy);
      var p := TrimmedText(Enriched(input), "periodKey");
      assert alert.dedupeKey == Some(SeedKey(policy, false, p.value))
          || alert.dedupeKey == Some(SeedKey(policy, true, p.value));
    }
  }

  lemma InsertedConsistent(input: Input, home: string -> string)
    requires ConsistentInput(input, home)
    ensures ConsistentAlert(Inserted(input), home)
  {
    hide LimitKey, SeedKey, LimitCode;
    EnrichedTexts(input);
  }

  /** A policy's summary in the current period decides whether an open alert of the policy is out of date. */
  predicate ShouldResolve(alert: Alert, summary: Budgets.Summary, period: string) {
    var ownPeriod := TextOf(alert.metadata, "periodKey");
    if Given(ownPeriod) && ownPeriod.value != period then true
    else if alert.code == LimitCode(false) then !summary.softLimitReached
    else if alert.code == LimitCode(true) then !summary.hardLimitReached
    else if alert.code == "budget.preflight-block" then
      var estimate := NumberOf(alert.metadata, "estimatedCostUsd");
      summary.hardLimitReached || summary.remaining == 0 || (estimate.Some? && estimate.value <= summary.remaining)
    else false
  }

  /** The open alerts that a sync of a policy looks at. */
  predicate Listed(alert: Alert, policy: string, summary: Option<Budgets.Summary>) {
    && alert.open
    && (summary.Some? && summary.value.policy.workspaceId != ""
        ==> alert.workspaceId == summary.value.policy.workspaceId)
    && (policy != "" ==> TextOf(alert.metadata, "budgetPolicyId") == Some(policy))
  }

  /** A policy that is gone or not active resolves all its alerts. */
  predicate Stale(alert: Alert, summary: Option<Budgets.Summary>, period: string) {
    summary.None? || !summary.value.policy.active || ShouldResolve(alert, summary.value, period)
  }

  predicate OutOfDate(alert: Alert, policy: string, summary: Option<Budgets.Summary>, period: string) {
    Listed(alert, policy, summary) && Stale(alert, summary, period)
  }

  function ListedIds(rows: Rows, policy: string, summary: Option<Budgets.Summary>): set<nat> {
    set i | i in rows && Listed(rows[i], policy, summary)
  }

  function OutOfDateIds(rows: Rows, policy: string, summary: Option<Budgets.Summary>, period: string): set<nat> {
    set i | i in rows && OutOfDate(rows[i], policy, summary, period)
  }

  /** An open alert of a policy that belongs to another period. */
  predicate Outdated(alert: Alert, policy: Budgets.Policy, period: string) {
    var own := TextOf(alert.metadata, "periodKey");
    alert.open && alert.workspaceId == policy.workspaceId && TextOf(alert.metadata, "budgetPolicyId") == Some(policy.id)
    && Given(own) && own.value != period
  }

  predicate NoneOutdated(rows: Rows, policy: Budgets.Policy, period: string) {
    forall i :: i in rows ==> !Outdated(rows[i], policy, period)
  }

  /** The row of an input just before it is opened: one under the seed key of its own alert is first resolved. */
  function AboutToOpen(alert: Alert, input: Input, now: int): Alert {
    if Given(input.dedupeKey) && LegacyKey(input) == input.dedupeKey then Superseded(alert, input.dedupeKey.value, now)
    else alert
  }

  /** The rows after an input has opened the alert with the given id. */
  ghost predicate OpenedBy(before: Rows, after: Rows, input: Input, id: nat, now: int) {
    && after.Keys == before.Keys + {id}
    && after[id] == (if id in before then Reopened(AboutToOpen(before[id], input, now), input) else Inserted(input))
    && forall j :: j in before && j != id ==>
         after[j] == if Given(input.dedupeKey) && LegacyKey(input).Some? && Present(before, input.dedupeKey.value)
                        && before[j].dedupeKey == LegacyKey(input)
                     then Superseded(before[j], input.dedupeKey.value, now) else before[j]
  }

  /** Which row an input opens: the one with its key, else the one with the seed key of its alert, else a new one. */
  ghost predicate OpensRow(before: Rows, input: Input, id: nat) {
    if input.dedupeKey.Some? && Present(before, input.dedupeKey.value) then HasKey(before, id, input.dedupeKey.value)
    else if Given(input.dedupeKey) && LegacyKey(input).Some? && Present(before, LegacyKey(input).value)
    then HasKey(before, id, LegacyKey(input).value)
    else id !in before
  }

  /** The rows after the row under the seed key of an alert that has its own row is resolved. */
  ghost predicate SeedClosed(before: Rows, mid: Rows, input: Input, now: int) {
    && mid.Keys == before.Keys
    && forall j :: j in before ==>
         mid[j] == if Given(input.dedupeKey) && LegacyKey(input).Some? && Present(before, input.dedupeKey.value)
                      && before[j].dedupeKey == LegacyKey(input)
                   then Superseded(before[j], input.dedupeKey.value, now) else before[j]
  }

  lemma OpenedAfter(before: Rows, mid: Rows, after: Rows, input: Input, id: nat, now: int)
    requires SeedClosed(before, mid, input, now)
    requires Given(input.dedupeKey) && LegacyKey(input).Some? && !Present(before, input.dedupeKey.value)
      ==> !Present(before, LegacyKey(input).value)
    requires if input.dedupeKey.Some? && Present(mid, input.dedupeKey.value)
             then HasKey(mid, id, input.dedupeKey.value) && after == mid[id := Reopened(mid[id], input)]
             else id !in mid && after == mid[id := Inserted(input)]
    ensures OpenedBy(before, after, input, id, now) && OpensRow(before, input, id)
  {
    hide LegacyKey, Enriched, Inserted, Reopened;
    if input.dedupeKey.Some? {
      SamePresent(before, mid, input, now, input.dedupeKey.value);
    }
  }

  lemma SamePresent(before: Rows, mid: Rows, input: Input, now: int, key: string)
    requires SeedClosed(before, mid, input, now)
    ensures forall j :: HasKey(mid, j, key) <==> HasKey(before, j, key)
    ensures Present(mid, key) <==> Present(before, key)
  {
    hide LegacyKey;
    forall j
      ensures HasKey(mid, j, key) <==> HasKey(before, j, key)
    {
    }
    if Present(mid, key) {
      var j :| j in mid && HasKey(mid, j, key);
      assert HasKey(before, j, key);
    }
    if Present(before, key) {
      var j :| j in before && HasKey(before, j, key);
      assert HasKey(mid, j, key);
    }
  }

  lemma OpenedRenamed(before: Rows, after: Rows, input: Input, id: nat, now: int)
    requires Given(input.dedupeKey) && LegacyKey(input).Some? && !Present(before, input.dedupeKey.value)
    requires HasKey(before, id, LegacyKey(input).value) && after == before[id := Reopened(before[id], input)]
    ensures OpenedBy(before, after, input, id, now) && OpensRow(before, input, id)
  {
    hide LegacyKey, Enriched, Reopened;
  }

  function Updated(alert: Alert, open: Option<bool>, patch: Metadata, now: int): Alert {
    var changed := if open.None? then alert
                   else if open.value then alert.(open := true, resolvedAt := None)
                   else Resolved(alert, now);
    changed.(metadata := alert.metadata + patch)
  }

  /** The rows with the given ids have been resolved, and the others are as before. */
  ghost predicate SomeResolved(before: Rows, after: Rows, ids: set<nat>, now: int) {
    && after.Keys == before.Keys
    && forall i :: i in before
          ==> after[i] == if i in ids then Updated(before[i], Some(false), map[], now) else before[i]
  }

  lemma NoneResolved(rows: Rows, now: int)
    ensures SomeResolved(rows, rows, {}, now)
  {
  }

  lemma UntouchedRow(before: Rows, after: Rows, ids: set<nat>, id: nat, now: int)
    requires SomeResolved(before, after, ids, now) && id in before && id !in ids
    ensures id in after && after[id] == before[id]
  {
  }

  lemma OneMoreResolved(before: Rows, here: Rows, next: Rows, ids: set<nat>, id: nat, now: int)
    requires SomeResolved(before, here, ids, now) && id in here && id !in ids
    requires next.Keys == here.Keys && forall i :: i in next && i != id ==> next[i] == here[i]
    requires next[id] == Updated(here[id], Some(false), map[], now)
    ensures SomeResolved(before, next, ids + {id}, now)
  {
  }

  lemma AllResolved(before: Rows, after: Rows, ids: set<nat>, now: int)
    requires SomeResolved(before, after, ids, now)
    ensures after.Keys == before.Keys
    ensures forall i :: i in after ==> after[i] == if i in ids then Resolved(before[i], now) else before[i]
  {
    forall i | i in before
      ensures after[i] == if i in ids then Resolved(before[i], now) else before[i]
    {
      UpdatedResolved(before[i], now);
    }
  }

  lemma NextLeft(left: set<nat>, some: set<nat>, id: nat)
    requires id in left
    ensures some - (left - {id}) == if id in some then some - left + {id} else some - left
    ensures |some - (left - {id})| == |some - left| + if id in some then 1 else 0
  {
    assert some - (left - {id}) == if id in some then some - left + {id} else some - left;
  }

  lemma UpdatedResolved(alert: Alert, now: int)
    ensures Updated(alert, Some(false), map[], now) == Resolved(alert, now)
  {
    assert alert.metadata + map[] == alert.metadata;
  }

  lemma UpdatedGood(rows: Rows, home: string -> string, id: nat, open: Option<bool>, patch: Metadata, now: int)
    requires SoundRows(rows) && id in rows
    ensures var after := rows[id := Updated(rows[id], open, patch, now)];
      && SoundRows(after)
      && (ConsistentRows(rows, home) && "budgetPolicyId" !in patch && "periodKey" !in patch
          ==> ConsistentRows(after, home))
  {
    hide ConsistentAlert;
    SoundAfter(rows, id, Updated(rows[id], open, patch, now));
    if ConsistentRows(rows, home) && "budgetPolicyId" !in patch && "periodKey" !in patch {
      ChangedConsistent(rows[id], Updated(rows[id], open, patch, now), home);
      ConsistentAfter(rows, home, id, Updated(rows[id], open, patch, now));
    }
  }

  lemma SupersededGood(rows: Rows, home: string -> string, id: nat, key: string, now: int)
    requires SoundRows(rows) && id in rows
    ensures var after := rows[id := Superseded(rows[id], key, now)];
      SoundRows(after) && (ConsistentRows(rows, home) ==> ConsistentRows(after, home))
  {
    hide ConsistentAlert;
    SoundAfter(rows, id, Superseded(rows[id], key, now));
    if ConsistentRows(rows, home) {
      assert "supersededByDedupeKey"[0] == 's' && "supersededAt"[0] == 's';
      assert "budgetPolicyId"[0] == 'b' && "periodKey"[0] == 'p';
      ChangedConsistent(rows[id], Superseded(rows[id], key, now), home);
      ConsistentAfter(rows, home, id, Superseded(rows[id], key, now));
    }
  }

  lemma ReopenedGood(rows: Rows, home: string -> string, id: nat, input: Input)
    requires SoundRows(rows) && input.dedupeKey.Some? && HasKey(rows, id, input.dedupeKey.value)
    ensures var after := rows[id := Reopened(rows[id], input)];
      SoundRows(after) && (ConsistentRows(rows, home) && ConsistentInput(input, home) ==> ConsistentRows(after, home))
  {
    hide ConsistentAlert, ConsistentInput, Enriched;
    SoundAfter(rows, id, Reopened(rows[id], input));
    if ConsistentRows(rows, home) && ConsistentInput(input, home) {
      ReopenedConsistent(rows[id], input, home);
      ConsistentAfter(rows, home, id, Reopened(rows[id], input));
    }
  }

  lemma CanonicalGood(rows: Rows, home: string -> string, id: nat, input: Input)
    requires SoundRows(rows) && input.dedupeKey.Some? && !Present(rows, input.dedupeKey.value)
    requires LegacyKey(input).Some? && HasKey(rows, id, LegacyKey(input).value)
    ensures var after := rows[id := Reopened(rows[id], input)];
      SoundRows(after) && (ConsistentRows(rows, home) && ConsistentInput(input, home) ==> ConsistentRows(after, home))
  {
    hide ConsistentAlert, ConsistentInput, Enriched, LegacyKey;
    AbsentKey(rows, input.dedupeKey.value);
    SoundAfter(rows, id, Reopened(rows[id], input));
    if ConsistentRows(rows, home) && ConsistentInput(input, home) {
      CanonicalConsistent(rows[id], input, home);
      ConsistentAfter(rows, home, id, Reopened(rows[id], input));
    }
  }

  lemma InsertedGood(rows: Rows, home: string -> string, id: nat, input: Input)
    requires SoundRows(rows) && id !in rows && (input.dedupeKey.Some? ==> !Present(rows, input.dedupeKey.value))
    ensures var after := rows[id := Inserted(input)];
      SoundRows(after) && (ConsistentRows(rows, home) && ConsistentInput(input, home) ==> ConsistentRows(after, home))
  {
    hide ConsistentAlert, ConsistentInput, Enriched;
    if input.dedupeKey.Some? {
      AbsentKey(rows, input.dedupeKey.value);
    }
    SoundAfter(rows, id, Inserted(input));
    if ConsistentRows(rows, home) && ConsistentInput(input, home) {
      InsertedConsistent(input, home);
      ConsistentAfter(rows, home, id, Inserted(input));
    }
  }

  lemma AbsentKey(rows: Rows, key: string)
    requires !Present(rows, key)
    ensures forall j :: j in rows ==> rows[j].dedupeKey != Some(key)
  {
    forall j | j in rows
      ensures rows[j].dedupeKey != Some(key)
    {
      assert !HasKey(rows, j, key);
    }
  }

  /** The rows after all alerts of a missing price have been resolved. */
  function PriceResolved(rows: Rows, policy: string, provider: string, model: string, now: int): Rows {
    map i | i in rows :: if LacksPrice(rows[i], policy, provider, model)
                         then rows[i].(open := false, resolvedAt := Some(now)) else rows[i]
  }

  lemma PricedGood(rows: Rows, home: string -> string, policy: string, provider: string, model: string, now: int)
    requires SoundRows(rows)
    ensures var after := PriceResolved(rows, policy, provider, model, now);
      SoundRows(after) && (ConsistentRows(rows, home) ==> ConsistentRows(after, home))
  {
    hide ConsistentAlert, LacksPrice;
    if ConsistentRows(rows, home) {
      forall i | i in rows
        ensures ConsistentAlert(rows[i].(open := false, resolvedAt := Some(now)), home)
      {
        ChangedConsistent(rows[i], rows[i].(open := false, resolvedAt := Some(now)), home);
      }
    }
  }

  predicate Reached(summary: Budgets.Summary, hard: bool) {
    if hard then summary.hardLimitReached else summary.softLimitReached
  }

  /** An open alert that none of the first summaries closes. */
  predicate Lasting(alert: Alert, summaries: seq<Budgets.Summary>, n: nat, period: string)
    requires n <= |summaries|
  {
    && alert.open
    && forall j :: 0 <= j < n ==> !OutOfDate(alert, summaries[j].policy.id, Some(summaries[j]), period)
  }

  /** An open alert under this key that no summary closes. */
  predicate Survives(rows: Rows, key: string, summaries: seq<Budgets.Summary>, period: string) {
    exists i :: i in rows && HasKey(rows, i, key) && Lasting(rows[i], summaries, |summaries|, period)
  }

  /** The rows after the first summaries have closed what they do not support. */
  ghost predicate Synced(before: Rows, after: Rows, summaries: seq<Budgets.Summary>, n: nat, period: string)
    requires n <= |summaries|
  {
    && after.Keys == before.Keys
    && forall i :: i in before ==>
         && after[i].dedupeKey == before[i].dedupeKey
         && (after[i].open <==> Lasting(before[i], summaries, n, period))
         && (after[i].open ==> after[i] == before[i])
  }

  /** The rows under the keys of a budget's limits say what these keys say. */
  ghost predicate Recognised(rows: Rows, summary: Budgets.Summary, period: string) {
    forall i, hard :: i in rows && HasKey(rows, i, LimitKey(summary.policy.id, hard, period)) ==>
      && rows[i].workspaceId == summary.policy.workspaceId
      && rows[i].code == LimitCode(hard)
      && About(rows[i].metadata, summary.policy.id, period)
  }

  /** Summaries of different policies. */
  predicate ProperSummaries(summaries: seq<Budgets.Summary>) {
    && (forall i :: 0 <= i < |summaries| ==> Proper(summaries[i].policy.id))
    && forall i, j :: 0 <= i < j < |summaries| ==> summaries[i].policy.id != summaries[j].policy.id
  }

  ghost predicate AtHomeOne(summary: Budgets.Summary, home: string -> string) {
    Proper(summary.policy.id) && summary.policy.workspaceId == home(summary.policy.id)
  }

  /** Summaries in the workspaces of their policies. */
  ghost predicate AtHome(summaries: seq<Budgets.Summary>, home: string -> string) {
    forall i :: 0 <= i < |summaries| ==> AtHomeOne(summaries[i], home)
  }

  /** Of all limits' alerts, only the one of this limit and period may have opened or closed. */
  ghost predicate OnlyLimit(before: Rows, after: Rows, policy: string, hard: bool, period: string) {
    forall q: string, h: bool, x: string :: Proper(q) && (q, h, x) != (policy, hard, period)
      ==> (KeyOpen(after, LimitKey(q, h, x)) <==> KeyOpen(before, LimitKey(q, h, x)))
  }

  /** Nothing has opened or closed at the limits of other policies, and nothing of another period has opened. */
  ghost predicate OnlyPolicy(before: Rows, after: Rows, policy: string, period: string) {
    && (forall q: string, h: bool, x: string :: Proper(q) && q != policy
          ==> (KeyOpen(after, LimitKey(q, h, x)) <==> KeyOpen(before, LimitKey(q, h, x))))
    && (forall p: Budgets.Policy :: NoneOutdated(before, p, period) ==> NoneOutdated(after, p, period))
  }

  /** The alert of a limit that a budget has reached. */
  function LimitInput(summary: Budgets.Summary, hard: bool, period: string): Input {
    Input(summary.policy.workspaceId, if hard then "critical" else "warning", LimitCode(hard),
          Some(LimitKey(summary.policy.id, hard, period)),
          map["budgetPolicyId" := Text(summary.policy.id), "periodKey" := Text(period),
              "currentMonthSpendUsd" := Number(summary.spend), "monthlyUsdLimit" := Number(summary.policy.limit)])
  }

  lemma LimitInputTexts(summary: Budgets.Summary, hard: bool, period: string)
    ensures About(LimitInput(summary, hard, period).metadata, summary.policy.id, period)
  {
    assert "budgetPolicyId"[0] == 'b' && "periodKey"[0] == 'p' && "currentMonthSpendUsd"[0] == 'c'
        && "monthlyUsdLimit"[0] == 'm';
  }

  /** The key of the alert is the one that the key builder gives. */
  lemma LimitKeyBuilt(policy: string, hard: bool, period: string)
    requires period != ""
    ensures BuildKey(Args(policy, if hard then HardLimit else SoftLimit, Some(period), None, None))
        == Key(LimitKey(policy, hard, period))
  {
  }

  lemma LimitInputConsistent(summary: Budgets.Summary, hard: bool, period: string, home: string -> string)
    requires AtHomeOne(summary, home)
    ensures ConsistentInput(LimitInput(summary, hard, period), home)
  {
    hide LimitKey, SeedKey, LimitCode, About;
    LimitInputTexts(summary, hard, period);
    var input := LimitInput(summary, hard, period);
    forall policy: string, h: bool, x: string
      ensures Proper(policy) && input.dedupeKey == Some(LimitKey(policy, h, x))
        ==> policy == summary.policy.id && h == hard && x == period
      ensures input.dedupeKey != Some(SeedKey(policy, h, x))
    {
      if Proper(policy) {
        LimitKeysDiffer(policy, h, x, summary.policy.id, hard, period);
      }
      BudgetNotSeed(summary.policy.id, hard, period, policy, h, x);
    }
  }

  lemma BudgetNotSeed(p: string, a: bool, x: string, q: string, b: bool, y: string)
    ensures LimitKey(p, a, x) != SeedKey(q, b, y)
  {
    assert LimitKey(p, a, x)[0] == 'b' && SeedKey(q, b, y)[0] == 's';
  }

  /** A row that an upsert leaves alone, or closes under its seed key, is open under a limit's key as before. */
  lemma LimitOpened(before: Rows, after: Rows, summary: Budgets.Summary, hard: bool, period: string, id: nat, now: int)
    requires Proper(summary.policy.id) && period != ""
    requires OpenedBy(before, after, LimitInput(summary, hard, period), id, now)
    requires OpensRow(before, LimitInput(summary, hard, period), id)
    ensures KeyOpen(after, LimitKey(summary.policy.id, hard, period))
    ensures OnlyLimit(before, after, summary.policy.id, hard, period)
    ensures OnlyPolicy(before, after, summary.policy.id, period)
  {
    hide OpenedBy, OpensRow, KeyOpen, NoneOutdated;
    KeyOpened(before, after, LimitInput(summary, hard, period), id, now);
    forall q: string, h: bool, x: string | Proper(q) && (q, h, x) != (summary.policy.id, hard, period)
      ensures KeyOpen(after, LimitKey(q, h, x)) <==> KeyOpen(before, LimitKey(q, h, x))
    {
      LimitKeysDiffer(q, h, x, summary.policy.id, hard, period);
      OtherKeyKept(before, after, LimitInput(summary, hard, period), id, now, q, h, x);
    }
    forall p: Budgets.Policy | NoneOutdated(before, p, period)
      ensures NoneOutdated(after, p, period)
    {
      LimitNotOutdated(before, after, summary, hard, period, id, now, p);
    }
  }

  lemma KeyOpened(before: Rows, after: Rows, input: Input, id: nat, now: int)
    requires OpenedBy(before, after, input, id, now) && input.dedupeKey.Some?
    ensures KeyOpen(after, input.dedupeKey.value)
  {
    assert HasKey(after, id, input.dedupeKey.value);
  }

  lemma LegacyShape(input: Input) returns (policy: string, hard: bool, period: string)
    ensures LegacyKey(input).Some? ==> LegacyKey(input).value == SeedKey(policy, hard, period)
  {
    hide SeedKey;
    policy, hard, period := "", input.code == LimitCode(true), "";
    var p, x := TrimmedText(Enriched(input), "budgetPolicyId"), TrimmedText(Enriched(input), "periodKey");
    if p.Some? && x.Some? {
      policy, period := p.value, x.value;
      assert "budget.soft-limit"[7] == 's' && "budget.hard-limit"[7] == 'h';
    }
  }

  /** A limit's key that is not the input's is open after the upsert exactly when it was before. */
  lemma OtherKeyKept(before: Rows, after: Rows, input: Input, id: nat, now: int, q: string, h: bool, x: string)
    requires OpenedBy(before, after, input, id, now) && OpensRow(before, input, id)
    requires input.dedupeKey.Some? && input.dedupeKey.value != LimitKey(q, h, x)
    ensures KeyOpen(after, LimitKey(q, h, x)) <==> KeyOpen(before, LimitKey(q, h, x))
  {
    hide LimitKey, SeedKey, LegacyKey, Enriched;
    var policy, hard, period := LegacyShape(input);
    BudgetNotSeed(q, h, x, policy, hard, period);
    var key := LimitKey(q, h, x);
    assert id in before ==> !HasKey(before, id, key);
    forall j | j in before && HasKey(before, j, key)
      ensures j != id && after[j] == before[j] && HasKey(after, j, key)
    {
    }
    forall j | j in after && HasKey(after, j, key)
      ensures j in before && HasKey(before, j, key) && after[j] == before[j]
    {
    }
  }

  lemma LimitNotOutdated(before: Rows, after: Rows, summary: Budgets.Summary, hard: bool, period: string, id: nat,
                         now: int, p: Budgets.Policy)
    requires OpenedBy(before, after, LimitInput(summary, hard, period), id, now)
    requires NoneOutdated(before, p, period)
    ensures NoneOutdated(after, p, period)
  {
    hide LimitKey, LegacyKey;
    var input := LimitInput(summary, hard, period);
    LimitInputTexts(summary, hard, period);
    EnrichedTexts(input);
    assert "periodKey" in Enriched(input);
    assert TextOf(after[id].metadata, "periodKey") == Some(period);
    forall j | j in after
      ensures !Outdated(after[j], p, period)
    {
      if j != id {
        assert !Outdated(before[j], p, period);
      }
    }
  }

  lemma NothingSynced(rows: Rows, summaries: seq<Budgets.Summary>, period: string)
    ensures Synced(rows, rows, summaries, 0, period)
  {
  }

  /** One sync more: it looks at open rows only, and these are as they were before all syncs. */
  lemma SyncedNext(before: Rows, here: Rows, after: Rows, summaries: seq<Budgets.Summary>, n: nat, period: string,
                   now: int)
    requires n < |summaries| && Synced(before, here, summaries, n, period) && after.Keys == here.Keys
    requires var summary := summaries[n];
      forall i :: i in after ==>
        after[i] == if OutOfDate(here[i], summary.policy.id, Some(summary), period) then Resolved(here[i], now)
                    else here[i]
    ensures Synced(before, after, summaries, n + 1, period)
  {
    hide Stale;
  }

  lemma SyncedOpen(before: Rows, after: Rows, summaries: seq<Budgets.Summary>, period: string, key: string)
    requires Synced(before, after, summaries, |summaries|, period)
    ensures KeyOpen(after, key) <==> Survives(before, key, summaries, period)
  {
    hide Lasting;
    if KeyOpen(after, key) {
      var i :| i in after && HasKey(after, i, key) && after[i].open;
      assert HasKey(before, i, key);
    }
    if Survives(before, key, summaries, period) {
      var i :| i in before && HasKey(before, i, key) && Lasting(before[i], summaries, |summaries|, period);
      assert HasKey(after, i, key);
    }
  }

  /** Syncs close the open alerts of other periods. */
  lemma SyncedNoneOutdated(before: Rows, after: Rows, summaries: seq<Budgets.Summary>, period: string, k: nat)
    requires Synced(before, after, summaries, |summaries|, period) && k < |summaries|
    ensures NoneOutdated(after, summaries[k].policy, period)
  {
    hide OutOfDate, Outdated;
    forall i | i in after
      ensures !Outdated(after[i], summaries[k].policy, period)
    {
      OutdatedOutOfDate(after[i], summaries[k], period);
      OutdatedOpen(after[i], summaries[k].policy, period);
    }
  }

  lemma OutdatedOpen(alert: Alert, policy: Budgets.Policy, period: string)
    ensures Outdated(alert, policy, period) ==> alert.open
  {
  }

  /** No open alert of a policy belongs to a month other than that of this instant. */
  ghost predicate OfThisMonth(rows: Rows, policy: Budgets.Policy, now: int) {
    forall i, time: int :: i in rows && rows[i].open && rows[i].workspaceId == policy.workspaceId
      && TextOf(rows[i].metadata, "budgetPolicyId") == Some(policy.id)
      && TextOf(rows[i].metadata, "periodKey") == Some(Calendar.BudgetPeriod(time).key)
      ==> Calendar.BudgetPeriod(time) == Calendar.BudgetPeriod(now)
  }

  lemma NoneOfOtherMonths(rows: Rows, policy: Budgets.Policy, now: int)
    requires NoneOutdated(rows, policy, Calendar.BudgetPeriod(now).key)
    ensures OfThisMonth(rows, policy, now)
  {
    hide Calendar.BudgetPeriod;
    forall i, time: int | i in rows && rows[i].open && rows[i].workspaceId == policy.workspaceId
      && TextOf(rows[i].metadata, "budgetPolicyId") == Some(policy.id)
      && TextOf(rows[i].metadata, "periodKey") == Some(Calendar.BudgetPeriod(time).key)
      ensures Calendar.BudgetPeriod(time) == Calendar.BudgetPeriod(now)
    {
      assert !Outdated(rows[i], policy, Calendar.BudgetPeriod(now).key);
      Calendar.PeriodKeysDiffer(time, now);
    }
  }

  /** What survives under the key of a limit is recognised only if the limit is reached. */
  lemma RecognisedReached(rows: Rows, summaries: seq<Budgets.Summary>, k: nat, hard: bool, period: string)
    requires k < |summaries| && Recognised(rows, summaries[k], period)
    ensures Survives(rows, LimitKey(summaries[k].policy.id, hard, period), summaries, period)
        ==> Reached(summaries[k], hard)
  {
    hide LimitKey, OutOfDate;
    var key := LimitKey(summaries[k].policy.id, hard, period);
    if Survives(rows, key, summaries, period) {
      var i :| i in rows && HasKey(rows, i, key) && Lasting(rows[i], summaries, |summaries|, period);
      LimitCurrent(rows[i], summaries[k], hard, period);
    }
  }

  lemma HomeRecognised(rows: Rows, home: string -> string, summary: Budgets.Summary, period: string)
    requires ConsistentRows(rows, home) && AtHomeOne(summary, home)
    ensures Recognised(rows, summary, period)
  {
    hide LimitKey, LimitCode, About;
    forall i, hard | i in rows && HasKey(rows, i, LimitKey(summary.policy.id, hard, period))
      ensures rows[i].workspaceId == summary.policy.workspaceId && rows[i].code == LimitCode(hard)
      ensures About(rows[i].metadata, summary.policy.id, period)
    {
      assert ConsistentAlert(rows[i], home);
    }
  }

  /** An open alert whose policy was patched to something else is closed by no summary, whatever its limit says. */
  lemma PatchedSurvives(rows: Rows, id: nat, key: string, other: string, summaries: seq<Budgets.Summary>,
                        period: string, now: int)
    requires HasKey(rows, id, key) && rows[id].open
    requires forall k :: 0 <= k < |summaries| ==> summaries[k].policy.id != other && summaries[k].policy.id != ""
    ensures var patched := rows[id := Updated(rows[id], None, map["budgetPolicyId" := Text(other)], now)];
      Survives(patched, key, summaries, period)
  {
    var alert := Updated(rows[id], None, map["budgetPolicyId" := Text(other)], now);
    assert TextOf(alert.metadata, "budgetPolicyId") == Some(other);
    var patched := rows[id := alert];
    assert HasKey(patched, id, key) && Lasting(alert, summaries, |summaries|, period);
  }

  lemma LimitCurrent(alert: Alert, summary: Budgets.Summary, hard: bool, period: string)
    requires alert.open && alert.workspaceId == summary.policy.workspaceId && alert.code == LimitCode(hard)
    requires About(alert.metadata, summary.policy.id, period)
    requires !OutOfDate(alert, summary.policy.id, Some(summary), period)
    ensures Reached(summary, hard)
  {
    assert "budget.soft-limit"[7] == 's' && "budget.hard-limit"[7] == 'h';
  }

  lemma OutdatedOutOfDate(alert: Alert, summary: Budgets.Summary, period: string)
    ensures Outdated(alert, summary.policy, period) ==> OutOfDate(alert, summary.policy.id, Some(summary), period)
  {
  }

  // Alerts that a model has no price.

  function PricingArgs(policy: string, provider: string, model: string): Args {
    Args(policy, PricingUnavailable, None, Some(provider), Some(model))
  }

  predicate SameUpToCase(a: string, b: string) {
    AlertKeys.Text.Lower(a) == AlertKeys.Text.Lower(b)
  }

  function PricingInput(policy: Budgets.Policy, provider: string, model: string): Input
    requires BuildKey(PricingArgs(policy.id, provider, model)).Key?
  {
    Input(policy.workspaceId, "critical", "budget.pricing-unavailable",
          Some(BuildKey(PricingArgs(policy.id, provider, model)).key),
          map["budgetPolicyId" := Text(policy.id), "provider" := Text(provider), "model" := Text(model)])
  }

  lemma PricingInputTexts(policy: Budgets.Policy, provider: string, model: string)
    requires BuildKey(PricingArgs(policy.id, provider, model)).Key?
    ensures var metadata := Enriched(PricingInput(policy, provider, model));
      TextOf(metadata, "budgetPolicyId") == Some(policy.id) && TextOf(metadata, "provider") == Some(provider)
      && TextOf(metadata, "model") == Some(model)
  {
    assert "budgetPolicyId"[0] == 'b' && "provider"[0] == 'p' && "model"[0] == 'm' && "dedupeKey"[0] == 'd';
  }

  lemma PricingInputConsistent(policy: Budgets.Policy, provider: string, model: string, home: string -> string)
    requires Plain(policy.id) && BuildKey(PricingArgs(policy.id, provider, model)).Key?
    ensures ConsistentInput(PricingInput(policy, provider, model), home)
  {
    hide SeedKey, About, Text.Normalize;
    var input := PricingInput(policy, provider, model);
    var tail := Join(AlertKeys.Text.Normalize(provider), AlertKeys.Text.Normalize(model));
    assert input.dedupeKey == Some(Prefixed(policy.id, PricingUnavailable, tail));
    forall q: string, h: bool, x: string
      ensures Proper(q) ==> input.dedupeKey != Some(LimitKey(q, h, x))
      ensures input.dedupeKey != Some(SeedKey(q, h, x))
    {
      if Proper(q) {
        PrefixedInjective(policy.id, PricingUnavailable, tail, q, if h then HardLimit else SoftLimit, x);
      }
      PrefixedNotSeed(policy.id, PricingUnavailable, tail, q, h, x);
    }
  }

  lemma PrefixedNotSeed(p: string, kind: Kind, x: string, q: string, b: bool, y: string)
    ensures Prefixed(p, kind, x) != SeedKey(q, b, y)
  {
    assert Prefixed(p, kind, x)[0] == 'b' && SeedKey(q, b, y)[0] == 's';
  }

  lemma PricingOpened(before: Rows, after: Rows, policy: Budgets.Policy, provider: string, model: string, id: nat,
                      now: int)
    requires BuildKey(PricingArgs(policy.id, provider, model)).Key?
    requires OpenedBy(before, after, PricingInput(policy, provider, model), id, now)
    ensures id in after && HasKey(after, id, BuildKey(PricingArgs(policy.id, provider, model)).key)
    ensures forall p, m :: LacksPrice(after[id], policy.id, p, m) <==> p == provider && SameUpToCase(m, model)
  {
    hide BuildKey, AboutToOpen, Text.Lower;
    PricingInputTexts(policy, provider, model);
    var metadata := Enriched(PricingInput(policy, provider, model));
    assert "budgetPolicyId" in metadata && "provider" in metadata && "model" in metadata;
    var alert := after[id];
    assert TextOf(alert.metadata, "budgetPolicyId") == Some(policy.id)
        && TextOf(alert.metadata, "provider") == Some(provider);
    assert TextOf(alert.metadata, "model") == Some(model);
  }

  /**
   * An alert opened for a provider and a model, and a resolving of p and m. What is closed has the key of p and m.
   * What has that key stays open exactly when the provider's text differs, be it in case or space, or when the spaces
   * around the model do.
   */
  lemma PricingResolvedExactly(policy: string, provider: string, model: string, p: string, m: string)
    requires provider != "" && model != "" && p != "" && m != ""
    requires Plain(policy) && Plain(AlertKeys.Text.Normalize(provider)) && Plain(AlertKeys.Text.Normalize(p))
    ensures var sameKey := BuildKey(PricingArgs(policy, p, m)) == BuildKey(PricingArgs(policy, provider, model));
      && (p == provider && SameUpToCase(m, model) ==> sameKey)
      && (sameKey ==>
            (p == provider && SameUpToCase(m, model) <==> p == provider && SameSpaceAround(m, model)))
  {
    hide AlertKeys.Text.Normalize, AlertKeys.Text.Lower, BuildKey, AlertKeys.Text.LeadingSpace,
        AlertKeys.Text.TrailingSpace;
    var asked, stored := PricingArgs(policy, p, m), PricingArgs(policy, provider, model);
    KeyMissing(asked);
    KeyMissing(stored);
    KeysIdentify(asked, stored);
    AlertKeys.Text.LowerEqual(m, model);
  }

  predicate SameSpaceAround(a: string, b: string) {
    && AlertKeys.Text.LeadingSpace(a) == AlertKeys.Text.LeadingSpace(b)
    && AlertKeys.Text.TrailingSpace(AlertKeys.Text.TrimLeft(a))
          == AlertKeys.Text.TrailingSpace(AlertKeys.Text.TrimLeft(b))
  }

  /** A space before the model is enough: the key is the same, and resolving closes nothing. */
  lemma PaddedModelStaysOpen(policy: string, provider: string, model: string)
    requires provider != "" && model != ""
    ensures BuildKey(PricingArgs(policy, provider, " " + model)) == BuildKey(PricingArgs(policy, provider, model))
    ensures !SameUpToCase(" " + model, model)
  {
    assert (" " + model)[1..] == model;
  }

  class AlertTable {
    var rows: Rows
    var nextId: nat
    /** The workspace of each policy. */
    ghost const home: string -> string

    /** Keys are unique, and an alert is open exactly when it has no resolved time. */
    ghost predicate Sound()
      reads this
    {
      SoundRows(rows) && forall i :: i in rows ==> i < nextId
    }

    /** Also, a row under the key of a limit is about that limit. */
    ghost predicate Valid()
      reads this
    {
      Sound() && ConsistentRows(rows, home)
    }

    constructor (ghost home: string -> string)
      ensures Valid() && rows == map[] && this.home == home
    {
      rows, nextId := map[], 0;
      this.home := home;
    }

    /** The row with a key; there is at most one. */
    method Find(key: string) returns (found: Option<nat>)
      requires SoundRows(rows)
      ensures found.Some? ==> HasKey(rows, found.value, key) && Present(rows, key)
      ensures found.None? ==> !Present(rows, key)
      ensures forall j :: j in rows && found != Some(j) ==> rows[j].dedupeKey != Some(key)
    {
      hide OpenIffUnresolved;
      if id :| id in rows && HasKey(rows, id, key) {
        found := Some(id);
      } else {
        found := None;
      }
    }

    /**
     * Opens the alert of an input: the row with its key, or the row of the same alert under its seed key, or a new one.
     */
    method Upsert(input: Input, now: int) returns (id: nat)
      requires Sound()
      modifies this
      ensures Sound() && (old(Valid()) && ConsistentInput(input, home) ==> Valid())
      ensures OpenedBy(old(rows), rows, input, id, now)
      ensures OpensRow(old(rows), input, id)
    {
      hide ConsistentInput, ConsistentRows, Enriched, LegacyKey, SoundRows, Superseded, OpenedBy, OpensRow, Inserted,
          Reopened;
      ghost var before := rows;
      var legacy := LegacyKey(input);
      if Given(input.dedupeKey) && legacy.Some? {
        var canonical := Find(input.dedupeKey.value);
        var seeded := Find(legacy.value);
        if canonical.Some? {
          if seeded.Some? {
            Supersede(seeded.value, input.dedupeKey.value, now);
          }
        } else if seeded.Some? {
          id := seeded.value;
          CanonicalGood(rows, home, id, input);
          rows := rows[id := Reopened(rows[id], input)];
          OpenedRenamed(before, rows, input, id, now);
          return;
        }
      }
      ghost var mid := rows;
      id := InsertOrReopen(input);
      OpenedAfter(before, mid, rows, input, id, now);
    }

    method Supersede(id: nat, key: string, now: int)
      requires Sound() && id in rows
      modifies `rows
      ensures Sound() && (old(Valid()) ==> Valid())
      ensures rows == old(rows)[id := Superseded(old(rows)[id], key, now)]
    {
      hide SoundRows, ConsistentRows;
      SupersededGood(rows, home, id, key, now);
      rows := rows[id := Superseded(rows[id], key, now)];
    }

    method InsertOrReopen(input: Input) returns (id: nat)
      requires Sound()
      modifies this
      ensures Sound() && (old(Valid()) && ConsistentInput(input, home) ==> Valid())
      ensures if input.dedupeKey.Some? && Present(old(rows), input.dedupeKey.value)
              then HasKey(old(rows), id, input.dedupeKey.value)
                  && rows == old(rows)[id := Reopened(old(rows)[id], input)]
              else id !in old(rows) && rows == old(rows)[id := Inserted(input)]
    {
      hide SoundRows, ConsistentRows, ConsistentInput, Enriched;
      var existing := None;
      if input.dedupeKey.Some? {
        existing := Find(input.dedupeKey.value);
      }
      if existing.Some? {
        id := existing.value;
        ReopenedGood(rows, home, id, input);
        rows := rows[id := Reopened(rows[id], input)];
      } else {
        id := nextId;
        InsertedGood(rows, home, id, input);
        rows, nextId := rows[id := Inserted(input)], nextId + 1;
      }
    }

    /** Changes the status or the metadata of an alert. A patch of its policy or period may leave it unrecognised. */
    method Update(id: nat, open: Option<bool>, patch: Metadata, now: int) returns (found: bool)
      requires Sound()
      modifies `rows
      ensures Sound()
      ensures old(Valid()) && "budgetPolicyId" !in patch && "periodKey" !in patch ==> Valid()
      ensures found == (id in old(rows)) && rows.Keys == old(rows).Keys
      ensures forall i :: i in rows && i != id ==> rows[i] == old(rows)[i]
      ensures found ==> rows[id] == Updated(old(rows)[id], open, patch, now)
    {
      hide SoundRows, ConsistentRows;
      found := id in rows;
      if found {
        UpdatedGood(rows, home, id, open, patch, now);
        rows := rows[id := Updated(rows[id], open, patch, now)];
      }
    }

    /** Resolves the open alerts of a policy that its summary shows to be out of date. */
    method Sync(policy: string, summary: Option<Budgets.Summary>, period: string, now: int) returns (resolved: nat)
      requires Sound()
      modifies `rows
      ensures Sound() && (old(Valid()) ==> Valid()) && rows.Keys == old(rows).Keys
      ensures forall i :: i in rows ==>
        rows[i] == if OutOfDate(old(rows)[i], policy, summary, period) then Resolved(old(rows)[i], now)
            else old(rows)[i]
      ensures resolved == |OutOfDateIds(old(rows), policy, summary, period)|
    {
      hide SoundRows, ConsistentRows, Listed, Stale, SomeResolved, Updated, Resolved;
      ghost var before := rows;
      ghost var outOfDate := OutOfDateIds(rows, policy, summary, period);
      var left := ListedIds(rows, policy, summary);
      resolved := 0;
      NoneResolved(rows, now);
      assert outOfDate - left == {};
      while left != {}
        invariant Sound() && (old(Valid()) ==> Valid()) && left <= ListedIds(before, policy, summary)
        invariant SomeResolved(before, rows, outOfDate - left, now)
        invariant resolved == |outOfDate - left|
        decreases left
      {
        var id :| id in left;
        UntouchedRow(before, rows, outOfDate - left, id, now);
        NextLeft(left, outOfDate, id);
        var shouldResolve := Stale(rows[id], summary, period);
        if shouldResolve {
          ghost var here := rows;
          var _ := Update(id, Some(false), map[], now);
          OneMoreResolved(before, here, rows, outOfDate - left, id, now);
          resolved := resolved + 1;
        }
        left := left - {id};
      }
      assert outOfDate - left == outOfDate;
      AllResolved(before, rows, outOfDate, now);
    }

    /** Resolves the alerts that a model of a provider had no price. */
    method ResolvePricingUnavailable(policy: string, provider: string, model: string, now: int)
      requires Sound()
      modifies `rows
      ensures Sound() && (old(Valid()) ==> Valid())
      ensures rows == PriceResolved(old(rows), policy, provider, model, now)
    {
      hide SoundRows, ConsistentRows, LacksPrice;
      PricedGood(rows, home, policy, provider, model, now);
      rows := PriceResolved(rows, policy, provider, model, now);
    }

    /**
     * Opens the alert that a model of a provider has no price. Resolving closes it for the same text of the provider
     * and the same model up to case.
     */
    method UpsertPricingUnavailable(policy: Budgets.Policy, provider: string, model: string, now: int)
        returns (id: Option<nat>)
      requires Sound() && Plain(policy.id)
      modifies this
      ensures Sound() && (old(Valid()) ==> Valid())
      ensures id.Some? <==> provider != "" && model != ""
      ensures id.None? ==> rows == old(rows)
      ensures id.Some? ==>
        && HasKey(rows, id.value, BuildKey(PricingArgs(policy.id, provider, model)).key)
        && forall p, m :: LacksPrice(rows[id.value], policy.id, p, m) <==> p == provider && SameUpToCase(m, model)
    {
      hide SoundRows, ConsistentRows;
      var built := BuildKey(PricingArgs(policy.id, provider, model));
      if built.MissingSegment? {
        return None;
      }
      PricingInputConsistent(policy, provider, model, home);
      ghost var before := rows;
      var stored := Upsert(PricingInput(policy, provider, model), now);
      PricingOpened(before, rows, policy, provider, model, stored, now);
      return Some(stored);
    }

    /** Opens the alerts of the limits that budgets have reached. */
    method UpsertThresholdAlerts(summaries: seq<Budgets.Summary>, period: string, now: int)
      requires Sound() && ProperSummaries(summaries) && period != ""
      modifies this
      ensures Sound() && (old(Valid()) && AtHome(summaries, home) ==> Valid())
      ensures forall i, hard :: 0 <= i < |summaries| ==>
        (KeyOpen(rows, LimitKey(summaries[i].policy.id, hard, period))
         <==> Reached(summaries[i], hard) || KeyOpen(old(rows), LimitKey(summaries[i].policy.id, hard, period)))
      ensures forall p: Budgets.Policy :: NoneOutdated(old(rows), p, period) ==> NoneOutdated(rows, p, period)
    {
      hide SoundRows, ConsistentRows, OpensRow, OpenedBy, KeyOpen, LimitKey, NoneOutdated, Reached;
      ghost var start := rows;
      for i := 0 to |summaries|
        invariant Sound() && (old(Valid()) && AtHome(summaries, home) ==> Valid())
        invariant forall j, hard :: 0 <= j < i ==>
          (KeyOpen(rows, LimitKey(summaries[j].policy.id, hard, period))
           <==> Reached(summaries[j], hard) || KeyOpen(start, LimitKey(summaries[j].policy.id, hard, period)))
        invariant forall j, hard :: i <= j < |summaries| ==>
          (KeyOpen(rows, LimitKey(summaries[j].policy.id, hard, period))
           <==> KeyOpen(start, LimitKey(summaries[j].policy.id, hard, period)))
        invariant forall p: Budgets.Policy :: NoneOutdated(start, p, period) ==> NoneOutdated(rows, p, period)
      {
        UpsertThresholds(summaries[i], period, now);
      }
    }

    method UpsertThresholds(summary: Budgets.Summary, period: string, now: int)
      requires Sound() && Proper(summary.policy.id) && period != ""
      modifies this
      ensures Sound() && (old(Valid()) && AtHomeOne(summary, home) ==> Valid())
      ensures forall hard ::
        KeyOpen(rows, LimitKey(summary.policy.id, hard, period))
        <==> Reached(summary, hard) || KeyOpen(old(rows), LimitKey(summary.policy.id, hard, period))
      ensures OnlyPolicy(old(rows), rows, summary.policy.id, period)
    {
      hide SoundRows, ConsistentRows, OpensRow, OpenedBy, LimitKey, Outdated, KeyOpen, NoneOutdated;
      if summary.softLimitReached {
        UpsertLimit(summary, false, period, now);
      }
      if summary.hardLimitReached {
        UpsertLimit(summary, true, period, now);
      }
    }

    method UpsertLimit(summary: Budgets.Summary, hard: bool, period: string, now: int)
      requires Sound() && Proper(summary.policy.id) && period != ""
      modifies this
      ensures Sound() && (old(Valid()) && AtHomeOne(summary, home) ==> Valid())
      ensures KeyOpen(rows, LimitKey(summary.policy.id, hard, period))
      ensures var args := Args(summary.policy.id, if hard then HardLimit else SoftLimit, Some(period), None, None);
        BuildKey(args).Key? && KeyOpen(rows, BuildKey(args).key)
      ensures OnlyLimit(old(rows), rows, summary.policy.id, hard, period)
      ensures OnlyPolicy(old(rows), rows, summary.policy.id, period)
    {
      hide SoundRows, ConsistentRows, ConsistentInput, AtHomeOne;
      if AtHomeOne(summary, home) {
        LimitInputConsistent(summary, hard, period, home);
      }
      LimitKeyBuilt(summary.policy.id, hard, period);
      ghost var before := rows;
      var id := Upsert(LimitInput(summary, hard, period), now);
      LimitOpened(before, rows, summary, hard, period, id, now);
    }

    /**
     * What happens to the alerts of budgets when a request is charged. Afterwards the alert of a limit is open in the
     * current period exactly when the limit is reached, or when an open alert under its key is one that no summary
     * closes; there is none of these if the rows under the keys of the limits say what their keys say. No open alert of
     * these policies belongs to another month.
     */
    method RefreshBudgetAlerts(summaries: seq<Budgets.Summary>, now: int) returns (period: string)
      requires Sound() && ProperSummaries(summaries)
      modifies this
      ensures period == Calendar.BudgetPeriod(now).key
      ensures Sound() && (old(Valid()) && AtHome(summaries, home) ==> Valid())
      ensures forall i, hard :: 0 <= i < |summaries| ==>
        var key := LimitKey(summaries[i].policy.id, hard, period);
        KeyOpen(rows, key) <==> Reached(summaries[i], hard) || Survives(old(rows), key, summaries, period)
      ensures forall i, hard :: 0 <= i < |summaries| && Recognised(old(rows), summaries[i], period) ==>
        (KeyOpen(rows, LimitKey(summaries[i].policy.id, hard, period)) <==> Reached(summaries[i], hard))
      ensures old(Valid()) && AtHome(summaries, home) ==>
        forall i :: 0 <= i < |summaries| ==> Recognised(old(rows), summaries[i], period)
      ensures forall i :: 0 <= i < |summaries| ==> OfThisMonth(rows, summaries[i].policy, now)
    {
      hide SoundRows, ConsistentRows, OutOfDate, LimitKey, Outdated, Synced, Survives, Recognised, KeyOpen,
          NoneOutdated, Reached, OfThisMonth, Calendar.BudgetPeriod;
      period := Calendar.BudgetPeriod(now).key;
      Calendar.PeriodKeysDiffer(now, now);
      ghost var before := rows;
      if Valid() && AtHome(summaries, home) {
        forall i | 0 <= i < |summaries|
          ensures Recognised(rows, summaries[i], period)
        {
          HomeRecognised(rows, home, summaries[i], period);
        }
      }
      NothingSynced(rows, summaries, period);
      for i := 0 to |summaries|
        invariant Sound() && (old(Valid()) ==> Valid())
        invariant Synced(before, rows, summaries, i, period)
      {
        ghost var here := rows;
        var _ := Sync(summaries[i].policy.id, Some(summaries[i]), period, now);
        SyncedNext(before, here, rows, summaries, i, period, now);
      }
      forall i, hard | 0 <= i < |summaries|
        ensures var key := LimitKey(summaries[i].policy.id, hard, period);
          KeyOpen(rows, key) <==> Survives(before, key, summaries, period)
        ensures Recognised(before, summaries[i], period) ==>
          (Survives(before, LimitKey(summaries[i].policy.id, hard, period), summaries, period)
           ==> Reached(summaries[i], hard))
      {
        SyncedOpen(before, rows, summaries, period, LimitKey(summaries[i].policy.id, hard, period));
        if Recognised(before, summaries[i], period) {
          RecognisedReached(before, summaries, i, hard, period);
        }
      }
      forall i | 0 <= i < |summaries|
        ensures NoneOutdated(rows, summaries[i].policy, period)
      {
        SyncedNoneOutdated(before, rows, summaries, period, i);
      }
      UpsertThresholdAlerts(summaries, period, now);
      forall i | 0 <= i < |summaries|
        ensures OfThisMonth(rows, summaries[i].policy, now)
      {
        NoneOfOtherMonths(rows, summaries[i].policy, now);
      }
    }

    /** A patch of the policy of an open alert keeps it open, although the limit of its key is not reached any more. */
    method PatchAndRefresh(id: nat, summary: Budgets.Summary, hard: bool, other: string, now: int)
      requires Sound() && Proper(summary.policy.id) && other != summary.policy.id
      requires HasKey(rows, id, LimitKey(summary.policy.id, hard, Calendar.BudgetPeriod(now).key)) && rows[id].open
      modifies this
      ensures Sound() && KeyOpen(rows, LimitKey(summary.policy.id, hard, Calendar.BudgetPeriod(now).key))
    {
      hide SoundRows, ConsistentRows, LimitKey, Survives, Updated, Recognised, Calendar.BudgetPeriod, OfThisMonth;
      ghost var before, period := rows, Calendar.BudgetPeriod(now).key;
      ghost var key := LimitKey(summary.policy.id, hard, period);
      var _ := Update(id, None, map["budgetPolicyId" := Text(other)], now);
      PatchedSurvives(before, id, key, other, [summary], period, now);
      assert rows == before[id := Updated(before[id], None, map["budgetPolicyId" := Text(other)], now)];
      var _ := RefreshBudgetAlerts([summary], now);
      assert [summary][0] == summary;
    }
  }

  predicate LacksPrice(alert: Alert, policy: string, provider: string, model: string) {
    && alert.open && alert.code == "budget.pricing-unavailable"
    && TextOf(alert.metadata, "budgetPolicyId") == Some(policy)
    && TextOf(alert.metadata, "provider") == Some(provider)
    && TextOf(alert.metadata, "model").Some?
    && AlertKeys.Text.Lower(TextOf(alert.metadata, "model").value) == AlertKeys.Text.Lower(model)
  }
}

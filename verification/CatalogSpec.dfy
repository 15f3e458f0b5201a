/**
 The workspace model catalog before and after its start-up repair, on values.

 A catalog row offers one model of one organization over one protocol; after the repair every row also
 names the provider connection it came from. A row that lacks any source field is "legacy". This module
 says what the repair must produce (`Repaired`) and proves what follows from that; the imperative
 repair itself is in module CatalogRepair.
 */
module CatalogSpec {

  import opened Shared

  datatype Status = Active | Archived

  type RowId = nat
  type ConnectionId = nat
  type OrganizationId = nat
  type WorkspaceId = nat

  datatype Row = Row(
    organization: OrganizationId,
    protocol: Protocol,
    model: string,
    title: string,
    status: Status,
    createdAt: int,
    sourceId: Option<ConnectionId>,
    sourceLabel: Option<string>,
    sourceProvider: Option<ProviderKind>)

  datatype ModelItem = ModelItem(id: string, title: string)

  datatype Connection = Connection(
    organization: Option<OrganizationId>,
    provider: ProviderKind,
    title: string,
    active: bool,
    createdAt: int,
    models: seq<ModelItem>)

  /** What the repair reads and never writes. */
  datatype Environment = Environment(
    connections: map<ConnectionId, Connection>,
    workspaces: map<WorkspaceId, OrganizationId>)

  /** What the repair writes: the catalog, the workspace assignments and the connection mapping. */
  datatype Tables = Tables(
    rows: map<RowId, Row>,
    assignments: set<(WorkspaceId, RowId)>,
    mapped: set<(ConnectionId, RowId)>)

  /** The columns of the unique index that the repair installs. */
  datatype Key = Key(organization: OrganizationId, protocol: Protocol, model: string, source: ConnectionId)

  function RoutingProtocol(provider: ProviderKind): Protocol {
    if provider == Anthropic then AnthropicProtocol else OpenAiProtocol
  }

  predicate IsLegacy(row: Row) {
    row.sourceId.None? || row.sourceLabel.None? || row.sourceLabel == Some("") || row.sourceProvider.None?
  }

  predicate Sourced(row: Row) {
    row.sourceId.Some? && row.sourceLabel.Some? && row.sourceProvider.Some?
  }

  function KeyWith(row: Row, source: ConnectionId): Key {
    Key(row.organization, row.protocol, row.model, source)
  }

  function KeyOf(row: Row): Key
    requires Sourced(row)
  {
    KeyWith(row, row.sourceId.value)
  }

  function WithSource(row: Row, source: ConnectionId, connection: Connection): Row {
    row.(sourceId := Some(source), sourceLabel := Some(connection.title), sourceProvider := Some(connection.provider))
  }

  predicate Offers(connection: Connection, model: string) {
    exists i :: 0 <= i < |connection.models| && connection.models[i].id == model
  }

  /** A connection that the mapping table links to the row; its organization need not be the row's. */
  predicate IsMappedCandidate(env: Environment, mapped: set<(ConnectionId, RowId)>, id: RowId, row: Row,
                              c: ConnectionId) {
    && (c, id) in mapped
    && c in env.connections
    && env.connections[c].organization.Some?
    && RoutingProtocol(env.connections[c].provider) == row.protocol
  }

  /** A connection of the row's organization, active or not, configured for the row's model. */
  predicate IsDiscoveredCandidate(env: Environment, row: Row, c: ConnectionId) {
    && c in env.connections
    && env.connections[c].organization == Some(row.organization)
    && RoutingProtocol(env.connections[c].provider) == row.protocol
    && Offers(env.connections[c], row.model)
  }

  /** The connections a row is to be sourced from: its own, or for a legacy row every candidate. */
  function Sources(env: Environment, t: Tables, id: RowId): set<ConnectionId>
    requires id in t.rows
  {
    var row := t.rows[id];
    if IsLegacy(row) then
      set c | c in env.connections
          && (IsMappedCandidate(env, t.mapped, id, row, c) || IsDiscoveredCandidate(env, row, c))
    else
      {row.sourceId.value}
  }

  /** Mapped candidates come before discovered ones, then the older connection, then the smaller id. */
  predicate Precedes(env: Environment, t: Tables, id: RowId, a: ConnectionId, b: ConnectionId)
    requires id in t.rows && a in env.connections && b in env.connections
  {
    var mappedA := IsMappedCandidate(env, t.mapped, id, t.rows[id], a);
    var mappedB := IsMappedCandidate(env, t.mapped, id, t.rows[id], b);
    if mappedA != mappedB then mappedA
    else if env.connections[a].createdAt != env.connections[b].createdAt then
      env.connections[a].createdAt < env.connections[b].createdAt
    else a < b
  }

  /** The source that the row itself keeps; the other sources get rows of their own. */
  ghost predicate Owns(env: Environment, t: Tables, id: RowId, c: ConnectionId)
    requires id in t.rows
  {
    && c in Sources(env, t, id)
    && (IsLegacy(t.rows[id]) ==>
          forall d :: d in Sources(env, t, id) && d != c ==> Precedes(env, t, id, c, d))
  }

  /** The row that source `c` of row `id` asks for. */
  function SourcedRow(env: Environment, t: Tables, id: RowId, c: ConnectionId): Row
    requires id in t.rows && c in Sources(env, t, id)
  {
    if IsLegacy(t.rows[id]) then WithSource(t.rows[id], c, env.connections[c]) else t.rows[id]
  }

  predicate IsDiscoveredKey(env: Environment, k: Key) {
    && k.source in env.connections
    && var connection := env.connections[k.source];
       && connection.active
       && connection.organization == Some(k.organization)
       && RoutingProtocol(connection.provider) == k.protocol
       && Offers(connection, k.model)
  }

  /** The row inserted for an active discovered source that no row covers. */
  ghost predicate IsDiscoveredRow(env: Environment, now: int, row: Row) {
    && Sourced(row)
    && IsDiscoveredKey(env, KeyOf(row))
    && row.status == Active && row.createdAt == now
    && row.sourceLabel == Some(env.connections[row.sourceId.value].title)
    && row.sourceProvider == Some(env.connections[row.sourceId.value].provider)
    && ModelItem(row.model, row.title) in env.connections[row.sourceId.value].models
  }

  /** Some row already asks for key `k`. */
  ghost predicate Inherited(env: Environment, t: Tables, k: Key) {
    exists id, c :: id in t.rows && c in Sources(env, t, id) && KeyWith(t.rows[id], c) == k
  }

  /** Some row that workspace `w` is assigned to asks for key `k`. */
  ghost predicate Carried(env: Environment, t: Tables, w: WorkspaceId, k: Key) {
    exists id, c :: id in t.rows && c in Sources(env, t, id) && KeyWith(t.rows[id], c) == k && (w, id) in t.assignments
  }

  predicate ReferencesHold(t: Tables) {
    forall a :: a in t.assignments ==> a.1 in t.rows
  }

  predicate AllSourced(t: Tables) {
    forall id :: id in t.rows ==> Sourced(t.rows[id])
  }

  predicate UniqueKeys(t: Tables)
    requires AllSourced(t)
  {
    forall i, j :: i in t.rows && j in t.rows && KeyOf(t.rows[i]) == KeyOf(t.rows[j]) ==> i == j
  }

  ghost predicate HasKey(t: Tables, k: Key)
    requires AllSourced(t)
  {
    exists id :: id in t.rows && KeyOf(t.rows[id]) == k
  }

  /** Workspace `w` may use key `k`. */
  ghost predicate HasAccess(t: Tables, w: WorkspaceId, k: Key)
    requires AllSourced(t)
  {
    exists id :: id in t.rows && KeyOf(t.rows[id]) == k && (w, id) in t.assignments
  }

  function ExactMapping(rows: map<RowId, Row>): set<(ConnectionId, RowId)> {
    set id | id in rows && rows[id].sourceId.Some? :: (rows[id].sourceId.value, id)
  }

  predicate CreatedBefore(a: Row, i: RowId, b: Row, j: RowId) {
    a.createdAt < b.createdAt || (a.createdAt == b.createdAt && i < j)
  }

  /** The keys of `t'` are those asked for by the rows of `t` and those of active discovered sources. */
  ghost predicate KeysExact(env: Environment, t: Tables, t': Tables)
    requires AllSourced(t')
  {
    forall k :: HasKey(t', k) <==> Inherited(env, t, k) || IsDiscoveredKey(env, k)
  }

  /** Access is carried over, and granted to the whole organization for newly discovered keys only. */
  ghost predicate AccessExact(env: Environment, t: Tables, t': Tables)
    requires AllSourced(t')
  {
    forall w, k :: HasAccess(t', w, k) <==>
      || Carried(env, t, w, k)
      || (IsDiscoveredKey(env, k) && !Inherited(env, t, k) && w in env.workspaces
          && env.workspaces[w] == k.organization)
  }

  /** A row of `t'` with an id of `t` is that row with its own source filled in. */
  ghost predicate KeptRowsPatched(env: Environment, t: Tables, t': Tables) {
    forall n :: n in t'.rows && n in t.rows ==>
      exists c :: Owns(env, t, n, c) && t'.rows[n] == SourcedRow(env, t, n, c)
  }

  /** A row of `t'` with a new id is a copy of a legacy row for another source, or a discovered row. */
  ghost predicate NewRowsExplained(env: Environment, now: int, t: Tables, t': Tables) {
    forall n :: n in t'.rows && n !in t.rows ==>
      || (exists id, c ::
           id in t.rows && IsLegacy(t.rows[id]) && c in Sources(env, t, id) && t'.rows[n] == SourcedRow(env, t, id, c))
      || (IsDiscoveredRow(env, now, t'.rows[n]) && !Inherited(env, t, KeyOf(t'.rows[n])))
  }

  /** Of the rows that share a key, the earliest stays. */
  ghost predicate EarliestKept(env: Environment, t: Tables, t': Tables)
    requires AllSourced(t')
  {
    forall n, id, c ::
        n in t'.rows && id in t.rows && Owns(env, t, id, c) && KeyWith(t.rows[id], c) == KeyOf(t'.rows[n]) ==>
      n == id || CreatedBefore(t'.rows[n], n, t.rows[id], id)
  }

  /** What one successful repair of `t` at time `now` leaves behind. */
  ghost predicate Repaired(env: Environment, now: int, t: Tables, t': Tables) {
    && ReferencesHold(t')
    && AllSourced(t')
    && UniqueKeys(t')
    && t'.mapped == ExactMapping(t'.rows)
    && KeysExact(env, t, t')
    && AccessExact(env, t, t')
    && KeptRowsPatched(env, t, t')
    && NewRowsExplained(env, now, t, t')
    && EarliestKept(env, t, t')
  }

  /** The repair throws exactly when some legacy row has no candidate. */
  ghost predicate Repairable(env: Environment, t: Tables) {
    forall id :: id in t.rows ==> Sources(env, t, id) != {}
  }

  predicate SameFamily(a: Row, b: Row) {
    a.organization == b.organization && a.protocol == b.protocol && a.model == b.model
  }

  lemma AccessWitness(t: Tables, w: WorkspaceId, k: Key) returns (id: RowId)
    requires AllSourced(t) && HasAccess(t, w, k)
    ensures id in t.rows && KeyOf(t.rows[id]) == k && (w, id) in t.assignments
  {
    id :| id in t.rows && KeyOf(t.rows[id]) == k && (w, id) in t.assignments;
  }

  /**
   No access is lost: a workspace assigned to a row is assigned afterwards to a row of the same
   organization, protocol and model for every source of that row, hence for its own source when it had
   one and for each candidate when it had none.
   */
  lemma AccessPreserved(env: Environment, now: int, t: Tables, t': Tables, w: WorkspaceId, id: RowId, c: ConnectionId)
    requires Repaired(env, now, t, t')
    requires (w, id) in t.assignments && id in t.rows && c in Sources(env, t, id)
    ensures exists id' :: id' in t'.rows && (w, id') in t'.assignments
                          && SameFamily(t'.rows[id'], t.rows[id]) && t'.rows[id'].sourceId == Some(c)
  {
    var k := KeyWith(t.rows[id], c);
    assert Carried(env, t, w, k);
    assert HasAccess(t', w, k);
    var id' := AccessWitness(t', w, k);
  }

  /** No access is invented, except to models of the workspace's own organization that had no row at all. */
  lemma AccessNotInvented(env: Environment, now: int, t: Tables, t': Tables, w: WorkspaceId, id': RowId)
    requires Repaired(env, now, t, t')
    requires (w, id') in t'.assignments
    ensures id' in t'.rows
    ensures
      || (exists id :: id in t.rows && (w, id) in t.assignments && SameFamily(t'.rows[id'], t.rows[id]))
      || (w in env.workspaces && env.workspaces[w] == t'.rows[id'].organization
          && IsDiscoveredKey(env, KeyOf(t'.rows[id'])) && !Inherited(env, t, KeyOf(t'.rows[id'])))
  {
    var k := KeyOf(t'.rows[id']);
    assert HasAccess(t', w, k);
    if Carried(env, t, w, k) {
      var id, c :| id in t.rows && c in Sources(env, t, id) && KeyWith(t.rows[id], c) == k && (w, id) in t.assignments;
      assert SameFamily(t'.rows[id'], t.rows[id]);
    }
  }

  /** Every (organization, protocol, model) of the old catalog is still offered. */
  lemma FamiliesPreserved(env: Environment, now: int, t: Tables, t': Tables, id: RowId)
    requires Repairable(env, t) && Repaired(env, now, t, t')
    requires id in t.rows
    ensures exists id' :: id' in t'.rows && SameFamily(t'.rows[id'], t.rows[id])
  {
    var c :| c in Sources(env, t, id);
    var k := KeyWith(t.rows[id], c);
    assert Inherited(env, t, k);
    assert HasKey(t', k);
    var id' :| id' in t'.rows && KeyOf(t'.rows[id']) == k;
    assert SameFamily(t'.rows[id'], t.rows[id]);
  }

  /** Every active discovered source has exactly one row, and the mapping table lists it. */
  lemma DiscoveredSourcesCovered(env: Environment, now: int, t: Tables, t': Tables, k: Key)
    requires Repaired(env, now, t, t') && IsDiscoveredKey(env, k)
    ensures exists id :: id in t'.rows && KeyOf(t'.rows[id]) == k && (k.source, id) in t'.mapped
                         && forall j :: j in t'.rows && KeyOf(t'.rows[j]) == k ==> j == id
  {
    assert HasKey(t', k);
    var id :| id in t'.rows && KeyOf(t'.rows[id]) == k;
    assert (t'.rows[id].sourceId.value, id) in t'.mapped;
  }

  predicate LabelsPresent(env: Environment) {
    forall c :: c in env.connections ==> env.connections[c].title != ""
  }

  lemma NoLegacyRowsLeft(env: Environment, now: int, t: Tables, t': Tables, n: RowId)
    requires LabelsPresent(env) && Repaired(env, now, t, t')
    requires n in t'.rows
    ensures !IsLegacy(t'.rows[n])
  {
    if n in t.rows {
      var c :| Owns(env, t, n, c) && t'.rows[n] == SourcedRow(env, t, n, c);
    } else if exists id, c ::
        id in t.rows && IsLegacy(t.rows[id]) && c in Sources(env, t, id) && t'.rows[n] == SourcedRow(env, t, id, c) {
      var id, c :| id in t.rows && IsLegacy(t.rows[id]) && c in Sources(env, t, id)
          && t'.rows[n] == SourcedRow(env, t, id, c);
    }
  }

  /** On a settled catalog a key is asked for exactly when a row has it. */
  lemma SettledKeys(env: Environment, t: Tables, k: Key)
    requires AllSourced(t) && forall n :: n in t.rows ==> !IsLegacy(t.rows[n])
    ensures Inherited(env, t, k) <==> HasKey(t, k)
    ensures forall w :: Carried(env, t, w, k) <==> HasAccess(t, w, k)
  {
    forall id | id in t.rows
      ensures Sources(env, t, id) == {t.rows[id].sourceId.value}
    {
    }
    if HasKey(t, k) {
      var id :| id in t.rows && KeyOf(t.rows[id]) == k;
      assert t.rows[id].sourceId.value in Sources(env, t, id);
    }
    forall w | HasAccess(t, w, k)
      ensures Carried(env, t, w, k)
    {
      var id := AccessWitness(t, w, k);
      assert t.rows[id].sourceId.value in Sources(env, t, id);
    }
  }

  /** The rows of a repaired catalog survive a second repair untouched. */
  lemma RowsStable(env: Environment, now: int, now': int, t: Tables, t': Tables, t'': Tables)
    requires LabelsPresent(env) && Repaired(env, now, t, t') && Repaired(env, now', t', t'')
    ensures t''.rows == t'.rows
  {
    forall n | n in t'.rows
      ensures !IsLegacy(t'.rows[n]) && Owns(env, t', n, t'.rows[n].sourceId.value)
    {
      NoLegacyRowsLeft(env, now, t, t', n);
    }
    forall n | n in t''.rows
      ensures n in t'.rows && t''.rows[n] == t'.rows[n]
    {
      var k := KeyOf(t''.rows[n]);
      SettledKeys(env, t', k);
      assert HasKey(t'', k);
      assert HasKey(t', k) by {
        if IsDiscoveredKey(env, k) { assert HasKey(t', k); }
      }
      if n in t'.rows {
        var c :| Owns(env, t', n, c) && t''.rows[n] == SourcedRow(env, t', n, c);
      } else {
        assert false;
      }
    }
    forall n | n in t'.rows
      ensures n in t''.rows
    {
      var k := KeyOf(t'.rows[n]);
      SettledKeys(env, t', k);
      assert HasKey(t', k);
      assert HasKey(t'', k);
      var m :| m in t''.rows && KeyOf(t''.rows[m]) == k;
      assert m == n;
    }
  }

  /** Idempotence: a second repair with unchanged connections changes nothing at all. */
  lemma RepairIdempotent(env: Environment, now: int, now': int, t: Tables, t': Tables, t'': Tables)
    requires LabelsPresent(env) && Repaired(env, now, t, t') && Repaired(env, now', t', t'')
    ensures Repairable(env, t')
    ensures t'' == t'
  {
    RowsStable(env, now, now', t, t', t'');
    forall n | n in t'.rows
      ensures !IsLegacy(t'.rows[n]) && t'.rows[n].sourceId.value in Sources(env, t', n)
    {
      NoLegacyRowsLeft(env, now, t, t', n);
    }
    forall a | a in t'.assignments || a in t''.assignments
      ensures a in t'.assignments && a in t''.assignments
    {
      var k := KeyOf(t'.rows[a.1]);
      SettledKeys(env, t', k);
      assert HasKey(t', k);
      assert (a.0, a.1) == a;
      if a in t'.assignments {
        assert HasAccess(t', a.0, k);
      } else {
        assert HasAccess(t'', a.0, k);
      }
      assert HasAccess(t'', a.0, k) <==> HasAccess(t', a.0, k);
      var i := AccessWitness(t', a.0, k);
      var j := AccessWitness(t'', a.0, k);
      assert i == a.1 && j == a.1;
    }
  }

  const EXAMPLE_ENVIRONMENT := Environment(
    map[0 := Connection(Some(7), OpenAi, "", true, 0, [ModelItem("m", "m")]),
        1 := Connection(Some(7), OpenAi, "spare", false, 0, [ModelItem("m", "m")])],
    map[])
  const EXAMPLE_ROW := Row(7, OpenAiProtocol, "m", "m", Active, 0, Some(0), Some(""), Some(OpenAi))
  const EXAMPLE_BEFORE := Tables(map[], {}, {})
  const EXAMPLE_AFTER := Tables(map[0 := EXAMPLE_ROW], {}, {(0, 0)})

  lemma ExampleOffers()
    ensures Offers(EXAMPLE_ENVIRONMENT.connections[0], "m") && Offers(EXAMPLE_ENVIRONMENT.connections[1], "m")
    ensures forall k :: IsDiscoveredKey(EXAMPLE_ENVIRONMENT, k) <==> k == KeyOf(EXAMPLE_ROW)
  {
    assert EXAMPLE_ENVIRONMENT.connections[0].models[0].id == "m";
    assert EXAMPLE_ENVIRONMENT.connections[1].models[0].id == "m";
  }

  /** The first repair inserts one row for the active connection. */
  lemma ExampleFirstRepair()
    ensures Repaired(EXAMPLE_ENVIRONMENT, 0, EXAMPLE_BEFORE, EXAMPLE_AFTER)
  {
    ExampleOffers();
    var rows := EXAMPLE_AFTER.rows;
    assert rows.Keys == {0} && rows[0] == EXAMPLE_ROW;
    assert ExactMapping(rows) == {(0, 0)};
    assert ModelItem("m", "m") in EXAMPLE_ENVIRONMENT.connections[0].models;
    assert HasKey(EXAMPLE_AFTER, KeyOf(EXAMPLE_ROW));
  }

  /**
   The label condition matters: a connection with an empty label leaves rows that are taken for legacy
   rows again, so the next repair copies them to a disabled connection of the same model. Here
   connection 0 is active with an empty label, connection 1 is disabled, and no row exists at first.
   */
  lemma EmptyLabelBreaksIdempotence(now: int, t: Tables)
    requires Repaired(EXAMPLE_ENVIRONMENT, now, EXAMPLE_AFTER, t)
    ensures Repaired(EXAMPLE_ENVIRONMENT, 0, EXAMPLE_BEFORE, EXAMPLE_AFTER)
    ensures t.rows != EXAMPLE_AFTER.rows
  {
    ExampleOffers();
    ExampleFirstRepair();
    assert 1 in Sources(EXAMPLE_ENVIRONMENT, EXAMPLE_AFTER, 0);
    var k := KeyWith(EXAMPLE_AFTER.rows[0], 1);
    assert Inherited(EXAMPLE_ENVIRONMENT, EXAMPLE_AFTER, k);
    assert HasKey(t, k);
  }
}

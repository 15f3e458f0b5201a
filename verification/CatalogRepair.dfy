/**
 The start-up repair of the model catalog, as one transaction over three tables: name a source for every
 legacy row and copy the row once per further source, insert a row for each uncovered active source,
 merge rows that share a key, and rebuild the mapping table.
 */
module CatalogRepair {
  import opened Shared
  import opened CatalogSpec

  /** Where each row of the filled catalog comes from: an old row and the source it is filled with. */
  type Origins = map<RowId, (RowId, ConnectionId)>

  /** For every old row and every source of it, the row to be produced. */
  type Plan = map<RowId, map<ConnectionId, Row>>

  ghost function FillPlan(env: Environment, t: Tables): Plan {
    map id | id in t.rows :: map c | c in Sources(env, t, id) :: SourcedRow(env, t, id, c)
  }

  function LegacyRows(t: Tables): set<RowId> {
    set id | id in t.rows && IsLegacy(t.rows[id])
  }

  /** Row `n` of `t'` is what the plan asks for old row `from.0` and source `from.1`, with that row's assignments. */
  ghost predicate Descends(plan: Plan, t: Tables, t': Tables, n: RowId, from: (RowId, ConnectionId)) {
    && n in t'.rows
    && from.0 in plan && from.1 in plan[from.0]
    && t'.rows[n] == plan[from.0][from.1]
    && forall w :: (w, n) in t'.assignments <==> (w, from.0) in t.assignments
  }

  ghost predicate Tracked(plan: Plan, t: Tables, t': Tables, origins: Origins) {
    forall n :: n in origins ==> Descends(plan, t, t', n, origins[n])
  }

  ghost predicate Untouched(t: Tables, t': Tables, todo: set<RowId>) {
    && todo <= t.rows.Keys
    && (forall id :: id in todo ==> id in t'.rows && t'.rows[id] == t.rows[id])
    && (forall id, w :: id in todo ==> ((w, id) in t'.assignments <==> (w, id) in t.assignments))
  }

  /** Old rows keep their id; only legacy rows have copies. */
  ghost predicate IdsKept(t: Tables, t': Tables, legacy: set<RowId>, origins: Origins, todo: set<RowId>) {
    && origins.Keys == t'.rows.Keys - todo
    && t.rows.Keys <= t'.rows.Keys
    && (forall id :: id in t.rows && id !in todo ==> origins[id].0 == id)
    && (forall n :: n in t'.rows && n !in t.rows && n !in todo ==> origins[n].0 in legacy)
  }

  /** Every row outside `todo` has a descendant per source, but for the `rest` of row `current`. */
  ghost predicate Complete(plan: Plan, origins: Origins, todo: set<RowId>, current: RowId, rest: seq<ConnectionId>) {
    forall id, c :: id in plan && id !in todo && c in plan[id] && !(id == current && c in rest)
        ==> Descendant(origins, id, c)
  }

  /**
   The state while legacy rows are being filled: rows of `todo` are as before, row `current` still
   lacks copies for the sources in `rest`, and everything else is done.
   */
  ghost predicate PartlyFilled(plan: Plan, legacy: set<RowId>, t: Tables, t': Tables, origins: Origins,
                               todo: set<RowId>, current: RowId, rest: seq<ConnectionId>)
  {
    && t'.mapped == t.mapped
    && ReferencesHold(t')
    && Untouched(t, t', todo)
    && Tracked(plan, t, t', origins)
    && IdsKept(t, t', legacy, origins, todo)
    && Complete(plan, origins, todo, current, rest)
  }

  ghost predicate Descendant(origins: Origins, id: RowId, c: ConnectionId) {
    exists n :: n in origins && origins[n] == (id, c)
  }

  ghost predicate OwnersKept(env: Environment, t: Tables, origins: Origins, todo: set<RowId>) {
    forall id :: id in t.rows && id !in todo ==> id in origins && Owns(env, t, id, origins[id].1)
  }

  ghost predicate Filled(env: Environment, t: Tables, t': Tables, origins: Origins) {
    && PartlyFilled(FillPlan(env, t), LegacyRows(t), t, t', origins, {}, 0, [])
    && OwnersKept(env, t, origins, {})
  }

  /** Every row of `t` with the workspaces of its organization, and nothing else, is added for `k`. */
  ghost predicate Extended(env: Environment, now: int, t: Tables, t': Tables)
    requires AllSourced(t)
  {
    && t'.mapped == t.mapped
    && ReferencesHold(t')
    && AllSourced(t')
    && (forall n :: n in t.rows ==> n in t'.rows && t'.rows[n] == t.rows[n])
    && (forall n, w :: n in t.rows ==> ((w, n) in t'.assignments <==> (w, n) in t.assignments))
    && (forall n :: n in t'.rows && n !in t.rows ==>
          && IsDiscoveredRow(env, now, t'.rows[n])
          && !HasKey(t, KeyOf(t'.rows[n]))
          && forall w :: (w, n) in t'.assignments
                <==> w in env.workspaces && env.workspaces[w] == t'.rows[n].organization)
    && (forall k :: HasKey(t', k) ==> HasKey(t, k) || IsDiscoveredKey(env, k))
  }

  /** Row `j` is no earlier row of the key of row `id`. */
  predicate Yields(t: Tables, id: RowId, j: RowId)
    requires AllSourced(t) && id in t.rows && j in t.rows
  {
    KeyOf(t.rows[j]) == KeyOf(t.rows[id]) ==> j == id || CreatedBefore(t.rows[id], id, t.rows[j], j)
  }

  predicate IsCanonical(t: Tables, id: RowId)
    requires AllSourced(t) && id in t.rows
  {
    forall j {:trigger Yields(t, id, j)} :: j in t.rows ==> Yields(t, id, j)
  }

  lemma CanonicalUnique(t: Tables, i: RowId, j: RowId)
    requires AllSourced(t) && i in t.rows && j in t.rows && KeyOf(t.rows[i]) == KeyOf(t.rows[j])
    requires IsCanonical(t, i) && IsCanonical(t, j)
    ensures i == j
  {
    assert Yields(t, i, j) && Yields(t, j, i);
  }

  /** Only the earliest row of each key is left, with the assignments of all of them. */
  ghost predicate Merged(t: Tables, t': Tables)
    requires AllSourced(t)
  {
    && t'.rows.Keys <= t.rows.Keys
    && (forall n :: n in t'.rows ==> t'.rows[n] == t.rows[n] && IsCanonical(t, n))
    && (forall n :: n in t.rows && IsCanonical(t, n) ==> n in t'.rows)
    && ReferencesHold(t')
    && forall n, w :: n in t'.rows ==>
         ((w, n) in t'.assignments
          <==> exists d :: d in t.rows && KeyOf(t.rows[d]) == KeyOf(t.rows[n]) && (w, d) in t.assignments)
  }

  lemma {:induction false} FreshIdExists(ids: set<RowId>)
    ensures exists id: RowId :: id !in ids
  {
    var bound := Above(ids);
    assert bound !in ids;
  }

  ghost function {:induction false} Above(ids: set<RowId>): (bound: RowId)
    ensures forall id :: id in ids ==> id < bound
    decreases |ids|
  {
    if ids == {} then 0 else
      var id :| id in ids;
      var rest := Above(ids - {id});
      assert forall j :: j in ids ==> j == id || j in ids - {id};
      if id < rest then rest else id + 1
  }

  /** Each key has a canonical row. */
  lemma CanonicalExists(t: Tables, id: RowId)
    requires AllSourced(t) && id in t.rows
    ensures exists c :: c in t.rows && KeyOf(t.rows[c]) == KeyOf(t.rows[id]) && IsCanonical(t, c)
  {
    var same := set j | j in t.rows && KeyOf(t.rows[j]) == KeyOf(t.rows[id]);
    var c := Earliest(t, same, id);
    forall j | j in t.rows
      ensures Yields(t, c, j)
    {
      assert KeyOf(t.rows[j]) == KeyOf(t.rows[id]) ==> j in same;
    }
  }

  lemma {:induction false} Earliest(t: Tables, ids: set<RowId>, id: RowId) returns (c: RowId)
    requires ids <= t.rows.Keys && id in ids
    ensures c in ids
    ensures forall j :: j in ids ==> j == c || CreatedBefore(t.rows[c], c, t.rows[j], j)
    decreases |ids|
  {
    if j :| j in ids && CreatedBefore(t.rows[j], j, t.rows[id], id) {
      c := Earliest(t, ids - {id}, j);
    } else {
      c := id;
    }
  }

  /** The new state after filling, extending, merging and remapping is the repaired one. */
  lemma PhasesRepair(env: Environment, now: int, t: Tables, filled: Tables, origins: Origins, extended: Tables,
                     merged: Tables, t': Tables)
    requires Filled(env, t, filled, origins)
    requires AllSourced(filled) && Extended(env, now, filled, extended)
    requires forall k :: IsDiscoveredKey(env, k) ==> HasKey(extended, k)
    requires Merged(extended, merged)
    requires t' == merged.(mapped := ExactMapping(merged.rows))
    ensures Repaired(env, now, t, t')
  {
    hide Filled, IsCanonical, KeysExact, AccessExact, KeptRowsPatched, NewRowsExplained, EarliestKept, IsDiscoveredKey,
        HasKey, KeyWith, Owns, CreatedBefore;
    MergedKeys(extended, merged);
    PhasesKeys(env, now, t, filled, origins, extended, merged, t');
    PhasesAccess(env, now, t, filled, origins, extended, merged, t');
    KeptRows(env, now, t, filled, origins, extended, t');
    NewRows(env, now, t, filled, origins, extended, t');
    PhasesEarliest(env, now, t, filled, origins, extended, merged, t');
  }

  lemma PhasesKeys(env: Environment, now: int, t: Tables, filled: Tables, origins: Origins, extended: Tables,
                   merged: Tables, t': Tables)
    requires Filled(env, t, filled, origins)
    requires AllSourced(filled) && Extended(env, now, filled, extended)
    requires forall k :: IsDiscoveredKey(env, k) ==> HasKey(extended, k)
    requires Merged(extended, merged) && t'.rows == merged.rows && AllSourced(t')
    ensures KeysExact(env, t, t')
  {
    hide Filled, IsCanonical, IsDiscoveredRow, IsDiscoveredKey, Inherited, HasAccess;
    MergedKeys(extended, merged);
    forall k
      ensures HasKey(t', k) <==> Inherited(env, t, k) || IsDiscoveredKey(env, k)
    {
      FilledKeys(env, t, filled, origins, k);
      ExtendedKeys(env, now, filled, extended, k);
      assert HasKey(t', k) <==> HasKey(merged, k);
    }
  }

  lemma PhasesAccess(env: Environment, now: int, t: Tables, filled: Tables, origins: Origins, extended: Tables,
                     merged: Tables, t': Tables)
    requires Filled(env, t, filled, origins)
    requires AllSourced(filled) && Extended(env, now, filled, extended)
    requires forall k :: IsDiscoveredKey(env, k) ==> HasKey(extended, k)
    requires Merged(extended, merged) && t'.rows == merged.rows && t'.assignments == merged.assignments
        && AllSourced(t')
    ensures AccessExact(env, t, t')
  {
    hide Filled, IsCanonical, IsDiscoveredRow, IsDiscoveredKey, Inherited, HasKey, Carried;
    MergedKeys(extended, merged);
    forall w: WorkspaceId, k
      ensures HasAccess(t', w, k) <==>
        || Carried(env, t, w, k)
        || (IsDiscoveredKey(env, k) && !Inherited(env, t, k) && w in env.workspaces
            && env.workspaces[w] == k.organization)
    {
      FilledKeys(env, t, filled, origins, k);
      FilledAccess(env, t, filled, origins, w, k);
      ExtendedAccess(env, now, filled, extended, w, k);
      assert HasAccess(t', w, k) <==> HasAccess(merged, w, k);
      assert HasAccess(merged, w, k) <==> HasAccess(extended, w, k);
    }
  }

  lemma PhasesEarliest(env: Environment, now: int, t: Tables, filled: Tables, origins: Origins, extended: Tables,
                       merged: Tables, t': Tables)
    requires Filled(env, t, filled, origins)
    requires AllSourced(filled) && Extended(env, now, filled, extended)
    requires Merged(extended, merged) && t'.rows == merged.rows && AllSourced(t')
    ensures EarliestKept(env, t, t')
  {
    hide Filled, Extended, IsCanonical, Owns, CreatedBefore;
    forall n, id, c | n in t'.rows && id in t.rows && Owns(env, t, id, c) && KeyWith(t.rows[id], c) == KeyOf(t'.rows[n])
      ensures n == id || CreatedBefore(t'.rows[n], n, t.rows[id], id)
    {
      EarliestKeptAt(env, now, t, filled, origins, extended, merged, n, id, c);
    }
  }

  lemma FilledFrom(env: Environment, t: Tables, filled: Tables, origins: Origins, n: RowId)
    requires Filled(env, t, filled, origins) && n in filled.rows
    ensures n in origins && origins[n].0 in t.rows && origins[n].1 in Sources(env, t, origins[n].0)
    ensures filled.rows[n] == SourcedRow(env, t, origins[n].0, origins[n].1)
    ensures forall w :: (w, n) in filled.assignments <==> (w, origins[n].0) in t.assignments
    ensures Sourced(filled.rows[n]) && KeyOf(filled.rows[n]) == KeyWith(t.rows[origins[n].0], origins[n].1)
    ensures n in t.rows ==> origins[n].0 == n && Owns(env, t, n, origins[n].1)
    ensures n !in t.rows ==> IsLegacy(t.rows[origins[n].0])
  {
    assert Descends(FillPlan(env, t), t, filled, n, origins[n]);
  }

  lemma FilledTo(env: Environment, t: Tables, filled: Tables, origins: Origins, id: RowId, c: ConnectionId)
      returns (n: RowId)
    requires Filled(env, t, filled, origins) && id in t.rows && c in Sources(env, t, id)
    ensures n in filled.rows && Sourced(filled.rows[n]) && KeyOf(filled.rows[n]) == KeyWith(t.rows[id], c)
    ensures forall w :: (w, n) in filled.assignments <==> (w, id) in t.assignments
  {
    assert c in FillPlan(env, t)[id];
    assert Descendant(origins, id, c);
    n :| n in origins && origins[n] == (id, c);
    FilledFrom(env, t, filled, origins, n);
  }

  lemma FilledSourced(env: Environment, t: Tables, filled: Tables, origins: Origins)
    requires Filled(env, t, filled, origins)
    ensures AllSourced(filled)
  {
    forall n | n in filled.rows
      ensures Sourced(filled.rows[n])
    {
      FilledFrom(env, t, filled, origins, n);
    }
  }

  lemma FilledKeys(env: Environment, t: Tables, filled: Tables, origins: Origins, k: Key)
    requires Filled(env, t, filled, origins) && AllSourced(filled)
    ensures HasKey(filled, k) <==> Inherited(env, t, k)
  {
    if HasKey(filled, k) {
      var n :| n in filled.rows && KeyOf(filled.rows[n]) == k;
      FilledFrom(env, t, filled, origins, n);
    }
    if Inherited(env, t, k) {
      var id, c :| id in t.rows && c in Sources(env, t, id) && KeyWith(t.rows[id], c) == k;
      var n := FilledTo(env, t, filled, origins, id, c);
    }
  }

  lemma FilledAccess(env: Environment, t: Tables, filled: Tables, origins: Origins, w: WorkspaceId, k: Key)
    requires Filled(env, t, filled, origins) && AllSourced(filled)
    ensures HasAccess(filled, w, k) <==> Carried(env, t, w, k)
  {
    if HasAccess(filled, w, k) {
      var n := AccessWitness(filled, w, k);
      FilledFrom(env, t, filled, origins, n);
    }
    if Carried(env, t, w, k) {
      var id, c :| id in t.rows && c in Sources(env, t, id) && KeyWith(t.rows[id], c) == k && (w, id) in t.assignments;
      var n := FilledTo(env, t, filled, origins, id, c);
      assert (w, n) in filled.assignments;
    }
  }

  lemma ExtendedKeys(env: Environment, now: int, t: Tables, t': Tables, k: Key)
    requires AllSourced(t) && Extended(env, now, t, t')
    ensures HasKey(t, k) ==> HasKey(t', k)
  {
    if HasKey(t, k) {
      var n :| n in t.rows && KeyOf(t.rows[n]) == k;
      assert n in t'.rows && KeyOf(t'.rows[n]) == k;
    }
  }

  lemma ExtendedAccess(env: Environment, now: int, t: Tables, t': Tables, w: WorkspaceId, k: Key)
    requires AllSourced(t) && Extended(env, now, t, t')
    requires forall k :: IsDiscoveredKey(env, k) ==> HasKey(t', k)
    ensures HasAccess(t', w, k) <==>
      || HasAccess(t, w, k)
      || (IsDiscoveredKey(env, k) && !HasKey(t, k) && w in env.workspaces && env.workspaces[w] == k.organization)
  {
    if HasAccess(t', w, k) {
      var n := AccessWitness(t', w, k);
      if n in t.rows { assert HasAccess(t, w, k); }
    }
    if HasAccess(t, w, k) {
      var n := AccessWitness(t, w, k);
      assert n in t'.rows && (w, n) in t'.assignments;
    } else if IsDiscoveredKey(env, k) && !HasKey(t, k) {
      var n :| n in t'.rows && KeyOf(t'.rows[n]) == k;
      assert n !in t.rows;
    }
  }

  lemma MergedKeys(t: Tables, t': Tables)
    requires AllSourced(t) && Merged(t, t')
    ensures AllSourced(t') && UniqueKeys(t')
    ensures forall k :: HasKey(t', k) <==> HasKey(t, k)
    ensures forall w, k :: ReferencesHold(t) ==> (HasAccess(t', w, k) <==> HasAccess(t, w, k))
  {
    forall i, j | i in t'.rows && j in t'.rows && KeyOf(t'.rows[i]) == KeyOf(t'.rows[j])
      ensures i == j
    {
      CanonicalUnique(t, i, j);
    }
    forall k | HasKey(t, k)
      ensures HasKey(t', k)
    {
      var id :| id in t.rows && KeyOf(t.rows[id]) == k;
      CanonicalExists(t, id);
    }
    forall k | HasKey(t', k)
      ensures HasKey(t, k)
    {
      var id :| id in t'.rows && KeyOf(t'.rows[id]) == k;
      assert id in t.rows;
    }
    forall w: WorkspaceId, k | HasAccess(t, w, k)
      ensures HasAccess(t', w, k)
    {
      var d := AccessWitness(t, w, k);
      CanonicalExists(t, d);
      var c :| c in t.rows && KeyOf(t.rows[c]) == k && IsCanonical(t, c);
      assert (w, c) in t'.assignments;
    }
    forall w: WorkspaceId, k | HasAccess(t', w, k)
      ensures HasAccess(t, w, k)
    {
      var n := AccessWitness(t', w, k);
      var d :| d in t.rows && KeyOf(t.rows[d]) == KeyOf(t.rows[n]) && (w, d) in t.assignments;
    }
  }

  lemma KeptRows(env: Environment, now: int, t: Tables, filled: Tables, origins: Origins, extended: Tables, t': Tables)
    requires Filled(env, t, filled, origins)
    requires AllSourced(filled) && Extended(env, now, filled, extended)
    requires forall n :: n in t'.rows ==> n in extended.rows && t'.rows[n] == extended.rows[n]
    ensures KeptRowsPatched(env, t, t')
  {
    forall n | n in t'.rows && n in t.rows
      ensures exists c :: Owns(env, t, n, c) && t'.rows[n] == SourcedRow(env, t, n, c)
    {
      FilledFrom(env, t, filled, origins, n);
      assert Owns(env, t, n, origins[n].1);
    }
  }

  lemma NewRows(env: Environment, now: int, t: Tables, filled: Tables, origins: Origins, extended: Tables, t': Tables)
    requires Filled(env, t, filled, origins)
    requires AllSourced(filled) && Extended(env, now, filled, extended)
    requires forall n :: n in t'.rows ==> n in extended.rows && t'.rows[n] == extended.rows[n]
    ensures NewRowsExplained(env, now, t, t')
  {
    forall n | n in t'.rows && n !in t.rows
      ensures
        || (exists id, c ::
             id in t.rows && IsLegacy(t.rows[id]) && c in Sources(env, t, id)
             && t'.rows[n] == SourcedRow(env, t, id, c))
        || (IsDiscoveredRow(env, now, t'.rows[n]) && !Inherited(env, t, KeyOf(t'.rows[n])))
    {
      if n in filled.rows {
        FilledFrom(env, t, filled, origins, n);
      } else {
        FilledKeys(env, t, filled, origins, KeyOf(t'.rows[n]));
      }
    }
  }

  lemma EarliestKeptAt(env: Environment, now: int, t: Tables, filled: Tables, origins: Origins, extended: Tables,
                       merged: Tables, n: RowId, id: RowId, c: ConnectionId)
    requires Filled(env, t, filled, origins)
    requires AllSourced(filled) && Extended(env, now, filled, extended)
    requires Merged(extended, merged)
    requires n in merged.rows && id in t.rows && Owns(env, t, id, c) && KeyWith(t.rows[id], c) == KeyOf(merged.rows[n])
    ensures n == id || CreatedBefore(merged.rows[n], n, t.rows[id], id)
  {
    FilledFrom(env, t, filled, origins, id);
    OwnerUnique(env, t, id, c, origins[id].1);
    assert KeyOf(extended.rows[id]) == KeyOf(extended.rows[n]);
    assert Yields(extended, n, id);
  }

  lemma OwnerUnique(env: Environment, t: Tables, id: RowId, c: ConnectionId, d: ConnectionId)
    requires id in t.rows && Owns(env, t, id, c) && Owns(env, t, id, d)
    ensures c == d
  {
  }

  /** The assignments of row `id`, for row `added`. */
  function CopiedAssignments(t: Tables, id: RowId, added: RowId): set<(WorkspaceId, RowId)> {
    set a | a in t.assignments && a.1 == id :: (a.0, added)
  }

  lemma CopiedAssignmentsExact(t: Tables, id: RowId, added: RowId)
    ensures forall a :: a in CopiedAssignments(t, id, added) ==> a.1 == added
    ensures forall w: WorkspaceId :: (w, added) in CopiedAssignments(t, id, added) <==> (w, id) in t.assignments
  {
    forall w: WorkspaceId | (w, id) in t.assignments
      ensures (w, added) in CopiedAssignments(t, id, added)
    {
      var a := (w, id);
      assert a in t.assignments && a.1 == id && (a.0, added) == (w, added);
    }
  }

  lemma CompleteStart(plan: Plan, origins: Origins, todo: set<RowId>, id: RowId, sorted: seq<ConnectionId>)
    requires Complete(plan, origins, todo, 0, [])
    requires id in plan && forall c :: c in plan[id] ==> c in sorted
    ensures Complete(plan, origins, todo - {id}, id, sorted)
  {
  }

  lemma CompleteStep(plan: Plan, origins: Origins, todo: set<RowId>, id: RowId, rest: seq<ConnectionId>, n: RowId)
    requires Complete(plan, origins, todo, id, rest)
    requires rest != [] && n !in origins
    ensures Complete(plan, origins[n := (id, rest[0])], todo, id, rest[1..])
  {
    var origins' := origins[n := (id, rest[0])];
    assert rest == [rest[0]] + rest[1..];
    forall i, c | i in plan && i !in todo && c in plan[i] && !(i == id && c in rest[1..])
      ensures Descendant(origins', i, c)
    {
      if i == id && c in rest {
        assert origins'[n] == (i, c);
      } else {
        assert Descendant(origins, i, c);
        var m :| m in origins && origins[m] == (i, c);
        assert origins'[m] == (i, c);
      }
    }
  }

  lemma TrackedStep(plan: Plan, t: Tables, t1: Tables, t2: Tables, origins: Origins, n: RowId,
                    from: (RowId, ConnectionId))
    requires Tracked(plan, t, t1, origins)
    requires n !in origins && Descends(plan, t, t2, n, from)
    requires forall m :: m in origins ==> m in t2.rows && (m in t1.rows ==> t2.rows[m] == t1.rows[m])
    requires forall m, w :: m in origins ==> ((w, m) in t2.assignments <==> (w, m) in t1.assignments)
    ensures Tracked(plan, t, t2, origins[n := from])
  {
    forall m | m in origins
      ensures Descends(plan, t, t2, m, origins[m])
    {
      assert Descends(plan, t, t1, m, origins[m]);
    }
  }

  /** Filling in the row's own source is one step towards the filled catalog. */
  lemma PatchStep(plan: Plan, legacy: set<RowId>, t: Tables, t1: Tables, origins: Origins, todo: set<RowId>, id: RowId,
                  sorted: seq<ConnectionId>)
    requires PartlyFilled(plan, legacy, t, t1, origins, todo, 0, [])
    requires id in todo && id in plan
    requires sorted != [] && forall c :: c in sorted <==> c in plan[id]
    ensures sorted[0] in plan[id]
    ensures PartlyFilled(plan, legacy, t, t1.(rows := t1.rows[id := plan[id][sorted[0]]]),
                         origins[id := (id, sorted[0])], todo - {id}, id, sorted[1..])
  {
    assert sorted[0] in plan[id];
    var t2 := t1.(rows := t1.rows[id := plan[id][sorted[0]]]);
    CompleteStart(plan, origins, todo, id, sorted);
    CompleteStep(plan, origins, todo - {id}, id, sorted, id);
    TrackedStep(plan, t, t1, t2, origins, id, (id, sorted[0]));
  }

  lemma CopyAssigned(t: Tables, t1: Tables, id: RowId, added: RowId)
    requires ReferencesHold(t1) && added !in t1.rows
    ensures forall w: WorkspaceId, n: RowId ::
      (w, n) in t1.assignments + CopiedAssignments(t, id, added)
      <==> if n == added then (w, id) in t.assignments else (w, n) in t1.assignments
    ensures forall a :: a in t1.assignments + CopiedAssignments(t, id, added) ==> a.1 in t1.rows || a.1 == added
  {
    CopiedAssignmentsExact(t, id, added);
    hide CopiedAssignments;
    forall w: WorkspaceId
      ensures (w, added) !in t1.assignments
    {
      var a := (w, added);
      assert a.1 !in t1.rows;
    }
  }

  lemma CopyTracked(plan: Plan, t: Tables, t1: Tables, t2: Tables, origins: Origins, added: RowId,
                    from: (RowId, ConnectionId))
    requires Tracked(plan, t, t1, origins) && origins.Keys <= t1.rows.Keys
    requires added !in t1.rows && from.0 in plan && from.1 in plan[from.0]
    requires t2.rows == t1.rows[added := plan[from.0][from.1]]
    requires forall w: WorkspaceId, n: RowId ::
      (w, n) in t2.assignments <==> if n == added then (w, from.0) in t.assignments else (w, n) in t1.assignments
    ensures Tracked(plan, t, t2, origins[added := from])
  {
    assert Descends(plan, t, t2, added, from);
    hide Descends;
    TrackedStep(plan, t, t1, t2, origins, added, from);
  }

  lemma CopyKeeps(legacy: set<RowId>, t: Tables, t1: Tables, t2: Tables, origins: Origins, todo: set<RowId>,
                  added: RowId, from: (RowId, ConnectionId))
    requires Untouched(t, t1, todo) && IdsKept(t, t1, legacy, origins, todo)
    requires added !in t1.rows && from.0 in legacy
    requires t2.rows.Keys == t1.rows.Keys + {added} && forall n :: n in t1.rows ==> t2.rows[n] == t1.rows[n]
    requires forall w: WorkspaceId, n: RowId :: n != added ==> ((w, n) in t2.assignments <==> (w, n) in t1.assignments)
    ensures Untouched(t, t2, todo) && IdsKept(t, t2, legacy, origins[added := from], todo)
    ensures origins.Keys <= t1.rows.Keys
  {
  }

  /** So is inserting the copy for one further source, with the row's assignments. */
  lemma CopyStep(plan: Plan, legacy: set<RowId>, t: Tables, t1: Tables, origins: Origins, todo: set<RowId>, id: RowId,
                 rest: seq<ConnectionId>, added: RowId)
    requires PartlyFilled(plan, legacy, t, t1, origins, todo, id, rest)
    requires id in legacy && id in plan && id in t.rows && id !in todo
    requires rest != [] && rest[0] in plan[id]
    requires added !in t1.rows
    ensures PartlyFilled(plan, legacy, t,
                         Tables(t1.rows[added := plan[id][rest[0]]], t1.assignments + CopiedAssignments(t, id, added),
                                t1.mapped), origins[added := (id, rest[0])], todo, id, rest[1..])
  {
    var t2 := Tables(t1.rows[added := plan[id][rest[0]]], t1.assignments + CopiedAssignments(t, id, added), t1.mapped);
    hide Complete, Tracked, CopiedAssignments, Untouched, IdsKept;
    CopyAssigned(t, t1, id, added);
    CopyKeeps(legacy, t, t1, t2, origins, todo, added, (id, rest[0]));
    CopyTracked(plan, t, t1, t2, origins, added, (id, rest[0]));
    CompleteStep(plan, origins, todo, id, rest, added);
  }

  /** The order in which candidates are tried: priority, age of the connection, id. */
  predicate ComesFirst(env: Environment, priorities: map<ConnectionId, nat>, a: ConnectionId, b: ConnectionId)
    requires a in priorities && b in priorities && priorities.Keys <= env.connections.Keys
  {
    if priorities[a] != priorities[b] then priorities[a] < priorities[b]
    else if env.connections[a].createdAt != env.connections[b].createdAt then
      env.connections[a].createdAt < env.connections[b].createdAt
    else a < b
  }

  ghost predicate IsSorted(env: Environment, priorities: map<ConnectionId, nat>, s: seq<ConnectionId>)
    requires priorities.Keys <= env.connections.Keys
  {
    && (forall c :: c in s ==> c in priorities)
    && forall i, j :: 0 <= i < j < |s| ==> ComesFirst(env, priorities, s[i], s[j])
  }

  function InsertCandidate(env: Environment, priorities: map<ConnectionId, nat>, c: ConnectionId,
                           s: seq<ConnectionId>): (r: seq<ConnectionId>)
    requires priorities.Keys <= env.connections.Keys
    requires c in priorities && c !in s && IsSorted(env, priorities, s)
    ensures IsSorted(env, priorities, r)
    ensures forall d :: d in r <==> d == c || d in s
  {
    if s == [] || ComesFirst(env, priorities, c, s[0]) then
      [c] + s
    else
      var rest := InsertCandidate(env, priorities, c, s[1..]);
      assert forall d :: d in s <==> d == s[0] || d in s[1..];
      assert forall d :: d in s[1..] ==> ComesFirst(env, priorities, s[0], d);
      assert forall j :: 0 <= j < |rest| ==> rest[j] in rest;
      [s[0]] + rest
  }

  method SortCandidates(env: Environment, priorities: map<ConnectionId, nat>) returns (sorted: seq<ConnectionId>)
    requires priorities.Keys <= env.connections.Keys
    ensures IsSorted(env, priorities, sorted)
    ensures forall c :: c in sorted <==> c in priorities
  {
    sorted := [];
    var todo := priorities.Keys;
    while todo != {}
      invariant todo <= priorities.Keys
      invariant IsSorted(env, priorities, sorted)
      invariant forall c :: c in sorted <==> c in priorities.Keys - todo
      decreases |todo|
    {
      var c :| c in todo;
      sorted := InsertCandidate(env, priorities, c, sorted);
      todo := todo - {c};
    }
  }

  /** The candidates of a legacy row in the order in which they are tried. */
  method CollectCandidates(env: Environment, t: Tables, id: RowId) returns (sorted: seq<ConnectionId>)
    requires id in t.rows && IsLegacy(t.rows[id])
    ensures forall c :: c in sorted <==> c in Sources(env, t, id)
    ensures sorted != [] ==> Owns(env, t, id, sorted[0])
  {
    hide Sources, Owns, IsSorted, IsDiscoveredCandidate;
    var row := t.rows[id];
    var candidates: map<ConnectionId, nat> := map[];
    var links := t.mapped;
    while links != {}
      invariant links <= t.mapped
      invariant forall c :: c in candidates ==> IsMappedCandidate(env, t.mapped, id, row, c) && candidates[c] == 0
      invariant forall c :: IsMappedCandidate(env, t.mapped, id, row, c) ==> c in candidates || (c, id) in links
      decreases |links|
    {
      var link :| link in links;
      if link.1 == id && link.0 in env.connections && env.connections[link.0].organization.Some?
         && RoutingProtocol(env.connections[link.0].provider) == row.protocol {
        assert (link.0, id) == link;
        candidates := candidates[link.0 := 0];
      }
      links := links - {link};
    }
    var connections := env.connections.Keys;
    while connections != {}
      invariant connections <= env.connections.Keys
      invariant candidates.Keys <= env.connections.Keys
      invariant forall c :: IsMappedCandidate(env, t.mapped, id, row, c) ==> c in candidates
      invariant forall c :: c in candidates ==>
                  if IsMappedCandidate(env, t.mapped, id, row, c) then candidates[c] == 0
                  else IsDiscoveredCandidate(env, row, c) && candidates[c] == 1
      invariant forall c ::
                 c in env.connections && c !in connections && IsDiscoveredCandidate(env, row, c) ==> c in candidates
      decreases |connections|
    {
      var c :| c in connections;
      if IsDiscoveredCandidate(env, row, c) && c !in candidates {
        candidates := candidates[c := 1];
      }
      connections := connections - {c};
    }
    sorted := SortCandidates(env, candidates);
    SortedCandidates(env, t, id, candidates, sorted);
  }

  lemma SortedCandidates(env: Environment, t: Tables, id: RowId, candidates: map<ConnectionId, nat>,
                         sorted: seq<ConnectionId>)
    requires id in t.rows && IsLegacy(t.rows[id]) && candidates.Keys <= env.connections.Keys
    requires IsSorted(env, candidates, sorted) && forall c :: c in sorted <==> c in candidates
    requires forall c :: IsMappedCandidate(env, t.mapped, id, t.rows[id], c) ==> c in candidates
    requires forall c :: c in env.connections && IsDiscoveredCandidate(env, t.rows[id], c) ==> c in candidates
    requires forall c :: c in candidates ==>
      if IsMappedCandidate(env, t.mapped, id, t.rows[id], c) then candidates[c] == 0
      else IsDiscoveredCandidate(env, t.rows[id], c) && candidates[c] == 1
    ensures forall c :: c in sorted <==> c in Sources(env, t, id)
    ensures sorted != [] ==> Owns(env, t, id, sorted[0])
  {
    if sorted != [] {
      forall d | d in Sources(env, t, id) && d != sorted[0]
        ensures Precedes(env, t, id, sorted[0], d)
      {
        var j :| 0 <= j < |sorted| && sorted[j] == d;
        assert ComesFirst(env, candidates, sorted[0], sorted[j]);
      }
    }
  }

  /** The assignments after those of row `id` moved to row `c` and row `id` was deleted. */
  function Moved(assignments: set<(WorkspaceId, RowId)>, id: RowId, c: RowId): set<(WorkspaceId, RowId)> {
    set a | a in assignments :: if a.1 == id then (a.0, c) else a
  }

  lemma MovedExact(assignments: set<(WorkspaceId, RowId)>, id: RowId, c: RowId)
    requires id != c
    ensures forall w: WorkspaceId, n: RowId :: (w, n) in Moved(assignments, id, c) <==>
              n != id && ((w, n) in assignments || (n == c && (w, id) in assignments))
  {
    forall w: WorkspaceId, n: RowId
      ensures (w, n) in Moved(assignments, id, c)
          <==> n != id && ((w, n) in assignments || (n == c && (w, id) in assignments))
    {
      if n != id && (w, n) in assignments {
        var a := (w, n);
        assert a in assignments && (if a.1 == id then (a.0, c) else a) == (w, n);
      } else if n == c && (w, id) in assignments {
        var a := (w, id);
        assert a in assignments && (if a.1 == id then (a.0, c) else a) == (w, n);
      }
    }
  }

  /** Row `n` has taken over the assignment of `w` from a deleted row. */
  ghost predicate TakenOver(t: Tables, winners: map<RowId, RowId>, gone: set<RowId>, w: WorkspaceId, n: RowId) {
    exists d :: d in gone && d in winners && winners[d] == n && (w, d) in t.assignments
  }

  ghost predicate PartlyMerged(t: Tables, t': Tables, winners: map<RowId, RowId>, gone: set<RowId>) {
    && winners.Keys == t.rows.Keys
    && gone <= t.rows.Keys
    && t'.rows == t.rows - gone
    && ReferencesHold(t')
    && (forall id :: id in winners ==> winners[id] in winners && winners[winners[id]] == winners[id])
    && (forall id :: id in gone ==> winners[id] != id)
    && forall n, w: WorkspaceId :: n in t'.rows ==>
         ((w, n) in t'.assignments <==> (w, n) in t.assignments || TakenOver(t, winners, gone, w, n))
  }

  lemma MergeStep(t: Tables, t1: Tables, t2: Tables, winners: map<RowId, RowId>, gone: set<RowId>, id: RowId)
    requires PartlyMerged(t, t1, winners, gone)
    requires id in t1.rows && winners[id] != id
    requires t2.rows == t1.rows - {id} && t2.assignments == Moved(t1.assignments, id, winners[id])
    ensures PartlyMerged(t, t2, winners, gone + {id})
  {
    MovedExact(t1.assignments, id, winners[id]);
    assert winners[id] !in gone;
    assert t2.rows == t.rows - (gone + {id});
    forall n, w: WorkspaceId | n in t2.rows
      ensures (w, n) in t2.assignments <==> (w, n) in t.assignments || TakenOver(t, winners, gone + {id}, w, n)
    {
      MergeStepAt(t, t1, winners, gone, id, n, w);
    }
    forall a | a in t2.assignments
      ensures a.1 in t2.rows
    {
      assert (a.0, a.1) == a;
    }
  }

  lemma MergeStepAt(t: Tables, t1: Tables, winners: map<RowId, RowId>, gone: set<RowId>, id: RowId, n: RowId,
                    w: WorkspaceId)
    requires PartlyMerged(t, t1, winners, gone)
    requires id in t1.rows && winners[id] != id
    requires n in t1.rows && n != id
    ensures (w, n) in Moved(t1.assignments, id, winners[id])
        <==> (w, n) in t.assignments || TakenOver(t, winners, gone + {id}, w, n)
  {
    MovedExact(t1.assignments, id, winners[id]);
    assert (w, id) in t1.assignments <==> (w, id) in t.assignments by {
      assert !TakenOver(t, winners, gone, w, id);
    }
    if TakenOver(t, winners, gone, w, n) {
      var d :| d in gone && d in winners && winners[d] == n && (w, d) in t.assignments;
      assert d in gone + {id};
    }
    if n == winners[id] && (w, id) in t.assignments {
      assert id in gone + {id};
    }
  }

  /** Row `c` is the earliest row of the key of row `id`. */
  ghost predicate IsWinner(t: Tables, id: RowId, c: RowId)
    requires AllSourced(t) && id in t.rows
  {
    c in t.rows && KeyOf(t.rows[c]) == KeyOf(t.rows[id]) && IsCanonical(t, c)
  }

  /** For every row the earliest row of its key. */
  ghost predicate AreWinners(t: Tables, winners: map<RowId, RowId>)
    requires AllSourced(t)
  {
    && winners.Keys == t.rows.Keys
    && forall id :: id in winners ==> IsWinner(t, id, winners[id])
  }

  method FindWinner(t: Tables, id: RowId) returns (c: RowId)
    requires AllSourced(t) && id in t.rows
    ensures IsWinner(t, id, c)
  {
    CanonicalExists(t, id);
    c :| c in t.rows && KeyOf(t.rows[c]) == KeyOf(t.rows[id]) && IsCanonical(t, c);
  }

  method FindWinners(t: Tables) returns (winners: map<RowId, RowId>)
    requires AllSourced(t)
    ensures AreWinners(t, winners)
  {
    hide IsWinner;
    winners := map[];
    var todo := t.rows.Keys;
    while todo != {}
      invariant winners.Keys == t.rows.Keys - todo && todo <= t.rows.Keys
      invariant forall id :: id in winners ==> IsWinner(t, id, winners[id])
      decreases |todo|
    {
      var id :| id in todo;
      var c := FindWinner(t, id);
      winners := winners[id := c];
      todo := todo - {id};
    }
  }

  lemma WinnersAgree(t: Tables, winners: map<RowId, RowId>, i: RowId, j: RowId)
    requires AllSourced(t) && AreWinners(t, winners)
    requires i in t.rows && j in t.rows
    ensures KeyOf(t.rows[i]) == KeyOf(t.rows[j]) <==> winners[i] == winners[j]
    ensures IsCanonical(t, i) <==> winners[i] == i
  {
    if KeyOf(t.rows[i]) == KeyOf(t.rows[j]) {
      CanonicalUnique(t, winners[i], winners[j]);
    }
    if IsCanonical(t, i) {
      CanonicalUnique(t, winners[i], i);
    }
  }

  lemma WinnersIdempotent(t: Tables, winners: map<RowId, RowId>)
    requires AllSourced(t) && AreWinners(t, winners)
    ensures forall id :: id in winners ==> winners[id] in winners && winners[winners[id]] == winners[id]
  {
    forall id | id in winners
      ensures winners[winners[id]] == winners[id]
    {
      WinnersAgree(t, winners, winners[id], id);
    }
  }

  lemma MergeStart(t: Tables, winners: map<RowId, RowId>)
    requires ReferencesHold(t) && AllSourced(t) && AreWinners(t, winners)
    ensures PartlyMerged(t, t, winners, {}) && winners.Keys == t.rows.Keys
  {
    hide KeyOf, IsCanonical;
    WinnersIdempotent(t, winners);
    assert t.rows - {} == t.rows;
  }

  lemma MergeDone(t: Tables, t': Tables, winners: map<RowId, RowId>, gone: set<RowId>)
    requires AllSourced(t) && AreWinners(t, winners) && PartlyMerged(t, t', winners, gone)
    requires forall id :: id in t.rows && winners[id] != id ==> id in gone
    ensures Merged(t, t')
  {
    forall n | n in t.rows
      ensures IsCanonical(t, n) <==> n in t'.rows
    {
      WinnersAgree(t, winners, n, n);
    }
    forall n, w: WorkspaceId | n in t'.rows
      ensures (w, n) in t'.assignments
          <==> exists d :: d in t.rows && KeyOf(t.rows[d]) == KeyOf(t.rows[n]) && (w, d) in t.assignments
    {
      MergeDoneAt(t, t', winners, gone, n, w);
    }
  }

  lemma MergeDoneAt(t: Tables, t': Tables, winners: map<RowId, RowId>, gone: set<RowId>, n: RowId, w: WorkspaceId)
    requires AllSourced(t) && AreWinners(t, winners) && PartlyMerged(t, t', winners, gone)
    requires forall id :: id in t.rows && winners[id] != id ==> id in gone
    requires n in t'.rows
    ensures (w, n) in t'.assignments
        <==> exists d :: d in t.rows && KeyOf(t.rows[d]) == KeyOf(t.rows[n]) && (w, d) in t.assignments
  {
    assert winners[n] == n;
    if (w, n) in t'.assignments && (w, n) !in t.assignments {
      assert TakenOver(t, winners, gone, w, n);
      var d :| d in gone && d in winners && winners[d] == n && (w, d) in t.assignments;
    }
    if d :| d in t.rows && KeyOf(t.rows[d]) == KeyOf(t.rows[n]) && (w, d) in t.assignments {
      WinnersAgree(t, winners, d, n);
      if d != n { assert TakenOver(t, winners, gone, w, n); }
    }
  }

  lemma StartFilling(env: Environment, t: Tables, origins: Origins)
    requires ReferencesHold(t)
    requires origins == map id | id in t.rows && !IsLegacy(t.rows[id]) :: (id, t.rows[id].sourceId.value)
    ensures PartlyFilled(FillPlan(env, t), LegacyRows(t), t, t, origins, LegacyRows(t), 0, [])
    ensures OwnersKept(env, t, origins, LegacyRows(t))
  {
    var plan := FillPlan(env, t);
    forall id, c | id in plan && id !in LegacyRows(t) && c in plan[id]
      ensures Descendant(origins, id, c)
    {
      assert origins[id] == (id, c);
    }
    forall n | n in origins
      ensures Descends(plan, t, t, n, origins[n])
    {
      assert origins[n].1 in Sources(env, t, n);
    }
  }

  function DiscoveredKey(c: ConnectionId, organization: OrganizationId, connection: Connection, model: string): Key {
    Key(organization, RoutingProtocol(connection.provider), model, c)
  }

  function Granted(env: Environment, organization: OrganizationId, id: RowId): set<(WorkspaceId, RowId)> {
    set w | w in env.workspaces && env.workspaces[w] == organization :: (w, id)
  }

  /** Inserting a discovered row for an absent key, for all workspaces of its organization, extends the catalog. */
  lemma DiscoveredStep(env: Environment, now: int, t: Tables, t1: Tables, id: RowId, c: ConnectionId, item: ModelItem,
                       row: Row)
    requires AllSourced(t) && Extended(env, now, t, t1) && id !in t1.rows
    requires c in env.connections && env.connections[c].organization == Some(row.organization)
        && env.connections[c].active
    requires item in env.connections[c].models
    requires row
        == Row(row.organization, RoutingProtocol(env.connections[c].provider), item.id, item.title, Active, now,
                        Some(c), Some(env.connections[c].title), Some(env.connections[c].provider))
    requires !HasKey(t1, KeyOf(row))
    ensures var t2 := Tables(t1.rows[id := row],
                             t1.assignments + Granted(env, row.organization, id), t1.mapped);
      && Extended(env, now, t, t2)
      && HasKey(t2, KeyOf(row))
      && forall k :: HasKey(t1, k) ==> HasKey(t2, k)
  {
    hide IsDiscoveredKey, IsDiscoveredRow, HasKey, Granted;
    var t2 := Tables(t1.rows[id := row], t1.assignments + Granted(env, row.organization, id), t1.mapped);
    IsDiscovered(env, now, c, item, row);
    KeyAdded(t1, t2, id, row);
    GrantedExactly(env, row.organization, id);
    ExtendedKeys(env, now, t, t1, KeyOf(row));
  }

  lemma IsDiscovered(env: Environment, now: int, c: ConnectionId, item: ModelItem, row: Row)
    requires c in env.connections && env.connections[c].organization == Some(row.organization)
        && env.connections[c].active
    requires item in env.connections[c].models
    requires row
        == Row(row.organization, RoutingProtocol(env.connections[c].provider), item.id, item.title, Active, now,
                        Some(c), Some(env.connections[c].title), Some(env.connections[c].provider))
    ensures IsDiscoveredKey(env, KeyOf(row)) && IsDiscoveredRow(env, now, row)
  {
    var i :| 0 <= i < |env.connections[c].models| && env.connections[c].models[i] == item;
  }

  lemma DiscoveredBy(env: Environment, k: Key) returns (item: ModelItem)
    requires IsDiscoveredKey(env, k)
    ensures k.source in env.connections && env.connections[k.source].organization.Some?
    ensures var connection := env.connections[k.source];
      item in connection.models && k == DiscoveredKey(k.source, connection.organization.value, connection, item.id)
  {
    var connection := env.connections[k.source];
    var i :| 0 <= i < |connection.models| && connection.models[i].id == k.model;
    item := connection.models[i];
  }

  lemma KeyAdded(t: Tables, t': Tables, id: RowId, row: Row)
    requires AllSourced(t) && id !in t.rows && t'.rows == t.rows[id := row] && Sourced(row)
    ensures AllSourced(t') && forall k :: HasKey(t', k) <==> HasKey(t, k) || k == KeyOf(row)
  {
    assert t'.rows[id] == row;
    forall k | HasKey(t, k)
      ensures HasKey(t', k)
    {
      var n :| n in t.rows && KeyOf(t.rows[n]) == k;
      assert n in t'.rows && KeyOf(t'.rows[n]) == k;
    }
  }

  lemma GrantedExactly(env: Environment, organization: OrganizationId, id: RowId)
    ensures forall w: WorkspaceId, n: RowId ::
      (w, n) in Granted(env, organization, id) <==> n == id && w in env.workspaces && env.workspaces[w] == organization
    ensures forall a :: a in Granted(env, organization, id) ==> a.1 == id
  {
  }

  class CatalogDatabase {
    const env: Environment
    var rows: map<RowId, Row>
    var assignments: set<(WorkspaceId, RowId)>
    var mapped: set<(ConnectionId, RowId)>

    ghost function Contents(): Tables
      reads this
    {
      Tables(rows, assignments, mapped)
    }

    constructor (env: Environment, t: Tables)
      ensures this.env == env && Contents() == t
    {
      this.env := env;
      rows, assignments, mapped := t.rows, t.assignments, t.mapped;
    }

    method FreshId() returns (id: RowId)
      ensures id !in rows
    {
      FreshIdExists(rows.Keys);
      id :| id !in rows;
    }

    /** Inserts the copy of legacy row `id` for its next source, with the row's assignments. */
    method InsertCopy(ghost plan: Plan, ghost legacy: set<RowId>, t: Tables, id: RowId, ghost todo: set<RowId>,
                      ghost origins: Origins, ghost rest: seq<ConnectionId>, copy: Row)
      returns (ghost origins': Origins)
      requires PartlyFilled(plan, legacy, t, Contents(), origins, todo, id, rest)
      requires id in legacy && id in plan && id in t.rows && id !in todo
      requires rest != [] && rest[0] in plan[id] && copy == plan[id][rest[0]]
      modifies this
      ensures PartlyFilled(plan, legacy, t, Contents(), origins', todo, id, rest[1..])
      ensures forall n :: n in origins ==> n in origins' && origins'[n] == origins[n]
    {
      var added := FreshId();
      CopyStep(plan, legacy, t, Contents(), origins, todo, id, rest, added);
      rows := rows[added := copy];
      assignments := assignments + CopiedAssignments(t, id, added);
      origins' := origins[added := (id, rest[0])];
    }

    /** Fills in one legacy row and inserts its copies; `sorted` are its candidates in order. */
    method FillRow(ghost plan: Plan, ghost legacy: set<RowId>, t: Tables, id: RowId, sorted: seq<ConnectionId>,
                   ghost todo: set<RowId>, ghost origins: Origins)
      returns (ghost origins': Origins)
      requires PartlyFilled(plan, legacy, t, Contents(), origins, todo, 0, [])
      requires id in todo && id in t.rows && id in legacy && id in plan
      requires sorted != [] && forall c :: c in sorted <==> c in plan[id]
      requires forall c ::
                c in plan[id] ==> c in env.connections && plan[id][c] == WithSource(t.rows[id], c, env.connections[c])
      modifies this
      ensures PartlyFilled(plan, legacy, t, Contents(), origins', todo - {id}, 0, [])
      ensures id in origins' && origins'[id] == (id, sorted[0])
      ensures forall n :: n in origins ==> n in origins' && origins'[n] == origins[n]
    {
      PatchStep(plan, legacy, t, Contents(), origins, todo, id, sorted);
      rows := rows[id := WithSource(t.rows[id], sorted[0], env.connections[sorted[0]])];
      origins' := origins[id := (id, sorted[0])];
      for i := 1 to |sorted|
        invariant PartlyFilled(plan, legacy, t, Contents(), origins', todo - {id}, id, sorted[i..])
        invariant id in origins' && origins'[id] == (id, sorted[0])
        invariant forall n :: n in origins ==> n in origins' && origins'[n] == origins[n]
      {
        assert sorted[i] in plan[id];
        origins' := InsertCopy(plan, legacy, t, id, todo - {id}, origins', sorted[i..],
                               WithSource(t.rows[id], sorted[i], env.connections[sorted[i]]));
        assert sorted[i..][1..] == sorted[i + 1..];
      }
    }

    /** Names a source for every legacy row, and copies the row for each further one. */
    method FillSources() returns (ok: bool, ghost origins: Origins)
      requires ReferencesHold(Contents())
      modifies this
      ensures ok <==> Repairable(env, old(Contents()))
      ensures ok ==> Filled(env, old(Contents()), Contents(), origins)
    {
      hide Tracked, Untouched, IdsKept, Complete, ReferencesHold, Owns;
      var t := Tables(rows, assignments, mapped);
      var todo := LegacyRows(t);
      origins := map id | id in t.rows && !IsLegacy(t.rows[id]) :: (id, t.rows[id].sourceId.value);
      StartFilling(env, t, origins);
      while todo != {}
        invariant todo <= LegacyRows(t)
        invariant forall id :: id in t.rows && id !in todo ==> Sources(env, t, id) != {}
        invariant PartlyFilled(FillPlan(env, t), LegacyRows(t), t, Contents(), origins, todo, 0, [])
        invariant OwnersKept(env, t, origins, todo)
        decreases |todo|
      {
        var id :| id in todo;
        var sorted := CollectCandidates(env, t, id);
        if sorted == [] {
          assert Sources(env, t, id) == {};
          return false, origins;
        }
        assert sorted[0] in Sources(env, t, id);
        assert forall c :: c in FillPlan(env, t)[id] <==> c in Sources(env, t, id);
        origins := FillRow(FillPlan(env, t), LegacyRows(t), t, id, sorted, todo, origins);
        todo := todo - {id};
      }
      ok := true;
    }

    /** Inserts a row for every active discovered source that has none. */
    method InsertDiscovered(now: int)
      requires ReferencesHold(Contents()) && AllSourced(Contents())
      modifies this
      ensures Extended(env, now, old(Contents()), Contents())
      ensures forall k :: IsDiscoveredKey(env, k) ==> HasKey(Contents(), k)
    {
      ghost var t := Contents();
      var todo := env.connections.Keys;
      while todo != {}
        invariant todo <= env.connections.Keys
        invariant Extended(env, now, t, Contents())
        invariant forall k :: IsDiscoveredKey(env, k) && k.source !in todo ==> HasKey(Contents(), k)
        decreases |todo|
      {
        var c :| c in todo;
        todo := todo - {c};
        if env.connections[c].organization.Some? && env.connections[c].active {
          InsertDiscoveredOf(now, c, t, todo);
        }
      }
    }

    method InsertDiscoveredOf(now: int, c: ConnectionId, ghost t: Tables, ghost todo: set<ConnectionId>)
      requires c in env.connections && env.connections[c].organization.Some? && env.connections[c].active
      requires AllSourced(t) && Extended(env, now, t, Contents())
      requires forall k :: IsDiscoveredKey(env, k) && k.source !in todo && k.source != c ==> HasKey(Contents(), k)
      modifies this
      ensures Extended(env, now, t, Contents())
      ensures forall k :: IsDiscoveredKey(env, k) && k.source !in todo ==> HasKey(Contents(), k)
    {
      hide IsDiscoveredKey, IsDiscoveredRow, ReferencesHold;
      var connection := env.connections[c];
      for i := 0 to |connection.models|
        invariant Extended(env, now, t, Contents())
        invariant forall k :: IsDiscoveredKey(env, k) && k.source !in todo && k.source != c ==> HasKey(Contents(), k)
        invariant forall item :: item in connection.models[..i] ==>
          HasKey(Contents(), DiscoveredKey(c, connection.organization.value, connection, item.id))
      {
        var item := connection.models[i];
        var key := DiscoveredKey(c, connection.organization.value, connection, item.id);
        if forall id | id in rows :: KeyOf(rows[id]) != key {
          InsertDiscoveredRow(now, c, item, t);
        }
      }
      forall k | IsDiscoveredKey(env, k) && k.source !in todo
        ensures HasKey(Contents(), k)
      {
        if k.source == c {
          var item := DiscoveredBy(env, k);
        }
      }
    }

    method InsertDiscoveredRow(now: int, c: ConnectionId, item: ModelItem, ghost t: Tables)
      requires c in env.connections && env.connections[c].organization.Some? && env.connections[c].active
      requires item in env.connections[c].models
      requires AllSourced(t) && Extended(env, now, t, Contents())
      requires !HasKey(Contents(), DiscoveredKey(c, env.connections[c].organization.value, env.connections[c], item.id))
      modifies this
      ensures Extended(env, now, t, Contents())
      ensures HasKey(Contents(), DiscoveredKey(c, env.connections[c].organization.value, env.connections[c], item.id))
      ensures forall k :: old(HasKey(Contents(), k)) ==> HasKey(Contents(), k)
    {
      var connection := env.connections[c];
      var id := FreshId();
      var row := Row(connection.organization.value, RoutingProtocol(connection.provider), item.id, item.title, Active,
                     now, Some(c), Some(connection.title), Some(connection.provider));
      DiscoveredStep(env, now, t, Contents(), id, c, item, row);
      rows := rows[id := row];
      assignments := assignments + Granted(env, row.organization, id);
    }

    /** Moves the assignments of each later row of a key to the earliest one, and deletes the later row. */
    method MergeDuplicates()
      requires ReferencesHold(Contents()) && AllSourced(Contents())
      modifies this
      ensures Merged(old(Contents()), Contents())
    {
      hide Merged, AreWinners, KeyOf, PartlyMerged, ReferencesHold;
      var t := Tables(rows, assignments, mapped);
      var winners := FindWinners(t);
      MergeStart(t, winners);
      var todo := set id | id in winners && winners[id] != id;
      ghost var later := todo;
      ghost var gone: set<RowId> := {};
      while todo != {}
        invariant todo <= later && gone == later - todo
        invariant PartlyMerged(t, Contents(), winners, gone)
        decreases |todo|
      {
        var id :| id in todo;
        DeleteDuplicate(t, id, winners, gone);
        todo, gone := todo - {id}, gone + {id};
      }
      MergeDone(t, Contents(), winners, gone);
    }

    method DeleteDuplicate(ghost t: Tables, id: RowId, winners: map<RowId, RowId>, ghost gone: set<RowId>)
      requires PartlyMerged(t, Contents(), winners, gone)
      requires id in winners && id !in gone && winners[id] != id
      modifies this
      ensures PartlyMerged(t, Contents(), winners, gone + {id})
    {
      ghost var before := Contents();
      assignments := Moved(assignments, id, winners[id]);
      rows := rows - {id};
      mapped := set m | m in mapped && m.1 != id;
      MergeStep(t, before, Contents(), winners, gone, id);
    }

    /** The whole repair: it either completes, or leaves every table as it was. */
    method Repair(now: int) returns (ok: bool)
      requires ReferencesHold(Contents())
      modifies this
      ensures ok <==> Repairable(env, old(Contents()))
      ensures ok ==> Repaired(env, now, old(Contents()), Contents())
      ensures !ok ==> Contents() == old(Contents())
    {
      var before := Tables(rows, assignments, mapped);
      ghost var origins;
      ok, origins := FillSources();
      if !ok {
        rows, assignments, mapped := before.rows, before.assignments, before.mapped;
        return;
      }
      ghost var filled := Contents();
      FilledSourced(env, before, filled, origins);
      InsertDiscovered(now);
      if exists id :: id in rows && !Sourced(rows[id]) {
        assert false;
      }
      ghost var extended := Contents();
      MergeDuplicates();
      ghost var merged := Contents();
      MergedKeys(extended, merged);
      mapped := ExactMapping(rows);
      PhasesRepair(env, now, before, filled, origins, extended, merged, Contents());
    }
  }
}

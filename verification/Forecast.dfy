/** The usage ledger and its daily aggregates, which one statement keeps up to date with every event. */
module Forecast {
  import opened Shared
  import Text
  import AlertKeys

  datatype Input = Input(
    workspaceId: Option<string>, projectId: Option<string>, environmentId: Option<string>, virtualKeyId: Option<string>,
    provider: Option<string>, model: Option<string>,
    promptTokens: Option<int>, completionTokens: Option<int>, cost: Option<int>,
    canonicalModel: Option<string>, modelFamily: Option<string>)

  datatype Event = Event(id: nat, input: Input, createdAt: int)

  /** The columns that a forecast row groups by. */
  datatype Dimensions = Dimensions(
    date: string, organizationId: Option<string>, workspaceId: Option<string>, projectId: Option<string>,
    environmentId: Option<string>, provider: Option<string>, owner: Option<string>, canonicalModel: Option<string>)

  datatype Entry = Entry(
    eventId: nat, dimensions: Dimensions, providerModel: Option<string>, modelFamily: Option<string>,
    promptTokens: int, completionTokens: int, totalTokens: int, cost: int, createdAt: int)

  datatype Mapping = Mapping(canonicalModel: Option<string>, modelFamily: Option<string>)

  datatype Row = Row(
    dimensions: Dimensions, requests: nat, promptTokens: int, completionTokens: int, totalTokens: int, cost: int,
    firstAt: int, lastAt: int)

  /** The rows of other tables, as they are when an event is written. */
  datatype Tables = Tables(organizations: map<string, string>, owners: map<string, string>)

  /** The date of an instant, written with ten characters and without colons. */
  type Calendar = int -> string

  function TrimSpaces(s: string): string {
    if s != "" && s[0] == ' ' then TrimSpaces(s[1..])
    else if s != "" && s[|s| - 1] == ' ' then TrimSpaces(s[..|s| - 1])
    else s
  }

  function NonBlank(s: Option<string>): Option<string> {
    if s.Some? && TrimSpaces(s.value) != "" then Some(TrimSpaces(s.value)) else None
  }

  function Lowered(s: Option<string>): Option<string> {
    if s.Some? then Some(Text.Lower(s.value)) else None
  }

  function ModelKey(input: Input): Option<string> {
    Lowered(NonBlank(input.model))
  }

  function CanonicalKey(input: Input): Option<string> {
    OrElse(Lowered(NonBlank(input.canonicalModel)), ModelKey(input))
  }

  /** The key of the mapping that an event observes, when provider and model are known. */
  function MappingKey(provider: Option<string>, model: Option<string>): Option<string> {
    if provider.Some? && model.Some? then Some(provider.value + ":" + model.value) else None
  }

  /** What a table says about an id, if there is one. */
  function Joined(id: Option<string>, table: map<string, string>): Option<string> {
    if id.Some? then Lookup(table, id.value) else None
  }

  function OrNull(s: Option<string>): string {
    if s.Some? then s.value else "null"
  }

  /** The text by which forecast rows are found. */
  function DimensionKey(d: Dimensions): string {
    AlertKeys.Join(d.date,
    AlertKeys.Join(OrNull(d.organizationId),
    AlertKeys.Join(OrNull(d.workspaceId),
    AlertKeys.Join(OrNull(d.projectId),
    AlertKeys.Join(OrNull(d.environmentId),
    AlertKeys.Join(OrNull(d.provider),
    AlertKeys.Join(OrNull(d.owner), OrNull(d.canonicalModel))))))))
  }

  /** The entries of a workspace that belong to a forecast key. */
  function Selected(ledger: seq<Entry>, key: string): seq<Entry> {
    if ledger == [] then []
    else if ledger[0].dimensions.workspaceId.Some? && DimensionKey(ledger[0].dimensions) == key
    then [ledger[0]] + Selected(ledger[1..], key)
    else Selected(ledger[1..], key)
  }

  function SumOf(entries: seq<Entry>, column: Entry -> int): int {
    if entries == [] then 0 else column(entries[0]) + SumOf(entries[1..], column)
  }

  const PROMPT := (e: Entry) => e.promptTokens
  const COMPLETION := (e: Entry) => e.completionTokens
  const TOTAL := (e: Entry) => e.totalTokens
  const COST := (e: Entry) => e.cost

  /** A row tells the count, the sums, the earliest and the latest time of a group of entries. */
  ghost predicate Summarises(row: Row, group: seq<Entry>) {
    && group != []
    && row.dimensions == group[0].dimensions
    && row.requests == |group|
    && row.promptTokens == SumOf(group, PROMPT)
    && row.completionTokens == SumOf(group, COMPLETION)
    && row.totalTokens == SumOf(group, TOTAL)
    && row.cost == SumOf(group, COST)
    && (forall e :: e in group ==> row.firstAt <= e.createdAt <= row.lastAt)
    && (exists e :: e in group && e.createdAt == row.firstAt)
    && (exists e :: e in group && e.createdAt == row.lastAt)
  }

  /** The forecast is the ledger, grouped by key. */
  ghost predicate Groups(forecast: map<string, Row>, ledger: seq<Entry>) {
    forall key: string :: (key in forecast <==> Selected(ledger, key) != [])
                          && (key in forecast ==> Summarises(forecast[key], Selected(ledger, key)))
  }

  function MappingOf(e: Entry): Option<string> {
    MappingKey(e.dimensions.provider, e.providerModel)
  }

  /** A mapping tells what the last entry of its provider and model was taken for. */
  ghost predicate Remembers(mappings: map<string, Mapping>, ledger: seq<Entry>) {
    forall key: string ::
      if key in mappings then
        exists i :: 0 <= i < |ledger| && MappingOf(ledger[i]) == Some(key)
                    && mappings[key] == Mapping(ledger[i].dimensions.canonicalModel, ledger[i].modelFamily)
                    && forall j :: i < j < |ledger| ==> MappingOf(ledger[j]) != Some(key)
      else forall i :: 0 <= i < |ledger| ==> MappingOf(ledger[i]) != Some(key)
  }

  /** Each event has one ledger entry, of the same cost and tokens. */
  ghost predicate Mirrors(events: seq<Event>, ledger: seq<Entry>) {
    |events| == |ledger| && forall i :: 0 <= i < |events| ==> Mirrored(events[i], ledger[i]) && events[i].id == i
  }

  predicate Mirrored(event: Event, entry: Entry) {
    && entry.eventId == event.id && entry.createdAt == event.createdAt
    && entry.promptTokens == ValueOr(event.input.promptTokens, 0)
          && entry.completionTokens == ValueOr(event.input.completionTokens, 0)
    && entry.totalTokens == entry.promptTokens + entry.completionTokens
    && entry.cost == ValueOr(event.input.cost, 0)
    && entry.dimensions.workspaceId == event.input.workspaceId
  }

  function Earliest(a: int, b: int): int {
    if a < b then a else b
  }

  function Latest(a: int, b: int): int {
    if a > b then a else b
  }

  function NewRow(e: Entry): Row {
    Row(e.dimensions, 1, e.promptTokens, e.completionTokens, e.totalTokens, e.cost, e.createdAt, e.createdAt)
  }

  /** A row after one more entry; it keeps the dimensions it was made with. */
  function Added(row: Row, e: Entry): Row {
    Row(row.dimensions, row.requests + 1, row.promptTokens + e.promptTokens, row.completionTokens + e.completionTokens,
        row.totalTokens + e.totalTokens, row.cost + e.cost, Earliest(row.firstAt, e.createdAt),
            Latest(row.lastAt, e.createdAt))
  }

  lemma {:induction false} SelectedAppend(ledger: seq<Entry>, e: Entry, key: string)
    ensures Selected(ledger + [e], key)
         == Selected(ledger, key)
            + if e.dimensions.workspaceId.Some? && DimensionKey(e.dimensions) == key then [e] else []
  {
    if ledger == [] {
      assert ledger + [e] == [e];
    } else {
      assert (ledger + [e])[1..] == ledger[1..] + [e];
      SelectedAppend(ledger[1..], e, key);
    }
  }

  lemma {:induction false} SumAppend(entries: seq<Entry>, e: Entry, column: Entry -> int)
    ensures SumOf(entries + [e], column) == SumOf(entries, column) + column(e)
  {
    if entries == [] {
      assert entries + [e] == [e];
    } else {
      assert (entries + [e])[1..] == entries[1..] + [e];
      SumAppend(entries[1..], e, column);
    }
  }

  lemma NewRowSummarises(e: Entry)
    ensures Summarises(NewRow(e), [e])
  {
  }

  lemma AddedSummarises(row: Row, group: seq<Entry>, e: Entry)
    requires Summarises(row, group)
    ensures Summarises(Added(row, e), group + [e])
  {
    SumAppend(group, e, PROMPT);
    SumAppend(group, e, COMPLETION);
    SumAppend(group, e, TOTAL);
    SumAppend(group, e, COST);
    var more := group + [e];
    var a :| a in group && a.createdAt == row.firstAt;
    var b :| b in group && b.createdAt == row.lastAt;
    assert a in more && b in more && more[|group|] == e;
  }

  /** The step of one entry: its row is made or added to, and no other row changes. */
  lemma GroupsAppend(forecast: map<string, Row>, ledger: seq<Entry>, e: Entry, next: map<string, Row>)
    requires Groups(forecast, ledger)
    requires var key := DimensionKey(e.dimensions);
      next == if e.dimensions.workspaceId.None? then forecast
              else forecast[key := if key in forecast then Added(forecast[key], e) else NewRow(e)]
    ensures Groups(next, ledger + [e])
  {
    hide Summarises, DimensionKey;
    forall key: string
      ensures key in next <==> Selected(ledger + [e], key) != []
      ensures key in next ==> Summarises(next[key], Selected(ledger + [e], key))
    {
      SelectedAppend(ledger, e, key);
      if e.dimensions.workspaceId.Some? && DimensionKey(e.dimensions) == key {
        if key in forecast {
          AddedSummarises(forecast[key], Selected(ledger, key), e);
        } else {
          NewRowSummarises(e);
          assert [] + [e] == [e];
        }
      } else {
        assert Selected(ledger, key) + [] == Selected(ledger, key);
      }
    }
  }

  lemma RemembersAppend(mappings: map<string, Mapping>, ledger: seq<Entry>, e: Entry, next: map<string, Mapping>)
    requires Remembers(mappings, ledger)
    requires var key := MappingOf(e);
      next == if key.None? then mappings else mappings[key.value := Mapping(e.dimensions.canonicalModel, e.modelFamily)]
    ensures Remembers(next, ledger + [e])
  {
    hide MappingOf;
    var more := ledger + [e];
    forall key: string
      ensures if key in next then
        exists i :: 0 <= i < |more| && MappingOf(more[i]) == Some(key)
                    && next[key] == Mapping(more[i].dimensions.canonicalModel, more[i].modelFamily)
                    && forall j :: i < j < |more| ==> MappingOf(more[j]) != Some(key)
      else forall i :: 0 <= i < |more| ==> MappingOf(more[i]) != Some(key)
    {
      if MappingOf(e) == Some(key) {
        assert more[|ledger|] == e;
      } else if key in mappings {
        var i :| 0 <= i < |ledger| && MappingOf(ledger[i]) == Some(key)
                 && mappings[key] == Mapping(ledger[i].dimensions.canonicalModel, ledger[i].modelFamily)
                 && forall j :: i < j < |ledger| ==> MappingOf(ledger[j]) != Some(key);
        assert more[i] == ledger[i];
      }
    }
  }

  class UsageStore {
    const calendar: Calendar
    var events: seq<Event>
    var ledger: seq<Entry>
    var mappings: map<string, Mapping>
    var forecast: map<string, Row>

    ghost predicate Valid()
      reads this
    {
      Mirrors(events, ledger) && Groups(forecast, ledger) && Remembers(mappings, ledger)
    }

    constructor (calendar: Calendar)
      ensures Valid() && events == [] && ledger == [] && this.calendar == calendar
    {
      this.calendar := calendar;
      events, ledger, mappings, forecast := [], [], map[], map[];
    }

    /** Writes an event, its mapping, its ledger entry and its share of the forecast, in one statement. */
    method Append(input: Input, tables: Tables, now: int) returns (event: Event)
      requires Valid()
      modifies this
      ensures Valid()
      ensures event.input == input && event.createdAt == now
      ensures events == old(events) + [event]
      ensures |ledger| == |old(ledger)| + 1 && ledger[..|old(ledger)|] == old(ledger)
      ensures var entry := ledger[|old(ledger)|];
        && Mirrored(event, entry)
        && entry.dimensions
              == Dimensions(calendar(now), Joined(input.workspaceId, tables.organizations), input.workspaceId,
                                          input.projectId, input.environmentId, input.provider,
                                          NonBlank(Joined(input.virtualKeyId, tables.owners)), CanonicalKey(input))
        && entry.modelFamily == OrElse(NonBlank(input.modelFamily), KnownFamily(old(mappings), input))
    {
      hide Groups, Remembers, DimensionKey, MappingKey, NonBlank, CanonicalKey, ModelKey;
      event := Event(|events|, input, now);
      var mappingKey := MappingKey(input.provider, ModelKey(input));
      var canonical := CanonicalKey(input);
      var family := OrElse(NonBlank(input.modelFamily), KnownFamily(mappings, input));
      var prompt, completion := ValueOr(input.promptTokens, 0), ValueOr(input.completionTokens, 0);
      var dimensions := Dimensions(calendar(now), Joined(input.workspaceId, tables.organizations), input.workspaceId,
                                   input.projectId, input.environmentId, input.provider,
                                   NonBlank(Joined(input.virtualKeyId, tables.owners)), canonical);
      var entry := Entry(event.id, dimensions, ModelKey(input), family, prompt, completion, prompt + completion,
                         ValueOr(input.cost, 0), now);
      var nextMappings := if mappingKey.None? then mappings
          else mappings[mappingKey.value := Mapping(canonical, family)];
      var key := DimensionKey(dimensions);
      var nextForecast := if input.workspaceId.None? then forecast
                          else forecast[key := if key in forecast then Added(forecast[key], entry) else NewRow(entry)];
      GroupsAppend(forecast, ledger, entry, nextForecast);
      RemembersAppend(mappings, ledger, entry, nextMappings);
      events, ledger, mappings, forecast := events + [event], ledger + [entry], nextMappings, nextForecast;
    }
  }

  /** The family that a mapping already has, which a later event without one keeps. */
  function KnownFamily(mappings: map<string, Mapping>, input: Input): Option<string> {
    var key := MappingKey(input.provider, ModelKey(input));
    if key.Some? && key.value in mappings then mappings[key.value].modelFamily else None
  }

  predicate PlainPart(part: Option<string>) {
    part.Some? ==> AlertKeys.Plain(part.value) && part.value != "null"
  }

  /** The parts other than owner and model have no colons, and none is the word that stands for a missing part. */
  predicate PlainOthers(d: Dimensions) {
    && AlertKeys.Plain(d.date)
    && PlainPart(d.organizationId) && PlainPart(d.workspaceId) && PlainPart(d.projectId) && PlainPart(d.environmentId)
    && PlainPart(d.provider)
  }

  /** Dimensions without colons, but for the model, and without the word that stands for a missing part. */
  predicate PlainDimensions(d: Dimensions) {
    PlainOthers(d) && PlainPart(d.owner) && d.canonicalModel != Some("null")
  }

  lemma PartInjective(a: Option<string>, x: string, b: Option<string>, y: string)
    requires PlainPart(a) && PlainPart(b)
    ensures AlertKeys.Join(OrNull(a), x) == AlertKeys.Join(OrNull(b), y) <==> a == b && x == y
  {
    AlertKeys.JoinInjective(OrNull(a), x, OrNull(b), y);
  }

  /** The end of the key, where owner and model meet. */
  function OwnerAndModel(d: Dimensions): string {
    AlertKeys.Join(OrNull(d.owner), OrNull(d.canonicalModel))
  }

  lemma KeyByParts(a: Dimensions, b: Dimensions)
    requires PlainOthers(a) && PlainOthers(b)
    ensures DimensionKey(a) == DimensionKey(b)
        <==> a.(owner := b.owner, canonicalModel := b.canonicalModel) == b && OwnerAndModel(a) == OwnerAndModel(b)
  {
    hide AlertKeys.Join, PlainPart;
    var a6, b6 := OwnerAndModel(a), OwnerAndModel(b);
    var a5, b5 := AlertKeys.Join(OrNull(a.provider), a6), AlertKeys.Join(OrNull(b.provider), b6);
    var a4, b4 := AlertKeys.Join(OrNull(a.environmentId), a5), AlertKeys.Join(OrNull(b.environmentId), b5);
    var a3, b3 := AlertKeys.Join(OrNull(a.projectId), a4), AlertKeys.Join(OrNull(b.projectId), b4);
    var a2, b2 := AlertKeys.Join(OrNull(a.workspaceId), a3), AlertKeys.Join(OrNull(b.workspaceId), b3);
    var a1, b1 := AlertKeys.Join(OrNull(a.organizationId), a2), AlertKeys.Join(OrNull(b.organizationId), b2);
    AlertKeys.JoinInjective(a.date, a1, b.date, b1);
    PartInjective(a.organizationId, a2, b.organizationId, b2);
    PartInjective(a.workspaceId, a3, b.workspaceId, b3);
    PartInjective(a.projectId, a4, b.projectId, b4);
    PartInjective(a.environmentId, a5, b.environmentId, b5);
    PartInjective(a.provider, a6, b.provider, b6);
  }

  /** Among plain dimensions, the key tells them apart, so a row is about one set of dimensions. */
  lemma DimensionKeyInjective(a: Dimensions, b: Dimensions)
    requires PlainDimensions(a) && PlainDimensions(b)
    ensures DimensionKey(a) == DimensionKey(b) <==> a == b
  {
    hide AlertKeys.Join, DimensionKey;
    KeyByParts(a, b);
    PartInjective(a.owner, OrNull(a.canonicalModel), b.owner, OrNull(b.canonicalModel));
  }

  function OfDimensions(ledger: seq<Entry>, d: Dimensions): seq<Entry> {
    if ledger == [] then []
    else if ledger[0].dimensions == d then [ledger[0]] + OfDimensions(ledger[1..], d)
    else OfDimensions(ledger[1..], d)
  }

  /** With plain dimensions, grouping by key is grouping by dimensions. */
  lemma {:induction false} GroupedByDimensions(ledger: seq<Entry>, d: Dimensions)
    requires PlainDimensions(d) && d.workspaceId.Some?
    requires forall e :: e in ledger ==> PlainDimensions(e.dimensions)
    ensures Selected(ledger, DimensionKey(d)) == OfDimensions(ledger, d)
  {
    hide DimensionKey, PlainDimensions;
    if ledger == [] {
    } else {
      DimensionKeyInjective(ledger[0].dimensions, d);
      GroupedByDimensions(ledger[1..], d);
    }
  }

  /** Wherever an owner has a colon, its rows are those of a shorter owner and a longer model. */
  lemma ColonsCollide(d: Dimensions, x: string, y: string, model: string)
    ensures DimensionKey(d.(owner := Some(AlertKeys.Join(x, y)), canonicalModel := Some(model)))
         == DimensionKey(d.(owner := Some(x), canonicalModel := Some(AlertKeys.Join(y, model))))
  {
    JoinAssociative(x, y, model);
  }

  lemma JoinAssociative(x: string, y: string, z: string)
    ensures AlertKeys.Join(AlertKeys.Join(x, y), z) == AlertKeys.Join(x, AlertKeys.Join(y, z))
  {
    assert (x + ":" + y) + ":" + z == x + ":" + (y + ":" + z);
  }

  /** A text that trimming leaves as it is, and that is not blank. */
  predicate Trimmed(s: string) {
    s != "" && s[0] != ' ' && s[|s| - 1] != ' '
  }

  predicate TrimmedLower(s: string) {
    Trimmed(s) && Text.Lower(s) == s
  }

  /** Owners and models as an append makes them: missing, or trimmed, and models in lower case. */
  predicate Filled(d: Dimensions) {
    && PlainOthers(d)
    && (d.owner.Some? ==> Trimmed(d.owner.value))
    && (d.canonicalModel.Some? ==> TrimmedLower(d.canonicalModel.value))
  }

  lemma {:induction false} TrimSpacesTrims(s: string)
    ensures TrimSpaces(s) == "" || Trimmed(TrimSpaces(s))
    ensures Trimmed(s) ==> TrimSpaces(s) == s && s != ""
  {
    if s == "" {
    } else if s[0] == ' ' {
      TrimSpacesTrims(s[1..]);
    } else if s[|s| - 1] == ' ' {
      TrimSpacesTrims(s[..|s| - 1]);
    }
  }

  lemma LowerTrimmed(s: string)
    ensures Trimmed(s) ==> TrimmedLower(Text.Lower(s))
  {
    assert forall c: char :: Text.LowerChar(Text.LowerChar(c)) == Text.LowerChar(c);
    assert forall c: char :: Text.LowerChar(c) == ' ' <==> c == ' ';
    assert Text.Lower(Text.Lower(s)) == Text.Lower(s);
  }

  /** An append makes exactly these owners and models. */
  lemma PartsMade(owner: Option<string>, input: Input)
    ensures NonBlank(owner).Some? ==> Trimmed(NonBlank(owner).value)
    ensures CanonicalKey(input).Some? ==> TrimmedLower(CanonicalKey(input).value)
    ensures owner.Some? && Trimmed(owner.value) ==> NonBlank(owner) == owner
    ensures input.canonicalModel.Some? && TrimmedLower(input.canonicalModel.value)
      ==> CanonicalKey(input) == input.canonicalModel
  {
    hide TrimSpaces, Trimmed;
    if owner.Some? {
      TrimSpacesTrims(owner.value);
    }
    if input.model.Some? {
      TrimSpacesTrims(input.model.value);
      LowerTrimmed(TrimSpaces(input.model.value));
    }
    if input.canonicalModel.Some? {
      TrimSpacesTrims(input.canonicalModel.value);
      LowerTrimmed(TrimSpaces(input.canonicalModel.value));
    }
  }

  /** The two parts of a text around its character at a position are an owner and a model. */
  predicate Splits(text: string, i: nat) {
    i < |text| && text[i] == ':' && Trimmed(text[..i]) && TrimmedLower(text[i + 1..])
  }

  /** An owner and a model that read the same once joined can be parted somewhere else. */
  predicate SplitsElsewhere(owner: string, model: string) {
    var text := AlertKeys.Join(owner, model);
    exists i :: 0 <= i < |text| && i != |owner| && Splits(text, i)
  }

  /** The same row is about another owner, too. */
  ghost predicate SharesRow(d: Dimensions) {
    exists e :: Filled(e) && e.owner != d.owner && DimensionKey(e) == DimensionKey(d)
  }

  /**
   * Dimensions share their row with another owner exactly when their owner and model, once joined, can also be parted
   * at another colon into an owner and a model, or when the owner is missing or is the word that stands for a missing
   * one.
   */
  lemma RowSharedExactly(d: Dimensions)
    requires Filled(d)
    ensures SharesRow(d) <==> SplitsElsewhere(OrNull(d.owner), OrNull(d.canonicalModel)) || OrNull(d.owner) == "null"
  {
    hide PlainOthers, DimensionKey, AlertKeys.Join, SharesRow, Trimmed, SplitsElsewhere;
    if SharesRow(d) {
      SharedNeedsSplit(d);
    }
    if OrNull(d.owner) == "null" {
      NullTrimmed();
      SharedWith(d, if d.owner.None? then Some("null") else None, d.canonicalModel);
    } else if SplitsElsewhere(OrNull(d.owner), OrNull(d.canonicalModel)) {
      var x, y := SplitAt(OrNull(d.owner), OrNull(d.canonicalModel));
      SharedWith(d, Some(x), Some(y));
    }
  }

  /** In particular, a plain owner of a plain model shares its row with no other, if it is not that word. */
  lemma PlainNotShared(d: Dimensions)
    requires Filled(d) && PlainPart(d.owner) && d.owner.Some? && AlertKeys.Plain(OrNull(d.canonicalModel))
    ensures !SharesRow(d)
  {
    RowSharedExactly(d);
    var text := OwnerAndModel(d);
    forall i | 0 <= i < |text| && i != |d.owner.value|
      ensures text[i] != ':'
    {
      if i < |d.owner.value| {
        assert text[i] == d.owner.value[i];
      } else {
        assert text[i] == OrNull(d.canonicalModel)[i - |d.owner.value| - 1];
      }
    }
  }

  lemma NullTrimmed()
    ensures TrimmedLower("null")
  {
    assert Text.Lower("null") == "null";
  }

  lemma SharedNeedsSplit(d: Dimensions)
    requires Filled(d) && SharesRow(d)
    ensures SplitsElsewhere(OrNull(d.owner), OrNull(d.canonicalModel)) || OrNull(d.owner) == "null"
  {
    hide PlainOthers, DimensionKey;
    var e :| Filled(e) && e.owner != d.owner && DimensionKey(e) == DimensionKey(d);
    NullTrimmed();
    KeyByParts(d, e);
    var owner, model := OrNull(e.owner), OrNull(e.canonicalModel);
    SplitApart(OrNull(d.owner), OrNull(d.canonicalModel), owner, model);
    var text := OwnerAndModel(d);
    assert text[..|owner|] == owner && text[|owner|] == ':' && text[|owner| + 1..] == model;
    assert Splits(text, |owner|);
  }

  lemma SharedWith(d: Dimensions, owner: Option<string>, model: Option<string>)
    requires Filled(d) && owner != d.owner
    requires owner.Some? ==> Trimmed(owner.value)
    requires model.Some? ==> TrimmedLower(model.value)
    requires AlertKeys.Join(OrNull(owner), OrNull(model)) == OwnerAndModel(d)
    ensures SharesRow(d)
  {
    hide DimensionKey, AlertKeys.Join, PlainPart, Trimmed;
    var e := d.(owner := owner, canonicalModel := model);
    KeyByParts(d, e);
    assert Filled(e);
  }

  lemma SplitAt(owner: string, model: string) returns (x: string, y: string)
    requires SplitsElsewhere(owner, model)
    ensures AlertKeys.Join(x, y) == AlertKeys.Join(owner, model)
    ensures x != owner && Trimmed(x) && TrimmedLower(y)
  {
    var text := AlertKeys.Join(owner, model);
    var i :| 0 <= i < |text| && i != |owner| && Splits(text, i);
    hide Trimmed, TrimmedLower;
    x, y := text[..i], text[i + 1..];
    assert [text[i]] == ":";
    assert text == text[..i] + [text[i]] + text[i + 1..];
  }

  /** Two ways to part one text give the same parts when the first ones are equally long. */
  lemma SplitApart(a: string, x: string, b: string, y: string)
    requires AlertKeys.Join(a, x) == AlertKeys.Join(b, y)
    ensures |a| == |b| ==> a == b && x == y
  {
    var k := AlertKeys.Join(a, x);
    assert k[..|a|] == a && k[..|b|] == b;
    assert k[|a| + 1..] == x && k[|b| + 1..] == y;
  }
}

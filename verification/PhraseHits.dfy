/** A stable insertion sort, standing for the built-in one. */
module Sorting {

  ghost predicate Orders<T(!new)>(before: (T, T) -> bool) {
    && (forall a, b :: before(a, b) || before(b, a))
    && (forall a, b, c :: before(a, b) && before(b, c) ==> before(a, c))
  }

  ghost predicate InOrder<T(!new)>(before: (T, T) -> bool, s: seq<T>) {
    forall i, j :: 0 <= i < j < |s| ==> before(s[i], s[j])
  }

  function Insert<T>(before: (T, T) -> bool, x: T, s: seq<T>): seq<T> {
    if s == [] then [x]
    else if before(x, s[0]) then [x] + s
    else [s[0]] + Insert(before, x, s[1..])
  }

  function Sorted<T>(before: (T, T) -> bool, s: seq<T>): seq<T> {
    if s == [] then [] else Insert(before, s[0], Sorted(before, s[1..]))
  }

  lemma {:induction false} InsertMembers<T(!new)>(before: (T, T) -> bool, x: T, s: seq<T>)
    ensures multiset(Insert(before, x, s)) == multiset{x} + multiset(s)
  {
    if s == [] {
    } else {
      assert s == [s[0]] + s[1..];
      if !before(x, s[0]) {
        InsertMembers(before, x, s[1..]);
      }
    }
  }

  lemma {:induction false} InsertInOrder<T(!new)>(before: (T, T) -> bool, x: T, s: seq<T>)
    requires Orders(before) && InOrder(before, s)
    ensures InOrder(before, Insert(before, x, s))
  {
    if s == [] || before(x, s[0]) {
    } else {
      InsertInOrder(before, x, s[1..]);
      var rest := Insert(before, x, s[1..]);
      InsertMembers(before, x, s[1..]);
      forall i | 0 <= i < |rest|
        ensures before(s[0], rest[i])
      {
        assert rest[i] in multiset(rest);
        assert rest[i] == x || rest[i] in s[1..];
      }
    }
  }

  lemma {:induction false} SortedIsSort<T(!new)>(before: (T, T) -> bool, s: seq<T>)
    requires Orders(before)
    ensures InOrder(before, Sorted(before, s))
    ensures multiset(Sorted(before, s)) == multiset(s)
    ensures forall x :: x in Sorted(before, s) <==> x in s
  {
    if s == [] {
    } else {
      assert s == [s[0]] + s[1..];
      SortedIsSort(before, s[1..]);
      InsertInOrder(before, s[0], Sorted(before, s[1..]));
      InsertMembers(before, s[0], Sorted(before, s[1..]));
    }
    forall x
      ensures x in Sorted(before, s) <==> x in s
    {
      assert x in multiset(Sorted(before, s)) <==> x in multiset(s);
    }
  }
}

/** Keeping only the elements of a list that no earlier one makes superfluous. */
module Thinning {
  import opened Sorting

  ghost predicate Transitive<T(!new)>(covers: (T, T) -> bool) {
    forall a, b, c :: covers(a, b) && covers(b, c) ==> covers(a, c)
  }

  ghost predicate Reflexive<T(!new)>(covers: (T, T) -> bool) {
    forall a :: covers(a, a)
  }

  /** An earlier element covers this one, whether that one is kept or not. */
  predicate CoveredAt<T>(covers: (T, T) -> bool, list: seq<T>, i: nat)
    requires i < |list|
  {
    exists j :: 0 <= j < i && covers(list[j], list[i])
  }

  /** The elements among the first `n` that no earlier one covers. */
  function Thinned<T>(covers: (T, T) -> bool, list: seq<T>, n: nat): seq<T>
    requires n <= |list|
  {
    if n == 0 then []
    else Thinned(covers, list, n - 1) + if CoveredAt(covers, list, n - 1) then [] else [list[n - 1]]
  }

  lemma {:induction false} ThinnedMembers<T(!new)>(covers: (T, T) -> bool, list: seq<T>, n: nat)
    requires n <= |list|
    ensures forall x ::
             x in Thinned(covers, list, n) <==> exists i :: 0 <= i < n && list[i] == x && !CoveredAt(covers, list, i)
  {
    if n == 0 {
    } else {
      ThinnedMembers(covers, list, n - 1);
    }
  }

  /** Every element is covered by one that is kept and stands no later. */
  lemma {:induction false} CoveredByKept<T(!new)>(covers: (T, T) -> bool, list: seq<T>, i: nat) returns (k: nat)
    requires Reflexive(covers) && Transitive(covers)
    requires i < |list|
    ensures k <= i && !CoveredAt(covers, list, k) && covers(list[k], list[i])
  {
    if CoveredAt(covers, list, i) {
      var j :| 0 <= j < i && covers(list[j], list[i]);
      k := CoveredByKept(covers, list, j);
    } else {
      k := i;
    }
  }

  lemma {:induction false} ThinnedInOrder<T(!new)>(covers: (T, T) -> bool, before: (T, T) -> bool, list: seq<T>, n: nat)
    requires n <= |list| && InOrder(before, list)
    ensures InOrder(before, Thinned(covers, list, n))
  {
    if n == 0 {
    } else {
      ThinnedInOrder(covers, before, list, n - 1);
      ThinnedMembers(covers, list, n - 1);
      var kept := Thinned(covers, list, n - 1);
      forall i | 0 <= i < |kept|
        ensures before(kept[i], list[n - 1])
      {
        assert kept[i] in kept;
      }
    }
  }

  /** Of the elements that are kept, no earlier one covers a later one. */
  lemma {:induction false} ThinnedIndependent<T(!new)>(covers: (T, T) -> bool, list: seq<T>, n: nat, i: nat, j: nat)
    requires n <= |list| && i < j < |Thinned(covers, list, n)|
    ensures !covers(Thinned(covers, list, n)[i], Thinned(covers, list, n)[j])
  {
    var kept := Thinned(covers, list, n - 1);
    if j < |kept| {
      ThinnedIndependent(covers, list, n - 1, i, j);
    } else {
      ThinnedMembers(covers, list, n - 1);
      assert kept[i] in kept;
      var m :| 0 <= m < n - 1 && list[m] == kept[i] && !CoveredAt(covers, list, m);
    }
  }

  function SortedThinned<T>(covers: (T, T) -> bool, before: (T, T) -> bool, s: seq<T>): seq<T> {
    Thinned(covers, Sorted(before, s), |Sorted(before, s)|)
  }

  lemma SortedThinnedOrder<T(!new)>(covers: (T, T) -> bool, before: (T, T) -> bool, s: seq<T>)
    requires Orders(before)
    ensures InOrder(before, SortedThinned(covers, before, s))
    ensures forall x :: x in SortedThinned(covers, before, s) ==> x in s
  {
    SortedIsSort(before, s);
    var list := Sorted(before, s);
    ThinnedMembers(covers, list, |list|);
    ThinnedInOrder(covers, before, list, |list|);
  }

  /** Sorting and thinning keeps, for every element, one that covers it and stands no later in the order. */
  lemma SortedThinnedCovers<T(!new)>(covers: (T, T) -> bool, before: (T, T) -> bool, s: seq<T>, x: T) returns (i: nat)
    requires Orders(before) && Reflexive(covers) && Transitive(covers)
    requires x in s
    ensures i < |SortedThinned(covers, before, s)|
    ensures covers(SortedThinned(covers, before, s)[i], x) && before(SortedThinned(covers, before, s)[i], x)
  {
    SortedIsSort(before, s);
    var list := Sorted(before, s);
    assert x in list;
    var m :| 0 <= m < |list| && list[m] == x;
    var k := CoveredByKept(covers, list, m);
    assert before(list[k], list[m]);
    ThinnedMembers(covers, list, |list|);
    assert list[k] in Thinned(covers, list, |list|);
    i :| 0 <= i < |Thinned(covers, list, |list|)| && Thinned(covers, list, |list|)[i] == list[k];
  }
}

/** Matching of phrases in inspected text, and the removal of hits that other hits cover. */
module PhraseHits {
  import opened Shared
  import opened Sorting
  import opened Thinning
  import Text

  datatype Severity = Low | Medium | High | Critical

  datatype Rule = Rule(ruleId: string, phrase: string, riskCategory: string, severity: Severity, weight: int)

  datatype Policy = Policy(disabledRuleIds: seq<string>, allowedKeywordOverrides: seq<string>)

  datatype Hit = Hit(ruleId: string, riskCategory: string, severity: Severity, weight: int, start: nat, end: nat)

  /** The collation of rule ids; only the order of the numbers matters. */
  type Collation = string -> int

  function SeverityRank(severity: Severity): nat {
    match severity
    case Critical => 4
    case High => 3
    case Medium => 2
    case Low => 1
  }

  function Width(hit: Hit): int {
    hit.end - hit.start
  }

  predicate OccursAt(text: string, word: string, i: nat) {
    i + |word| <= |text| && text[i..i + |word|] == word
  }

  /** The first place at or after `from` where a word occurs. */
  function IndexFrom(text: string, word: string, from: nat): (i: Option<nat>)
    ensures i.Some? ==> from <= i.value && OccursAt(text, word, i.value)
    ensures forall j: nat :: from <= j && OccursAt(text, word, j) ==> i.Some? && i.value <= j
    decreases |text| - from
  {
    if from > |text| then None
    else if OccursAt(text, word, from) then Some(from)
    else IndexFrom(text, word, from + 1)
  }

  predicate Includes(text: string, word: string) {
    IndexFrom(text, word, 0).Some?
  }

  predicate KeywordAllowed(value: string, policy: Policy) {
    exists k :: k in policy.allowedKeywordOverrides && Includes(value, Text.Lower(k))
  }

  /** A hit of a rule: the first occurrence of its phrase, if neither the rule nor the phrase is excused. */
  function HitOf(rule: Rule, text: string, policy: Policy, normalize: string -> string): Option<Hit> {
    if rule.phrase == "" || rule.ruleId in policy.disabledRuleIds then None
    else
      var phrase := normalize(rule.phrase);
      var index := IndexFrom(text, phrase, 0);
      if index.None? || KeywordAllowed(phrase, policy) then None
      else Some(Hit(rule.ruleId, rule.riskCategory, rule.severity, rule.weight, index.value, index.value + |phrase|))
  }

  predicate Covers(outer: Hit, inner: Hit) {
    outer.riskCategory == inner.riskCategory && outer.start <= inner.start && inner.end <= outer.end
  }

  predicate SameRange(a: Hit, b: Hit) {
    a.riskCategory == b.riskCategory && a.start == b.start && a.end == b.end
  }

  /** Longer ranges come first, then heavier rules, then rule ids in their collation. */
  predicate Longer(a: Hit, b: Hit, collation: Collation) {
    if Width(a) != Width(b) then Width(a) > Width(b)
    else if a.weight != b.weight then a.weight > b.weight
    else collation(a.ruleId) <= collation(b.ruleId)
  }

  function LongestFirst(collation: Collation): (Hit, Hit) -> bool {
    (a: Hit, b: Hit) => Longer(a, b, collation)
  }

  /** More severe hits come first, then heavier rules, then rule ids in their collation. */
  predicate Worse(a: Hit, b: Hit, collation: Collation) {
    if SeverityRank(a.severity) != SeverityRank(b.severity) then SeverityRank(a.severity) > SeverityRank(b.severity)
    else if a.weight != b.weight then a.weight > b.weight
    else collation(a.ruleId) <= collation(b.ruleId)
  }

  function WorstFirst(collation: Collation): (Hit, Hit) -> bool {
    (a: Hit, b: Hit) => Worse(a, b, collation)
  }

  function KeepLongest(hits: seq<Hit>, collation: Collation): seq<Hit> {
    SortedThinned(Covers, LongestFirst(collation), hits)
  }

  lemma LongestFirstOrders(collation: Collation)
    ensures Orders(LongestFirst(collation))
    ensures forall a, b :: LongestFirst(collation)(a, b) <==> Longer(a, b, collation)
  {
  }

  lemma WorstFirstOrders(collation: Collation)
    ensures Orders(WorstFirst(collation))
    ensures forall a, b :: WorstFirst(collation)(a, b) <==> Worse(a, b, collation)
  {
  }

  lemma KeptInOrder(hits: seq<Hit>, collation: Collation)
    ensures InOrder(LongestFirst(collation), KeepLongest(hits, collation))
    ensures forall h :: h in KeepLongest(hits, collation) ==> h in hits
  {
    LongestFirstOrders(collation);
    SortedThinnedOrder(Covers, LongestFirst(collation), hits);
  }

  /** Every hit is covered by a kept one that is wider, or as wide and at least as heavy. */
  lemma KeptCovers(hits: seq<Hit>, collation: Collation, h: Hit) returns (i: nat)
    requires h in hits
    ensures i < |KeepLongest(hits, collation)|
    ensures Covers(KeepLongest(hits, collation)[i], h) && Longer(KeepLongest(hits, collation)[i], h, collation)
  {
    LongestFirstOrders(collation);
    i := SortedThinnedCovers(Covers, LongestFirst(collation), hits, h);
    assert LongestFirst(collation)(KeepLongest(hits, collation)[i], h);
  }

  lemma WiderBefore(a: Hit, b: Hit, collation: Collation)
    requires Longer(a, b, collation) && Covers(b, a)
    ensures Covers(a, b)
  {
  }

  /** No kept hit covers another kept hit, although the filter also compares with hits that it drops. */
  lemma KeptAntichain(hits: seq<Hit>, collation: Collation, i: nat, j: nat)
    requires i < |KeepLongest(hits, collation)| && j < |KeepLongest(hits, collation)|
    requires Covers(KeepLongest(hits, collation)[i], KeepLongest(hits, collation)[j])
    ensures i == j
  {
    var kept := KeepLongest(hits, collation);
    var list := Sorted(LongestFirst(collation), hits);
    if i < j {
      ThinnedIndependent(Covers, list, |list|, i, j);
    } else if j < i {
      KeptInOrder(hits, collation);
      LongestFirstOrders(collation);
      assert LongestFirst(collation)(kept[j], kept[i]);
      WiderBefore(kept[j], kept[i], collation);
      ThinnedIndependent(Covers, list, |list|, j, i);
    }
  }

  /** The ranges that are kept for a category are exactly those that no wider hit of the category covers. */
  lemma KeptAreMaximal(hits: seq<Hit>, collation: Collation, h: Hit)
    requires h in hits
    ensures (exists i :: 0 <= i < |KeepLongest(hits, collation)| && SameRange(KeepLongest(hits, collation)[i], h))
        <==> forall w :: w in hits && Covers(w, h) ==> SameRange(w, h)
  {
    var kept := KeepLongest(hits, collation);
    var wide := KeptCovers(hits, collation, h);
    if i :| 0 <= i < |kept| && SameRange(kept[i], h) {
      forall w | w in hits && Covers(w, h)
        ensures SameRange(w, h)
      {
        var j := KeptCovers(hits, collation, w);
        KeptAntichain(hits, collation, j, i);
      }
    } else {
      KeptInOrder(hits, collation);
      assert kept[wide] in hits;
    }
  }

  /** A hit that tells the truth: the first occurrence of a phrase that an enabled rule looks for. */
  ghost predicate Genuine(h: Hit, rules: seq<Rule>, text: string, policy: Policy, normalize: string -> string) {
    exists r :: r in rules && r.ruleId !in policy.disabledRuleIds && HitOf(r, text, policy, normalize) == Some(h)
  }

  /** What phrase matching reports: a covering antichain of the genuine hits. */
  method MatchPhraseRules(rules: seq<Rule>, text: string, policy: Policy, normalize: string -> string,
                          collation: Collation)
    returns (kept: seq<Hit>)
    ensures forall h :: h in kept ==> Genuine(h, rules, text, policy, normalize)
                                      && exists r :: r in rules && OccursAt(text, normalize(r.phrase), h.start)
                                                     && h.end == h.start + |normalize(r.phrase)|
    ensures forall h :: Genuine(h, rules, text, policy, normalize) ==>
      exists k :: k in kept && Covers(k, h) && Longer(k, h, collation)
    ensures forall i, j :: 0 <= i < |kept| && 0 <= j < |kept| && Covers(kept[i], kept[j]) ==> i == j
    ensures InOrder(LongestFirst(collation), kept)
  {
    var hits: seq<Hit> := [];
    for i := 0 to |rules|
      invariant forall h :: h in hits <==> Genuine(h, rules[..i], text, policy, normalize)
    {
      assert rules[..i + 1] == rules[..i] + [rules[i]];
      var hit := HitOf(rules[i], text, policy, normalize);
      if hit.Some? {
        hits := hits + [hit.value];
      }
    }
    assert rules[..|rules|] == rules;
    kept := KeepLongest(hits, collation);
    KeptInOrder(hits, collation);
    forall h | h in hits
      ensures exists k :: k in kept && Covers(k, h) && Longer(k, h, collation)
    {
      var i := KeptCovers(hits, collation, h);
    }
    forall i, j | 0 <= i < |kept| && 0 <= j < |kept| && Covers(kept[i], kept[j])
      ensures i == j
    {
      KeptAntichain(hits, collation, i, j);
    }
  }

  /** The rule and the range of a hit, by which duplicates are found. */
  function Identity(h: Hit): (string, nat, nat) {
    (h.ruleId, h.start, h.end)
  }

  predicate SameIdentity(a: Hit, b: Hit) {
    Identity(a) == Identity(b)
  }

  /** Sorts all hits and drops those whose rule and range have been seen. */
  method DedupeHits(hits: seq<Hit>, collation: Collation) returns (kept: seq<Hit>)
    ensures forall h :: h in kept ==> h in hits
    ensures InOrder(WorstFirst(collation), kept)
    ensures forall i, j :: 0 <= i < j < |kept| ==> Identity(kept[i]) != Identity(kept[j])
    ensures forall h :: h in hits ==> exists k :: k in kept && Identity(k) == Identity(h) && Worse(k, h, collation)
  {
    WorstFirstOrders(collation);
    var list := Sorted(WorstFirst(collation), hits);
    kept := [];
    var seen: set<(string, nat, nat)> := {};
    for i := 0 to |list|
      invariant kept == Thinned(SameIdentity, list, i)
      invariant forall key :: key in seen <==> exists j :: 0 <= j < i && Identity(list[j]) == key
    {
      var key := Identity(list[i]);
      assert key in seen <==> CoveredAt(SameIdentity, list, i);
      if key !in seen {
        seen := seen + {key};
        kept := kept + [list[i]];
      }
    }
    assert kept == SortedThinned(SameIdentity, WorstFirst(collation), hits);
    SortedThinnedOrder(SameIdentity, WorstFirst(collation), hits);
    forall i, j | 0 <= i < j < |kept|
      ensures Identity(kept[i]) != Identity(kept[j])
    {
      ThinnedIndependent(SameIdentity, list, |list|, i, j);
    }
    forall h | h in hits
      ensures exists k :: k in kept && Identity(k) == Identity(h) && Worse(k, h, collation)
    {
      var i := SortedThinnedCovers(SameIdentity, WorstFirst(collation), hits, h);
      assert kept[i] in kept && WorstFirst(collation)(kept[i], h);
    }
  }
}

/** Types that several parts of the gateway share. */
module Shared {
  datatype Option<+T> = None | Some(value: T)

  function OrElse<T>(x: Option<T>, y: Option<T>): Option<T> {
    if x.Some? then x else y
  }

  function ValueOr<T>(x: Option<T>, default: T): T {
    if x.Some? then x.value else default
  }

  function Lookup<T>(m: map<string, T>, key: string): Option<T> {
    if key in m then Some(m[key]) else None
  }

  /** In milliseconds. */
  const MINUTE := 60 * 1000
  const HOUR := 60 * MINUTE
  const DAY := 24 * HOUR

  /** The protocols a request can speak. */
  datatype Protocol = AnthropicProtocol | OpenAiProtocol

  datatype ProviderKind = Anthropic | OpenAi | OpenAiCompatible | Bedrock | Vertex
}

/** Trimming and lower-casing of names, on ASCII characters. */
module Text {

  predicate IsSpace(c: char) {
    c == ' ' || ('\t' <= c <= '\r')
  }

  function LowerChar(c: char): char {
    if 'A' <= c <= 'Z' then (c as int + 32) as char else c
  }

  function TrimLeft(s: string): string {
    if s != "" && IsSpace(s[0]) then TrimLeft(s[1..]) else s
  }

  function TrimRight(s: string): string {
    if s != "" && IsSpace(s[|s| - 1]) then TrimRight(s[..|s| - 1]) else s
  }

  function Trim(s: string): string {
    TrimRight(TrimLeft(s))
  }

  function Lower(s: string): (r: string)
    ensures |r| == |s|
  {
    seq(|s|, i requires 0 <= i < |s| => LowerChar(s[i]))
  }

  /** How model names, tokens and hints are compared. */
  function Normalize(s: string): string {
    Lower(Trim(s))
  }

  predicate IsTrimmed(s: string) {
    s == "" || (!IsSpace(s[0]) && !IsSpace(s[|s| - 1]))
  }

  predicate IsNormal(s: string) {
    IsTrimmed(s) && forall i :: 0 <= i < |s| ==> LowerChar(s[i]) == s[i]
  }

  lemma {:induction false} TrimLeftTrims(s: string)
    ensures TrimLeft(s) == "" || !IsSpace(TrimLeft(s)[0])
  {
    if s == "" || !IsSpace(s[0]) {
    } else {
      TrimLeftTrims(s[1..]);
    }
  }

  lemma {:induction false} TrimRightTrims(s: string)
    ensures TrimRight(s) == "" || !IsSpace(TrimRight(s)[|TrimRight(s)| - 1])
    ensures TrimRight(s) <= s
  {
    if s == "" || !IsSpace(s[|s| - 1]) {
    } else {
      TrimRightTrims(s[..|s| - 1]);
    }
  }

  lemma NormalizeNormal(s: string)
    ensures IsNormal(Normalize(s))
  {
    TrimLeftTrims(s);
    TrimRightTrims(TrimLeft(s));
  }

  /** The normal names are the fixed points of normalisation, so normalising twice changes nothing. */
  lemma NormalFixed(s: string)
    ensures IsNormal(s) <==> Normalize(s) == s
  {
    NormalizeNormal(s);
    if IsNormal(s) {
      assert Trim(s) == s;
      assert Lower(s) == s;
    }
  }

  /** The spaces that trimming takes away. */
  function LeadingSpace(s: string): string {
    if s != "" && IsSpace(s[0]) then [s[0]] + LeadingSpace(s[1..]) else ""
  }

  function TrailingSpace(s: string): string {
    if s != "" && IsSpace(s[|s| - 1]) then TrailingSpace(s[..|s| - 1]) + [s[|s| - 1]] else ""
  }

  lemma {:induction false} TrimLeftParts(s: string)
    ensures s == LeadingSpace(s) + TrimLeft(s)
    ensures Lower(s) == LeadingSpace(s) + Lower(TrimLeft(s))
    ensures TrimLeft(Lower(s)) == Lower(TrimLeft(s)) && LeadingSpace(Lower(s)) == LeadingSpace(s)
  {
    if s != "" && IsSpace(s[0]) {
      TrimLeftParts(s[1..]);
      assert Lower(s) == [s[0]] + Lower(s[1..]);
    } else {
      assert Lower(s) == "" || !IsSpace(Lower(s)[0]);
    }
  }

  lemma {:induction false} TrimRightParts(s: string)
    ensures s == TrimRight(s) + TrailingSpace(s)
    ensures Lower(s) == Lower(TrimRight(s)) + TrailingSpace(s)
    ensures TrimRight(Lower(s)) == Lower(TrimRight(s)) && TrailingSpace(Lower(s)) == TrailingSpace(s)
  {
    if s != "" && IsSpace(s[|s| - 1]) {
      TrimRightParts(s[..|s| - 1]);
      assert Lower(s) == Lower(s[..|s| - 1]) + [s[|s| - 1]];
    } else {
      assert Lower(s) == "" || !IsSpace(Lower(s)[|Lower(s)| - 1]);
    }
  }

  /** Two names are equal up to case exactly when they are normalised alike and have the same spaces around them. */
  lemma LowerEqual(a: string, b: string)
    ensures Lower(a) == Lower(b)
        <==> Normalize(a) == Normalize(b) && LeadingSpace(a) == LeadingSpace(b)
             && TrailingSpace(TrimLeft(a)) == TrailingSpace(TrimLeft(b))
  {
    TrimLeftParts(a);
    TrimLeftParts(b);
    TrimRightParts(TrimLeft(a));
    TrimRightParts(TrimLeft(b));
  }
}

/** Filtering of sequences, up to order. */
module Filtering {

  function Filter<T>(p: T -> bool, s: seq<T>): seq<T> {
    if s == [] then []
    else if p(s[0]) then [s[0]] + Filter(p, s[1..])
    else Filter(p, s[1..])
  }

  lemma {:induction false} FilterMembers<T(!new)>(p: T -> bool, s: seq<T>)
    ensures forall x :: x in Filter(p, s) <==> x in s && p(x)
    ensures |Filter(p, s)| <= |s|
  {
    if s == [] {
    } else {
      FilterMembers(p, s[1..]);
      assert s == [s[0]] + s[1..];
    }
  }

  lemma {:induction false} FilterAppend<T(!new)>(p: T -> bool, a: seq<T>, b: seq<T>)
    ensures Filter(p, a + b) == Filter(p, a) + Filter(p, b)
  {
    if a == [] {
      assert a + b == b;
    } else {
      assert (a + b)[1..] == a[1..] + b;
      FilterAppend(p, a[1..], b);
    }
  }

  lemma {:induction false} FilterMultiset<T(!new)>(p: T -> bool, s: seq<T>, x: T)
    ensures multiset(Filter(p, s))[x] == if p(x) then multiset(s)[x] else 0
  {
    if s == [] {
    } else {
      FilterMultiset(p, s[1..], x);
      assert s == [s[0]] + s[1..];
    }
  }

  /** The elements kept do not depend on the order of the input. */
  lemma FilterPermutation<T(!new)>(p: T -> bool, a: seq<T>, b: seq<T>)
    requires multiset(a) == multiset(b)
    ensures multiset(Filter(p, a)) == multiset(Filter(p, b))
    ensures |Filter(p, a)| == |Filter(p, b)|
    ensures |Filter(p, a)| == 1 ==> Filter(p, a)[0] == Filter(p, b)[0]
  {
    forall x
      ensures multiset(Filter(p, a))[x] == multiset(Filter(p, b))[x]
    {
      FilterMultiset(p, a, x);
      FilterMultiset(p, b, x);
    }
    PermutationLength(Filter(p, a), Filter(p, b));
  }

  lemma PermutationLength<T(!new)>(a: seq<T>, b: seq<T>)
    requires multiset(a) == multiset(b)
    ensures |a| == |b|
    ensures |a| == 1 ==> a[0] == b[0]
  {
    assert |multiset(a)| == |a| && |multiset(b)| == |b|;
    if |a| == 1 {
      assert a[0] in multiset(b);
    }
  }

  /** Two filters with disjoint conditions make up the filter of either condition. */
  lemma FilterSplit<T(!new)>(p: T -> bool, q: T -> bool, r: T -> bool, s: seq<T>)
    requires forall x :: x in s ==> (r(x) <==> p(x) || q(x)) && !(p(x) && q(x))
    ensures multiset(Filter(p, s) + Filter(q, s)) == multiset(Filter(r, s))
  {
    forall x
      ensures multiset(Filter(p, s) + Filter(q, s))[x] == multiset(Filter(r, s))[x]
    {
      FilterMultiset(p, s, x);
      FilterMultiset(q, s, x);
      FilterMultiset(r, s, x);
    }
  }

  lemma {:induction false} FilterAll<T(!new)>(p: T -> bool, s: seq<T>)
    requires forall x :: x in s ==> p(x)
    ensures Filter(p, s) == s
  {
    if s == [] {
    } else {
      FilterAll(p, s[1..]);
    }
  }
}

/** The key order of a JavaScript Map: a new key goes last, and rewriting a key keeps its place. */
module KeyOrder {

  /** Deletes one key. */
  function Without<K(==)>(s: seq<K>, key: K): seq<K> {
    if s == [] then []
    else if s[0] == key then Without(s[1..], key)
    else [s[0]] + Without(s[1..], key)
  }

  lemma {:induction false} WithoutMembers<K(!new)>(s: seq<K>, key: K)
    ensures forall k :: k in Without(s, key) <==> k in s && k != key
    ensures key !in s ==> Without(s, key) == s
  {
    if s == [] {
    } else {
      WithoutMembers(s[1..], key);
      assert s == [s[0]] + s[1..];
    }
  }

  /** The keys in the order of the numbers given to them, which makes them distinct too. */
  ghost predicate Ascending<K(!new)>(s: seq<K>, number: map<K, nat>) {
    s == [] ||
    (s[0] in number
     && (forall k :: k in s[1..] ==> k in number && number[s[0]] < number[k])
     && Ascending(s[1..], number))
  }

  lemma {:induction false} WithoutAscending<K(!new)>(s: seq<K>, key: K, number: map<K, nat>)
    requires Ascending(s, number)
    ensures Ascending(Without(s, key), number)
    ensures |Without(s, key)| == if key in s then |s| - 1 else |s|
  {
    if s == [] {
    } else {
      WithoutAscending(s[1..], key, number);
      WithoutMembers(s[1..], key);
    }
  }

  /** Renumbering the last key above all others. */
  lemma {:induction false} AscendingAppend<K(!new)>(s: seq<K>, key: K, number: map<K, nat>, later: map<K, nat>)
    requires Ascending(s, number) && key in later
    requires forall k :: k in s ==> k in later && k in number && later[k] == number[k] < later[key]
    ensures Ascending(s + [key], later)
  {
    if s == [] {
    } else {
      AscendingAppend(s[1..], key, number, later);
      assert (s + [key])[1..] == s[1..] + [key];
    }
  }

  lemma {:induction false} AscendingDrop<K(!new)>(s: seq<K>, n: nat, number: map<K, nat>)
    requires Ascending(s, number) && n <= |s|
    ensures Ascending(s[n..], number)
    ensures forall k, l :: k in s[..n] && l in s[n..] ==> k in number && l in number && number[k] < number[l]
    decreases n
  {
    if n == 0 {
    } else {
      AscendingDrop(s[1..], n - 1, number);
      assert s[n..] == s[1..][n - 1..];
      assert s[..n] == [s[0]] + s[1..][..n - 1];
      assert forall l :: l in s[n..] ==> l in s[1..];
    }
  }

  /** Ascending numbers that are all below `next`. */
  ghost predicate Numbered<K(!new)>(s: seq<K>, number: map<K, nat>, next: nat) {
    Ascending(s, number) && forall k :: k in s ==> k in number && number[k] < next
  }

  /** Touching a key gives it the next number, above all others. */
  lemma NumberedTouch<K(!new)>(s: seq<K>, key: K, number: map<K, nat>, next: nat)
    requires Numbered(s, number, next)
    ensures Numbered(Without(s, key) + [key], number[key := next], next + 1)
  {
    WithoutMembers(s, key);
    WithoutAscending(s, key, number);
    AscendingAppend(Without(s, key), key, number, number[key := next]);
  }

  /** Of numbered keys, those before a cut are below those after it. */
  lemma NumberedCut<K(!new)>(s: seq<K>, n: nat, number: map<K, nat>, next: nat)
    requires Numbered(s, number, next) && n < |s|
    ensures Numbered(s[n..], number, next)
    ensures s[|s| - 1] in s[n..]
    ensures forall k :: k in s[n..] ==> k in s
    ensures forall k, l :: k in s && k !in s[n..] && l in s[n..] ==> k in number && l in number && number[k] < number[l]
  {
    AscendingDrop(s, n, number);
    assert s == s[..n] + s[n..];
    assert s[n..][|s| - 1 - n] == s[|s| - 1];
  }

  predicate Blank(key: string) {
    key == ""
  }

  /** How many of the first `n` keys come before a blank one. */
  function NamedPrefix(s: seq<string>, n: nat): (d: nat)
    requires n <= |s|
    ensures d <= n
    ensures d < n ==> Blank(s[d])
  {
    if n == 0 || Blank(s[0]) then 0 else 1 + NamedPrefix(s[1..], n - 1)
  }

  /** What has to go from the front so that at most `limit` keys are left; a blank key ends the deleting. */
  function Excess(s: seq<string>, limit: nat): (d: nat)
    ensures d <= |s|
    ensures |s| - d >= if |s| > limit then limit else |s|
    ensures |s| - d > limit ==> Blank(s[d])
  {
    if |s| > limit then NamedPrefix(s, |s| - limit) else 0
  }

  /** Deletes from the front while there are more than `limit` keys. */
  function Trimmed(s: seq<string>, limit: nat): seq<string> {
    s[Excess(s, limit)..]
  }

  /** The limit holds exactly when none of the keys that have to go is blank. */
  lemma TrimmedWithinLimit(s: seq<string>, limit: nat)
    ensures |Trimmed(s, limit)| <= limit <==> forall i :: 0 <= i < |s| - limit ==> !Blank(s[i])
  {
    if |s| > limit {
      NamedPrefixNamed(s, |s| - limit);
    }
  }

  lemma {:induction false} NamedPrefixNamed(s: seq<string>, n: nat)
    requires n <= |s|
    ensures forall i :: 0 <= i < NamedPrefix(s, n) ==> !Blank(s[i])
  {
    if n == 0 || Blank(s[0]) {
    } else {
      var rest := s[1..];
      NamedPrefixNamed(rest, n - 1);
      forall i | 0 <= i < NamedPrefix(s, n)
        ensures !Blank(s[i])
      {
        if i > 0 { assert s[i] == rest[i - 1]; }
      }
    }
  }
}

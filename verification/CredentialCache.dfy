/** The bounded cache of decrypted provider credentials, whose entries expire. */
module CredentialCache {
  import opened Shared

  datatype Candidate = Candidate(id: string, updatedAt: string, encryptedApiKey: string, metadata: string)

  datatype Credentials = Credentials(apiKey: string, metadata: string)

  /** `Failed` stands for the two errors that decryption throws. */
  datatype Result = Ok(value: Credentials) | Failed

  type Decrypt = (Candidate, string) -> Result

  datatype Entry = Entry(key: string, expiresAt: int, value: Credentials)

  /** One request for a credential. */
  datatype Call = Call(candidate: Candidate, encryptionKey: string, now: int, ttl: int)

  const MAX_ENTRIES: nat := 512
  const DEFAULT_TTL := 5 * MINUTE

  function CacheKey(candidate: Candidate): string {
    candidate.id + ":" + candidate.updatedAt + ":" + candidate.encryptedApiKey
  }

  /** The entries that have not expired, in their order. */
  function Live(entries: seq<Entry>, now: int): seq<Entry> {
    if entries == [] then []
    else if entries[0].expiresAt > now then [entries[0]] + Live(entries[1..], now)
    else Live(entries[1..], now)
  }

  /** An entry that answers a request for a key. */
  predicate Hit(entry: Entry, key: string, now: int) {
    entry.key == key && entry.expiresAt > now
  }

  /** A new entry goes last, at the cost of the oldest one when the cache is full. */
  function Stored(live: seq<Entry>, entry: Entry): seq<Entry> {
    (if |live| < MAX_ENTRIES then live else live[1..]) + [entry]
  }

  function EntryFor(entries: seq<Entry>, key: string): (found: Option<Entry>)
    ensures found.Some? ==> found.value in entries && found.value.key == key
    ensures found.None? ==> forall e :: e in entries ==> e.key != key
  {
    if entries == [] then None
    else if entries[0].key == key then Some(entries[0])
    else EntryFor(entries[1..], key)
  }

  /** What a call gets from a cache with these entries. */
  function Served(decrypt: Decrypt, entries: seq<Entry>, call: Call): Result {
    var found := EntryFor(Live(entries, call.now), CacheKey(call.candidate));
    if found.Some? then Ok(found.value.value) else decrypt(call.candidate, call.encryptionKey)
  }

  /** The entries that a call leaves. */
  function EntriesNext(decrypt: Decrypt, entries: seq<Entry>, call: Call): seq<Entry> {
    var live := Live(entries, call.now);
    var result := decrypt(call.candidate, call.encryptionKey);
    if EntryFor(live, CacheKey(call.candidate)).Some? || result.Failed? then live
    else Stored(live, Entry(CacheKey(call.candidate), call.now + call.ttl, result.value))
  }

  /** The entries after a sequence of calls to a cache that was empty. */
  function EntriesAfter(decrypt: Decrypt, calls: seq<Call>): seq<Entry> {
    if calls == [] then []
    else EntriesNext(decrypt, EntriesAfter(decrypt, calls[..|calls| - 1]), calls[|calls| - 1])
  }

  predicate DistinctKeys(entries: seq<Entry>) {
    forall i, j :: 0 <= i < j < |entries| ==> entries[i].key != entries[j].key
  }

  /** An entry holds what decryption gave to an earlier call with the same key, for as long as that call asked. */
  predicate Explains(call: Call, entry: Entry, decrypt: Decrypt) {
    && entry.key == CacheKey(call.candidate)
    && decrypt(call.candidate, call.encryptionKey) == Ok(entry.value)
    && entry.expiresAt == call.now + call.ttl
  }

  /** Distinct keys, few enough entries, and an earlier call behind each of them. */
  ghost predicate Sound(entries: seq<Entry>, calls: seq<Call>, decrypt: Decrypt) {
    && DistinctKeys(entries)
    && |entries| <= MAX_ENTRIES
    && forall e :: e in entries ==> Explained(e, calls, decrypt)
  }

  predicate Explained(entry: Entry, calls: seq<Call>, decrypt: Decrypt) {
    exists i :: 0 <= i < |calls| && Explains(calls[i], entry, decrypt)
  }

  /** Calls with one cache key are about the same candidate and use the same encryption key. */
  predicate Consistent(calls: seq<Call>) {
    forall i, j :: 0 <= i < |calls| && 0 <= j < |calls| && CacheKey(calls[i].candidate) == CacheKey(calls[j].candidate)
      ==> calls[i].candidate == calls[j].candidate && calls[i].encryptionKey == calls[j].encryptionKey
  }

  lemma {:induction false} LiveMembers(entries: seq<Entry>, now: int)
    ensures forall e :: e in Live(entries, now) <==> e in entries && e.expiresAt > now
    ensures |Live(entries, now)| <= |entries|
  {
    if entries == [] {
    } else {
      LiveMembers(entries[1..], now);
      assert entries == [entries[0]] + entries[1..];
    }
  }

  lemma {:induction false} LiveAppend(a: seq<Entry>, b: seq<Entry>, now: int)
    ensures Live(a + b, now) == Live(a, now) + Live(b, now)
  {
    if a == [] {
      assert a + b == b;
    } else {
      assert (a + b)[1..] == a[1..] + b;
      LiveAppend(a[1..], b, now);
    }
  }

  /** One step of the walk over the map keeps the entries that will be left at its end. */
  lemma LiveStep(kept: seq<Entry>, rest: seq<Entry>, now: int)
    requires rest != []
    ensures rest[0].expiresAt <= now ==> Live(kept + rest, now) == Live(kept + rest[1..], now)
  {
    LiveAppend(kept, rest, now);
    LiveAppend(kept, rest[1..], now);
  }

  lemma {:induction false} LiveFixed(entries: seq<Entry>, now: int)
    requires forall i :: 0 <= i < |entries| ==> entries[i].expiresAt > now
    ensures Live(entries, now) == entries
  {
    if entries == [] {
    } else {
      LiveFixed(entries[1..], now);
    }
  }

  /** The key string tells candidates apart when ids have no colon and timestamps one length. */
  lemma CacheKeyInjective(a: Candidate, b: Candidate)
    requires ':' !in a.id && ':' !in b.id && |a.updatedAt| == |b.updatedAt|
    ensures CacheKey(a) == CacheKey(b)
        <==> a.id == b.id && a.updatedAt == b.updatedAt && a.encryptedApiKey == b.encryptedApiKey
  {
    if CacheKey(a) == CacheKey(b) {
      var k := CacheKey(a);
      assert k[|a.id|] == ':' && k[|b.id|] == ':';
      assert k[..|a.id|] == a.id && k[..|b.id|] == b.id;
      assert forall i :: 0 <= i < |a.id| ==> k[i] == a.id[i] != ':';
      assert forall i :: 0 <= i < |b.id| ==> k[i] == b.id[i] != ':';
      var n, m := |a.id| + 1, |a.updatedAt|;
      assert k[n..n + m] == a.updatedAt && k[n..n + m] == b.updatedAt;
      assert k[n + m + 1..] == a.encryptedApiKey && k[n + m + 1..] == b.encryptedApiKey;
    }
  }

  /** One encryption key, and candidates that id, timestamp and ciphertext determine, make calls consistent. */
  lemma OneKeyConsistent(calls: seq<Call>, encryptionKey: string, stampLength: nat)
    requires forall i :: 0 <= i < |calls| ==> calls[i].encryptionKey == encryptionKey
    requires forall i ::
              0 <= i < |calls| ==> ':' !in calls[i].candidate.id && |calls[i].candidate.updatedAt| == stampLength
    requires forall i, j :: 0 <= i < |calls| && 0 <= j < |calls| ==>
      var a, b := calls[i].candidate, calls[j].candidate;
      a.id == b.id && a.updatedAt == b.updatedAt && a.encryptedApiKey == b.encryptedApiKey ==> a == b
    ensures Consistent(calls)
  {
    forall i, j | 0 <= i < |calls| && 0 <= j < |calls| && CacheKey(calls[i].candidate) == CacheKey(calls[j].candidate)
      ensures calls[i].candidate == calls[j].candidate
    {
      CacheKeyInjective(calls[i].candidate, calls[j].candidate);
    }
  }

  class ProviderCredentialCache {
    const decrypt: Decrypt
    var entries: seq<Entry>
    /** Every call since the cache was made or cleared. */
    ghost var calls: seq<Call>

    ghost predicate Valid()
      reads this
    {
      entries == EntriesAfter(decrypt, calls) && Sound(entries, calls, decrypt)
    }

    constructor (decrypt: Decrypt)
      ensures Valid() && entries == [] && calls == [] && this.decrypt == decrypt
    {
      this.decrypt, entries, calls := decrypt, [], [];
    }

    /** Walks over the map once and deletes the entries that have expired. */
    method EvictExpiredEntries(now: int)
      requires DistinctKeys(entries)
      modifies `entries
      ensures DistinctKeys(entries)
      ensures entries == Live(old(entries), now)
    {
      hide Live;
      var i := 0;
      while i < |entries|
        invariant 0 <= i <= |entries|
        invariant DistinctKeys(entries)
        invariant forall j :: 0 <= j < i ==> entries[j].expiresAt > now
        invariant Live(entries, now) == Live(old(entries), now)
        decreases |entries| - i
      {
        if entries[i].expiresAt > now {
          i := i + 1;
        } else {
          LiveStep(entries[..i], entries[i..], now);
          assert entries == entries[..i] + entries[i..];
          assert entries[i..][1..] == entries[i + 1..];
          entries := entries[..i] + entries[i + 1..];
        }
      }
      LiveFixed(entries, now);
    }

    /** Deletes the oldest entries until few enough are left. No key is blank, so nothing stops it early. */
    method EnforceCacheLimit()
      requires DistinctKeys(entries)
      requires forall e :: e in entries ==> e.key != ""
      modifies `entries
      ensures DistinctKeys(entries)
      ensures var whole := old(entries);
        entries == if |whole| <= MAX_ENTRIES then whole else whole[|whole| - MAX_ENTRIES..]
    {
      ghost var whole := entries;
      while |entries| > MAX_ENTRIES
        invariant |entries| <= |whole| && entries == whole[|whole| - |entries|..]
        invariant |whole| > MAX_ENTRIES ==> |entries| >= MAX_ENTRIES
        invariant |whole| <= MAX_ENTRIES ==> entries == whole
        decreases |entries|
      {
        var oldestKey := entries[0].key;
        assert entries[0] in whole;
        if oldestKey == "" {
          break;
        }
        entries := entries[1..];
      }
    }

    method Find(key: string) returns (found: bool, entry: Entry)
      ensures found ==> entry in entries && entry.key == key
      ensures !found ==> forall e :: e in entries ==> e.key != key
    {
      entry := Entry("", 0, Credentials("", ""));
      for i := 0 to |entries|
        invariant forall j :: 0 <= j < i ==> entries[j].key != key
      {
        if entries[i].key == key {
          return true, entries[i];
        }
      }
      return false, entry;
    }

    /** The credentials of a candidate, from the cache or from decryption. */
    method Get(candidate: Candidate, encryptionKey: string, now: int, ttl: int) returns (result: Result)
      requires Valid()
      modifies this
      ensures Valid()
      ensures calls == old(calls) + [Call(candidate, encryptionKey, now, ttl)]
      ensures result == Served(decrypt, old(entries), Call(candidate, encryptionKey, now, ttl))
      ensures forall e :: e in old(entries) && Hit(e, CacheKey(candidate), now) ==>
        result == Ok(e.value) && entries == Live(old(entries), now)
      ensures (forall e :: e in old(entries) ==> !Hit(e, CacheKey(candidate), now))
        ==> result == decrypt(candidate, encryptionKey)
            && entries == if result.Failed? then Live(old(entries), now)
                          else Stored(Live(old(entries), now), Entry(CacheKey(candidate), now + ttl, result.value))
      ensures Consistent(calls) ==> result == decrypt(candidate, encryptionKey)
    {
      hide Stored, Live, EntryFor, Explained, Consistent;
      ghost var call, before, earlier := Call(candidate, encryptionKey, now, ttl), entries, calls;
      ghost var live := Live(entries, now);
      var cacheKey := CacheKey(candidate);
      LiveMembers(entries, now);
      EntryForHit(before, cacheKey, now);
      CallSound(before, calls, call, decrypt);
      assert EntriesAfter(decrypt, calls + [call]) == EntriesNext(decrypt, before, call) by {
        assert (calls + [call])[..|calls|] == calls;
      }
      LiveKeyed(before, calls, decrypt, now);
      EvictExpiredEntries(now);
      calls := calls + [call];
      var cached, cachedEntry := Find(cacheKey);
      EntryForUnique(live, cacheKey);
      if cached && cachedEntry.expiresAt > now {
        result := Ok(cachedEntry.value);
        return;
      }
      result := decrypt(candidate, encryptionKey);
      if result.Ok? {
        Store(Entry(cacheKey, now + ttl, result.value));
      }
    }

    /** Adds an entry and keeps the cache within its limit. */
    method Store(entry: Entry)
      requires DistinctKeys(entries) && |entries| <= MAX_ENTRIES
      requires entry.key != "" && forall e :: e in entries ==> e.key != entry.key && e.key != ""
      modifies `entries
      ensures DistinctKeys(entries) && entries == Stored(old(entries), entry)
    {
      entries := entries + [entry];
      EnforceCacheLimit();
      assert |old(entries)| == MAX_ENTRIES ==> entries == (old(entries) + [entry])[1..] == old(entries)[1..] + [entry];
    }

    method Clear()
      modifies this
      ensures Valid() && entries == []
    {
      entries, calls := [], [];
    }
  }

  lemma ExplainedLater(entries: seq<Entry>, calls: seq<Call>, call: Call, decrypt: Decrypt)
    requires forall e :: e in entries ==> Explained(e, calls, decrypt)
    ensures forall e :: e in entries ==> Explained(e, calls + [call], decrypt)
  {
    forall e | e in entries
      ensures Explained(e, calls + [call], decrypt)
    {
      var i :| 0 <= i < |calls| && Explains(calls[i], e, decrypt);
      assert (calls + [call])[i] == calls[i];
    }
  }

  lemma {:induction false} LiveDistinct(entries: seq<Entry>, now: int)
    requires DistinctKeys(entries)
    ensures DistinctKeys(Live(entries, now))
  {
    if entries == [] {
    } else {
      LiveDistinct(entries[1..], now);
      LiveMembers(entries[1..], now);
    }
  }

  /** A call keeps the entries sound, and among consistent calls it gets the decryption of its own candidate. */
  lemma CallSound(entries: seq<Entry>, calls: seq<Call>, call: Call, decrypt: Decrypt)
    requires Sound(entries, calls, decrypt)
    ensures Sound(EntriesNext(decrypt, entries, call), calls + [call], decrypt)
    ensures Consistent(calls + [call]) ==> Served(decrypt, entries, call) == decrypt(call.candidate, call.encryptionKey)
  {
    hide EntryFor, Consistent, Live;
    var live, key := Live(entries, call.now), CacheKey(call.candidate);
    LiveMembers(entries, call.now);
    LiveDistinct(entries, call.now);
    ExplainedLater(entries, calls, call, decrypt);
    var found := EntryFor(live, key);
    if found.Some? {
      ServedConsistently(found.value, calls + [call], decrypt);
    } else if decrypt(call.candidate, call.encryptionKey).Ok? {
      var entry := Entry(key, call.now + call.ttl, decrypt(call.candidate, call.encryptionKey).value);
      assert (calls + [call])[|calls|] == call;
      assert Explains(call, entry, decrypt);
      assert Explained(entry, calls + [call], decrypt);
      hide Explained;
      StoredSound(live, entry, calls + [call], decrypt);
    }
  }

  lemma StoredSound(live: seq<Entry>, entry: Entry, calls: seq<Call>, decrypt: Decrypt)
    requires Sound(live, calls, decrypt) && Explained(entry, calls, decrypt)
    requires forall e :: e in live ==> e.key != entry.key
    ensures Sound(Stored(live, entry), calls, decrypt)
  {
    hide Explained;
  }

  lemma LiveKeyed(entries: seq<Entry>, calls: seq<Call>, decrypt: Decrypt, now: int)
    requires Sound(entries, calls, decrypt)
    ensures forall e :: e in Live(entries, now) ==> e.key != ""
    ensures |Live(entries, now)| <= MAX_ENTRIES
  {
    LiveMembers(entries, now);
    ExplainedKeyed(entries, calls, decrypt);
  }

  lemma EntryForHit(entries: seq<Entry>, key: string, now: int)
    requires DistinctKeys(entries)
    ensures forall e :: e in entries && Hit(e, key, now) ==> EntryFor(Live(entries, now), key) == Some(e)
    ensures (forall e :: e in entries ==> !Hit(e, key, now)) ==> EntryFor(Live(entries, now), key) == None
  {
    hide Live;
    LiveMembers(entries, now);
    LiveDistinct(entries, now);
    EntryForUnique(Live(entries, now), key);
  }

  lemma {:induction false} EntryForUnique(entries: seq<Entry>, key: string)
    requires DistinctKeys(entries)
    ensures forall e :: e in entries && e.key == key ==> EntryFor(entries, key) == Some(e)
  {
    if entries == [] {
    } else {
      EntryForUnique(entries[1..], key);
      assert entries == [entries[0]] + entries[1..];
    }
  }

  lemma ExplainedKeyed(entries: seq<Entry>, calls: seq<Call>, decrypt: Decrypt)
    requires forall e :: e in entries ==> Explained(e, calls, decrypt)
    ensures forall e :: e in entries ==> e.key != ""
  {
    forall e | e in entries
      ensures e.key != ""
    {
      var i :| 0 <= i < |calls| && Explains(calls[i], e, decrypt);
      assert |CacheKey(calls[i].candidate)| >= 2;
    }
  }

  /** Among consistent calls, a cached value is the decryption of the last call's own candidate. */
  lemma ServedConsistently(entry: Entry, calls: seq<Call>, decrypt: Decrypt)
    requires calls != [] && Explained(entry, calls, decrypt)
    requires entry.key == CacheKey(calls[|calls| - 1].candidate)
    ensures Consistent(calls)
      ==> decrypt(calls[|calls| - 1].candidate, calls[|calls| - 1].encryptionKey) == Ok(entry.value)
  {
    var i :| 0 <= i < |calls| && Explains(calls[i], entry, decrypt);
    assert CacheKey(calls[i].candidate) == CacheKey(calls[|calls| - 1].candidate);
  }

  lemma {:induction false} RunSound(calls: seq<Call>, decrypt: Decrypt)
    ensures Sound(EntriesAfter(decrypt, calls), calls, decrypt)
  {
    if calls == [] {
    } else {
      var earlier, call := calls[..|calls| - 1], calls[|calls| - 1];
      RunSound(earlier, decrypt);
      CallSound(EntriesAfter(decrypt, earlier), earlier, call, decrypt);
      assert earlier + [call] == calls;
    }
  }

  /** A candidate and an encryption key, as calls may ask for them. */
  type Request = (Candidate, string)

  predicate Asks(calls: seq<Call>, requests: set<Request>) {
    forall i :: 0 <= i < |calls| ==> (calls[i].candidate, calls[i].encryptionKey) in requests
  }

  /** Whatever decryption does, and whenever calls come, every call for one of the requests gets its own decryption. */
  ghost predicate AlwaysOwn(requests: set<Request>) {
    forall decrypt: Decrypt, calls: seq<Call>, call: Call :: Asks(calls + [call], requests)
      ==> Served(decrypt, EntriesAfter(decrypt, calls), call) == decrypt(call.candidate, call.encryptionKey)
  }

  /** That is so if and only if different requests have different cache keys. */
  lemma ServedOwnExactly(requests: set<Request>)
    ensures AlwaysOwn(requests)
        <==> forall p, q :: p in requests && q in requests && CacheKey(p.0) == CacheKey(q.0) ==> p == q
  {
    hide CacheKey, Served, EntriesAfter;
    if forall p, q :: p in requests && q in requests && CacheKey(p.0) == CacheKey(q.0) ==> p == q {
      forall decrypt: Decrypt, calls: seq<Call>, call: Call | Asks(calls + [call], requests)
        ensures Served(decrypt, EntriesAfter(decrypt, calls), call) == decrypt(call.candidate, call.encryptionKey)
      {
        RunSound(calls, decrypt);
        AsksConsistent(calls + [call], requests);
        CallSound(EntriesAfter(decrypt, calls), calls, call, decrypt);
      }
    }
    if p, q :| p in requests && q in requests && CacheKey(p.0) == CacheKey(q.0) && p != q {
      var decrypt, first, second := ServesAnother(p, q);
      assert Asks([first] + [second], requests);
    }
  }

  lemma AsksConsistent(calls: seq<Call>, requests: set<Request>)
    requires Asks(calls, requests)
    requires forall p, q :: p in requests && q in requests && CacheKey(p.0) == CacheKey(q.0) ==> p == q
    ensures Consistent(calls)
  {
    hide CacheKey;
    forall i, j | 0 <= i < |calls| && 0 <= j < |calls| && CacheKey(calls[i].candidate) == CacheKey(calls[j].candidate)
      ensures calls[i].candidate == calls[j].candidate && calls[i].encryptionKey == calls[j].encryptionKey
    {
      var p, q := (calls[i].candidate, calls[i].encryptionKey), (calls[j].candidate, calls[j].encryptionKey);
      assert p in requests && q in requests;
    }
  }

  /** Two requests with one cache key, one after the other: the second gets what the first decrypted. */
  lemma ServesAnother(p: Request, q: Request) returns (decrypt: Decrypt, first: Call, second: Call)
    requires CacheKey(p.0) == CacheKey(q.0) && p != q
    ensures first == Call(p.0, p.1, 0, DEFAULT_TTL) && second == Call(q.0, q.1, 0, DEFAULT_TTL)
    ensures Served(decrypt, EntriesAfter(decrypt, [first]), second) != decrypt(q.0, q.1)
  {
    hide CacheKey;
    first, second := Call(p.0, p.1, 0, DEFAULT_TTL), Call(q.0, q.1, 0, DEFAULT_TTL);
    decrypt := (c: Candidate, k: string) => Ok(Credentials(if (c, k) == p then "a" else "b", ""));
    ServedAfterFirst(decrypt, first, second);
    assert Credentials("a", "").apiKey[0] != Credentials("b", "").apiKey[0];
  }

  /** The second of two calls with one cache key gets what the first decrypted, until that expires. */
  lemma ServedAfterFirst(decrypt: Decrypt, first: Call, second: Call)
    requires CacheKey(first.candidate) == CacheKey(second.candidate)
    ensures var before := decrypt(first.candidate, first.encryptionKey);
      Served(decrypt, EntriesAfter(decrypt, [first]), second)
      == if before.Ok? && second.now < first.now + first.ttl then before
         else decrypt(second.candidate, second.encryptionKey)
  {
    hide CacheKey;
    var before := decrypt(first.candidate, first.encryptionKey);
    var key := CacheKey(first.candidate);
    assert [first][..0] == [];
    assert EntriesAfter(decrypt, []) == [] && Live([], first.now) == [];
    if before.Ok? {
      var entry := Entry(key, first.now + first.ttl, before.value);
      assert EntriesAfter(decrypt, [first]) == [entry];
      assert [entry][1..] == [];
      assert Live([entry], second.now) == if entry.expiresAt > second.now then [entry] else [];
      assert EntryFor([entry], key) == Some(entry);
    } else {
      assert EntriesAfter(decrypt, [first]) == [];
    }
  }

  /** The cache key leaves out the encryption key: until expiry, a changed key is answered with the old decryption. */
  method ServeAfterKeyChange(decrypt: Decrypt, candidate: Candidate, first: string, second: string, now: int,
                             later: int)
    returns (served: Result)
    ensures later < now + DEFAULT_TTL && decrypt(candidate, first).Ok? ==> served == decrypt(candidate, first)
    ensures now + DEFAULT_TTL <= later || decrypt(candidate, first).Failed? ==> served == decrypt(candidate, second)
  {
    hide Live, Stored, Served, EntriesAfter, Sound, CacheKey;
    var cache := new ProviderCredentialCache(decrypt);
    var before := cache.Get(candidate, first, now, DEFAULT_TTL);
    ghost var call := Call(candidate, first, now, DEFAULT_TTL);
    assert cache.calls == [call];
    served := cache.Get(candidate, second, later, DEFAULT_TTL);
    ServedAfterFirst(decrypt, call, Call(candidate, second, later, DEFAULT_TTL));
  }
}

/** Recent events of a virtual key, and the questions that prompt inspection asks about them. */
module ContextWindow {
  import opened Shared

  datatype Verdict = AllowClean | AllowWithRecord | Review | Block

  datatype Event = Event(at: int, verdict: Verdict, riskCategories: seq<string>, simhash: Option<string>)

  /** The most events that are kept for one key. */
  const CAPACITY: nat := 64

  /** The events that are at most `width` milliseconds old. */
  function Within(events: seq<Event>, now: int, width: int): seq<Event> {
    if events == [] then []
    else if now - events[0].at <= width then [events[0]] + Within(events[1..], now, width)
    else Within(events[1..], now, width)
  }

  /** The last `n` elements, or all when there are fewer. */
  function Last<T>(s: seq<T>, n: nat): seq<T> {
    if |s| <= n then s else s[|s| - n..]
  }

  predicate InTimeOrder(events: seq<Event>) {
    forall i, j :: 0 <= i < j < |events| ==> events[i].at <= events[j].at
  }

  datatype Question =
    | OfVerdict(verdict: Verdict)
    | SharingRisk(categories: seq<string>)
    | OfSimhash(simhash: Option<string>)

  predicate Answers(question: Question, event: Event) {
    match question
    case OfVerdict(verdict) => event.verdict == verdict
    case SharingRisk(categories) => exists c :: c in event.riskCategories && c in categories
    case OfSimhash(simhash) => simhash.Some? && simhash.value != "" && event.simhash == simhash
  }

  function Count(question: Question, events: seq<Event>): nat {
    if events == [] then 0
    else (if Answers(question, events[0]) then 1 else 0) + Count(question, events[1..])
  }

  datatype Counts = Counts(reviewCount15m: nat, blockCount1h: nat, sameRisk15m: nat, repeatedSimhash24h: nat)

  /** The four counts over a list of events, at time `now`. */
  function CountsOver(events: seq<Event>, categories: seq<string>, simhash: Option<string>, now: int): Counts {
    Counts(
      Count(OfVerdict(Review), Within(events, now, 15 * MINUTE)),
      Count(OfVerdict(Block), Within(events, now, HOUR)),
      Count(SharingRisk(categories), Within(events, now, 15 * MINUTE)),
      Count(OfSimhash(simhash), Within(events, now, DAY)))
  }

  /** The buffered form of a history at a time: its last events, restricted to one day. */
  function Buffered(history: seq<Event>, at: int): seq<Event> {
    Last(Within(history, at, DAY), CAPACITY)
  }

  lemma {:induction false} WithinAll(events: seq<Event>, now: int, width: int)
    requires forall e :: e in events ==> now - e.at <= width
    ensures Within(events, now, width) == events
  {
    if events == [] {
    } else {
      WithinAll(events[1..], now, width);
    }
  }

  lemma {:induction false} WithinMembers(events: seq<Event>, now: int, width: int)
    ensures forall e :: e in Within(events, now, width) <==> e in events && now - e.at <= width
  {
    if events == [] {
    } else {
      WithinMembers(events[1..], now, width);
      assert events == [events[0]] + events[1..];
    }
  }

  lemma {:induction false} WithinInOrder(events: seq<Event>, now: int, width: int)
    requires InTimeOrder(events)
    ensures InTimeOrder(Within(events, now, width))
  {
    if events == [] {
    } else {
      WithinInOrder(events[1..], now, width);
      WithinMembers(events[1..], now, width);
    }
  }

  /** A later and narrower window does not see what an earlier and wider one has dropped. */
  lemma {:induction false} WithinAgain(events: seq<Event>, before: int, wide: int, now: int, width: int)
    requires before <= now && width <= wide
    ensures Within(Within(events, before, wide), now, width) == Within(events, now, width)
  {
    if events == [] {
    } else {
      WithinAgain(events[1..], before, wide, now, width);
    }
  }

  /** In time order, dropping all but the last events commutes with the window. */
  lemma {:induction false} WithinOfLast(events: seq<Event>, n: nat, now: int, width: int)
    requires InTimeOrder(events)
    ensures Within(Last(events, n), now, width) == Last(Within(events, now, width), n)
  {
    if |events| <= n {
      WithinShrinks(events, now, width);
    } else {
      assert Last(events, n) == Last(events[1..], n);
      WithinOfLast(events[1..], n, now, width);
      if now - events[0].at <= width {
        WithinAll(events, now, width);
        WithinAll(Last(events, n), now, width);
      }
    }
  }

  lemma {:induction false} WithinShrinks(events: seq<Event>, now: int, width: int)
    ensures |Within(events, now, width)| <= |events|
  {
    if events == [] {
    } else {
      WithinShrinks(events[1..], now, width);
    }
  }

  /** What a window sees of the buffered events is the end of what it sees of the whole history. */
  lemma BufferedWindow(history: seq<Event>, before: int, now: int, width: int)
    requires InTimeOrder(history) && before <= now && width <= DAY
    ensures Within(Buffered(history, before), now, width) == Last(Within(history, now, width), CAPACITY)
  {
    WithinInOrder(history, before, DAY);
    WithinOfLast(Within(history, before, DAY), CAPACITY, now, width);
    WithinAgain(history, before, DAY, now, width);
  }

  /** Buffering again at a later time is the same as buffering the whole history then. */
  lemma BufferedAgain(history: seq<Event>, before: int, now: int)
    requires InTimeOrder(history) && before <= now
    ensures Within(Buffered(history, before), now, DAY) == Buffered(history, now)
    ensures Last(Buffered(history, now), CAPACITY) == Buffered(history, now)
  {
    BufferedWindow(history, before, now, DAY);
  }

  lemma {:induction false} WithinAppend(a: seq<Event>, b: seq<Event>, now: int, width: int)
    ensures Within(a + b, now, width) == Within(a, now, width) + Within(b, now, width)
  {
    if a == [] {
      assert a + b == b;
    } else {
      assert (a + b)[1..] == a[1..] + b;
      WithinAppend(a[1..], b, now, width);
    }
  }

  /** Appending an event to the buffer is the same as appending it to the history and buffering that. */
  lemma BufferedAppend(history: seq<Event>, event: Event)
    ensures Last(Buffered(history, event.at) + [event], CAPACITY) == Buffered(history + [event], event.at)
  {
    WithinAppend(history, [event], event.at, DAY);
    assert Within([event], event.at, DAY) == [event];
  }

  lemma {:induction false} CountAppend(question: Question, a: seq<Event>, b: seq<Event>)
    ensures Count(question, a + b) == Count(question, a) + Count(question, b)
  {
    if a == [] {
      assert a + b == b;
    } else {
      assert (a + b)[1..] == a[1..] + b;
      CountAppend(question, a[1..], b);
    }
  }

  /** The buffer never counts more than the history, and is wrong only by what it has pushed out. */
  lemma BufferedCountAtMost(question: Question, history: seq<Event>, now: int, width: int)
    ensures var seen := Within(history, now, width);
      Count(question, Last(seen, CAPACITY)) <= Count(question, seen)
      && (Count(question, Last(seen, CAPACITY)) == Count(question, seen)
          <==> |seen| <= CAPACITY || Count(question, seen[..|seen| - CAPACITY]) == 0)
  {
    var seen := Within(history, now, width);
    if |seen| > CAPACITY {
      CountAppend(question, seen[..|seen| - CAPACITY], Last(seen, CAPACITY));
      assert seen == seen[..|seen| - CAPACITY] + Last(seen, CAPACITY);
    }
  }

  /** The four counts, each over the last events of its window alone. */
  function LastCounts(history: seq<Event>, categories: seq<string>, simhash: Option<string>, now: int): Counts {
    Counts(
      Count(OfVerdict(Review), Last(Within(history, now, 15 * MINUTE), CAPACITY)),
      Count(OfVerdict(Block), Last(Within(history, now, HOUR), CAPACITY)),
      Count(SharingRisk(categories), Last(Within(history, now, 15 * MINUTE), CAPACITY)),
      Count(OfSimhash(simhash), Last(Within(history, now, DAY), CAPACITY)))
  }

  /** The four counts from the buffer are the counts over the last events of each window of the history. */
  lemma CountsFromBuffer(history: seq<Event>, before: int, categories: seq<string>, simhash: Option<string>, now: int)
    requires InTimeOrder(history) && before <= now
    ensures CountsOver(Buffered(history, before), categories, simhash, now)
        == LastCounts(history, categories, simhash, now)
    ensures |Within(history, now, DAY)| <= CAPACITY
        ==> CountsOver(Buffered(history, before), categories, simhash, now)
            == CountsOver(history, categories, simhash, now)
  {
    BufferedWindow(history, before, now, 15 * MINUTE);
    BufferedWindow(history, before, now, HOUR);
    BufferedWindow(history, before, now, DAY);
    WithinAgain(history, now, DAY, now, 15 * MINUTE);
    WithinAgain(history, now, DAY, now, HOUR);
    WithinShrinks(Within(history, now, DAY), now, 15 * MINUTE);
    WithinShrinks(Within(history, now, DAY), now, HOUR);
  }
}

/** The bounded, least-recently-used store of recent inspection events. */
module ContextStores {
  import opened Shared
  import opened KeyOrder
  import opened ContextWindow

  /** The most keys that the store is meant to hold. */
  const MAX_KEYS: nat := 2048

  datatype Bucket = Bucket(events: seq<Event>, lastSeenAt: int)

  ghost predicate KeysOf(order: seq<string>, buckets: map<string, Bucket>) {
    forall k :: k in buckets <==> k in order
  }

  /** Nothing but the buckets of some keys is gone. */
  ghost predicate SomeOf(part: map<string, Bucket>, whole: map<string, Bucket>) {
    forall k :: k in part ==> k in whole && part[k] == whole[k]
  }

  ghost predicate Faithful(bucket: Bucket, history: seq<Event>, clock: int) {
    && InTimeOrder(history)
    && (forall e :: e in history ==> e.at <= clock)
    && bucket.lastSeenAt <= clock
    && bucket.events == Buffered(history, bucket.lastSeenAt)
  }

  ghost predicate AllFaithful(buckets: map<string, Bucket>, history: map<string, seq<Event>>, clock: int) {
    forall k :: k in buckets ==> k in history && Faithful(buckets[k], history[k], clock)
  }

  /** Touching a key moves it to the end; then the keys at the front go while there are too many. */
  function Touch(order: seq<string>, key: string): seq<string> {
    Trimmed(Without(order, key) + [key], MAX_KEYS)
  }

  /** Every key that went had been touched before every key that stayed. */
  ghost predicate EvictsOldest(before: map<string, Bucket>, after: map<string, Bucket>, touched: map<string, nat>,
                               key: string) {
    forall k, l :: k in before && k !in after && k != key && l in after && l in before && l != key
      ==> k in touched && l in touched && touched[k] < touched[l]
  }

  lemma DropOldest(order: seq<string>, buckets: map<string, Bucket>, number: map<string, nat>)
    requires order != [] && KeysOf(order, buckets) && Ascending(order, number)
    ensures KeysOf(order[1..], buckets - {order[0]})
    ensures SomeOf(buckets - {order[0]}, buckets)
    ensures Ascending(order[1..], number)
    ensures |order| > MAX_KEYS && !Blank(order[0]) ==> Excess(order, MAX_KEYS) == 1 + Excess(order[1..], MAX_KEYS)
  {
    assert order == [order[0]] + order[1..];
  }

  lemma PutNewest(order: seq<string>, buckets: map<string, Bucket>, key: string, bucket: Bucket)
    requires KeysOf(order, buckets)
    ensures KeysOf(Without(order, key) + [key], buckets[key := bucket])
  {
    WithoutMembers(order, key);
  }

  /** A touch keeps the order of the numbers and evicts the keys with the lowest ones. */
  lemma TouchNumbers(order: seq<string>, key: string, number: map<string, nat>, next: nat)
    requires Numbered(order, number, next)
    ensures Numbered(Touch(order, key), number[key := next], next + 1)
    ensures |Touch(order, key)| > MAX_KEYS ==> Blank(Touch(order, key)[0])
    ensures key in Touch(order, key)
    ensures forall k, l :: k in order && k !in Touch(order, key) && k != key && l in Touch(order, key) && l != key ==>
      k in number && l in number && number[k] < number[l]
  {
    var full := Without(order, key) + [key];
    WithoutMembers(order, key);
    NumberedTouch(order, key, number, next);
    NumberedCut(full, Excess(full, MAX_KEYS), number[key := next], next + 1);
  }

  lemma TouchEvicts(order: seq<string>, key: string, number: map<string, nat>, next: nat,
                    before: map<string, Bucket>, after: map<string, Bucket>)
    requires Numbered(order, number, next)
    requires KeysOf(order, before) && KeysOf(Touch(order, key), after)
    ensures key in after && EvictsOldest(before, after, number, key)
  {
    TouchNumbers(order, key, number, next);
  }

  lemma LoadFaithful(bucket: Bucket, past: seq<Event>, clock: int, now: int)
    requires Faithful(bucket, past, clock) && clock <= now
    ensures Faithful(Bucket(Last(Within(bucket.events, now, DAY), CAPACITY), now), past, now)
  {
    BufferedAgain(past, bucket.lastSeenAt, now);
  }

  lemma RecordFaithful(bucket: Bucket, past: seq<Event>, clock: int, event: Event)
    requires Faithful(bucket, past, clock) && clock <= event.at
    ensures Faithful(Bucket(Last(Within(bucket.events, event.at, DAY) + [event], CAPACITY), event.at), past + [event],
                     event.at)
  {
    BufferedAgain(past, bucket.lastSeenAt, event.at);
    BufferedAppend(past, event);
  }

  lemma LoadCounts(bucket: Bucket, past: seq<Event>, clock: int, now: int, categories: seq<string>,
                   simhash: Option<string>)
    requires Faithful(bucket, past, clock) && clock <= now
    ensures var counts := CountsOver(Within(bucket.events, now, DAY), categories, simhash, now);
      && counts == LastCounts(past, categories, simhash, now)
      && (|Within(past, now, DAY)| <= CAPACITY ==> counts == CountsOver(past, categories, simhash, now))
  {
    BufferedAgain(past, bucket.lastSeenAt, now);
    CountsFromBuffer(past, now, categories, simhash, now);
  }

  lemma FaithfulAfterPut(before: map<string, Bucket>, history: map<string, seq<Event>>, clock: int,
                         key: string, bucket: Bucket, past: seq<Event>,
                         after: map<string, Bucket>, later: map<string, seq<Event>>, now: int)
    requires AllFaithful(before, history, clock) && clock <= now && Faithful(bucket, past, now)
    requires SomeOf(after, before[key := bucket])
    requires forall k ::
              k in after
              ==> k in later && later[k] == if k == key then past else if k in history then history[k] else []
    ensures AllFaithful(after, later, now)
  {
  }

  class ContextStore {
    var order: seq<string>
    var buckets: map<string, Bucket>
    /** Every event recorded for a key since the key last entered the store. */
    ghost var history: map<string, seq<Event>>
    /** The number of the last touch of each key. */
    ghost var touched: map<string, nat>
    ghost var touches: nat
    ghost var clock: int

    ghost predicate WellOrdered()
      reads `order, `buckets, `touched, `touches
    {
      && KeysOf(order, buckets)
      && Numbered(order, touched, touches)
      && (|order| > MAX_KEYS ==> Blank(order[0]))
    }

    ghost predicate Valid()
      reads this
    {
      WellOrdered() && history.Keys == buckets.Keys && AllFaithful(buckets, history, clock)
    }

    ghost function History(key: string): seq<Event>
      reads this
    {
      if key in history then history[key] else []
    }

    constructor ()
      ensures Valid() && order == []
    {
      order, buckets, history, touched, touches, clock := [], map[], map[], map[], 0, 0;
    }

    /** Deletes the least recently touched keys until the store is small enough. */
    method TrimContextStore(ghost number: map<string, nat>)
      requires KeysOf(order, buckets) && Ascending(order, number)
      modifies `order, `buckets
      ensures KeysOf(order, buckets)
      ensures order == Trimmed(old(order), MAX_KEYS)
      ensures SomeOf(buckets, old(buckets))
    {
      ghost var full, gone := order, 0;
      while |order| > MAX_KEYS
        invariant KeysOf(order, buckets) && Ascending(order, number)
        invariant gone <= |full| && order == full[gone..]
        invariant gone + Excess(order, MAX_KEYS) == Excess(full, MAX_KEYS)
        invariant SomeOf(buckets, old(buckets))
        decreases |order|
      {
        var oldestKey := order[0];
        if oldestKey == "" {
          break;
        }
        DropOldest(order, buckets, number);
        order, buckets, gone := order[1..], buckets - {oldestKey}, gone + 1;
      }
    }

    /** Deletes a key, if it is there. */
    method Delete(key: string)
      requires KeysOf(order, buckets)
      modifies `order, `buckets
      ensures order == Without(old(order), key) && buckets == old(buckets) - {key}
    {
      WithoutMembers(order, key);
      if key in buckets {
        order, buckets := Without(order, key), buckets - {key};
      }
    }

    /** Writes a bucket and makes its key the most recently touched one. */
    method SetContextBucket(key: string, bucket: Bucket)
      requires WellOrdered()
      modifies `order, `buckets, `touched, `touches
      ensures WellOrdered()
      ensures order == Touch(old(order), key)
      ensures key in buckets && SomeOf(buckets, old(buckets)[key := bucket])
      ensures EvictsOldest(old(buckets), buckets, old(touched), key)
    {
      PutNewest(order, buckets, key, bucket);
      NumberedTouch(order, key, touched, touches);
      Delete(key);
      order, buckets := order + [key], buckets[key := bucket];
      assert buckets == old(buckets)[key := bucket];
      TrimContextStore(touched[key := touches]);
      TouchNumbers(old(order), key, touched, touches);
      TouchEvicts(old(order), key, touched, touches, old(buckets), buckets);
      touched, touches := touched[key := touches], touches + 1;
    }

    /** Brings the history up to date with the buckets. */
    ghost method KeepHistory(key: string, past: seq<Event>, now: int, before: map<string, Bucket>)
      requires WellOrdered() && history.Keys == before.Keys && AllFaithful(before, history, clock)
      requires key in buckets && clock <= now && Faithful(buckets[key], past, now)
      requires SomeOf(buckets, before[key := buckets[key]])
      modifies `history, `clock
      ensures Valid() && clock == now
      ensures History(key) == past
      ensures forall k :: k in buckets && k != key ==> k in before && History(k) == old(History(k))
    {
      ghost var history0 := history;
      history := map k | k in buckets :: if k == key then past else history[k];
      FaithfulAfterPut(before, history0, clock, key, buckets[key], past, buckets, history, now);
      clock := now;
    }

    /** What recent inspections say about a key. Reading also touches the key. */
    method LoadContextCounts(key: string, riskCategories: seq<string>, simhash: Option<string>, now: int)
      returns (counts: Counts)
      requires Valid() && clock <= now
      modifies this
      ensures Valid() && clock == now
      ensures counts == LastCounts(old(History(key)), riskCategories, simhash, now)
      ensures |Within(old(History(key)), now, DAY)| <= CAPACITY
          ==> counts == CountsOver(old(History(key)), riskCategories, simhash, now)
      ensures order == Touch(old(order), key)
      ensures History(key) == old(History(key))
      ensures forall k :: k in buckets && k != key ==> k in old(buckets) && History(k) == old(History(k))
      ensures EvictsOldest(old(buckets), buckets, old(touched), key)
    {
      var bucket := if key in buckets then buckets[key] else Bucket([], now);
      ghost var past := History(key);
      LoadFaithful(bucket, past, now, now);
      LoadCounts(bucket, past, now, now, riskCategories, simhash);
      var recent24h := Within(bucket.events, now, DAY);
      SetContextBucket(key, Bucket(Last(recent24h, CAPACITY), now));
      KeepHistory(key, past, now, old(buckets));
      counts := CountsOver(recent24h, riskCategories, simhash, now);
    }

    /** Appends one event to what is known about a key. */
    method RecordContext(key: string, verdict: Verdict, riskCategories: seq<string>, simhash: Option<string>, now: int)
      requires Valid() && clock <= now
      modifies this
      ensures Valid() && clock == now
      ensures History(key) == old(History(key)) + [Event(now, verdict, riskCategories, simhash)]
      ensures order == Touch(old(order), key)
      ensures forall k :: k in buckets && k != key ==> k in old(buckets) && History(k) == old(History(k))
      ensures EvictsOldest(old(buckets), buckets, old(touched), key)
    {
      hide EvictsOldest, Touch;
      var bucket := if key in buckets then buckets[key] else Bucket([], now);
      ghost var past := History(key);
      var event := Event(now, verdict, riskCategories, simhash);
      RecordFaithful(bucket, past, now, event);
      var recent24h := Within(bucket.events, now, DAY) + [event];
      SetContextBucket(key, Bucket(Last(recent24h, CAPACITY), now));
      KeepHistory(key, past + [event], now, old(buckets));
    }

    method Reset()
      requires Valid()
      modifies this
      ensures Valid() && order == [] && clock == old(clock)
      ensures forall k :: History(k) == []
    {
      order, buckets, history, touched := [], map[], map[], map[];
    }
  }

  /** Touching a key that is in a store within its limit moves the key to the end and evicts nothing. */
  lemma TouchKnown(order: seq<string>, key: string, number: map<string, nat>)
    requires |order| <= MAX_KEYS && key in order && Ascending(order, number)
    ensures Touch(order, key) == Without(order, key) + [key] && |Touch(order, key)| == |order|
  {
    WithoutAscending(order, key, number);
    hide Without, Ascending;
    var full := Without(order, key) + [key];
    assert Excess(full, MAX_KEYS) == 0;
    assert full[0..] == full;
  }

  /**
   * Touching a new key leaves a store within its limit exactly when the store was not full or its oldest key is not
   * blank; and it evicts the oldest key at most.
   */
  lemma TouchNew(order: seq<string>, key: string)
    requires |order| <= MAX_KEYS && key !in order
    ensures |Touch(order, key)| <= MAX_KEYS <==> |order| < MAX_KEYS || order[0] != ""
    ensures |Touch(order, key)| <= MAX_KEYS ==>
      Touch(order, key) == (if |order| < MAX_KEYS then order + [key] else order[1..] + [key])
  {
    WithoutMembers(order, key);
    var full := order + [key];
    TrimmedWithinLimit(full, MAX_KEYS);
    if |order| == MAX_KEYS {
      assert full[0] == order[0];
    }
  }

  /**
   * From a store within its limit, a touch leaves the limit exactly for a new key in a full store whose oldest is
   * blank.
   */
  lemma TouchBounded(order: seq<string>, key: string, number: map<string, nat>)
    requires |order| <= MAX_KEYS && Ascending(order, number)
    ensures |Touch(order, key)| <= MAX_KEYS <==> key in order || |order| < MAX_KEYS || order[0] != ""
  {
    hide Touch, Ascending;
    if key in order {
      TouchKnown(order, key, number);
    } else {
      TouchNew(order, key);
    }
  }
}

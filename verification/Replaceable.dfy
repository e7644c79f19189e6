/**
Replaceable events: the relay-list cache and the discovery loop keep, for each author,
the event with the greatest creation time and, among those, the lowest id. Ids are
fixed-width hexadecimal texts and are ordered like the numbers they write.
*/
module Replaceable {
  import opened Common

  const MAX_CACHED_RELAY_LISTS := 4096

  datatype Event = Event(id: nat, author: string, createdAt: nat, content: Bytes)

  datatype Record = Record(event: Event, verifiedAt: nat)

  type Cache = map<string, Record>

  datatype Mutation = Stored | Unchanged

  datatype CacheError =
    | InvalidVerificationTime
    | InvalidSourceEvent
    | InvalidEncoding
    | Rollback
    | CacheFull
    | CacheTooLarge

  /** Which events parse and verify, and which caches fit the size limit once serialized. */
  datatype Env = Env(valid: (Event, nat) -> bool, fits: Cache -> bool)

  predicate Beats(a: Event, b: Event) {
    a.createdAt > b.createdAt || (a.createdAt == b.createdAt && a.id < b.id)
  }

  /** What an insertion answers, and the cache after it. */
  function Insert(env: Env, cache: Cache, e: Event, now: nat, verifiedAt: nat): (Result<Mutation, CacheError>, Cache) {
    if verifiedAt > now || verifiedAt < e.createdAt then (Err(InvalidVerificationTime), cache)
    else if !env.valid(e, now) then (Err(InvalidSourceEvent), cache)
    else if e.author in cache && e.createdAt < cache[e.author].event.createdAt then (Err(Rollback), cache)
    else if e.author in cache && !Beats(e, cache[e.author].event) then (Ok(Unchanged), cache)
    else if e.author !in cache && |cache| >= MAX_CACHED_RELAY_LISTS then (Err(CacheFull), cache)
    else if !env.fits(cache[e.author := Record(e, verifiedAt)]) then (Err(CacheTooLarge), cache)
    else (Ok(Stored), cache[e.author := Record(e, verifiedAt)])
  }

  class RelayListCache {
    var records: Cache

    constructor ()
      ensures records == map[]
    {
      records := map[];
    }

    /** Insert, serialize, and undo if the result is too large. */
    method InsertEvent(env: Env, e: Event, now: nat, verifiedAt: nat) returns (r: Result<Mutation, CacheError>)
      modifies this
      ensures (r, records) == Insert(env, old(records), e, now, verifiedAt)
      ensures r.Err? ==> records == old(records)
    {
      if verifiedAt > now || verifiedAt < e.createdAt { return Err(InvalidVerificationTime); }
      if !env.valid(e, now) { return Err(InvalidSourceEvent); }
      var key := e.author;
      if key in records {
        var current := records[key].event;
        if e.createdAt < current.createdAt { return Err(Rollback); }
        if e.createdAt == current.createdAt && e.id >= current.id { return Ok(Unchanged); }
      } else if |records| >= MAX_CACHED_RELAY_LISTS {
        return Err(CacheFull);
      }
      var previous := if key in records then Some(records[key]) else None;
      records := records[key := Record(e, verifiedAt)];
      if !env.fits(records) {
        if previous.Some? {
          records := records[key := previous.value];
        } else {
          records := records - {key};
        }
        assert records == old(records);
        return Err(CacheTooLarge);
      }
      return Ok(Stored);
    }
  }

  /** An event that a cache may look at: verified after it was made and not in the future, and valid. */
  predicate Admissible(env: Env, a: Arrival) {
    a.event.createdAt <= a.verifiedAt && a.verifiedAt <= a.now && env.valid(a.event, a.now)
  }

  predicate Room(env: Env, cache: Cache, a: Arrival) {
    && (a.event.author in cache || |cache| < 4096)
    && env.fits(cache[a.event.author := Record(a.event, a.verifiedAt)])
  }

  /** Which insertions store, which leave a newer event alone, and which find the event they bring. */
  lemma InsertIff(env: Env, cache: Cache, a: Arrival)
    ensures var (r, after) := Insert(env, cache, a.event, a.now, a.verifiedAt);
            var known := a.event.author in cache;
            && (r == Ok(Stored) <==>
                  Admissible(env, a) && Room(env, cache, a) && (known ==> Beats(a.event, cache[a.event.author].event)))
            && (r == Err(Rollback) <==>
                  Admissible(env, a) && known && cache[a.event.author].event.createdAt > a.event.createdAt)
            && (r == Ok(Unchanged) <==>
                  && Admissible(env, a) && known && !Beats(a.event, cache[a.event.author].event)
                  && cache[a.event.author].event.createdAt == a.event.createdAt)
            && (r == Err(InvalidVerificationTime) <==> a.verifiedAt > a.now || a.verifiedAt < a.event.createdAt)
            && (r == Err(CacheFull) ==> !known && |cache| >= 4096)
            && after == if r == Ok(Stored) then cache[a.event.author := Record(a.event, a.verifiedAt)] else cache
  {
  }

  // Many insertions.

  datatype Arrival = Arrival(event: Event, now: nat, verifiedAt: nat)

  function InsertAll(env: Env, cache: Cache, arrivals: seq<Arrival>): Cache
    decreases |arrivals|
  {
    if arrivals == [] then cache
    else
      var last := arrivals[|arrivals| - 1];
      Insert(env, InsertAll(env, cache, arrivals[..|arrivals| - 1]), last.event, last.now, last.verifiedAt).1
  }

  /** Every arrival is valid and verified in time, and no insertion runs into a limit. */
  predicate Unhindered(env: Env, arrivals: seq<Arrival>) {
    forall i | 0 <= i < |arrivals| :: UnhinderedAt(env, arrivals, i)
  }

  predicate UnhinderedAt(env: Env, arrivals: seq<Arrival>, i: nat)
    requires i < |arrivals|
  {
    var a := arrivals[i];
    && a.event.createdAt <= a.verifiedAt <= a.now && env.valid(a.event, a.now)
    && Insert(env, InsertAll(env, map[], arrivals[..i]), a.event, a.now, a.verifiedAt).0
       !in {Err(CacheFull), Err(CacheTooLarge)}
  }

  /** No event of this author in the sequence beats `e`, and `e` is one of them. */
  ghost predicate Winner(e: Event, author: string, events: seq<Event>) {
    && e in events && e.author == author
    && forall f | f in events && f.author == author :: !Beats(f, e)
  }

  function Events(arrivals: seq<Arrival>): (r: seq<Event>)
    ensures |r| == |arrivals| && forall i | 0 <= i < |r| :: r[i] == arrivals[i].event
  {
    seq(|arrivals|, i requires 0 <= i < |arrivals| => arrivals[i].event)
  }

  lemma UnhinderedPrefix(env: Env, arrivals: seq<Arrival>)
    requires Unhindered(env, arrivals) && arrivals != []
    ensures Unhindered(env, arrivals[..|arrivals| - 1])
  {
    var front := arrivals[..|arrivals| - 1];
    forall i | 0 <= i < |front| ensures UnhinderedAt(env, front, i) {
      assert UnhinderedAt(env, arrivals, i);
      assert front[..i] == arrivals[..i];
    }
  }

  ghost predicate Converged(cache: Cache, events: seq<Event>) {
    && (forall author | author in cache :: Winner(cache[author].event, author, events))
    && (forall e | e in events :: e.author in cache)
  }

  lemma OneMore(env: Env, cache: Cache, events: seq<Event>, a: Arrival)
    requires Converged(cache, events)
    requires a.event.createdAt <= a.verifiedAt <= a.now && env.valid(a.event, a.now)
    requires Insert(env, cache, a.event, a.now, a.verifiedAt).0 !in {Err(CacheFull), Err(CacheTooLarge)}
    ensures Converged(Insert(env, cache, a.event, a.now, a.verifiedAt).1, events + [a.event])
  {
    var e, after, all := a.event, Insert(env, cache, a.event, a.now, a.verifiedAt).1, events + [a.event];
    assert e in all && forall f :: f in all <==> f in events || f == e;
    forall author | author in after ensures Winner(after[author].event, author, all) {
      if author in cache {
        assert Winner(cache[author].event, author, events);
      }
    }
  }

  /** After any arrivals each author's entry is the winner of that author's events. */
  lemma {:induction false} InsertAllConverges(env: Env, arrivals: seq<Arrival>)
    requires Unhindered(env, arrivals)
    ensures Converged(InsertAll(env, map[], arrivals), Events(arrivals))
    decreases |arrivals|
  {
    if arrivals != [] {
      var front, last := arrivals[..|arrivals| - 1], arrivals[|arrivals| - 1];
      UnhinderedPrefix(env, arrivals);
      InsertAllConverges(env, front);
      assert UnhinderedAt(env, arrivals, |arrivals| - 1);
      assert Events(arrivals) == Events(front) + [last.event];
      OneMore(env, InsertAll(env, map[], front), Events(front), last);
    }
  }

  /** The arrival that brought this record, admissible when it came. */
  predicate Brought(env: Env, arrivals: seq<Arrival>, record: Record) {
    exists i | 0 <= i < |arrivals| ::
      arrivals[i].event == record.event && arrivals[i].verifiedAt == record.verifiedAt && Admissible(env, arrivals[i])
  }

  lemma StillBrought(env: Env, arrivals: seq<Arrival>, more: seq<Arrival>, record: Record)
    requires Brought(env, arrivals, record)
    ensures Brought(env, arrivals + more, record)
  {
    var i :| 0 <= i < |arrivals| && arrivals[i].event == record.event && arrivals[i].verifiedAt == record.verifiedAt
             && Admissible(env, arrivals[i]);
    assert (arrivals + more)[i] == arrivals[i];
  }

  /** After any arrivals, hindered or not, every record is one that arrived, under its author, with its own time. */
  lemma {:induction false} RecordsArrived(env: Env, arrivals: seq<Arrival>, author: string)
    requires author in InsertAll(env, map[], arrivals)
    ensures var record := InsertAll(env, map[], arrivals)[author];
            record.event.author == author && Brought(env, arrivals, record)
    decreases |arrivals|
  {
    var n := |arrivals| - 1;
    var front, last := arrivals[..n], arrivals[n];
    var cache := InsertAll(env, map[], front);
    var record := InsertAll(env, map[], arrivals)[author];
    InsertIff(env, cache, last);
    assert arrivals == front + [last];
    if author in cache && record == cache[author] {
      RecordsArrived(env, front, author);
      StillBrought(env, front, [last], record);
    } else {
      assert arrivals[n] == last;
    }
  }

  /** Ids are digests: they tell events apart. */
  predicate IdsIdentify(events: seq<Event>) {
    forall i, j | 0 <= i < |events| && 0 <= j < |events| && events[i].id == events[j].id :: events[i] == events[j]
  }

  lemma WinnerUnique(a: Event, b: Event, author: string, events: seq<Event>)
    requires Winner(a, author, events) && Winner(b, author, events) && IdsIdentify(events)
    ensures a == b
  {
    assert !Beats(a, b) && !Beats(b, a);
    var i :| 0 <= i < |events| && events[i] == a;
    var j :| 0 <= j < |events| && events[j] == b;
  }

  /** Any order of the same arrivals leaves the same event for every author. */
  lemma OrderIndependence(env: Env, one: seq<Arrival>, two: seq<Arrival>)
    requires Unhindered(env, one) && Unhindered(env, two)
    requires multiset(Events(one)) == multiset(Events(two)) && IdsIdentify(Events(one))
    ensures var a, b := InsertAll(env, map[], one), InsertAll(env, map[], two);
            a.Keys == b.Keys && forall author | author in a :: a[author].event == b[author].event
  {
    var a, b := InsertAll(env, map[], one), InsertAll(env, map[], two);
    InsertAllConverges(env, one);
    InsertAllConverges(env, two);
    SameMembers(Events(one), Events(two));
    assert a.Keys == b.Keys by {
      forall author ensures author in a <==> author in b {
        if author in a { assert Winner(a[author].event, author, Events(one)); }
        if author in b { assert Winner(b[author].event, author, Events(two)); }
      }
    }
    forall author | author in a ensures a[author].event == b[author].event {
      assert Winner(b[author].event, author, Events(two));
      assert Winner(b[author].event, author, Events(one));
      WinnerUnique(a[author].event, b[author].event, author, Events(one));
    }
  }

  lemma SameMembers(one: seq<Event>, two: seq<Event>)
    requires multiset(one) == multiset(two)
    ensures forall e :: e in one <==> e in two
  {
    forall e ensures e in one <==> e in two {
      assert e in one <==> e in multiset(one);
      assert e in two <==> e in multiset(two);
    }
  }

  // Discovery.

  /** The best of the events of one author seen so far. */
  function Select(events: seq<Event>): Option<Event> {
    if events == [] then None
    else
      var last, best := events[|events| - 1], Select(events[..|events| - 1]);
      if best.None? || Beats(last, best.value) then Some(last) else best
  }

  datatype Note =
    | EventNote(subscription: string, event: Event)
    | EndOfStoredEvents(subscription: string)
    | ClosedNote(subscription: string)
    | AuthenticationRejected(publicKey: string)
    | OtherNote

  datatype Delivery = Delivery(relay: nat, note: Note)

  datatype Query = Query(subscription: string, key: string, subscribed: set<nat>, minimum: nat, validate: Event -> bool)

  datatype DiscoveryError = QueryTimeout | SubscriptionClosed | Rejected | NoValidEvent

  predicate Counts(q: Query, d: Delivery) {
    d.relay in q.subscribed && d.note.EventNote? && d.note.subscription == q.subscription && q.validate(d.note.event)
  }

  /** The valid events for this query, in the order they came. */
  function Relevant(q: Query, deliveries: seq<Delivery>): seq<Event> {
    if deliveries == [] then []
    else
      var d := deliveries[|deliveries| - 1];
      Relevant(q, deliveries[..|deliveries| - 1]) + (if Counts(q, d) then [d.note.event] else [])
  }

  /** The relays that have sent all they had stored. */
  function Completed(q: Query, deliveries: seq<Delivery>): set<nat> {
    if deliveries == [] then {}
    else
      var d := deliveries[|deliveries| - 1];
      Completed(q, deliveries[..|deliveries| - 1])
        + (if d.relay in q.subscribed && d.note == EndOfStoredEvents(q.subscription) then {d.relay} else {})
  }

  lemma TakeOne(q: Query, deliveries: seq<Delivery>, n: nat)
    requires n < |deliveries|
    ensures var d, best := deliveries[n], Select(Relevant(q, deliveries[..n]));
            Select(Relevant(q, deliveries[..n + 1]))
            == if Counts(q, d) && (best.None? || Beats(d.note.event, best.value)) then Some(d.note.event) else best
    ensures var d := deliveries[n];
            Completed(q, deliveries[..n + 1])
            == Completed(q, deliveries[..n])
               + (if d.relay in q.subscribed && d.note == EndOfStoredEvents(q.subscription) then {d.relay} else {})
  {
    var d, before := deliveries[n], Relevant(q, deliveries[..n]);
    assert deliveries[..n + 1][..n] == deliveries[..n];
    if Counts(q, d) {
      assert (before + [d.note.event])[..|before|] == before;
    } else {
      assert before + [] == before;
    }
  }

  /** The subscribed relay closed the query, or refused its reader. */
  predicate Closes(q: Query, d: Delivery) { d.relay in q.subscribed && d.note == ClosedNote(q.subscription) }

  predicate Refuses(q: Query, d: Delivery) { d.relay in q.subscribed && d.note == AuthenticationRejected(q.key) }

  /** Nothing among the first `n` deliveries ended the query, and at no point before had enough relays finished. */
  ghost predicate Queried(q: Query, deliveries: seq<Delivery>, n: nat)
    requires n <= |deliveries|
  {
    forall k | 0 <= k < n :: GoesOn(q, deliveries, k)
  }

  ghost predicate GoesOn(q: Query, deliveries: seq<Delivery>, k: nat)
    requires k < |deliveries|
  {
    |Completed(q, deliveries[..k])| < q.minimum && !Closes(q, deliveries[k]) && !Refuses(q, deliveries[k])
  }

  lemma QueriedMore(q: Query, deliveries: seq<Delivery>, n: nat)
    requires n < |deliveries| && Queried(q, deliveries, n) && GoesOn(q, deliveries, n)
    ensures Queried(q, deliveries, n + 1)
  {
  }

  /** The query loop; `used` counts the notifications it took before the deadline. */
  method Discover(q: Query, deliveries: seq<Delivery>) returns (r: Result<Event, DiscoveryError>, used: nat)
    ensures used <= |deliveries|
    ensures r.Ok? ==> Select(Relevant(q, deliveries[..used])) == Some(r.value)
    ensures r.Ok? || r == Err(NoValidEvent) ==> |Completed(q, deliveries[..used])| >= q.minimum
    ensures r == Err(NoValidEvent) ==> Relevant(q, deliveries[..used]) == []
    ensures r == Err(QueryTimeout) ==> used == |deliveries| && |Completed(q, deliveries)| < q.minimum
    ensures r == Err(SubscriptionClosed) ==> used > 0 && Queried(q, deliveries, used - 1) && Closes(q, deliveries[used - 1])
    ensures r == Err(Rejected) ==> used > 0 && Queried(q, deliveries, used - 1) && Refuses(q, deliveries[used - 1])
    ensures r != Err(SubscriptionClosed) && r != Err(Rejected) ==> Queried(q, deliveries, used)
  {
    var best: Option<Event>, completed: set<nat> := None, {};
    used := 0;
    while |completed| < q.minimum
      invariant used <= |deliveries|
      invariant best == Select(Relevant(q, deliveries[..used])) && completed == Completed(q, deliveries[..used])
      invariant Queried(q, deliveries, used)
      decreases |deliveries| - used
    {
      if used == |deliveries| {
        assert deliveries[..used] == deliveries;
        return Err(QueryTimeout), used;
      }
      var d := deliveries[used];
      TakeOne(q, deliveries, used);
      used := used + 1;
      if d.relay in q.subscribed {
        match d.note
        case EventNote(subscription, event) =>
          if subscription == q.subscription && q.validate(event) {
            if best.None? || Beats(event, best.value) { best := Some(event); }
          }
        case EndOfStoredEvents(subscription) =>
          if subscription == q.subscription { completed := completed + {d.relay}; }
        case ClosedNote(subscription) =>
          if subscription == q.subscription { return Err(SubscriptionClosed), used; }
        case AuthenticationRejected(key) =>
          if key == q.key { return Err(Rejected), used; }
        case OtherNote =>
      }
      QueriedMore(q, deliveries, used - 1);
    }
    if best.None? {
      SelectNone(Relevant(q, deliveries[..used]));
      return Err(NoValidEvent), used;
    }
    return Ok(best.value), used;
  }

  lemma SelectNone(events: seq<Event>)
    ensures Select(events).None? <==> events == []
  {
  }

  lemma {:induction false} SelectWins(events: seq<Event>, author: string)
    requires events != [] && forall i | 0 <= i < |events| :: events[i].author == author
    ensures Select(events).Some? && Winner(Select(events).value, author, events)
    decreases |events|
  {
    var front, last := events[..|events| - 1], events[|events| - 1];
    assert events == front + [last];
    if front != [] {
      SelectWins(front, author);
    }
  }

  /** The deliveries that count for the query carry this author's arrivals, in any order and number. */
  ghost predicate Carry(q: Query, deliveries: seq<Delivery>, arrivals: seq<Arrival>, author: string) {
    forall e :: e in Relevant(q, deliveries) <==> e in Events(arrivals) && e.author == author
  }

  lemma HasMember(events: seq<Event>)
    ensures events == [] || exists e :: e in events
  {
    if events != [] { assert events[0] in events; }
  }

  /**
  From the same events of an author the query loop returns the event that the cache keeps, and
  finds nothing exactly when the cache has nothing.
  */
  lemma DiscoveryAgrees(env: Env, arrivals: seq<Arrival>, q: Query, deliveries: seq<Delivery>, author: string)
    requires Unhindered(env, arrivals) && IdsIdentify(Events(arrivals)) && Carry(q, deliveries, arrivals, author)
    ensures var cache := InsertAll(env, map[], arrivals);
            Select(Relevant(q, deliveries)) == if author in cache then Some(cache[author].event) else None
  {
    var events, found, cache := Events(arrivals), Relevant(q, deliveries), InsertAll(env, map[], arrivals);
    InsertAllConverges(env, arrivals);
    if author in cache {
      assert Winner(cache[author].event, author, events);
      assert cache[author].event in found;
      forall i | 0 <= i < |found| ensures found[i].author == author { assert found[i] in found; }
      SelectWins(found, author);
      assert Winner(Select(found).value, author, events);
      WinnerUnique(Select(found).value, cache[author].event, author, events);
    } else {
      HasMember(found);
    }
  }

  // Saving and loading.

  function Authors(records: seq<Record>): set<string> {
    if records == [] then {} else Authors(records[..|records| - 1]) + {records[|records| - 1].event.author}
  }

  /** One persisted record; two for one author are refused. */
  function LoadOne(env: Env, cache: Cache, seen: set<string>, r: Record, now: nat): Result<Cache, CacheError> {
    if r.verifiedAt > now then Err(InvalidVerificationTime)
    else if r.event.author in seen then Err(InvalidEncoding)
    else match Insert(env, cache, r.event, now, r.verifiedAt)
      case (Err(e), _) => Err(e)
      case (Ok(_), after) => Ok(after)
  }

  function LoadRecords(env: Env, records: seq<Record>, now: nat): Result<Cache, CacheError> {
    if records == [] then Ok(map[])
    else
      var front := records[..|records| - 1];
      match LoadRecords(env, front, now)
      case Err(e) => Err(e)
      case Ok(cache) => LoadOne(env, cache, Authors(front), records[|records| - 1], now)
  }

  function Load(env: Env, records: seq<Record>, now: nat): Result<Cache, CacheError> {
    if |records| > MAX_CACHED_RELAY_LISTS then Err(CacheFull) else LoadRecords(env, records, now)
  }

  /** `from_json`'s loop. */
  method LoadLoop(env: Env, records: seq<Record>, now: nat) returns (r: Result<Cache, CacheError>)
    ensures r == Load(env, records, now)
  {
    if |records| > MAX_CACHED_RELAY_LISTS { return Err(CacheFull); }
    var cache: Cache, seen: set<string> := map[], {};
    for i := 0 to |records|
      invariant LoadRecords(env, records[..i], now) == Ok(cache) && seen == Authors(records[..i])
    {
      var record := records[i];
      assert records[..i + 1][..i] == records[..i];
      var loaded := LoadOne(env, cache, seen, record, now);
      if loaded.Err? {
        LoadFails(env, records, now, i + 1, loaded.error);
        return Err(loaded.error);
      }
      seen := seen + {record.event.author};
      cache := loaded.value;
    }
    assert records[..|records|] == records;
    return Ok(cache);
  }

  lemma {:induction false} LoadFails(env: Env, records: seq<Record>, now: nat, n: nat, e: CacheError)
    requires n <= |records| && LoadRecords(env, records[..n], now) == Err(e)
    ensures LoadRecords(env, records, now) == Err(e)
    decreases |records|
  {
    if n == |records| {
      assert records[..n] == records;
    } else {
      assert records[..|records| - 1][..n] == records[..n];
      LoadFails(env, records[..|records| - 1], now, n, e);
    }
  }

  function FromRecords(records: seq<Record>): (r: Cache)
    ensures r.Keys == Authors(records)
  {
    if records == [] then map[]
    else
      var last := records[|records| - 1];
      FromRecords(records[..|records| - 1])[last.event.author := last]
  }

  /** The records a cache is saved as, in the order of its map: one per author. */
  predicate Lists(records: seq<Record>, cache: Cache) {
    && (forall i | 0 <= i < |records| :: records[i].event.author !in Authors(records[..i]))
    && FromRecords(records) == cache
  }

  /** What insertions leave: records verified no earlier than they were made, within the limits. */
  predicate Sound(env: Env, records: seq<Record>) {
    && (forall i | 0 <= i < |records| :: records[i].event.createdAt <= records[i].verifiedAt)
    && |records| <= MAX_CACHED_RELAY_LISTS && (records == [] || env.fits(FromRecords(records)))
  }

  /** The same of a cache, whose records also stand under their authors. */
  predicate Built(env: Env, cache: Cache) {
    && (forall k | k in cache :: cache[k].event.author == k && cache[k].event.createdAt <= cache[k].verifiedAt)
    && |cache| <= MAX_CACHED_RELAY_LISTS && (cache == map[] || env.fits(cache))
  }

  lemma InsertKeepsBuilt(env: Env, cache: Cache, e: Event, now: nat, verifiedAt: nat)
    requires Built(env, cache)
    ensures Built(env, Insert(env, cache, e, now, verifiedAt).1)
  {
    var after := cache[e.author := Record(e, verifiedAt)];
    assert after.Keys == cache.Keys + {e.author};
  }

  lemma {:induction false} InsertionsBuild(env: Env, cache: Cache, arrivals: seq<Arrival>)
    requires Built(env, cache)
    ensures Built(env, InsertAll(env, cache, arrivals))
    decreases |arrivals|
  {
    if arrivals != [] {
      var front, last := arrivals[..|arrivals| - 1], arrivals[|arrivals| - 1];
      InsertionsBuild(env, cache, front);
      InsertKeepsBuilt(env, InsertAll(env, cache, front), last.event, last.now, last.verifiedAt);
    }
  }

  /** Loading inserts too, so what is loaded can be saved and loaded again. */
  lemma {:induction false} LoadBuilds(env: Env, records: seq<Record>, now: nat)
    requires LoadRecords(env, records, now).Ok?
    ensures Built(env, LoadRecords(env, records, now).value)
    decreases |records|
  {
    if records != [] {
      var front, last := records[..|records| - 1], records[|records| - 1];
      LoadBuilds(env, front, now);
      InsertKeepsBuilt(env, LoadRecords(env, front, now).value, last.event, now, last.verifiedAt);
    }
  }

  lemma {:induction false} RecordKept(records: seq<Record>, i: nat, n: nat)
    requires i < n <= |records| && forall j | 0 <= j < |records| :: records[j].event.author !in Authors(records[..j])
    ensures var part := FromRecords(records[..n]); records[i].event.author in part && part[records[i].event.author] == records[i]
    decreases n
  {
    OneRecordMore(records, n - 1);
    if i < n - 1 { RecordKept(records, i, n - 1); }
  }

  lemma ListedIsSound(env: Env, cache: Cache, records: seq<Record>)
    requires Built(env, cache) && Lists(records, cache)
    ensures Sound(env, records)
  {
    assert records[..|records|] == records;
    PrefixSize(records, |records|);
    forall i | 0 <= i < |records| ensures records[i].event.createdAt <= records[i].verifiedAt {
      RecordKept(records, i, |records|);
    }
  }

  predicate Within(a: Cache, b: Cache) { forall k | k in a :: k in b && a[k] == b[k] }

  /** A cache with fewer records serializes no longer. */
  ghost predicate FitsDownward(env: Env) {
    forall a, b | env.fits(b) && Within(a, b) :: env.fits(a)
  }

  predicate Loadable(env: Env, r: Record, now: nat) { r.verifiedAt <= now && env.valid(r.event, now) }

  lemma OneRecordMore(records: seq<Record>, m: nat)
    requires m < |records| && records[m].event.author !in Authors(records[..m])
    ensures FromRecords(records[..m + 1]) == FromRecords(records[..m])[records[m].event.author := records[m]]
    ensures Within(FromRecords(records[..m]), FromRecords(records[..m + 1]))
    ensures |FromRecords(records[..m + 1])| == |FromRecords(records[..m])| + 1
  {
    assert records[..m + 1][..m] == records[..m];
    var part, grown := FromRecords(records[..m]), FromRecords(records[..m + 1]);
    assert grown.Keys == part.Keys + {records[m].event.author};
  }

  lemma {:induction false} PrefixWithin(records: seq<Record>, n: nat, m: nat)
    requires n <= m <= |records| && forall i | 0 <= i < |records| :: records[i].event.author !in Authors(records[..i])
    ensures Within(FromRecords(records[..n]), FromRecords(records[..m]))
    decreases m
  {
    if n < m {
      PrefixWithin(records, n, m - 1);
      OneRecordMore(records, m - 1);
    }
  }

  lemma {:induction false} PrefixSize(records: seq<Record>, n: nat)
    requires n <= |records| && forall i | 0 <= i < |records| :: records[i].event.author !in Authors(records[..i])
    ensures |FromRecords(records[..n])| == n
  {
    if n > 0 {
      PrefixSize(records, n - 1);
      OneRecordMore(records, n - 1);
    }
  }

  lemma {:induction false} LoadsPrefix(env: Env, cache: Cache, records: seq<Record>, now: nat, n: nat)
    requires Sound(env, records) && Lists(records, cache) && FitsDownward(env) && n <= |records|
    requires forall i | 0 <= i < n :: Loadable(env, records[i], now)
    ensures LoadRecords(env, records[..n], now) == Ok(FromRecords(records[..n]))
  {
    if n > 0 {
      LoadsPrefix(env, cache, records, now, n - 1);
      LoadUnfolds(env, records, now, n);
      PrefixFits(env, cache, records, n);
      PrefixSize(records, n - 1);
      OneRecordMore(records, n - 1);
      LoadsOne(env, FromRecords(records[..n - 1]), Authors(records[..n - 1]), records[n - 1], now);
    }
  }

  lemma PrefixFits(env: Env, cache: Cache, records: seq<Record>, n: nat)
    requires Sound(env, records) && Lists(records, cache) && FitsDownward(env) && 0 < n <= |records|
    ensures env.fits(FromRecords(records[..n]))
  {
    assert records[..|records|] == records;
    PrefixWithin(records, n, |records|);
  }

  lemma LoadUnfolds(env: Env, records: seq<Record>, now: nat, n: nat)
    requires 0 < n <= |records| && LoadRecords(env, records[..n - 1], now).Ok?
    ensures LoadRecords(env, records[..n], now)
         == LoadOne(env, LoadRecords(env, records[..n - 1], now).value, Authors(records[..n - 1]), records[n - 1], now)
  {
    assert records[..n][..n - 1] == records[..n - 1];
  }

  lemma LoadsOne(env: Env, part: Cache, seen: set<string>, r: Record, now: nat)
    requires r.event.author !in part && r.event.author !in seen && |part| < MAX_CACHED_RELAY_LISTS
    requires Loadable(env, r, now) && r.event.createdAt <= r.verifiedAt && env.fits(part[r.event.author := r])
    ensures LoadOne(env, part, seen, r, now) == Ok(part[r.event.author := r])
  {
  }

  /** A saved cache loads as itself exactly while every record is still valid at the new time. */
  lemma SaveLoad(env: Env, cache: Cache, records: seq<Record>, now: nat)
    requires Built(env, cache) && Lists(records, cache) && FitsDownward(env)
    ensures Load(env, records, now).Ok? <==> forall i | 0 <= i < |records| :: Loadable(env, records[i], now)
    ensures Load(env, records, now).Ok? ==> Load(env, records, now) == Ok(cache)
  {
    assert records[..|records|] == records;
    ListedIsSound(env, cache, records);
    if forall i | 0 <= i < |records| :: Loadable(env, records[i], now) {
      LoadsPrefix(env, cache, records, now, |records|);
    } else {
      var i :| 0 <= i < |records| && !Loadable(env, records[i], now);
      UnloadableFails(env, records, now, i);
    }
  }

  /** So any insertions into an empty cache, saved in any order of the map, come back whole. */
  lemma InsertedSaveLoad(env: Env, arrivals: seq<Arrival>, records: seq<Record>, now: nat)
    requires Lists(records, InsertAll(env, map[], arrivals)) && FitsDownward(env)
    ensures Load(env, records, now).Ok? <==> forall i | 0 <= i < |records| :: Loadable(env, records[i], now)
    ensures Load(env, records, now).Ok? ==> Load(env, records, now) == Ok(InsertAll(env, map[], arrivals))
  {
    InsertionsBuild(env, map[], arrivals);
    SaveLoad(env, InsertAll(env, map[], arrivals), records, now);
  }

  lemma {:induction false} UnloadableFails(env: Env, records: seq<Record>, now: nat, i: nat)
    requires i < |records| && !Loadable(env, records[i], now)
    ensures LoadRecords(env, records, now).Err?
    decreases |records|
  {
    if i < |records| - 1 { UnloadableFails(env, records[..|records| - 1], now, i); }
  }

  // What any file loads as.

  predicate DistinctAuthors(records: seq<Record>) {
    forall i, j | 0 <= i < j < |records| :: records[i].event.author != records[j].event.author
  }

  /** The records up to this one fit, and it is admissible now. */
  predicate LoadsAt(env: Env, records: seq<Record>, now: nat, i: nat)
    requires i < |records|
  {
    Admissible(env, Arrival(records[i].event, now, records[i].verifiedAt)) && env.fits(FromRecords(records[..i + 1]))
  }

  lemma {:induction false} AuthorsOf(records: seq<Record>, author: string)
    ensures author in Authors(records) <==> exists i | 0 <= i < |records| :: records[i].event.author == author
    decreases |records|
  {
    if records != [] {
      var front := records[..|records| - 1];
      AuthorsOf(front, author);
      assert forall i | 0 <= i < |front| :: front[i] == records[i];
    }
  }

  lemma DistinctMore(records: seq<Record>)
    requires records != []
    ensures var n := |records| - 1;
            DistinctAuthors(records) <==> DistinctAuthors(records[..n]) && records[n].event.author !in Authors(records[..n])
  {
    var n := |records| - 1;
    AuthorsOf(records[..n], records[n].event.author);
    assert forall i | 0 <= i < n :: records[..n][i] == records[i];
  }

  lemma {:induction false} DistinctCount(records: seq<Record>)
    requires DistinctAuthors(records)
    ensures |FromRecords(records)| == |records|
    decreases |records|
  {
    if records != [] {
      var n := |records| - 1;
      DistinctMore(records);
      DistinctCount(records[..n]);
      assert FromRecords(records).Keys == FromRecords(records[..n]).Keys + {records[n].event.author};
    }
  }

  lemma LoadsOneIff(env: Env, part: Cache, seen: set<string>, r: Record, now: nat)
    requires part.Keys == seen && |part| < MAX_CACHED_RELAY_LISTS
    ensures LoadOne(env, part, seen, r, now).Ok? <==>
              && r.event.author !in seen && Admissible(env, Arrival(r.event, now, r.verifiedAt))
              && env.fits(part[r.event.author := r])
    ensures LoadOne(env, part, seen, r, now).Ok? ==> LoadOne(env, part, seen, r, now) == Ok(part[r.event.author := r])
  {
  }

  predicate LoadUpTo(env: Env, records: seq<Record>, now: nat, n: nat)
    requires n <= |records|
  {
    forall i | 0 <= i < n :: LoadsAt(env, records, now, i)
  }

  /** Everything that is asked of the records of a file. */
  predicate LoadsAll(env: Env, records: seq<Record>, now: nat) {
    DistinctAuthors(records) && LoadUpTo(env, records, now, |records|)
  }

  lemma LoadUpToFront(env: Env, records: seq<Record>, now: nat, n: nat)
    requires n <= |records|
    ensures LoadUpTo(env, records[..n], now, n) <==> LoadUpTo(env, records, now, n)
  {
    forall i | 0 <= i < n ensures LoadsAt(env, records[..n], now, i) <==> LoadsAt(env, records, now, i) {
      assert records[..n][..i + 1] == records[..i + 1];
    }
  }

  lemma LoadUpToLast(env: Env, records: seq<Record>, now: nat, n: nat)
    requires n < |records|
    ensures LoadUpTo(env, records, now, n + 1) <==> LoadUpTo(env, records, now, n) && LoadsAt(env, records, now, n)
  {
  }

  lemma LoadsAllMore(env: Env, records: seq<Record>, now: nat)
    requires records != []
    ensures var n := |records| - 1;
            LoadsAll(env, records, now) <==>
              && LoadsAll(env, records[..n], now) && records[n].event.author !in Authors(records[..n])
              && Admissible(env, Arrival(records[n].event, now, records[n].verifiedAt)) && env.fits(FromRecords(records))
  {
    var n := |records| - 1;
    DistinctMore(records);
    assert records[..n + 1] == records;
    LoadUpToFront(env, records, now, n);
    LoadUpToLast(env, records, now, n);
  }

  lemma {:induction false} LoadRecordsIff(env: Env, records: seq<Record>, now: nat)
    requires |records| <= MAX_CACHED_RELAY_LISTS
    ensures LoadRecords(env, records, now).Ok? <==> LoadsAll(env, records, now)
    ensures LoadsAll(env, records, now) ==> LoadRecords(env, records, now) == Ok(FromRecords(records))
    decreases |records|
  {
    if records != [] {
      var n := |records| - 1;
      LoadRecordsIff(env, records[..n], now);
      LoadsAllMore(env, records, now);
      if LoadsAll(env, records[..n], now) {
        DistinctCount(records[..n]);
        LoadsOneIff(env, FromRecords(records[..n]), Authors(records[..n]), records[n], now);
      }
    }
  }

  /**
  Any list of records, wherever it comes from, loads if and only if it is not too long, no author
  comes twice, each record is admissible now, and the cache fits after each; then it loads as itself.
  */
  lemma LoadIff(env: Env, records: seq<Record>, now: nat)
    ensures Load(env, records, now).Ok? <==> |records| <= 4096 && LoadsAll(env, records, now)
    ensures Load(env, records, now).Ok? ==> Load(env, records, now) == Ok(FromRecords(records))
  {
    if |records| <= MAX_CACHED_RELAY_LISTS { LoadRecordsIff(env, records, now); }
  }
}

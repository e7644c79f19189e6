/**
The bounded memory of event identifiers that the inbox and the pool share: a set
and a queue, trimmed by age and by size, against the plain history of everything
ever accepted.
*/
module Dedup {
  datatype Entry = Entry(at: nat, id: string)

  datatype Limits = Limits(capacity: nat, ttl: nat)

  /** The configuration both constructors insist on. */
  predicate Usable(limits: Limits) { limits.capacity > 0 && limits.ttl > 0 }

  predicate Expired(e: Entry, limits: Limits, now: nat) { now >= e.at + limits.ttl }

  /** The specification: `id` is among the last `capacity` accepted and younger than the TTL. */
  predicate Recent(log: seq<Entry>, limits: Limits, id: string, now: nat) {
    exists k | 0 <= k < |log| && |log| - k <= limits.capacity :: log[k].id == id && !Expired(log[k], limits, now)
  }

  /** What one delivery adds to the history. */
  function Admit(limits: Limits, log: seq<Entry>, e: Entry): seq<Entry> {
    if Recent(log, limits, e.id, e.at) then log else log + [e]
  }

  predicate Ordered(log: seq<Entry>, clock: nat) {
    && (forall i, j | 0 <= i <= j < |log| :: log[i].at <= log[j].at)
    && (forall i | 0 <= i < |log| :: log[i].at <= clock)
  }

  predicate Distinct(order: seq<Entry>) {
    forall i, j | 0 <= i < j < |order| :: order[i].id != order[j].id
  }

  /** The set holds the ids of the queue and nothing else. */
  predicate Tracks(seen: set<string>, order: seq<Entry>) {
    && |seen| == |order|
    && (forall i | 0 <= i < |order| :: order[i].id in seen)
    && (forall id <- seen :: exists i | 0 <= i < |order| :: order[i].id == id)
  }

  /** Entry `k` may be forgotten: it expired, or `capacity` acceptances follow it. */
  predicate MayForget(log: seq<Entry>, k: nat, limits: Limits, clock: nat, coming: nat)
    requires k < |log|
  {
    Expired(log[k], limits, clock) || |log| - k + coming > limits.capacity
  }

  /**
  `order` is the tail of the history that is still remembered; whatever was
  forgotten had expired or is pushed out by later acceptances, of which `coming`
  are about to be made.
  */
  ghost predicate Remembers(order: seq<Entry>, seen: set<string>, log: seq<Entry>, limits: Limits, clock: nat, coming: nat) {
    && |order| <= |log| && order == log[|log| - |order|..]
    && |order| <= limits.capacity
    && Ordered(log, clock)
    && Distinct(order) && Tracks(seen, order)
    && (forall k: nat | k < |log| - |order| :: MayForget(log, k, limits, clock, coming))
  }

  /** Once nothing remembered has expired, membership is exactly recency. */
  lemma SeenIsRecent(order: seq<Entry>, seen: set<string>, log: seq<Entry>, limits: Limits, now: nat, id: string)
    requires Remembers(order, seen, log, limits, now, 0)
    requires order != [] ==> !Expired(order[0], limits, now)
    ensures id in seen <==> Recent(log, limits, id, now)
  {
    var d := |log| - |order|;
    if id in seen {
      var i :| 0 <= i < |order| && order[i].id == id;
      assert log[d + i] == order[i] && log[d].at <= log[d + i].at;
    }
    if Recent(log, limits, id, now) {
      var k :| 0 <= k < |log| && |log| - k <= limits.capacity && log[k].id == id && !Expired(log[k], limits, now);
      assert k >= d || MayForget(log, k, limits, now, 0);
      assert order[k - d] == log[k];
    }
  }

  lemma PopSeen(order: seq<Entry>, seen: set<string>)
    requires order != [] && Distinct(order) && Tracks(seen, order)
    ensures Distinct(order[1..]) && Tracks(seen - {order[0].id}, order[1..])
  {
    forall id <- seen - {order[0].id} ensures exists i | 0 <= i < |order[1..]| :: order[1..][i].id == id {
      var i :| 0 <= i < |order| && order[i].id == id;
      assert order[1..][i - 1] == order[i];
    }
  }

  /** Forgetting the oldest entry. */
  lemma PopKeeps(order: seq<Entry>, seen: set<string>, log: seq<Entry>, limits: Limits, clock: nat, coming: nat)
    requires Remembers(order, seen, log, limits, clock, coming) && order != []
    requires MayForget(log, |log| - |order|, limits, clock, coming)
    ensures Remembers(order[1..], seen - {order[0].id}, log, limits, clock, coming)
  {
    PopSeen(order, seen);
  }

  lemma PushSeen(order: seq<Entry>, seen: set<string>, e: Entry)
    requires Distinct(order) && Tracks(seen, order) && e.id !in seen
    ensures Distinct(order + [e]) && Tracks(seen + {e.id}, order + [e])
  {
    forall id <- seen + {e.id} ensures exists i | 0 <= i < |order + [e]| :: (order + [e])[i].id == id {
      if id == e.id {
        assert (order + [e])[|order|] == e;
      } else {
        var i :| 0 <= i < |order| && order[i].id == id;
        assert (order + [e])[i] == order[i];
      }
    }
  }

  lemma OrderedAppend(log: seq<Entry>, now: nat, e: Entry)
    requires Ordered(log, now) && e.at == now
    ensures Ordered(log + [e], now)
  {
  }

  /** Accepting a new id, after making room for it. */
  lemma AcceptKeeps(order: seq<Entry>, seen: set<string>, log: seq<Entry>, limits: Limits, now: nat, id: string)
    requires Remembers(order, seen, log, limits, now, 1) && |order| < limits.capacity && id !in seen
    ensures Remembers(order + [Entry(now, id)], seen + {id}, log + [Entry(now, id)], limits, now, 0)
  {
    var e := Entry(now, id);
    var log' := log + [e];
    PushSeen(order, seen, e);
    OrderedAppend(log, now, e);
    assert log'[|log'| - |order + [e]|..] == order + [e];
    forall k: nat | k < |log'| - |order + [e]| ensures MayForget(log', k, limits, now, 0) {
      assert MayForget(log, k, limits, now, 1);
    }
  }

  lemma LaterKeeps(order: seq<Entry>, seen: set<string>, log: seq<Entry>, limits: Limits, clock: nat, coming: nat, clock': nat, coming': nat)
    requires Remembers(order, seen, log, limits, clock, coming) && clock <= clock' && coming <= coming'
    ensures Remembers(order, seen, log, limits, clock', coming')
  {
    forall k: nat | k < |log| - |order| ensures MayForget(log, k, limits, clock', coming') {
      assert MayForget(log, k, limits, clock, coming);
    }
  }

  /** The object both components keep. */
  class SeenIds {
    const limits: Limits
    var seen: set<string>
    var order: seq<Entry>
    ghost var log: seq<Entry>
    ghost var clock: nat

    ghost predicate Holds(coming: nat)
      reads this
    {
      Usable(limits) && Remembers(order, seen, log, limits, clock, coming)
    }

    ghost predicate Valid()
      reads this
    {
      Holds(0)
    }

    constructor (limits: Limits)
      requires Usable(limits)
      ensures Valid() && log == [] && clock == 0 && this.limits == limits
    {
      this.limits := limits;
      seen, order, log, clock := {}, [], [], 0;
    }

    method PopFront(ghost coming: nat)
      requires Holds(coming) && order != [] && MayForget(log, |log| - |order|, limits, clock, coming)
      modifies this`seen, this`order
      ensures Holds(coming) && order == old(order)[1..] && seen <= old(seen)
    {
      PopKeeps(order, seen, log, limits, clock, coming);
      seen := seen - {order[0].id};
      order := order[1..];
    }

    method PushBack(id: string, now: nat)
      requires Holds(1) && clock == now && |order| < limits.capacity && id !in seen
      modifies this`seen, this`order, this`log
      ensures Valid() && log == old(log) + [Entry(now, id)]
    {
      AcceptKeeps(order, seen, log, limits, now, id);
      var e := Entry(now, id);
      seen, order, log := seen + {id}, order + [e], log + [e];
      assert Remembers(order, seen, log, limits, now, 0);
    }

    /** Pop every expired entry from the front. */
    method Expire(now: nat)
      requires Valid() && clock <= now
      modifies this
      ensures Valid() && clock == now && log == old(log)
      ensures order != [] ==> !Expired(order[0], limits, now)
    {
      LaterKeeps(order, seen, log, limits, clock, 0, now, 0);
      clock := now;
      while order != [] && Expired(order[0], limits, now)
        invariant Valid() && clock == now && log == old(log)
        decreases |order|
      {
        PopFront(0);
      }
    }

    /** Pop from the front until one more fits. */
    method MakeRoom()
      requires Valid()
      modifies this`seen, this`order
      ensures Holds(1) && |order| < limits.capacity && seen <= old(seen)
    {
      LaterKeeps(order, seen, log, limits, clock, 0, clock, 1);
      while |seen| >= limits.capacity
        invariant Holds(1) && seen <= old(seen)
        decreases |order|
      {
        PopFront(1);
      }
    }

    /**
    True when `id` is new. With a clock that never goes back, that is exactly when
    the specification says it is not recent, and the history grows by it.
    */
    method Remember(id: string, now: nat) returns (isNew: bool)
      requires Valid() && clock <= now
      modifies this
      ensures Valid() && clock == now
      ensures isNew <==> !Recent(old(log), limits, id, now)
      ensures log == Admit(limits, old(log), Entry(now, id))
    {
      Expire(now);
      SeenIsRecent(order, seen, log, limits, now, id);
      if id in seen { return false; }
      MakeRoom();
      PushBack(id, now);
      isNew := true;
    }
  }

  /** The history after a sequence of deliveries, by the specification alone. */
  function Accepted(limits: Limits, deliveries: seq<Entry>): seq<Entry> {
    if deliveries == [] then [] else
    Admit(limits, Accepted(limits, deliveries[..|deliveries| - 1]), deliveries[|deliveries| - 1])
  }

  /**
  Over a whole run, the same event is accepted twice only when the TTL has passed
  or at least `capacity` acceptances lie between.
  */
  lemma {:induction false} AcceptedAgainOnlyWhenForgotten(limits: Limits, deliveries: seq<Entry>, a: nat, b: nat)
    requires Usable(limits)
    requires var log := Accepted(limits, deliveries); a < b < |log| && log[a].id == log[b].id
    ensures var log := Accepted(limits, deliveries); Expired(log[a], limits, log[b].at) || b - a > limits.capacity
  {
    var front := deliveries[..|deliveries| - 1];
    if b < |Accepted(limits, front)| {
      AcceptedAgainOnlyWhenForgotten(limits, front, a, b);
    }
  }
}

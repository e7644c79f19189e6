/**
The session's token bucket over a nanosecond clock. A `take` reads the clock once to
compute the refill and, if there is one, a second time to restart the interval. The refill
rounds twice: to whole milliseconds, then to whole tokens.
*/
module TokenBucket {
  const U32_MAX := 0xFFFF_FFFF

  /** Nanoseconds in a millisecond, and in a second. */
  const MILLI: nat := 1_000_000
  const SECOND: nat := 1_000_000_000

  datatype Bucket = Bucket(tokens: nat, capacity: nat, perSecond: nat, refilled: nat)

  /** The two clock readings of one call. */
  datatype Readings = Readings(first: nat, second: nat)

  predicate Valid(b: Bucket) { b.tokens <= b.capacity <= U32_MAX }

  function Full(capacity: nat, perSecond: nat, now: nat): Bucket { Bucket(capacity, capacity, perSecond, now) }

  function Min(a: nat, b: nat): nat { if a < b then a else b }

  /** Whole tokens earned in whole milliseconds since the last refill; both remainders are dropped. */
  function Earned(b: Bucket, now: nat): nat {
    if now < b.refilled then 0 else (now - b.refilled) / MILLI * b.perSecond / 1000
  }

  function Refill(b: Bucket, r: Readings): Bucket {
    var earned := Earned(b, r.first);
    if earned == 0 then b
    else b.(tokens := Min(Min(b.tokens + Min(earned, U32_MAX), U32_MAX), b.capacity), refilled := r.second)
  }

  function Take(b: Bucket, r: Readings): (bool, Bucket) {
    var full := Refill(b, r);
    if full.tokens == 0 then (false, full) else (true, full.(tokens := full.tokens - 1))
  }

  class Limiter {
    var tokens: nat
    const capacity: nat
    const perSecond: nat
    var refilled: nat

    function View(): Bucket
      reads this
    {
      Bucket(tokens, capacity, perSecond, refilled)
    }

    constructor (capacity: nat, perSecond: nat, now: nat)
      requires capacity <= U32_MAX
      ensures View() == Full(capacity, perSecond, now) && Valid(View())
    {
      this.capacity, this.perSecond := capacity, perSecond;
      tokens, refilled := capacity, now;
    }

    method TakeOne(r: Readings) returns (granted: bool)
      requires Valid(View())
      modifies this
      ensures Valid(View()) && (granted, View()) == Take(old(View()), r)
    {
      var refill := if r.first < refilled then 0 else (r.first - refilled) / MILLI * perSecond / 1000;
      if refill > 0 {
        var added := if refill <= U32_MAX then refill else U32_MAX;
        var sum := if tokens + added <= U32_MAX then tokens + added else U32_MAX;
        tokens := if sum < capacity then sum else capacity;
        refilled := r.second;
      }
      if tokens == 0 { return false; }
      tokens := tokens - 1;
      return true;
    }
  }

  // Many calls.

  predicate Ordered(start: nat, calls: seq<Readings>) {
    && (forall i | 0 <= i < |calls| :: start <= calls[i].first <= calls[i].second)
    && (forall i, j | 0 <= i < j < |calls| :: calls[i].second <= calls[j].first)
  }

  function After(b: Bucket, calls: seq<Readings>): Bucket {
    if calls == [] then b else Take(After(b, calls[..|calls| - 1]), calls[|calls| - 1]).1
  }

  function Granted(b: Bucket, calls: seq<Readings>): nat {
    if calls == [] then 0
    else
      var front, last := calls[..|calls| - 1], calls[|calls| - 1];
      Granted(b, front) + (if Take(After(b, front), last).0 then 1 else 0)
  }

  /** When the interval began that the next call will measure: at the second reading of the last call that earned a token. */
  function IntervalStart(start: nat, rate: nat, calls: seq<Readings>): nat {
    if calls == [] then start
    else
      var began, last := IntervalStart(start, rate, calls[..|calls| - 1]), calls[|calls| - 1];
      if last.first >= began && (last.first - began) / MILLI * rate >= 1000 then last.second else began
  }

  lemma EarnsIff(b: Bucket, now: nat)
    ensures Earned(b, now) > 0 <==> now >= b.refilled && (now - b.refilled) / MILLI * b.perSecond >= 1000
  {
  }

  /** Over any calls, in whatever order their readings come. */
  lemma {:induction false} RestartsWhenEarned(b: Bucket, calls: seq<Readings>)
    ensures After(b, calls).refilled == IntervalStart(b.refilled, b.perSecond, calls)
    ensures After(b, calls).perSecond == b.perSecond && After(b, calls).capacity == b.capacity
    decreases |calls|
  {
    if calls != [] {
      RestartsWhenEarned(b, calls[..|calls| - 1]);
      EarnsIff(After(b, calls[..|calls| - 1]), calls[|calls| - 1].first);
    }
  }

  lemma EarnedBound(b: Bucket, now: nat)
    requires b.refilled <= now
    ensures SECOND * Earned(b, now) <= (now - b.refilled) * b.perSecond
    ensures 1000 * Earned(b, now) <= (now - b.refilled) / MILLI * b.perSecond < 1000 * Earned(b, now) + 1000
  {
    var elapsed := now - b.refilled;
    MulMonotone(elapsed / MILLI * MILLI, elapsed, b.perSecond);
    assert elapsed / MILLI * MILLI * b.perSecond == MILLI * (elapsed / MILLI * b.perSecond);
  }

  lemma MulSplit(a: nat, b: nat, c: nat, rate: nat)
    requires a <= b <= c
    ensures (b - a) * rate + (c - b) * rate == (c - a) * rate
  {
  }

  lemma MulMonotone(a: nat, b: nat, rate: nat)
    requires a <= b
    ensures a * rate <= b * rate
  {
  }

  /** Tokens come only from time: all that was granted and is left was there or was earned by `credit`. */
  lemma {:induction false} Accrual(b: Bucket, calls: seq<Readings>) returns (credit: nat)
    requires Valid(b) && Ordered(b.refilled, calls)
    ensures var a := After(b, calls);
            && Valid(a) && a.capacity == b.capacity && a.perSecond == b.perSecond
            && b.refilled <= credit <= a.refilled
            && (calls == [] ==> credit == b.refilled) && (calls != [] ==> credit <= calls[|calls| - 1].first)
            && (calls != [] ==> a.refilled <= calls[|calls| - 1].second) && (calls == [] ==> a.refilled == b.refilled)
            && SECOND * (a.tokens + Granted(b, calls)) <= SECOND * b.tokens + (credit - b.refilled) * b.perSecond
    decreases |calls|
  {
    if calls == [] {
      credit := b.refilled;
    } else {
      var front, last := calls[..|calls| - 1], calls[|calls| - 1];
      var earlier := Accrual(b, front);
      var a := After(b, front);
      assert a.refilled <= last.first;
      credit := if Earned(a, last.first) > 0 then last.first else earlier;
      AccrualStep(b, a, Granted(b, front), earlier, last);
    }
  }

  /** One more call, as arithmetic. */
  lemma AccrualStep(b: Bucket, a: Bucket, granted: nat, credit: nat, last: Readings)
    requires Valid(a) && a.perSecond == b.perSecond && b.refilled <= credit <= a.refilled <= last.first <= last.second
    requires SECOND * (a.tokens + granted) <= SECOND * b.tokens + (credit - b.refilled) * b.perSecond
    ensures var (more, after) := Take(a, last);
            var now := if Earned(a, last.first) > 0 then last.first else credit;
            && Valid(after) && now <= after.refilled <= last.second
            && SECOND * (after.tokens + granted + (if more then 1 else 0)) <= SECOND * b.tokens + (now - b.refilled) * b.perSecond
  {
    EarnedBound(a, last.first);
    MulMonotone(last.first - a.refilled, last.first - credit, b.perSecond);
    MulSplit(b.refilled, credit, last.first, b.perSecond);
  }

  /** Since creation: at most the capacity and what the rate gives in the time to the last call. */
  lemma RateBound(capacity: nat, perSecond: nat, start: nat, calls: seq<Readings>)
    requires capacity <= U32_MAX && Ordered(start, calls) && calls != []
    ensures SECOND * Granted(Full(capacity, perSecond, start), calls)
         <= SECOND * capacity + (calls[|calls| - 1].first - start) * perSecond
  {
    var credit := Accrual(Full(capacity, perSecond, start), calls);
    MulMonotone(credit - start, calls[|calls| - 1].first - start, perSecond);
  }

  lemma {:induction false} Splits(b: Bucket, calls: seq<Readings>, more: seq<Readings>)
    ensures After(b, calls + more) == After(After(b, calls), more)
    ensures Granted(b, calls + more) == Granted(b, calls) + Granted(After(b, calls), more)
    decreases |more|
  {
    if more == [] {
      assert calls + more == calls;
    } else {
      Splits(b, calls, more[..|more| - 1]);
      assert (calls + more)[..|calls + more| - 1] == calls + more[..|more| - 1];
    }
  }

  // Windows of calls.

  lemma OneThenRest(s: Bucket, first: Readings, rest: seq<Readings>)
    ensures Granted(s, [first] + rest) == (if Take(s, first).0 then 1 else 0) + Granted(Take(s, first).1, rest)
  {
    Splits(s, [first], rest);
    assert [first][..0] == [];
  }

  lemma WindowGranted(b: Bucket, calls: seq<Readings>, i: nat, j: nat)
    requires i < j <= |calls|
    ensures Granted(b, calls[..j]) - Granted(b, calls[..i]) == Granted(After(b, calls[..i]), [calls[i]] + calls[i + 1..j])
  {
    assert calls[..j] == calls[..i] + ([calls[i]] + calls[i + 1..j]);
    Splits(b, calls[..i], [calls[i]] + calls[i + 1..j]);
  }

  lemma WindowShape(start: nat, calls: seq<Readings>, i: nat, j: nat)
    requires Ordered(start, calls) && i < j <= |calls|
    ensures calls[i].first <= calls[i].second && calls[i].first <= calls[j - 1].first
    ensures Ordered(calls[i].second, calls[i + 1..j])
    ensures var rest := calls[i + 1..j]; rest != [] ==> rest[|rest| - 1].first == calls[j - 1].first
  {
    OrderedSlice(start, calls, i + 1, j, calls[i].second);
  }

  lemma StateBefore(b: Bucket, calls: seq<Readings>, i: nat)
    requires Valid(b) && Ordered(b.refilled, calls) && i < |calls|
    ensures var s := After(b, calls[..i]);
            Valid(s) && s.capacity == b.capacity && s.perSecond == b.perSecond && s.refilled <= calls[i].first
  {
    OrderedSlice(b.refilled, calls, 0, i, b.refilled);
    var _ := Accrual(b, calls[..i]);
  }

  lemma OrderedSlice(start: nat, calls: seq<Readings>, lo: nat, hi: nat, from: nat)
    requires Ordered(start, calls) && lo <= hi <= |calls| && (lo < hi ==> from <= calls[lo].first)
    ensures Ordered(from, calls[lo..hi])
  {
    var part := calls[lo..hi];
    forall i | 0 <= i < |part| ensures from <= part[i].first <= part[i].second {
      assert part[i] == calls[lo + i];
    }
    forall i, j | 0 <= i < j < |part| ensures part[i].second <= part[j].first {
      assert part[i] == calls[lo + i] && part[j] == calls[lo + j];
    }
  }

  /**
  In every window of calls of every run less is granted than the capacity, what the rate gives in
  the window's time, and `slack`, which is in billionths of a token like the rate.
  */
  ghost predicate Bounded(capacity: nat, perSecond: nat, slack: nat) {
    forall start: nat, calls: seq<Readings>, i: nat, j: nat | Ordered(start, calls) && i < j <= |calls| ::
      Within(capacity, perSecond, slack, start, calls, i, j)
  }

  predicate Within(capacity: nat, perSecond: nat, slack: nat, start: nat, calls: seq<Readings>, i: nat, j: nat)
    requires Ordered(start, calls) && i < j <= |calls|
  {
    var b := Full(capacity, perSecond, start);
    SECOND * (Granted(b, calls[..j]) - Granted(b, calls[..i]))
    < SECOND * capacity + (calls[j - 1].first - calls[i].first) * perSecond + slack
  }

  /** The milliseconds it takes to earn so many tokens. */
  function Wait(tokens: nat, perSecond: nat): (r: nat)
    requires perSecond > 0
    ensures r * perSecond >= 1000 * tokens && (r > 0 ==> (r - 1) * perSecond < 1000 * tokens)
    ensures tokens > 0 ==> r > 0
  {
    (1000 * tokens + perSecond - 1) / perSecond
  }

  /**
  What a window gains when its first refill, of `tokens`, was earned in part before it: up to a
  nanosecond less than the wait for one token.
  */
  predicate Covers(perSecond: nat, slack: nat, tokens: nat)
    requires perSecond > 0
  {
    MILLI * ((Wait(1, perSecond) - Wait(tokens, perSecond)) * perSecond + 1000 * tokens) < perSecond + slack
  }

  predicate Affordable(capacity: nat, perSecond: nat, slack: nat) {
    perSecond > 0 ==> forall tokens | 1 <= tokens <= capacity :: Covers(perSecond, slack, tokens)
  }

  lemma WaitIsLeast(tokens: nat, perSecond: nat, millis: nat)
    requires perSecond > 0 && 1000 * tokens <= millis * perSecond
    ensures Wait(tokens, perSecond) <= millis
  {
    if millis < Wait(tokens, perSecond) { MulMonotone(millis, Wait(tokens, perSecond) - 1, perSecond); }
  }

  lemma BeforeOneToken(perSecond: nat, millis: nat)
    requires perSecond > 0 && millis * perSecond < 1000
    ensures millis < Wait(1, perSecond)
  {
    if millis >= Wait(1, perSecond) { MulMonotone(Wait(1, perSecond), millis, perSecond); }
  }

  /** The first refill in a window, against the time from the start of the window. */
  lemma FirstRefill(perSecond: nat, slack: nat, tokens: nat, refilled: nat, first: nat, now: nat)
    requires perSecond > 0 && Covers(perSecond, slack, tokens) && refilled <= first <= now
    requires (first - refilled) / MILLI * perSecond < 1000 && 1000 * tokens <= (now - refilled) / MILLI * perSecond
    ensures SECOND * tokens < (now - first) * perSecond + slack
  {
    var one, all := Wait(1, perSecond), Wait(tokens, perSecond);
    BeforeOneToken(perSecond, (first - refilled) / MILLI);
    WaitIsLeast(tokens, perSecond, (now - refilled) / MILLI);
    assert now - first >= (all - one) * MILLI + 1;
    GapTimesRate(now - first, (all - one) * MILLI + 1, perSecond);
    assert ((all - one) * MILLI + 1) * perSecond == MILLI * ((all - one) * perSecond) + perSecond;
    assert (one - all) * perSecond == -((all - one) * perSecond);
  }

  lemma GapTimesRate(gap: int, least: int, perSecond: nat)
    requires least <= gap
    ensures least * perSecond <= gap * perSecond
  {
  }

  /** What the calls after the first have granted, and whether a refill was among them. */
  predicate Ledger(a: Bucket, first: nat, last: nat, slack: nat, after: Bucket, granted: nat, credit: nat) {
    && Valid(after) && after.capacity == a.capacity && after.perSecond == a.perSecond
    && (|| (after.refilled == a.refilled && after.tokens + granted == a.tokens)
        || (&& first <= credit <= after.refilled && credit <= last
            && SECOND * (after.tokens + granted) < SECOND * a.tokens + (credit - first) * a.perSecond + slack))
  }

  /** A window is open: its first call earned nothing, or has just refilled. */
  predicate Opened(a: Bucket, first: nat) {
    Valid(a) && (a.refilled >= first || (first - a.refilled) / MILLI * a.perSecond < 1000)
  }

  lemma {:induction false} WindowLedger(a: Bucket, rest: seq<Readings>, first: nat, slack: nat) returns (credit: nat)
    requires Opened(a, first) && Affordable(a.capacity, a.perSecond, slack) && slack > 0
    requires Ordered(a.refilled, rest) && Ordered(first, rest)
    ensures var last := if rest == [] then first else rest[|rest| - 1].first;
            Ledger(a, first, last, slack, After(a, rest), Granted(a, rest), credit)
    ensures rest != [] ==> After(a, rest).refilled <= rest[|rest| - 1].second
    decreases |rest|
  {
    credit := first;
    if rest != [] {
      var front, call := rest[..|rest| - 1], rest[|rest| - 1];
      var earlier := WindowLedger(a, front, first, slack);
      var s := After(a, front);
      assert s.refilled <= call.first;
      var last := if front == [] then first else front[|front| - 1].first;
      credit := if Earned(s, call.first) > 0 then call.first else earlier;
      LedgerStep(a, first, last, slack, s, Granted(a, front), earlier, call);
    }
  }

  lemma LedgerStep(
    a: Bucket, first: nat, last: nat, slack: nat, s: Bucket, granted: nat, credit: nat, call: Readings)
    requires Opened(a, first) && Affordable(a.capacity, a.perSecond, slack) && slack > 0
    requires Ledger(a, first, last, slack, s, granted, credit) && last <= call.first
    requires first <= call.first <= call.second && s.refilled <= call.first
    ensures var (more, after) := Take(s, call);
            var now := if Earned(s, call.first) > 0 then call.first else credit;
            && after.refilled <= call.second
            && Ledger(a, first, call.first, slack, after, granted + (if more then 1 else 0), now)
  {
    if Earned(s, call.first) > 0 {
      EarnedBound(s, call.first);
      var added := Refill(s, call).tokens - s.tokens;
      assert 0 <= added <= Earned(s, call.first) && added <= a.capacity;
      if s.refilled == a.refilled && s.tokens + granted == a.tokens {
        OpeningRefill(a, first, slack, added, call.first);
      } else {
        LaterRefill(credit, s.refilled, first, call.first, a.perSecond, added);
      }
    }
  }

  lemma OpeningRefill(a: Bucket, first: nat, slack: nat, added: nat, now: nat)
    requires Opened(a, first) && Affordable(a.capacity, a.perSecond, slack) && slack > 0
    requires first <= now && a.refilled <= now && added <= Earned(a, now) && added <= a.capacity
    ensures SECOND * added < (now - first) * a.perSecond + slack
  {
    EarnedBound(a, now);
    if added > 0 {
      if a.refilled >= first {
        MulMonotone(now - a.refilled, now - first, a.perSecond);
      } else {
        assert a.perSecond > 0;
        assert Covers(a.perSecond, slack, added);
        FirstRefill(a.perSecond, slack, added, a.refilled, first, now);
      }
    }
  }

  lemma LaterRefill(credit: nat, refilled: nat, first: nat, now: nat, rate: nat, added: nat)
    requires first <= credit <= refilled <= now && SECOND * added <= (now - refilled) * rate
    ensures SECOND * added <= (now - first) * rate - (credit - first) * rate
  {
    MulMonotone(now - refilled, now - credit, rate);
    MulSplit(first, credit, now, rate);
  }

  /** One call leaves, with what it grants, at most the capacity, and opens a window. */
  lemma OpensWindow(b: Bucket, r: Readings)
    requires Valid(b) && b.refilled <= r.first <= r.second
    ensures var (granted, a) := Take(b, r);
            && Opened(a, r.first) && a.tokens + (if granted then 1 else 0) <= a.capacity
            && a.capacity == b.capacity && a.perSecond == b.perSecond && a.refilled <= r.second
  {
    EarnedBound(b, r.first);
  }

  lemma WindowFrom(s: Bucket, first: Readings, rest: seq<Readings>, last: nat, slack: nat)
    requires Valid(s) && Affordable(s.capacity, s.perSecond, slack) && slack > 0
    requires s.refilled <= first.first <= first.second && Ordered(first.second, rest)
    requires first.first <= last && (rest != [] ==> rest[|rest| - 1].first == last)
    ensures SECOND * Granted(s, [first] + rest) < SECOND * s.capacity + (last - first.first) * s.perSecond + slack
  {
    OpensWindow(s, first);
    OneThenRest(s, first, rest);
    var (granted, a) := Take(s, first);
    var credit := WindowLedger(a, rest, first.first, slack);
    LedgerCloses(a, first.first, last, slack, After(a, rest), Granted(a, rest), credit, if granted then 1 else 0);
  }

  lemma LedgerCloses(
    a: Bucket, first: nat, last: nat, slack: nat, after: Bucket, granted: nat, credit: nat, before: nat)
    requires Ledger(a, first, last, slack, after, granted, credit) && slack > 0 && first <= last
    requires a.tokens + before <= a.capacity
    ensures SECOND * (before + granted) < SECOND * a.capacity + (last - first) * a.perSecond + slack
  {
    var window: nat := (last - first) * a.perSecond;
    if !(after.refilled == a.refilled && after.tokens + granted == a.tokens) {
      var paid: nat := (credit - first) * a.perSecond;
      MulMonotone(credit - first, last - first, a.perSecond);
      assert SECOND * (after.tokens + granted) < SECOND * a.tokens + paid + slack && paid <= window;
    }
  }

  lemma AffordableBounds(capacity: nat, perSecond: nat, slack: nat)
    requires capacity <= U32_MAX && slack > 0 && Affordable(capacity, perSecond, slack)
    ensures Bounded(capacity, perSecond, slack)
  {
    forall start: nat, calls: seq<Readings>, i: nat, j: nat | Ordered(start, calls) && i < j <= |calls|
      ensures Within(capacity, perSecond, slack, start, calls, i, j)
    {
      var b := Full(capacity, perSecond, start);
      WindowGranted(b, calls, i, j);
      StateBefore(b, calls, i);
      WindowShape(start, calls, i, j);
      WindowFrom(After(b, calls[..i]), calls[i], calls[i + 1..j], calls[j - 1].first, slack);
    }
  }

  // Runs that reach the bound.

  function Repeat(now: nat, n: nat): (r: seq<Readings>)
    ensures |r| == n && forall i | 0 <= i < n :: r[i] == Readings(now, now)
  {
    seq(n, _ => Readings(now, now))
  }

  lemma {:induction false} Drains(b: Bucket, now: nat, n: nat)
    requires n <= b.tokens && Earned(b, now) == 0
    ensures Granted(b, Repeat(now, n)) == n && After(b, Repeat(now, n)) == b.(tokens := b.tokens - n)
  {
    if n > 0 {
      Drains(b, now, n - 1);
      assert Repeat(now, n)[..n - 1] == Repeat(now, n - 1);
    }
  }

  lemma RefillsAndDrains(b: Bucket, now: nat, n: nat)
    requires Valid(b) && b.tokens == 0 && 0 < n <= b.capacity && n <= Earned(b, now)
    ensures Granted(b, Repeat(now, n)) == n
  {
    var a := Take(b, Readings(now, now)).1;
    assert a.refilled == now && a.tokens >= n - 1 && Earned(a, now) == 0;
    assert Repeat(now, n) == [Readings(now, now)] + Repeat(now, n - 1);
    OneThenRest(b, Readings(now, now), Repeat(now, n - 1));
    Drains(a, now, n - 1);
  }

  /** All tokens just before the wait for one is over, then `tokens` more as soon as they are earned. */
  function Burst(capacity: nat, perSecond: nat, tokens: nat): seq<Readings>
    requires perSecond > 0
  {
    Repeat(Wait(1, perSecond) * MILLI - 1, capacity) + Repeat(Wait(tokens, perSecond) * MILLI, tokens)
  }

  lemma WaitGrows(perSecond: nat, tokens: nat)
    requires perSecond > 0 && tokens >= 1
    ensures Wait(1, perSecond) <= Wait(tokens, perSecond)
  {
    WaitIsLeast(1, perSecond, Wait(tokens, perSecond));
  }

  lemma TwoBursts(b: Bucket, early: nat, late: nat, tokens: nat)
    requires Valid(b) && b.tokens == b.capacity && 1 <= tokens <= b.capacity && b.refilled <= early <= late
    requires Earned(b, early) == 0 && tokens <= Earned(b, late)
    ensures Ordered(b.refilled, Repeat(early, b.capacity) + Repeat(late, tokens))
    ensures Granted(b, Repeat(early, b.capacity) + Repeat(late, tokens)) == b.capacity + tokens
  {
    RepeatsOrdered(b.refilled, early, b.capacity, late, tokens);
    var empty := b.(tokens := 0);
    Drains(b, early, b.capacity);
    Splits(b, Repeat(early, b.capacity), Repeat(late, tokens));
    assert After(b, Repeat(early, b.capacity)) == empty;
    RefillsAndDrains(empty, late, tokens);
  }

  lemma RepeatsOrdered(start: nat, early: nat, m: nat, late: nat, n: nat)
    requires start <= early <= late
    ensures Ordered(start, Repeat(early, m) + Repeat(late, n))
  {
  }

  lemma BurstGrants(capacity: nat, perSecond: nat, tokens: nat)
    requires perSecond > 0 && 1 <= tokens <= capacity <= U32_MAX
    ensures Ordered(0, Burst(capacity, perSecond, tokens))
    ensures Granted(Full(capacity, perSecond, 0), Burst(capacity, perSecond, tokens)) == capacity + tokens
  {
    WaitGrows(perSecond, tokens);
    EarnsNothing(perSecond);
    EarnsAll(perSecond, tokens);
    TwoBursts(Full(capacity, perSecond, 0), Wait(1, perSecond) * MILLI - 1, Wait(tokens, perSecond) * MILLI, tokens);
  }

  lemma EarnsAll(perSecond: nat, tokens: nat)
    requires perSecond > 0
    ensures tokens <= Wait(tokens, perSecond) * MILLI / MILLI * perSecond / 1000
  {
    assert Wait(tokens, perSecond) * MILLI / MILLI == Wait(tokens, perSecond);
  }

  lemma EarnsNothing(perSecond: nat)
    requires perSecond > 0
    ensures (Wait(1, perSecond) * MILLI - 1) / MILLI * perSecond / 1000 == 0
  {
    assert (Wait(1, perSecond) * MILLI - 1) / MILLI == Wait(1, perSecond) - 1;
  }

  lemma UncoveredBreaks(capacity: nat, perSecond: nat, slack: nat, tokens: nat)
    requires perSecond > 0 && 1 <= tokens <= capacity <= U32_MAX && !Covers(perSecond, slack, tokens)
    ensures var calls := Burst(capacity, perSecond, tokens);
            Ordered(0, calls) && |calls| > 0 && !Within(capacity, perSecond, slack, 0, calls, 0, |calls|)
  {
    var calls := Burst(capacity, perSecond, tokens);
    WaitGrows(perSecond, tokens);
    BurstGrants(capacity, perSecond, tokens);
    assert calls[..|calls|] == calls && calls[..0] == [];
    BurstTime(perSecond, Wait(1, perSecond), Wait(tokens, perSecond));
  }

  lemma BurstTime(perSecond: nat, one: nat, all: nat)
    requires 1 <= one <= all
    ensures (all * MILLI - (one * MILLI - 1)) * perSecond == perSecond - MILLI * ((one - all) * perSecond)
  {
    assert all * MILLI - (one * MILLI - 1) == MILLI * (all - one) + 1;
    assert (one - all) * perSecond == -((all - one) * perSecond);
  }

  lemma NoSlackBreaks(capacity: nat, perSecond: nat)
    requires capacity <= U32_MAX
    ensures var calls := Repeat(0, capacity + 1);
            Ordered(0, calls) && !Within(capacity, perSecond, 0, 0, calls, 0, |calls|)
  {
    var b, calls := Full(capacity, perSecond, 0), Repeat(0, capacity + 1);
    Drains(b, 0, capacity);
    assert calls[..|calls|] == calls && calls[..0] == [] && calls[..capacity] == Repeat(0, capacity);
  }

  /** Exactly how much slack a capacity and a rate need. */
  lemma BoundedIff(capacity: nat, perSecond: nat, slack: nat)
    requires capacity <= U32_MAX
    ensures Bounded(capacity, perSecond, slack) <==> slack > 0 && Affordable(capacity, perSecond, slack)
  {
    if slack == 0 {
      NoSlackBreaks(capacity, perSecond);
    } else if Affordable(capacity, perSecond, slack) {
      AffordableBounds(capacity, perSecond, slack);
    } else {
      var tokens: nat :| 1 <= tokens <= capacity && !Covers(perSecond, slack, tokens);
      UncoveredBreaks(capacity, perSecond, slack, tokens);
    }
  }

  /** One token and a millisecond's worth of slack is enough for every capacity and rate. */
  lemma WindowBound(capacity: nat, perSecond: nat)
    requires capacity <= U32_MAX
    ensures Bounded(capacity, perSecond, SECOND + MILLI * perSecond)
  {
    var slack: nat := SECOND + MILLI * perSecond;
    if perSecond > 0 {
      forall tokens: nat | 1 <= tokens <= capacity ensures Covers(perSecond, slack, tokens) {
        WaitProducts(perSecond, tokens);
      }
    }
    AffordableBounds(capacity, perSecond, slack);
  }

  lemma WaitProducts(perSecond: nat, tokens: nat)
    requires perSecond > 0
    ensures var one, all := Wait(1, perSecond) * perSecond, Wait(tokens, perSecond) * perSecond;
            && (Wait(1, perSecond) - Wait(tokens, perSecond)) * perSecond == one - all
            && 1000 <= one < 1000 + perSecond && 1000 * tokens <= all
  {
    assert (Wait(1, perSecond) - 1) * perSecond == Wait(1, perSecond) * perSecond - perSecond;
  }

  /** One token of slack is enough at all capacities exactly for the rates that divide a second's milliseconds. */
  lemma OneTokenIff(perSecond: nat)
    requires perSecond <= U32_MAX
    ensures (forall capacity: nat | capacity <= U32_MAX :: Bounded(capacity, perSecond, SECOND))
            <==> perSecond == 0 || 1000 % perSecond == 0
  {
    if perSecond == 0 || 1000 % perSecond == 0 {
      forall capacity: nat | capacity <= U32_MAX ensures Bounded(capacity, perSecond, SECOND) {
        DivisorAffords(capacity, perSecond);
        AffordableBounds(capacity, perSecond, SECOND);
      }
    } else {
      UnevenUncovered(perSecond);
      BoundedIff(perSecond, perSecond, SECOND);
    }
  }

  lemma DivisorAffords(capacity: nat, perSecond: nat)
    requires perSecond == 0 || 1000 % perSecond == 0
    ensures Affordable(capacity, perSecond, SECOND)
  {
    if perSecond > 0 {
      assert 1000 / perSecond * perSecond == 1000;
      WaitIsLeast(1, perSecond, 1000 / perSecond);
      MulMonotone(Wait(1, perSecond), 1000 / perSecond, perSecond);
      forall tokens: nat | 1 <= tokens <= capacity ensures Covers(perSecond, SECOND, tokens) {
        WaitProducts(perSecond, tokens);
      }
    }
  }

  lemma UnevenUncovered(perSecond: nat)
    requires perSecond > 0 && 1000 % perSecond != 0
    ensures !Covers(perSecond, SECOND, perSecond)
  {
    var one, all := Wait(1, perSecond), Wait(perSecond, perSecond);
    WaitIsLeast(perSecond, perSecond, 1000);
    MulMonotone(all, 1000, perSecond);
    WaitProducts(perSecond, perSecond);
    assert one * perSecond != 1000 by { if one * perSecond == 1000 { NotDivided(one, perSecond); } }
    if perSecond > 1000 { MulMonotone(1, one, perSecond); }
  }

  lemma NotDivided(q: nat, r: nat)
    requires r > 0 && q * r == 1000
    ensures 1000 % r == 0
  {
    assert q * r % r == 0;
  }

  /** At a rate of 30, two requests after 33.999999 ms and two after 67 ms are all granted. */
  lemma WindowExceeded()
    ensures var calls := Repeat(33_999_999, 2) + Repeat(67_000_000, 2);
            Ordered(0, calls) && Granted(Full(2, 30, 0), calls) == 4 && !Within(2, 30, SECOND, 0, calls, 0, 4)
  {
    assert Wait(1, 30) == 34 && Wait(2, 30) == 67;
    BurstGrants(2, 30, 2);
    UncoveredBreaks(2, 30, SECOND, 2);
  }
}

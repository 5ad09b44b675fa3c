/** The two rate limiters, over every run of calls under a clock that does not go back. */
module Limiters {
  // ----- a sliding minute -----

  /** One call for a validator's budget. */
  datatype Call = Call(now: real, limit: nat)

  const MINUTE: real := 60.0

  function Expire(queue: seq<real>, now: real): seq<real> {
    if queue == [] || queue[0] > now - MINUTE then queue else Expire(queue[1..], now)
  }

  predicate Granted(queue: seq<real>, c: Call) {
    |Expire(queue, c.now)| < c.limit
  }

  function QueueAfter(queue: seq<real>, c: Call): seq<real> {
    if Granted(queue, c) then Expire(queue, c.now) + [c.now] else Expire(queue, c.now)
  }

  class MinuteLimiter {
    var attempts: map<string, seq<real>>

    constructor ()
      ensures attempts == map[]
    {
      attempts := map[];
    }

    function Queue(validator: string): seq<real>
      reads this
    {
      if validator in attempts then attempts[validator] else []
    }

    /** Drops what has aged out, then grants if there is budget left; other validators are untouched. */
    method Acquire(validator: string, c: Call) returns (granted: bool)
      modifies this
      ensures granted == Granted(old(Queue(validator)), c)
      ensures attempts == old(attempts)[validator := QueueAfter(old(Queue(validator)), c)]
    {
      var queue := Queue(validator);
      while queue != [] && queue[0] <= c.now - MINUTE
        invariant Expire(queue, c.now) == Expire(old(Queue(validator)), c.now)
        decreases |queue|
      {
        queue := queue[1..];
      }
      granted := |queue| < c.limit;
      if granted {
        queue := queue + [c.now];
      }
      attempts := attempts[validator := queue];
    }
  }

  /** The queue a run of calls leaves and every moment at which it granted. */
  datatype Trace = Trace(queue: seq<real>, grants: seq<real>)

  function TraceOf(calls: seq<Call>): Trace {
    if calls == [] then Trace([], [])
    else
      var before, last := TraceOf(calls[..|calls| - 1]), calls[|calls| - 1];
      Trace(QueueAfter(before.queue, last),
            if Granted(before.queue, last) then before.grants + [last.now] else before.grants)
  }

  predicate Forward(calls: seq<Call>) {
    forall i, j :: 0 <= i < j < |calls| ==> calls[i].now <= calls[j].now
  }

  predicate Ascending(times: seq<real>) {
    forall i, j :: 0 <= i < j < |times| ==> times[i] <= times[j]
  }

  /** How many of `times` lie in the interval that excludes `from` and includes `upto`. */
  function CountIn(times: seq<real>, from: real, upto: real): nat {
    if times == [] then 0
    else
      var last := times[|times| - 1];
      CountIn(times[..|times| - 1], from, upto) + (if from < last <= upto then 1 else 0)
  }

  lemma {:induction false} ExpireTwice(queue: seq<real>, early: real, late: real)
    requires early <= late
    ensures Expire(Expire(queue, early), late) == Expire(queue, late)
  {
    if queue != [] && queue[0] <= early - MINUTE {
      ExpireTwice(queue[1..], early, late);
    }
  }

  lemma {:induction false} ExpireAppends(queue: seq<real>, now: real)
    ensures Expire(queue + [now], now) == Expire(queue, now) + [now]
  {
    if queue == [] {
      assert queue + [now] == [now];
    } else if queue[0] <= now - MINUTE {
      assert (queue + [now])[1..] == queue[1..] + [now];
      ExpireAppends(queue[1..], now);
    }
  }

  /** The queue is the grants of the last minute. */
  lemma {:induction false} QueueIsRecentGrants(calls: seq<Call>)
    requires Forward(calls)
    ensures Ascending(TraceOf(calls).grants)
    ensures calls != [] ==>
              && TraceOf(calls).queue == Expire(TraceOf(calls).grants, calls[|calls| - 1].now)
              && forall i :: 0 <= i < |TraceOf(calls).grants| ==> TraceOf(calls).grants[i] <= calls[|calls| - 1].now
  {
    if calls != [] {
      var before, last := calls[..|calls| - 1], calls[|calls| - 1];
      QueueIsRecentGrants(before);
      var t := TraceOf(before);
      if before != [] {
        ExpireTwice(t.grants, before[|before| - 1].now, last.now);
      }
      ExpireAppends(t.grants, last.now);
    }
  }

  lemma {:induction false} CountFirst(times: seq<real>, from: real, upto: real)
    requires times != []
    ensures CountIn(times, from, upto) == (if from < times[0] <= upto then 1 else 0) + CountIn(times[1..], from, upto)
  {
    if |times| > 1 {
      var n := |times| - 1;
      CountFirst(times[..n], from, upto);
      assert times[..n][1..] == times[1..][..n - 1];
    }
  }

  lemma {:induction false} ExpireCounts(times: seq<real>, now: real)
    requires Ascending(times) && forall i :: 0 <= i < |times| ==> times[i] <= now
    ensures |Expire(times, now)| == CountIn(times, now - MINUTE, now)
  {
    if times != [] {
      CountFirst(times, now - MINUTE, now);
      if times[0] <= now - MINUTE {
        ExpireCounts(times[1..], now);
      } else {
        AllCount(times, now - MINUTE, now);
      }
    }
  }

  lemma {:induction false} AllCount(times: seq<real>, from: real, upto: real)
    requires forall i :: 0 <= i < |times| ==> from < times[i] <= upto
    ensures CountIn(times, from, upto) == |times|
  {
    if times != [] {
      AllCount(times[..|times| - 1], from, upto);
    }
  }

  lemma {:induction false} NarrowerCountsLess(times: seq<real>, from: real, upto: real, low: real, high: real)
    requires low <= from && forall i :: 0 <= i < |times| ==> times[i] <= high
    ensures CountIn(times, from, upto) <= CountIn(times, low, high)
  {
    if times != [] {
      NarrowerCountsLess(times[..|times| - 1], from, upto, low, high);
    }
  }

  lemma RecentCounts(t: Trace, last: real, c: Call)
    requires Ascending(t.grants) && t.queue == Expire(t.grants, last) && last <= c.now
    requires forall i :: 0 <= i < |t.grants| ==> t.grants[i] <= last
    ensures Granted(t.queue, c) <==> CountIn(t.grants, c.now - MINUTE, c.now) < c.limit
  {
    ExpireTwice(t.grants, last, c.now);
    ExpireCounts(t.grants, c.now);
  }

  lemma FirstCall(t: Trace, c: Call)
    requires t.queue == [] && t.grants == []
    ensures Granted(t.queue, c) <==> CountIn(t.grants, c.now - MINUTE, c.now) < c.limit
  {
  }

  /** A call is granted exactly when fewer than its limit were granted in the minute up to it. */
  lemma GrantedIff(calls: seq<Call>, c: Call)
    requires Forward(calls) && (calls != [] ==> calls[|calls| - 1].now <= c.now)
    ensures Granted(TraceOf(calls).queue, c) <==> CountIn(TraceOf(calls).grants, c.now - MINUTE, c.now) < c.limit
  {
    if calls == [] {
      FirstCall(TraceOf(calls), c);
    } else {
      QueueIsRecentGrants(calls);
      RecentCounts(TraceOf(calls), calls[|calls| - 1].now, c);
    }
  }

  lemma AppendCounts(times: seq<real>, t: real, from: real, upto: real)
    ensures CountIn(times + [t], from, upto) == CountIn(times, from, upto) + if from < t <= upto then 1 else 0
  {
    assert (times + [t])[..|times|] == times;
  }

  /** What one more call leaves of the budget of an interval. */
  lemma OneMoreGrant(before: seq<Call>, c: Call, limit: nat, from: real)
    requires Forward(before) && (before != [] ==> before[|before| - 1].now <= c.now) && c.limit <= limit
    requires CountIn(TraceOf(before).grants, from, from + MINUTE) <= limit
    ensures Granted(TraceOf(before).queue, c) ==>
              CountIn(TraceOf(before).grants + [c.now], from, from + MINUTE) <= limit
  {
    var grants := TraceOf(before).grants;
    AppendCounts(grants, c.now, from, from + MINUTE);
    GrantedIff(before, c);
    if before != [] && from < c.now <= from + MINUTE {
      QueueIsRecentGrants(before);
      NarrowerCountsLess(grants, from, from + MINUTE, c.now - MINUTE, c.now);
    }
  }

  /** No 60-second interval ever holds more grants than the budget. */
  lemma {:induction false} AtMostLimitPerMinute(calls: seq<Call>, limit: nat, from: real)
    requires Forward(calls) && forall i :: 0 <= i < |calls| ==> calls[i].limit <= limit
    ensures CountIn(TraceOf(calls).grants, from, from + MINUTE) <= limit
  {
    if calls != [] {
      var before := calls[..|calls| - 1];
      AtMostLimitPerMinute(before, limit, from);
      OneMoreGrant(before, calls[|calls| - 1], limit, from);
    }
  }

  // ----- fixed windows -----

  datatype Hit = Hit(key: string, limit: nat, seconds: int, now: nat)
  datatype Window = Window(expiry: int, count: nat)
  datatype Decision = Decision(allowed: bool, limit: nat, remaining: nat, resetAfter: int)

  type Windows = map<string, Window>

  const SWEEP_THRESHOLD: nat := 10_000

  function Start(now: nat, seconds: int): int
    requires seconds > 0
  {
    now - now % seconds
  }

  function Unlapsed(ws: Windows, now: nat): Windows {
    map key | key in ws && ws[key].expiry > now :: ws[key]
  }

  /** The hits already counted in the window that is open at `now`. */
  function Prior(ws: Windows, key: string, now: nat): nat {
    if key in ws && ws[key].expiry > now then ws[key].count else 0
  }

  function Stored(ws: Windows, h: Hit): Windows
    requires h.seconds > 0
  {
    ws[h.key := Window(Start(h.now, h.seconds) + h.seconds, Prior(ws, h.key, h.now) + 1)]
  }

  function AfterHit(ws: Windows, h: Hit): Windows
    requires h.seconds > 0
  {
    Stored(if |ws| >= SWEEP_THRESHOLD then Unlapsed(ws, h.now) else ws, h)
  }

  class InMemoryStore {
    var windows: Windows

    constructor ()
      ensures windows == map[]
    {
      windows := map[];
    }

    /** Counts a hit in its window; what the caller is told follows from the hits counted before it. */
    method Count(h: Hit) returns (d: Decision)
      requires h.seconds > 0
      modifies this
      ensures windows == AfterHit(old(windows), h)
      ensures d.allowed <==> Prior(old(windows), h.key, h.now) < h.limit
      ensures d.limit == h.limit && 1 <= d.resetAfter <= h.seconds
      ensures d.remaining == if d.allowed then h.limit - Prior(old(windows), h.key, h.now) - 1 else 0
    {
      var expires := h.now - h.now % h.seconds + h.seconds;
      if |windows| >= SWEEP_THRESHOLD {
        windows := Unlapsed(windows, h.now);
      }
      var entry := if h.key in windows then windows[h.key] else Window(0, 0);
      var count := if entry.expiry > h.now then entry.count + 1 else 1;
      windows := windows[h.key := Window(expires, count)];
      d := Decision(count <= h.limit, h.limit, if h.limit < count then 0 else h.limit - count,
                    if expires - h.now < 1 then 1 else expires - h.now);
    }
  }

  predicate Timely(hits: seq<Hit>) {
    && (forall i :: 0 <= i < |hits| ==> hits[i].seconds > 0)
    && (forall i, j :: 0 <= i < j < |hits| ==> hits[i].now <= hits[j].now)
  }

  lemma TimelyPrefix(hits: seq<Hit>)
    requires Timely(hits) && hits != []
    ensures Timely(hits[..|hits| - 1])
  {
  }

  /** The store as it runs, sweeping when it is full. */
  function StoreOf(hits: seq<Hit>): Windows
    requires Timely(hits)
  {
    if hits == [] then map[] else TimelyPrefix(hits); AfterHit(StoreOf(hits[..|hits| - 1]), hits[|hits| - 1])
  }

  /** A store that never forgets. */
  function Unswept(hits: seq<Hit>): Windows
    requires Timely(hits)
  {
    if hits == [] then map[] else TimelyPrefix(hits); Stored(Unswept(hits[..|hits| - 1]), hits[|hits| - 1])
  }

  ghost predicate AgreeFrom(ws: Windows, vs: Windows, now: nat) {
    forall key, t: nat :: t >= now ==> Prior(ws, key, t) == Prior(vs, key, t)
  }

  lemma SweepAgrees(ws: Windows, now: nat)
    ensures AgreeFrom(Unlapsed(ws, now), ws, now)
  {
  }

  lemma StoringAgrees(ws: Windows, vs: Windows, h: Hit)
    requires h.seconds > 0 && AgreeFrom(ws, vs, h.now)
    ensures AgreeFrom(Stored(ws, h), Stored(vs, h), h.now)
  {
    forall key, t: nat | t >= h.now ensures Prior(Stored(ws, h), key, t) == Prior(Stored(vs, h), key, t) {
      assert Prior(ws, key, t) == Prior(vs, key, t);
      assert Prior(ws, h.key, h.now) == Prior(vs, h.key, h.now);
    }
  }

  /** The sweep never changes a decision: every later hit finds the count it would have found without it. */
  lemma {:induction false} SweepNeverDecides(hits: seq<Hit>, now: nat)
    requires Timely(hits) && (hits != [] ==> hits[|hits| - 1].now <= now)
    ensures AgreeFrom(StoreOf(hits), Unswept(hits), now)
  {
    if hits != [] {
      var before, h := hits[..|hits| - 1], hits[|hits| - 1];
      SweepNeverDecides(before, h.now);
      var ws := StoreOf(before);
      SweepAgrees(ws, h.now);
      var kept := if |ws| >= SWEEP_THRESHOLD then Unlapsed(ws, h.now) else ws;
      assert AgreeFrom(kept, Unswept(before), h.now);
      StoringAgrees(kept, Unswept(before), h);
    }
  }

  /** Hits of a key from a moment on. */
  function HitsSince(hits: seq<Hit>, key: string, from: int): nat {
    if hits == [] then 0
    else
      var last := hits[|hits| - 1];
      HitsSince(hits[..|hits| - 1], key, from) + (if last.key == key && from <= last.now then 1 else 0)
  }

  predicate SameSeconds(hits: seq<Hit>, key: string, seconds: int) {
    forall i :: 0 <= i < |hits| && hits[i].key == key ==> hits[i].seconds == seconds
  }

  lemma {:induction false} NoneSince(hits: seq<Hit>, key: string, from: int)
    requires forall i :: 0 <= i < |hits| ==> hits[i].now < from
    ensures HitsSince(hits, key, from) == 0
  {
    if hits != [] {
      NoneSince(hits[..|hits| - 1], key, from);
    }
  }

  lemma Aligned(early: nat, late: nat, seconds: int)
    requires seconds > 0 && early <= late
    ensures Start(early, seconds) + seconds > late <==> Start(late, seconds) == Start(early, seconds)
    ensures Start(early, seconds) + seconds <= late ==> early < Start(late, seconds)
  {
    var a, b := early / seconds, late / seconds;
    assert early == a * seconds + early % seconds && late == b * seconds + late % seconds;
    if a < b {
      assert a * seconds + seconds <= b * seconds by { ProductMonotone(a + 1, b, seconds); }
    } else if b < a {
      assert b * seconds + seconds <= a * seconds by { ProductMonotone(b + 1, a, seconds); }
    }
  }

  lemma ProductMonotone(a: int, b: int, c: int)
    requires a <= b && c > 0
    ensures a * c <= b * c
  {
    assert (b - a) * c >= 0;
  }

  /** The counter is the number of hits since the window opened. */
  lemma {:induction false} CounterCountsTheWindow(hits: seq<Hit>, key: string, seconds: int, now: nat)
    requires Timely(hits) && seconds > 0 && SameSeconds(hits, key, seconds)
    requires hits != [] ==> hits[|hits| - 1].now <= now
    ensures Prior(Unswept(hits), key, now) == HitsSince(hits, key, Start(now, seconds))
  {
    if hits != [] {
      var before, h := hits[..|hits| - 1], hits[|hits| - 1];
      TimelyPrefix(hits);
      assert SameSeconds(before, key, seconds);
      if h.key != key {
        CounterCountsTheWindow(before, key, seconds, now);
      } else {
        assert hits[|hits| - 1].seconds == seconds;
        CounterCountsTheWindow(before, key, seconds, h.now);
        Aligned(h.now, now, seconds);
        if Start(now, seconds) != Start(h.now, seconds) {
          NoneSince(hits, key, Start(now, seconds));
        }
      }
    }
  }

  /** A hit is allowed exactly when fewer than its limit came before it in its aligned window. */
  lemma AllowedIff(hits: seq<Hit>, h: Hit)
    requires Timely(hits + [h]) && SameSeconds(hits + [h], h.key, h.seconds)
    ensures Timely(hits) && h.seconds > 0
    ensures Prior(StoreOf(hits), h.key, h.now) < h.limit <==> HitsSince(hits, h.key, Start(h.now, h.seconds)) < h.limit
  {
    var all := hits + [h];
    assert all[..|all| - 1] == hits && all[|hits|] == h;
    TimelyPrefix(all);
    if hits != [] { assert all[|hits| - 1].now <= all[|hits|].now; }
    assert forall i :: 0 <= i < |hits| ==> all[i] == hits[i];
    SweepNeverDecides(hits, h.now);
    CounterCountsTheWindow(hits, h.key, h.seconds, h.now);
  }

  /** The hits of a key in `[from, upto)`. */
  function HitsIn(hits: seq<Hit>, key: string, from: int, upto: int): nat {
    if hits == [] then 0
    else
      var last := hits[|hits| - 1];
      HitsIn(hits[..|hits| - 1], key, from, upto) + (if last.key == key && from <= last.now < upto then 1 else 0)
  }

  /** Those of them that were allowed. */
  function AllowedIn(hits: seq<Hit>, key: string, from: int, upto: int): nat
    requires Timely(hits)
  {
    if hits == [] then 0
    else
      var before, last := hits[..|hits| - 1], hits[|hits| - 1];
      TimelyPrefix(hits);
      AllowedIn(before, key, from, upto) +
      (if last.key == key && from <= last.now < upto &&
          Prior(StoreOf(before), key, last.now) < last.limit then 1 else 0)
  }

  predicate Uniform(hits: seq<Hit>, key: string, seconds: int, limit: nat) {
    forall i :: 0 <= i < |hits| && hits[i].key == key ==> hits[i].seconds == seconds && hits[i].limit == limit
  }

  lemma {:induction false} NothingLater(hits: seq<Hit>, key: string, from: int, upto: int)
    requires forall i :: 0 <= i < |hits| ==> hits[i].now < upto
    ensures HitsIn(hits, key, from, upto) == HitsSince(hits, key, from)
  {
    if hits != [] {
      NothingLater(hits[..|hits| - 1], key, from, upto);
    }
  }

  lemma NextWindow(a: int, b: int, seconds: int)
    requires seconds > 0
    ensures a < b ==> a * seconds + seconds <= b * seconds
  {
    if a < b {
      ProductMonotone(a + 1, b, seconds);
      assert (a + 1) * seconds == a * seconds + seconds;
    }
  }

  lemma InsideWindow(now: nat, seconds: int, k: int)
    requires seconds > 0 && k * seconds <= now < k * seconds + seconds
    ensures Start(now, seconds) == k * seconds
  {
    var q := now / seconds;
    assert now == q * seconds + now % seconds;
    NextWindow(q, k, seconds);
    NextWindow(k, q, seconds);
  }

  /** In every aligned window exactly the first `limit` hits are allowed. */
  lemma {:induction false} FirstHitsAreAllowed(hits: seq<Hit>, key: string, seconds: int, limit: nat, k: int)
    requires Timely(hits) && seconds > 0 && Uniform(hits, key, seconds, limit)
    ensures var hit := HitsIn(hits, key, k * seconds, k * seconds + seconds);
            AllowedIn(hits, key, k * seconds, k * seconds + seconds) == if hit < limit then hit else limit
  {
    if hits != [] {
      var before, h := hits[..|hits| - 1], hits[|hits| - 1];
      var from, upto := k * seconds, k * seconds + seconds;
      TimelyPrefix(hits);
      assert Uniform(before, key, seconds, limit);
      FirstHitsAreAllowed(before, key, seconds, limit, k);
      if h.key == key && from <= h.now < upto {
        assert hits[|hits| - 1].seconds == seconds && hits[|hits| - 1].limit == limit;
        assert before + [h] == hits;
        AllowedIff(before, h);
        InsideWindow(h.now, seconds, k);
        forall i | 0 <= i < |before| ensures before[i].now < upto {
          assert hits[i].now <= hits[|hits| - 1].now;
        }
        NothingLater(before, key, from, upto);
      }
    }
  }

  lemma {:induction false} SplitInterval(hits: seq<Hit>, key: string, from: int, upto: int, low: int, middle: int,
                                         high: int)
    requires Timely(hits) && low <= from && upto <= high
    ensures AllowedIn(hits, key, from, upto) <= AllowedIn(hits, key, low, middle) + AllowedIn(hits, key, middle, high)
  {
    if hits != [] {
      TimelyPrefix(hits);
      SplitInterval(hits[..|hits| - 1], key, from, upto, low, middle, high);
    }
  }

  /** Hence no interval as long as a window sees more than twice the limit. */
  lemma AtMostTwiceTheLimit(hits: seq<Hit>, key: string, seconds: int, limit: nat, from: nat)
    requires Timely(hits) && seconds > 0 && Uniform(hits, key, seconds, limit)
    ensures AllowedIn(hits, key, from, from + seconds) <= 2 * limit
  {
    var k := from / seconds;
    assert from == k * seconds + from % seconds;
    assert (k + 1) * seconds == k * seconds + seconds;
    FirstHitsAreAllowed(hits, key, seconds, limit, k);
    FirstHitsAreAllowed(hits, key, seconds, limit, k + 1);
    SplitInterval(hits, key, from, from + seconds, k * seconds, k * seconds + seconds, k * seconds + seconds + seconds);
  }
}

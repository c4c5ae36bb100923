/**
 * The sliding-window rate limiter of the coordination routes (src/coordination/routes.ts:117-152):
 * one bucket of request times per key, pruned at every request and by a timer.
 */
module RateLimit {
  const RATE_LIMIT: nat := 300
  const RATE_WINDOW_MS: nat := 60_000

  type Buckets = map<string, seq<nat>>

  datatype Event = Hit(key: string, now: nat) | Sweep(now: nat)

  // ---------------------------------------------------------------- the steps

  /** The times after the cutoff, in order. */
  function Fresh(times: seq<nat>, cutoff: int): seq<nat> {
    if times == [] then []
    else
      var front := Fresh(times[..|times| - 1], cutoff);
      if times[|times| - 1] > cutoff then front + [times[|times| - 1]] else front
  }

  function Bucket(b: Buckets, key: string): seq<nat> { if key in b then b[key] else [] }

  function Step(b: Buckets, e: Event): Buckets {
    match e
    case Hit(key, now) => b[key := Fresh(Bucket(b, key), now - RATE_WINDOW_MS) + [now]]
    case Sweep(now) =>
      map key | key in b && Fresh(b[key], now - RATE_WINDOW_MS) != [] :: Fresh(b[key], now - RATE_WINDOW_MS)
  }

  /** The buckets after a history of events, oldest first. */
  function Run(es: seq<Event>): Buckets {
    if es == [] then map[] else Step(Run(es[..|es| - 1]), es[|es| - 1])
  }

  // ---------------------------------------------------------------- the whole history

  /** The times of every request under a key, accepted or not. */
  function Hits(es: seq<Event>, key: string): seq<nat> {
    if es == [] then []
    else
      var e := es[|es| - 1];
      if e.Hit? && e.key == key then Hits(es[..|es| - 1], key) + [e.now] else Hits(es[..|es| - 1], key)
  }

  predicate Monotone(es: seq<Event>) { forall i, k | 0 <= i < k < |es| :: es[i].now <= es[k].now }

  predicate Past(es: seq<Event>, now: nat) { forall i | 0 <= i < |es| :: es[i].now <= now }

  lemma {:induction false} FreshTwice(times: seq<nat>, c1: int, c2: int)
    requires c1 <= c2
    ensures Fresh(Fresh(times, c1), c2) == Fresh(times, c2)
    decreases |times|
  {
    if times != [] {
      FreshTwice(times[..|times| - 1], c1, c2);
      FreshAppends(Fresh(times[..|times| - 1], c1), times[|times| - 1], c2);
    }
  }

  lemma FreshAppends(times: seq<nat>, t: nat, cutoff: int)
    ensures Fresh(times + [t], cutoff) == if t > cutoff then Fresh(times, cutoff) + [t] else Fresh(times, cutoff)
  {
    assert (times + [t])[..|times + [t]| - 1] == times;
  }

  /** The time an event adds to a key, if it still counts after the cutoff. */
  function Adds(e: Event, key: string, cutoff: int): seq<nat> {
    if e.Hit? && e.key == key && e.now > cutoff then [e.now] else []
  }

  /** One event, seen after a later cutoff: pruning early loses nothing that still counts. */
  lemma StepAgrees(b: Buckets, e: Event, key: string, now: nat)
    requires e.now <= now
    ensures var cutoff := now - RATE_WINDOW_MS;
      Fresh(Bucket(Step(b, e), key), cutoff) == Fresh(Bucket(b, key), cutoff) + Adds(e, key, cutoff)
  {
    var early, cutoff := e.now - RATE_WINDOW_MS, now - RATE_WINDOW_MS;
    FreshTwice(Bucket(b, key), early, cutoff);
    FreshAppends(Fresh(Bucket(b, key), early), e.now, cutoff);
    hide Fresh;
    assert Fresh([], cutoff) == [] by { FreshNothing(cutoff); }
  }

  lemma FreshNothing(cutoff: int)
    ensures Fresh([], cutoff) == []
  {
  }

  /** What is left of a bucket at any later time is what is left of the whole history. */
  lemma {:induction false} BucketAgrees(es: seq<Event>, key: string, now: nat)
    requires Past(es, now)
    ensures Fresh(Bucket(Run(es), key), now - RATE_WINDOW_MS) == Fresh(Hits(es, key), now - RATE_WINDOW_MS)
    decreases |es|
  {
    FreshNothing(now - RATE_WINDOW_MS);
    if es != [] {
      var front, e := es[..|es| - 1], es[|es| - 1];
      BucketAgrees(front, key, now);
      StepAgrees(Run(front), e, key, now);
      FreshAppends(Hits(front, key), e.now, now - RATE_WINDOW_MS);
      hide Fresh, Bucket, Step;
    }
  }

  lemma LastIsLatest(es: seq<Event>, e: Event)
    requires Monotone(es + [e])
    ensures Past(es, e.now)
  {
    forall i | 0 <= i < |es| ensures es[i].now <= e.now { assert (es + [e])[i] == es[i] && (es + [e])[|es|] == e; }
  }

  /**
   * Right after a request, the bucket of its key is the full history of that key in the last
   * sixty seconds, whatever sweeps and other keys came between.
   */
  lemma BucketIsTheWindow(es: seq<Event>, key: string, now: nat)
    requires Monotone(es + [Hit(key, now)])
    ensures var all := es + [Hit(key, now)]; Bucket(Run(all), key) == Fresh(Hits(all, key), now - RATE_WINDOW_MS)
  {
    var all := es + [Hit(key, now)];
    assert all[..|all| - 1] == es && all[|all| - 1] == Hit(key, now);
    LastIsLatest(es, Hit(key, now));
    hide Monotone, Past;
    BucketAgrees(es, key, now);
    FreshAppends(Hits(es, key), now, now - RATE_WINDOW_MS);
    hide Fresh;
  }

  // ---------------------------------------------------------------- the limit

  /** The request that ends the history is accepted: its pruned bucket is within the limit. */
  predicate Accepted(es: seq<Event>)
    requires es != [] && es[|es| - 1].Hit?
  {
    |Bucket(Run(es), es[|es| - 1].key)| <= RATE_LIMIT
  }

  /** The requests of a key that arrived after the cutoff, by their place in the history. */
  function Since(es: seq<Event>, key: string, cutoff: int): set<int> {
    set i | 0 <= i < |es| && es[i].Hit? && es[i].key == key && es[i].now > cutoff
  }

  lemma {:induction false} FreshCounts(es: seq<Event>, key: string, cutoff: int)
    ensures |Fresh(Hits(es, key), cutoff)| == |Since(es, key, cutoff)|
    decreases |es|
  {
    if es != [] {
      var n, e := |es| - 1, es[|es| - 1];
      FreshCounts(es[..n], key, cutoff);
      FreshAppends(Hits(es[..n], key), e.now, cutoff);
      var last := if e.Hit? && e.key == key && e.now > cutoff then {n} else {};
      assert Since(es, key, cutoff) == Since(es[..n], key, cutoff) + last;
      assert n !in Since(es[..n], key, cutoff);
    } else {
      assert Since(es, key, cutoff) == {};
    }
  }

  /** A request is accepted exactly when, itself included, at most 300 of its key arrived in the last sixty seconds. */
  lemma {:induction false} AcceptedExactly(es: seq<Event>, key: string, now: nat)
    requires Monotone(es + [Hit(key, now)])
    ensures var all := es + [Hit(key, now)]; Accepted(all) <==> |Since(all, key, now - 60_000)| <= 300
  {
    var all := es + [Hit(key, now)];
    BucketIsTheWindow(es, key, now);
    FreshCounts(all, key, now - RATE_WINDOW_MS);
    hide Fresh, Bucket, Run, Hits, Since, Monotone;
    assert all[|all| - 1] == Hit(key, now);
  }

  /** How many requests of the key were accepted in the window (from, from + 60 s]. */
  function AcceptedIn(es: seq<Event>, key: string, from: int): nat {
    if es == [] then 0
    else
      var e := es[|es| - 1];
      AcceptedIn(es[..|es| - 1], key, from)
      + if e.Hit? && e.key == key && from < e.now <= from + RATE_WINDOW_MS && Accepted(es) then 1 else 0
  }

  lemma {:induction false} AcceptedAreHits(es: seq<Event>, key: string, from: int)
    ensures AcceptedIn(es, key, from) <= |Fresh(Hits(es, key), from)|
    decreases |es|
  {
    if es != [] {
      var front, e := es[..|es| - 1], es[|es| - 1];
      AcceptedAreHits(front, key, from);
      FreshAppends(Hits(front, key), e.now, from);
    }
  }

  lemma {:induction false} FreshShrinks(times: seq<nat>, c1: int, c2: int)
    requires c1 <= c2
    ensures |Fresh(times, c2)| <= |Fresh(times, c1)|
    decreases |times|
  {
    if times != [] { FreshShrinks(times[..|times| - 1], c1, c2); }
  }

  /** In every half-open window of sixty seconds, wherever it starts, at most 300 requests per key are accepted. */
  lemma {:induction false} WindowLimit(es: seq<Event>, key: string, from: int)
    requires Monotone(es)
    ensures AcceptedIn(es, key, from) <= RATE_LIMIT
    decreases |es|
  {
    if es != [] {
      var front, e := es[..|es| - 1], es[|es| - 1];
      if e.Hit? && e.key == key && from < e.now <= from + RATE_WINDOW_MS && Accepted(es) {
        assert es == front + [Hit(key, e.now)];
        BucketIsTheWindow(front, key, e.now);
        AcceptedAreHits(es, key, from);
        FreshShrinks(Hits(es, key), e.now - RATE_WINDOW_MS, from);
      } else {
        WindowLimit(front, key, from);
      }
    }
  }

  // ---------------------------------------------------------------- the object

  class RateLimiter {
    var buckets: Buckets

    constructor ()
      ensures buckets == map[]
    {
      buckets := map[];
    }

    method Filter(times: seq<nat>, cutoff: int) returns (kept: seq<nat>)
      ensures kept == Fresh(times, cutoff)
    {
      kept := [];
      var i := 0;
      while i < |times|
        invariant i <= |times| && kept == Fresh(times[..i], cutoff)
      {
        assert times[..i + 1][..i] == times[..i];
        if times[i] > cutoff {
          kept := kept + [times[i]];
        }
        i := i + 1;
      }
      assert times[..i] == times;
    }

    /** The preHandler hook: false is answered with 429. The request is recorded either way. */
    method OnRequest(key: string, now: nat) returns (ok: bool)
      modifies this
      ensures buckets == Step(old(buckets), Hit(key, now))
      ensures ok == (|Bucket(buckets, key)| <= RATE_LIMIT)
    {
      var timestamps := if key in buckets then buckets[key] else [];
      var recent := Filter(timestamps, now - RATE_WINDOW_MS);
      recent := recent + [now];
      buckets := buckets[key := recent];
      return |recent| <= RATE_LIMIT;
    }

    /** The cleanup timer: each bucket is pruned, an empty one deleted. */
    method OnSweep(now: nat)
      modifies this
      ensures buckets == Step(old(buckets), Sweep(now))
    {
      var left := buckets.Keys;
      ghost var was := buckets;
      while left != {}
        invariant left <= was.Keys
        invariant forall k | k in left :: k in buckets && buckets[k] == was[k]
        invariant buckets.Keys <= was.Keys
        invariant forall k | k in was && k !in left ::
          var kept := Fresh(was[k], now - RATE_WINDOW_MS);
          (k in buckets <==> kept != []) && (k in buckets ==> buckets[k] == kept)
        decreases |left|
      {
        var key :| key in left;
        var kept := Filter(buckets[key], now - RATE_WINDOW_MS);
        if |kept| == 0 {
          buckets := buckets - {key};
        } else {
          buckets := buckets[key := kept];
        }
        left := left - {key};
      }
      assert buckets == Step(was, Sweep(now));
    }
  }
}

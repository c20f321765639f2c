/** The fixed-window counters that the cache keeps, and what they bound.

    A counter is created by the first request of a window and lives `window` time units; every
    request until then increments it.  The bounds below are about whole traces of timed requests. */
module RateLimit {
  datatype Counter = Counter(hits: nat, start: nat, expires: nat)

  datatype Request = Request(key: string, at: nat)

  // One answered request.  `start` names the counter window that answered it.
  datatype Answer = Answer(key: string, at: nat, start: nat, hits: nat, allowed: bool, breach: bool)

  datatype Policy = Policy(limit: nat, window: nat)

  // Every key has a limit and a window of its own.
  type Policies = string -> Policy

  type Cache = map<string, Counter>

  // The counter a request finds: an expired one is as good as none.
  function Bumped(p: Policy, cache: Cache, r: Request): Counter {
    if r.key in cache && r.at < cache[r.key].expires
    then cache[r.key].(hits := cache[r.key].hits + 1)
    else Counter(1, r.at, r.at + p.window)
  }

  function Reply(p: Policy, c: Counter, r: Request): Answer {
    Answer(r.key, r.at, c.start, c.hits, c.hits <= p.limit, c.hits == p.limit + 1)
  }

  // ---- runs ------------------------------------------------------------------------------------

  function CacheAfter(p: Policies, trace: seq<Request>): Cache {
    if trace == [] then map[]
    else
      var cache, r := CacheAfter(p, trace[..|trace| - 1]), trace[|trace| - 1];
      cache[r.key := Bumped(p(r.key), cache, r)]
  }

  function AnswerAt(p: Policies, trace: seq<Request>): Answer
    requires trace != []
  {
    var cache, r := CacheAfter(p, trace[..|trace| - 1]), trace[|trace| - 1];
    Reply(p(r.key), Bumped(p(r.key), cache, r), r)
  }

  ghost predicate Timed(trace: seq<Request>) {
    forall i, j | 0 <= i < j < |trace| :: trace[i].at <= trace[j].at
  }

  // Allowed requests on `key` at times in [from, to].
  function AllowedIn(p: Policies, trace: seq<Request>, key: string, from: nat, to: nat): nat {
    if trace == [] then 0
    else
      var a := AnswerAt(p, trace);
      AllowedIn(p, trace[..|trace| - 1], key, from, to)
      + if a.key == key && a.allowed && from <= a.at <= to then 1 else 0
  }

  function Least(a: nat, b: nat): nat { if a < b then a else b }

  // A counter covers exactly `window` time units, and its last use fell among them.
  predicate CounterFits(p: Policy, c: Counter, last: nat) {
    c.expires == c.start + p.window && c.start <= last < c.expires && c.hits >= 1
  }

  // The last time `key` was asked for, or 0.
  function LastAt(trace: seq<Request>, key: string): nat {
    if trace == [] then 0
    else if trace[|trace| - 1].key == key then trace[|trace| - 1].at
    else LastAt(trace[..|trace| - 1], key)
  }

  lemma {:induction false} LastAtIsPast(trace: seq<Request>, key: string, now: nat)
    requires forall i | 0 <= i < |trace| :: trace[i].at <= now
    ensures LastAt(trace, key) <= now
  {
    if trace != [] && trace[|trace| - 1].key != key { LastAtIsPast(trace[..|trace| - 1], key, now); }
  }

  // The counter invariant, with the count of allowed requests it supports: nothing before the first
  // window that opens inside the interval, and at most one full window before the current one.
  lemma {:induction false} CounterBoundsAllowed(p: Policies, trace: seq<Request>, key: string, from: nat)
    requires Timed(trace) && p(key).window > 0
    requires forall i | 0 <= i < |trace| :: trace[i].at <= from + p(key).window
    ensures key !in CacheAfter(p, trace) ==> AllowedIn(p, trace, key, from, from + p(key).window) == 0
    ensures key in CacheAfter(p, trace) ==>
              var c, n := CacheAfter(p, trace)[key], AllowedIn(p, trace, key, from, from + p(key).window);
              && CounterFits(p(key), c, LastAt(trace, key))
              && n <= (if c.start <= from then 0 else p(key).limit) + Least(c.hits, p(key).limit)
              && (LastAt(trace, key) < from ==> n == 0)
  {
    if trace != [] {
      var init, r := trace[..|trace| - 1], trace[|trace| - 1];
      assert forall i | 0 <= i < |init| :: init[i] == trace[i];
      CounterBoundsAllowed(p, init, key, from);
      LastAtIsPast(init, key, r.at);
    }
  }

  // No interval as long as the window ever holds more than twice the limit, for any key, whatever
  // else is going on under other keys.
  lemma {:induction false} AtMostTwiceTheLimit(p: Policies, trace: seq<Request>, key: string, from: nat, to: nat)
    requires Timed(trace) && p(key).window > 0 && to <= from + p(key).window
    ensures AllowedIn(p, trace, key, from, to) <= 2 * p(key).limit
  {
    if trace != [] {
      var init, r := trace[..|trace| - 1], trace[|trace| - 1];
      if r.at > to {
        AtMostTwiceTheLimit(p, init, key, from, to);
      } else {
        CounterBoundsAllowed(p, trace, key, from);
        NarrowerHoldsLess(p, trace, key, from, to);
      }
    }
  }

  lemma {:induction false} NarrowerHoldsLess(p: Policies, trace: seq<Request>, key: string, from: nat, to: nat)
    requires to <= from + p(key).window
    ensures AllowedIn(p, trace, key, from, to) <= AllowedIn(p, trace, key, from, from + p(key).window)
  {
    if trace != [] { NarrowerHoldsLess(p, trace[..|trace| - 1], key, from, to); }
  }

  lemma OneMore(p: Policies, before: seq<Request>, r: Request)
    ensures var c := Bumped(p(r.key), CacheAfter(p, before), r);
            && CacheAfter(p, before + [r]) == CacheAfter(p, before)[r.key := c]
            && AnswerAt(p, before + [r]) == Reply(p(r.key), c, r)
  {
    assert (before + [r])[..|before|] == before;
  }

  lemma AllowedOneMore(p: Policies, before: seq<Request>, r: Request, key: string, from: nat, to: nat)
    ensures var a := Reply(p(r.key), Bumped(p(r.key), CacheAfter(p, before), r), r);
            AllowedIn(p, before + [r], key, from, to)
            == AllowedIn(p, before, key, from, to) + if a.key == key && a.allowed && from <= a.at <= to then 1 else 0
  {
    assert (before + [r])[..|before|] == before;
  }

  // The bound is reached: a full burst at the start of a window and another the moment it ends.
  function Burst(key: string, at: nat, n: nat): seq<Request> {
    if n == 0 then [] else Burst(key, at, n - 1) + [Request(key, at)]
  }

  lemma {:induction false} BurstIsAllowed(p: Policies, before: seq<Request>, key: string, at: nat, n: nat, to: nat)
    requires p(key).window > 0 && n <= p(key).limit && at <= to
    requires key in CacheAfter(p, before) ==> CacheAfter(p, before)[key].expires <= at
    ensures var trace := before + Burst(key, at, n);
            && AllowedIn(p, trace, key, 0, to) == AllowedIn(p, before, key, 0, to) + n
            && (n > 0 ==>
                  key in CacheAfter(p, trace) && CacheAfter(p, trace)[key] == Counter(n, at, at + p(key).window))
  {
    if n == 0 {
      assert before + Burst(key, at, n) == before;
    } else {
      BurstIsAllowed(p, before, key, at, n - 1, to);
      var init, r := before + Burst(key, at, n - 1), Request(key, at);
      assert before + Burst(key, at, n) == init + [r];
      if n == 1 { assert init == before; }
      OneMore(p, init, r);
      AllowedOneMore(p, init, r, key, 0, to);
    }
  }

  lemma {:induction false} BurstTimes(key: string, at: nat, n: nat)
    ensures |Burst(key, at, n)| == n && forall i | 0 <= i < n :: Burst(key, at, n)[i] == Request(key, at)
  {
    if n > 0 { BurstTimes(key, at, n - 1); }
  }

  lemma BurstsAreTimed(key: string, at: nat, later: nat, n: nat)
    requires at <= later
    ensures Timed(Burst(key, at, n) + Burst(key, later, n))
  {
    BurstTimes(key, at, n);
    BurstTimes(key, later, n);
  }

  lemma FirstBurst(p: Policies, key: string)
    requires p(key).window > 0
    ensures var first := Burst(key, 0, p(key).limit);
            && AllowedIn(p, first, key, 0, p(key).window) == p(key).limit
            && (key in CacheAfter(p, first) ==> CacheAfter(p, first)[key].expires <= p(key).window)
  {
    BurstIsAllowed(p, [], key, 0, p(key).limit, p(key).window);
    assert [] + Burst(key, 0, p(key).limit) == Burst(key, 0, p(key).limit);
  }

  lemma TwiceTheLimitIsReached(p: Policies, key: string)
    requires p(key).window > 0
    ensures var trace := Burst(key, 0, p(key).limit) + Burst(key, p(key).window, p(key).limit);
            Timed(trace) && AllowedIn(p, trace, key, 0, p(key).window) == 2 * p(key).limit
  {
    BurstsAreTimed(key, 0, p(key).window, p(key).limit);
    FirstBurst(p, key);
    BurstIsAllowed(p, Burst(key, 0, p(key).limit), key, p(key).window, p(key).limit, p(key).window);
  }

  // ---- one window ------------------------------------------------------------------------------

  function RequestsOf(p: Policies, trace: seq<Request>, key: string, start: nat): nat {
    if trace == [] then 0
    else
      var a := AnswerAt(p, trace);
      RequestsOf(p, trace[..|trace| - 1], key, start) + if a.key == key && a.start == start then 1 else 0
  }

  function AllowedOf(p: Policies, trace: seq<Request>, key: string, start: nat): nat {
    if trace == [] then 0
    else
      var a := AnswerAt(p, trace);
      AllowedOf(p, trace[..|trace| - 1], key, start)
      + if a.key == key && a.start == start && a.allowed then 1 else 0
  }

  function BreachesOf(p: Policies, trace: seq<Request>, key: string, start: nat): nat {
    if trace == [] then 0
    else
      var a := AnswerAt(p, trace);
      BreachesOf(p, trace[..|trace| - 1], key, start)
      + if a.key == key && a.start == start && a.breach then 1 else 0
  }

  // Every window lets through its first `limit` requests and no more, and writes one breach row
  // exactly when it trips.
  lemma {:induction false} WindowAccounts(p: Policies, trace: seq<Request>, key: string, start: nat)
    requires p(key).window > 0
    ensures AllowedOf(p, trace, key, start) == Least(RequestsOf(p, trace, key, start), p(key).limit)
    ensures BreachesOf(p, trace, key, start) == if RequestsOf(p, trace, key, start) > p(key).limit then 1 else 0
    ensures key in CacheAfter(p, trace) ==>
              var c := CacheAfter(p, trace)[key];
              && c.expires == c.start + p(key).window
              && (start == c.start ==> RequestsOf(p, trace, key, start) == c.hits)
              && (start > c.start ==> RequestsOf(p, trace, key, start) == 0)
    ensures key !in CacheAfter(p, trace) ==> RequestsOf(p, trace, key, start) == 0
  {
    if trace != [] { WindowAccounts(p, trace[..|trace| - 1], key, start); }
  }

  // ---- the service -----------------------------------------------------------------------------

  datatype Breach = Breach(key: string, at: nat, hits: nat)

  class RateLimitService {
    var cache: Cache
    var breaches: seq<Breach>
    ghost var trace: seq<Request>

    ghost predicate Valid(p: Policies)
      reads this
    {
      cache == CacheAfter(p, trace)
    }

    constructor (p: Policies)
      ensures Valid(p) && trace == [] && breaches == []
    {
      cache, breaches, trace := map[], [], [];
    }

    // CacheService.incr: add the key if it is free, else increment it.
    method Incr(key: string, ttl: nat, now: nat) returns (hits: nat)
      modifies `cache
      ensures cache == old(cache)[key := Bumped(Policy(0, ttl), old(cache), Request(key, now))]
      ensures hits == cache[key].hits
    {
      if key !in cache || cache[key].expires <= now {
        cache := cache[key := Counter(1, now, now + ttl)];
        return 1;
      }
      hits := cache[key].hits + 1;
      cache := cache[key := cache[key].(hits := hits)];
    }

    method Check(p: Policies, key: string, now: nat) returns (allowed: bool, hits: nat)
      requires Valid(p)
      modifies this
      ensures Valid(p) && trace == old(trace) + [Request(key, now)]
      ensures var a := AnswerAt(p, trace);
              && allowed == a.allowed && hits == a.hits
              && breaches == old(breaches) + if a.breach then [Breach(key, now, hits)] else []
    {
      hits := Incr(key, p(key).window, now);
      OneMore(p, trace, Request(key, now));
      trace := trace + [Request(key, now)];
      if hits <= p(key).limit {
        return true, hits;
      }
      if hits == p(key).limit + 1 {
        breaches := breaches + [Breach(key, now, hits)];
      }
      allowed := false;
    }
  }
}

/** The fixed-window rate limiter: keys, the counter script with its expiry, and the retry hint. */
module RateLimit {

  /** A bucket's budget; the window is a whole number of seconds. */
  datatype Policy = Policy(limit: int, windowSeconds: nat)

  datatype Result = Result(allowed: bool, limit: int, remaining: int, retryAfterSeconds: int)

  function Max(a: int, b: int): int { if a >= b then a else b }

  // ---------- windows ----------

  /** Which window an instant falls into. */
  function WindowIndex(now: real, windowSeconds: nat): int
    requires windowSeconds > 0
  {
    (now / windowSeconds as real).Floor
  }

  function WindowStart(index: int, windowSeconds: nat): real { index as real * windowSeconds as real }

  lemma InsideWindow(now: real, windowSeconds: nat)
    requires windowSeconds > 0
    ensures var n := WindowIndex(now, windowSeconds); WindowStart(n, windowSeconds) <= now < WindowStart(n + 1, windowSeconds)
  {
    var w, q := windowSeconds as real, now / windowSeconds as real;
    Divides(now, w);
    Scale(WindowIndex(now, windowSeconds) as real, q, w);
    BelowNext(q, WindowIndex(now, windowSeconds), windowSeconds);
  }

  lemma BelowNext(q: real, n: int, windowSeconds: nat)
    requires windowSeconds > 0 && q < (n + 1) as real
    ensures q * windowSeconds as real < WindowStart(n + 1, windowSeconds)
  {
    var w, high := windowSeconds as real, (n + 1) as real;
    assert (high - q) * w > 0.0;
    assert high * w - q * w > 0.0;
  }

  lemma Divides(x: real, w: real)
    requires w > 0.0
    ensures x / w * w == x
  {
  }

  lemma Scale(a: real, b: real, w: real)
    requires a <= b && w > 0.0
    ensures a * w <= b * w
  {
  }

  lemma WindowIsUnique(now: real, windowSeconds: nat, n: int)
    requires windowSeconds > 0 && WindowStart(n, windowSeconds) <= now < WindowStart(n + 1, windowSeconds)
    ensures WindowIndex(now, windowSeconds) == n
  {
    var m, w := WindowIndex(now, windowSeconds), windowSeconds as real;
    InsideWindow(now, windowSeconds);
    if m < n { StartsIncrease(m + 1, n, windowSeconds); }
    if n < m { StartsIncrease(n + 1, m, windowSeconds); }
  }

  lemma StartsIncrease(a: int, b: int, windowSeconds: nat)
    requires a <= b && windowSeconds > 0
    ensures WindowStart(a, windowSeconds) <= WindowStart(b, windowSeconds)
  {
    Scale(a as real, b as real, windowSeconds as real);
  }

  // ---------- keys ----------

  function Digit(d: nat): char
    requires d < 10
  {
    "0123456789"[d]
  }

  function Decimal(n: nat): (s: string)
    ensures s != [] && ':' !in s && (|s| == 1 <==> n < 10)
  {
    if n < 10 then [Digit(n)] else Decimal(n / 10) + [Digit(n % 10)]
  }

  function BuildKey(bucket: string, identity: string, policy: Policy, now: real): string
    requires policy.windowSeconds > 0 && now >= 0.0
  {
    KeyOf(bucket, identity, WindowNumber(now, policy.windowSeconds))
  }

  function KeyOf(bucket: string, identity: string, index: nat): string {
    "rate:" + bucket + ":" + identity + ":" + Decimal(index)
  }

  function WindowNumber(now: real, windowSeconds: nat): nat
    requires windowSeconds > 0 && now >= 0.0
  {
    InsideWindow(now, windowSeconds);
    assert WindowIndex(now, windowSeconds) >= 0 by {
      if WindowIndex(now, windowSeconds) < 0 { StartsIncrease(WindowIndex(now, windowSeconds) + 1, 0, windowSeconds); }
    }
    WindowIndex(now, windowSeconds)
  }

  lemma {:induction false} DecimalInjective(a: nat, b: nat)
    requires Decimal(a) == Decimal(b)
    ensures a == b
  {
    var x, y := Decimal(a), Decimal(b);
    assert x[|x| - 1] == Digit(a % 10) && y[|y| - 1] == Digit(b % 10);
    if a >= 10 && b >= 10 {
      assert x[..|x| - 1] == Decimal(a / 10) && y[..|y| - 1] == Decimal(b / 10);
      DecimalInjective(a / 10, b / 10);
    }
  }

  /** Splitting at the last colon is unique when what follows holds none. */
  lemma LastColon(p: string, q: string, x: string, y: string)
    requires p + ":" + x == q + ":" + y && ':' !in x && ':' !in y
    ensures p == q && x == y
  {
    var s := p + ":" + x;
    assert s[|p|] == ':' && s[|q|] == ':';
    assert forall k :: |p| < k < |s| ==> s[k] == x[k - |p| - 1];
    assert forall k :: |q| < k < |s| ==> s[k] == y[k - |q| - 1];
    assert p == s[..|p|] && q == s[..|q|] && x == s[|p| + 1..] && y == s[|q| + 1..];
  }

  /** Splitting at the first colon is unique when what precedes holds none. */
  lemma FirstColon(p: string, q: string, x: string, y: string)
    requires p + ":" + x == q + ":" + y && ':' !in p && ':' !in q
    ensures p == q && x == y
  {
    var s := p + ":" + x;
    assert s[|p|] == ':' && s[|q|] == ':';
    assert forall k :: 0 <= k < |p| ==> s[k] == p[k];
    assert forall k :: 0 <= k < |q| ==> s[k] == q[k];
    assert p == s[..|p|] && q == s[..|q|] && x == s[|p| + 1..] && y == s[|q| + 1..];
  }

  /** Counters are never shared: with buckets free of colons, equal keys mean equal bucket, identity
      and window, whatever characters the identity holds. */
  lemma KeysNeverCollide(b1: string, i1: string, n1: nat, b2: string, i2: string, n2: nat)
    requires ':' !in b1 && ':' !in b2 && KeyOf(b1, i1, n1) == KeyOf(b2, i2, n2)
    ensures b1 == b2 && i1 == i2 && n1 == n2
  {
    var p, q := "rate:" + b1 + ":" + i1, "rate:" + b2 + ":" + i2;
    LastColon(p, q, Decimal(n1), Decimal(n2));
    DecimalInjective(n1, n2);
    assert p[5..] == b1 + ":" + i1 && q[5..] == b2 + ":" + i2;
    FirstColon(b1, b2, i1, i2);
  }

  // ---------- the retry hint ----------

  function Elapsed(now: real, windowSeconds: nat): real
    requires windowSeconds > 0
  {
    now - WindowStart(WindowIndex(now, windowSeconds), windowSeconds)
  }

  function RetryAfterSeconds(now: real, windowSeconds: nat): int
    requires windowSeconds > 0
  {
    Max(1, (windowSeconds as real - Elapsed(now, windowSeconds)).Floor)
  }

  predicate IsWhole(x: real) { x == x.Floor as real }

  lemma StartIsWhole(n: int, windowSeconds: nat)
    ensures WindowStart(n, windowSeconds) == (n * windowSeconds) as real
    ensures WindowStart(n + 1, windowSeconds) == WindowStart(n, windowSeconds) + windowSeconds as real
  {
  }

  /** Waiting as told never overshoots the next window's start by a second; it reaches that window
      exactly when the clock shows a whole second or less than one second is left; and on a whole
      second it lands on the very start. */
  lemma RetryLands(now: real, windowSeconds: nat)
    requires windowSeconds > 0
    ensures var next := WindowIndex(now, windowSeconds) + 1;
      var retry := now + RetryAfterSeconds(now, windowSeconds) as real;
      && retry < WindowStart(next, windowSeconds) + 1.0
      && (WindowIndex(retry, windowSeconds) == next <==>
            IsWhole(now) || windowSeconds as real - Elapsed(now, windowSeconds) < 1.0)
      && (IsWhole(now) ==> retry == WindowStart(next, windowSeconds))
  {
    var n, w := WindowIndex(now, windowSeconds), windowSeconds as real;
    var left := w - Elapsed(now, windowSeconds);
    var retry := now + RetryAfterSeconds(now, windowSeconds) as real;
    InsideWindow(now, windowSeconds);
    StartIsWhole(n, windowSeconds);
    StartIsWhole(n + 1, windowSeconds);
    hide WindowStart, WindowIndex;
    var start := WindowStart(n, windowSeconds);
    assert 0.0 < left <= w && now == start + w - left;
    assert IsWhole(now) <==> IsWhole(left) by { WholeComplement(now, left, n * windowSeconds + windowSeconds); }
    if IsWhole(now) || left < 1.0 {
      WindowIsUnique(retry, windowSeconds, n + 1);
    } else {
      WindowIsUnique(retry, windowSeconds, n);
    }
  }

  /** Half a second into a one-minute window the hint says 59 seconds, which end inside the same window. */
  lemma HintFallsShort()
    ensures RetryAfterSeconds(0.5, 60) == 59 && WindowIndex(0.5 + 59.0, 60) == WindowIndex(0.5, 60) == 0
  {
    WindowIsUnique(0.5, 60, 0);
    WindowIsUnique(59.5, 60, 0);
  }

  lemma WholeComplement(x: real, y: real, total: int)
    requires x + y == total as real
    ensures IsWhole(x) <==> IsWhole(y)
  {
    if IsWhole(x) { assert y == (total - x.Floor) as real; }
    if IsWhole(y) { assert x == (total - y.Floor) as real; }
  }

  // ---------- the store ----------

  /** A counter and the instant it expires. */
  datatype Counter = Counter(count: int, expires: real)

  type Counters = map<string, Counter>

  /** INCR, and EXPIRE on the increment that creates the key; an expired key is absent. */
  function Script(store: Counters, key: string, windowSeconds: nat, now: real): (Counters, int) {
    if key in store && now < store[key].expires then
      (store[key := Counter(store[key].count + 1, store[key].expires)], store[key].count + 1)
    else (store[key := Counter(1, now + windowSeconds as real)], 1)
  }

  function ResultOf(current: int, policy: Policy, now: real): Result
    requires policy.windowSeconds > 0
  {
    Result(current <= policy.limit, policy.limit, Max(0, policy.limit - current), RetryAfterSeconds(now, policy.windowSeconds))
  }

  /** The production limiter over a shared store. */
  class RedisRateLimiter {
    var store: Counters

    constructor ()
      ensures store == map[]
    {
      store := map[];
    }

    method Eval(key: string, windowSeconds: nat, now: real) returns (current: int)
      modifies this
      ensures (store, current) == Script(old(store), key, windowSeconds, now)
    {
      if key in store && now < store[key].expires {
        current := store[key].count + 1;
        store := store[key := Counter(current, store[key].expires)];
      } else {
        current := 1;
        store := store[key := Counter(current, now + windowSeconds as real)];
      }
    }

    method Check(key: string, policy: Policy, now: real) returns (result: Result)
      requires policy.windowSeconds > 0
      modifies this
      ensures store == Script(old(store), key, policy.windowSeconds, now).0
      ensures result == ResultOf(Script(old(store), key, policy.windowSeconds, now).1, policy, now)
    {
      var current := Eval(key, policy.windowSeconds, now);
      result := Result(current <= policy.limit, policy.limit, Max(0, policy.limit - current),
                       RetryAfterSeconds(now, policy.windowSeconds));
    }

    method ServeNext(requests: seq<Request>, i: nat, policies: string -> Policy) returns (result: Result)
      requires Sensible(requests, policies) && i < |requests| && Admissible(requests[i], policies)
      requires store == StoreAfter(requests[..i], policies)
      modifies this
      ensures store == StoreAfter(requests[..i + 1], policies) && result == Expected(requests, i, policies)
    {
      ScriptCounts(requests, i, policies);
      assert requests[..i + 1][..i] == requests[..i];
      hide Script, Sensible, RetryAfterSeconds, Occurrence;
      var r := requests[i];
      result := Check(Key(r, policies), policies(r.bucket), r.now);
    }

    /** Serving a whole trace of requests in order of arrival. */
    method Serve(requests: seq<Request>, policies: string -> Policy) returns (results: seq<Result>)
      requires Sensible(requests, policies) && store == map[]
      modifies this
      ensures |results| == |requests| && AnsweredByCounting(results, requests, policies)
    {
      assert forall i :: 0 <= i < |requests| ==> Admissible(requests[i], policies);
      NothingServed(policies);
      hide Sensible, Admissible, Expected, StoreAfter, AnsweredByCounting;
      NothingAnswered(requests, policies);
      results := [];
      for i := 0 to |requests|
        invariant store == StoreAfter(requests[..i], policies) && |results| == i
        invariant AnsweredByCounting(results, requests, policies)
      {
        var result := ServeNext(requests, i, policies);
        OneMoreAnswered(results, result, requests, policies);
        results := results + [result];
      }
    }
  }

  // ---------- traces ----------

  datatype Request = Request(bucket: string, identity: string, now: real)

  /** Arrivals on one clock; every bucket has a window and no colon in its name. */
  ghost predicate Sensible(requests: seq<Request>, policies: string -> Policy) {
    && (forall i, j :: 0 <= i < j < |requests| ==> requests[i].now <= requests[j].now)
    && (forall r :: r in requests ==> Admissible(r, policies))
  }

  predicate Admissible(r: Request, policies: string -> Policy) {
    r.now >= 0.0 && policies(r.bucket).windowSeconds > 0 && ':' !in r.bucket
  }

  function Key(r: Request, policies: string -> Policy): string
    requires Admissible(r, policies)
  {
    BuildKey(r.bucket, r.identity, policies(r.bucket), r.now)
  }

  function WindowOf(r: Request, policies: string -> Policy): nat
    requires Admissible(r, policies)
  {
    WindowNumber(r.now, policies(r.bucket).windowSeconds)
  }

  /** Same bucket, same identity, same window. */
  predicate SameWindow(a: Request, b: Request, policies: string -> Policy)
    requires Admissible(a, policies) && Admissible(b, policies)
  {
    a.bucket == b.bucket && a.identity == b.identity && WindowOf(a, policies) == WindowOf(b, policies)
  }

  lemma SameKeySameWindow(a: Request, b: Request, policies: string -> Policy)
    requires Admissible(a, policies) && Admissible(b, policies)
    ensures Key(a, policies) == Key(b, policies) <==> SameWindow(a, b, policies)
  {
    hide KeyOf, WindowNumber;
    if Key(a, policies) == Key(b, policies) {
      KeysNeverCollide(a.bucket, a.identity, WindowOf(a, policies), b.bucket, b.identity, WindowOf(b, policies));
    }
  }

  /** How many of the requests share a request's window. */
  function Matching(requests: seq<Request>, r: Request, policies: string -> Policy): nat {
    if requests == [] then 0
    else
      var last := requests[|requests| - 1];
      Matching(requests[..|requests| - 1], r, policies)
      + if Admissible(last, policies) && Admissible(r, policies) && SameWindow(last, r, policies) then 1 else 0
  }

  /** The request's rank among those of its window, counting from 1. */
  function Occurrence(requests: seq<Request>, i: nat, policies: string -> Policy): int
    requires i < |requests|
  {
    Matching(requests[..i], requests[i], policies) + 1
  }

  /** The answer plain counting gives: allowed exactly up to the limit within its own window. */
  function Expected(requests: seq<Request>, i: nat, policies: string -> Policy): Result
    requires i < |requests| && Admissible(requests[i], policies)
  {
    ResultOf(Occurrence(requests, i, policies), policies(requests[i].bucket), requests[i].now)
  }

  /** The results so far are those of plain counting. */
  ghost predicate AnsweredByCounting(results: seq<Result>, requests: seq<Request>, policies: string -> Policy) {
    && |results| <= |requests|
    && forall i :: 0 <= i < |results| ==> Admissible(requests[i], policies) && results[i] == Expected(requests, i, policies)
  }

  lemma NothingAnswered(requests: seq<Request>, policies: string -> Policy)
    ensures AnsweredByCounting([], requests, policies)
  {
  }

  lemma OneMoreAnswered(results: seq<Result>, result: Result, requests: seq<Request>, policies: string -> Policy)
    requires AnsweredByCounting(results, requests, policies) && |results| < |requests|
    requires Admissible(requests[|results|], policies) && result == Expected(requests, |results|, policies)
    ensures AnsweredByCounting(results + [result], requests, policies)
  {
    hide Expected, Admissible;
  }

  ghost function StoreAfter(requests: seq<Request>, policies: string -> Policy): Counters {
    if requests == [] then map[]
    else
      var last := requests[|requests| - 1];
      var before := StoreAfter(requests[..|requests| - 1], policies);
      if Admissible(last, policies) then Script(before, Key(last, policies), policies(last.bucket).windowSeconds, last.now).0
      else before
  }

  lemma NothingServed(policies: string -> Policy)
    ensures StoreAfter([], policies) == map[]
  {
  }

  lemma SensibleFacts(requests: seq<Request>, policies: string -> Policy, i: nat)
    requires Sensible(requests, policies) && i < |requests|
    ensures Admissible(requests[i], policies) && Sensible(requests[..i], policies)
    ensures forall r :: r in requests[..i] ==> r.now <= requests[i].now
  {
  }

  /** The counter of a window: present once it has been used, right, alive to the window's end, and
      reclaimed before the next window ends. */
  ghost predicate Counts(store: Counters, requests: seq<Request>, r: Request, policies: string -> Policy)
    requires Admissible(r, policies)
  {
    var n, w := Matching(requests, r, policies), policies(r.bucket).windowSeconds;
    && (Key(r, policies) in store <==> n > 0)
    && (n > 0 ==> store[Key(r, policies)].count == n)
    && (n > 0 ==> store[Key(r, policies)].expires >= WindowStart(WindowOf(r, policies) + 1, w))
    && (n > 0 ==> store[Key(r, policies)].expires < WindowStart(WindowOf(r, policies) + 2, w))
  }

  lemma ScriptStep(requests: seq<Request>, last: Request, r: Request, store: Counters, policies: string -> Policy)
    requires Admissible(last, policies) && Admissible(r, policies)
    requires Counts(store, requests, r, policies) && Counts(store, requests, last, policies)
    ensures Counts(Script(store, Key(last, policies), policies(last.bucket).windowSeconds, last.now).0, requests + [last], r, policies)
    ensures Script(store, Key(last, policies), policies(last.bucket).windowSeconds, last.now).1 == Matching(requests, last, policies) + 1
  {
    assert (requests + [last])[..|requests|] == requests;
    SameKeySameWindow(last, r, policies);
    var n, w := WindowOf(last, policies), policies(last.bucket).windowSeconds;
    InsideWindow(last.now, w);
    StartIsWhole(n, w);
    StartIsWhole(n + 1, w);
    if SameWindow(last, r, policies) { SameMatching(requests, last, r, policies); }
    hide WindowStart, WindowNumber, Key, Matching;
    assert Matching(requests + [last], r, policies) == Matching(requests, r, policies) + if SameWindow(last, r, policies) then 1 else 0 by {
      MatchingAppend(requests, last, r, policies);
    }
  }

  lemma MatchingAppend(requests: seq<Request>, last: Request, r: Request, policies: string -> Policy)
    requires Admissible(last, policies) && Admissible(r, policies)
    ensures Matching(requests + [last], r, policies) == Matching(requests, r, policies) + if SameWindow(last, r, policies) then 1 else 0
  {
    assert (requests + [last])[..|requests|] == requests;
  }

  lemma {:induction false} SameMatching(requests: seq<Request>, a: Request, b: Request, policies: string -> Policy)
    requires Admissible(a, policies) && Admissible(b, policies) && SameWindow(a, b, policies)
    ensures Matching(requests, a, policies) == Matching(requests, b, policies)
  {
    if requests != [] { SameMatching(requests[..|requests| - 1], a, b, policies); }
  }

  /** The counters never expire early: after any trace every window's counter is the plain count. */
  lemma {:induction false} CountersCount(requests: seq<Request>, r: Request, policies: string -> Policy)
    requires Sensible(requests, policies) && Admissible(r, policies)
    ensures Counts(StoreAfter(requests, policies), requests, r, policies)
  {
    hide Script, SameWindow, BuildKey;
    if requests != [] {
      var n := |requests| - 1;
      SensibleFacts(requests, policies, n);
      hide Sensible;
      CountersCount(requests[..n], r, policies);
      CountersCount(requests[..n], requests[n], policies);
      hide Counts;
      ScriptStep(requests[..n], requests[n], r, StoreAfter(requests[..n], policies), policies);
      assert requests[..n] + [requests[n]] == requests;
    }
  }

  lemma ScriptCounts(requests: seq<Request>, i: nat, policies: string -> Policy)
    requires Sensible(requests, policies) && i < |requests| && Admissible(requests[i], policies)
    ensures var r := requests[i];
      Script(StoreAfter(requests[..i], policies), Key(r, policies), policies(r.bucket).windowSeconds, r.now).1
        == Occurrence(requests, i, policies)
  {
    hide Script, BuildKey, SameWindow;
    SensibleFacts(requests, policies, i);
    CountersCount(requests[..i], requests[i], policies);
    hide Counts, Matching;
    ScriptStep(requests[..i], requests[i], requests[i], StoreAfter(requests[..i], policies), policies);
  }

  // ---------- budgets ----------

  function Budget(bucket: string, policies: string -> Policy): nat { Max(policies(bucket).limit, 0) }

  /** The i-th request belongs to the caller and was let through. */
  predicate LetThrough(requests: seq<Request>, i: nat, bucket: string, identity: string, policies: string -> Policy)
    requires i < |requests|
  {
    && Admissible(requests[i], policies) && requests[i].bucket == bucket && requests[i].identity == identity
    && Expected(requests, i, policies).allowed
  }

  /** How many of a caller's requests a window let through. */
  function AllowedIn(requests: seq<Request>, bucket: string, identity: string, n: nat, policies: string -> Policy): nat {
    if requests == [] then 0
    else
      var i := |requests| - 1;
      AllowedIn(requests[..i], bucket, identity, n, policies)
      + if LetThrough(requests, i, bucket, identity, policies) && WindowOf(requests[i], policies) == n then 1 else 0
  }

  /** How many were let through from an instant on, for as long as a window lasts. */
  function AllowedWithin(requests: seq<Request>, bucket: string, identity: string, from: real, policies: string -> Policy): nat {
    if requests == [] then 0
    else
      var i := |requests| - 1;
      AllowedWithin(requests[..i], bucket, identity, from, policies)
      + if LetThrough(requests, i, bucket, identity, policies)
           && from <= requests[i].now < from + policies(bucket).windowSeconds as real then 1 else 0
  }

  /** A window lets through exactly the first `limit` of its requests. */
  lemma {:induction false} WindowLimit(requests: seq<Request>, r: Request, policies: string -> Policy)
    requires Admissible(r, policies)
    ensures AllowedIn(requests, r.bucket, r.identity, WindowOf(r, policies), policies)
         == if Matching(requests, r, policies) <= Budget(r.bucket, policies) then Matching(requests, r, policies) else Budget(r.bucket, policies)
  {
    hide WindowNumber, RetryAfterSeconds;
    if requests != [] {
      var i := |requests| - 1;
      WindowLimit(requests[..i], r, policies);
      var last := requests[i];
      if Admissible(last, policies) && SameWindow(last, r, policies) { SameMatching(requests[..i], last, r, policies); }
    }
  }

  lemma {:induction false} BudgetHolds(requests: seq<Request>, bucket: string, identity: string, n: nat, policies: string -> Policy)
    ensures AllowedIn(requests, bucket, identity, n, policies) <= Budget(bucket, policies)
  {
    hide WindowNumber, RetryAfterSeconds;
    if requests != [] {
      var i := |requests| - 1;
      BudgetHolds(requests[..i], bucket, identity, n, policies);
      if LetThrough(requests, i, bucket, identity, policies) { WindowLimit(requests[..i], requests[i], policies); }
    }
  }

  lemma SpanTouchesTwo(now: real, from: real, windowSeconds: nat)
    requires windowSeconds > 0 && 0.0 <= from <= now < from + windowSeconds as real
    ensures WindowNumber(now, windowSeconds) == WindowNumber(from, windowSeconds)
         || WindowNumber(now, windowSeconds) == WindowNumber(from, windowSeconds) + 1
  {
    var n := WindowIndex(from, windowSeconds);
    InsideWindow(from, windowSeconds);
    StartIsWhole(n, windowSeconds);
    StartIsWhole(n + 1, windowSeconds);
    hide WindowStart, WindowIndex;
    if now < WindowStart(n + 1, windowSeconds) {
      WindowIsUnique(now, windowSeconds, n);
    } else {
      WindowIsUnique(now, windowSeconds, n + 1);
    }
  }

  lemma {:induction false} SpanSplits(requests: seq<Request>, bucket: string, identity: string, from: real, policies: string -> Policy)
    requires from >= 0.0 && policies(bucket).windowSeconds > 0
    ensures var n := WindowNumber(from, policies(bucket).windowSeconds);
      AllowedWithin(requests, bucket, identity, from, policies)
      <= AllowedIn(requests, bucket, identity, n, policies) + AllowedIn(requests, bucket, identity, n + 1, policies)
  {
    hide WindowNumber, Expected;
    if requests != [] {
      var i, w := |requests| - 1, policies(bucket).windowSeconds;
      SpanSplits(requests[..i], bucket, identity, from, policies);
      if from <= requests[i].now < from + w as real { SpanTouchesTwo(requests[i].now, from, w); }
    }
  }

  /** Within any span as long as a window, however it lies, at most twice the limit get through. */
  lemma SpanLimit(requests: seq<Request>, bucket: string, identity: string, from: real, policies: string -> Policy)
    requires from >= 0.0 && policies(bucket).windowSeconds > 0
    ensures AllowedWithin(requests, bucket, identity, from, policies) <= 2 * Budget(bucket, policies)
  {
    var n := WindowNumber(from, policies(bucket).windowSeconds);
    hide WindowNumber, Budget;
    SpanSplits(requests, bucket, identity, from, policies);
    BudgetHolds(requests, bucket, identity, n, policies);
    BudgetHolds(requests, bucket, identity, n + 1, policies);
  }
}

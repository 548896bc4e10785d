/** The fixed-window request limiter (src/lib/ios-registration-request.ts:1-53). */
module RateLimits {
  import opened Options

  const RATE_WINDOW_MS: int := 60_000
  const SWEEP_ABOVE: nat := 10_000

  datatype Bucket = Bucket(startedAt: int, count: int)

  /** The bucket after a call at `now`: a new window, or one more in the current one. */
  function Counted(bucket: Option<Bucket>, now: int): Bucket {
    if bucket.None? || now - bucket.value.startedAt >= RATE_WINDOW_MS then Bucket(now, 1)
    else bucket.value.(count := bucket.value.count + 1)
  }

  predicate Accepts(bucket: Bucket, limit: int) {
    bucket.count == 1 || bucket.count <= limit
  }

  // The specification: one caller, no sweeping.

  /** The bucket of a caller after its first `k` calls. */
  function BucketAt(times: seq<int>, k: nat): (r: Option<Bucket>)
    requires k <= |times|
    ensures r.Some? <==> k > 0
    ensures r.Some? ==> r.value.count >= 1
  {
    if k == 0 then None else Some(Counted(BucketAt(times, k - 1), times[k - 1]))
  }

  predicate AcceptedAt(times: seq<int>, k: nat, limit: int)
    requires k < |times|
  {
    Accepts(BucketAt(times, k + 1).value, limit)
  }

  ghost predicate Steady(times: seq<int>) {
    forall i, j :: 0 <= i <= j < |times| ==> times[i] <= times[j]
  }

  lemma {:induction false} BucketAtPrefix(times: seq<int>, now: int, k: nat)
    requires k <= |times|
    ensures BucketAt(times + [now], k) == BucketAt(times, k)
  {
    if k == 0 {
    } else {
      BucketAtPrefix(times, now, k - 1);
    }
  }

  /** Accepted calls among the first `k` at `from` or later, and before `before` if given. */
  function AcceptedIn(times: seq<int>, k: nat, limit: int, from: int, before: Option<int>): nat
    requires k <= |times|
  {
    if k == 0 then 0
    else AcceptedIn(times, k - 1, limit, from, before)
         + if from <= times[k - 1] && (before.Some? ==> times[k - 1] < before.value) && AcceptedAt(times, k - 1, limit)
           then 1 else 0
  }

  function CallsIn(times: seq<int>, k: nat, from: int, before: int): nat
    requires k <= |times|
  {
    if k == 0 then 0 else CallsIn(times, k - 1, from, before) + if from <= times[k - 1] < before then 1 else 0
  }

  /** `CallsIn` is the number of calls that fall in the stretch. */
  lemma {:induction false} CallsInCounts(times: seq<int>, k: nat, from: int, before: int)
    requires k <= |times|
    ensures CallsIn(times, k, from, before) == |set i | 0 <= i < k && from <= times[i] < before|
  {
    if k == 0 {
    } else {
      CallsInCounts(times, k - 1, from, before);
      var fewer := set i | 0 <= i < k - 1 && from <= times[i] < before;
      assert (set i | 0 <= i < k && from <= times[i] < before) ==
        if from <= times[k - 1] < before then fewer + {k - 1} else fewer;
    }
  }

  function CallsInMinute(times: seq<int>, from: int): nat {
    CallsIn(times, |times|, from, from + 60_000)
  }

  function Min(a: int, b: int): int {
    if a <= b then a else b
  }

  lemma {:induction false} NothingLater(times: seq<int>, k: nat, limit: int, from: int)
    requires Steady(times) && k <= |times| && (k > 0 ==> times[k - 1] < from)
    ensures AcceptedIn(times, k, limit, from, None) == 0
  {
    if k == 0 {
    } else {
      assert k > 1 ==> times[k - 2] <= times[k - 1];
      NothingLater(times, k - 1, limit, from);
    }
  }

  /** Counting in a span counts no more than counting from its start. */
  lemma {:induction false} SpanIsLess(times: seq<int>, k: nat, limit: int, from: int, before: int)
    requires k <= |times|
    ensures AcceptedIn(times, k, limit, from, Some(before)) <= AcceptedIn(times, k, limit, from, None)
  {
    if k == 0 {
    } else {
      SpanIsLess(times, k - 1, limit, from, before);
    }
  }

  /**
   What the first `k` calls amount to for a span that starts at `from`: after the current window's
   first call only its rest counts, a window earlier at most that window's rest comes on top.
   */
  lemma {:induction false} WindowBound(times: seq<int>, k: nat, limit: int, from: int)
    requires Steady(times) && limit >= 1 && k <= |times|
    ensures k > 0 ==>
      var b := BucketAt(times, k).value;
      && b.count >= 1 && b.startedAt <= times[k - 1]
      && (from > b.startedAt ==> AcceptedIn(times, k, limit, from, None) <= Min(b.count, limit) - 1)
      && (b.startedAt - RATE_WINDOW_MS < from <= b.startedAt ==>
            AcceptedIn(times, k, limit, from, None) <= limit - 1 + Min(b.count, limit))
    ensures AcceptedIn(times, k, limit, from, Some(from + RATE_WINDOW_MS)) <= 2 * limit - 1
  {
    if k == 0 {
    } else {
      WindowBound(times, k - 1, limit, from);
      assert k > 1 ==> times[k - 2] <= times[k - 1];
      var b := BucketAt(times, k).value;
      if from > times[k - 1] { NothingLater(times, k, limit, from); }
      if from > b.startedAt - RATE_WINDOW_MS {
        SpanIsLess(times, k, limit, from, from + RATE_WINDOW_MS);
      }
    }
  }

  /** Any half-open minute accepts at most `2 * limit - 1` calls of one caller. */
  lemma AcceptedPerMinute(times: seq<int>, limit: int, from: int)
    requires Steady(times) && limit >= 1
    ensures AcceptedIn(times, |times|, limit, from, Some(from + 60_000)) <= 2 * limit - 1
  {
    WindowBound(times, |times|, limit, from);
  }

  /** One call at 0, the rest of the limit at the window's end, a full limit at the next start. */
  function Burst(limit: nat): seq<int>
    requires limit >= 1
  {
    seq(2 * limit, i requires 0 <= i < 2 * limit =>
      if i == 0 then 0 else if i < limit then RATE_WINDOW_MS - 1 else RATE_WINDOW_MS)
  }

  lemma {:induction false} BurstCounts(limit: nat, k: nat)
    requires limit >= 1 && 1 <= k <= 2 * limit
    ensures BucketAt(Burst(limit), k).value == if k <= limit then Bucket(0, k) else Bucket(RATE_WINDOW_MS, k - limit)
    ensures AcceptedIn(Burst(limit), k, limit, RATE_WINDOW_MS - 1, Some(2 * RATE_WINDOW_MS - 1)) == k - 1
  {
    if k == 1 {
    } else {
      BurstCounts(limit, k - 1);
    }
  }

  /** The bound is reached: no smaller one holds. */
  lemma BoundIsTight(limit: nat)
    requires limit >= 1
    ensures Steady(Burst(limit))
    ensures AcceptedIn(Burst(limit), |Burst(limit)|, limit, RATE_WINDOW_MS - 1, Some(2 * RATE_WINDOW_MS - 1)) ==
      2 * limit - 1
  {
    BurstCounts(limit, 2 * limit);
    assert |Burst(limit)| == 2 * limit;
  }

  /** A bucket never counts more than the calls in its own minute. */
  lemma {:induction false} CountIsCalls(times: seq<int>, k: nat)
    requires Steady(times) && 0 < k <= |times|
    ensures var b := BucketAt(times, k).value;
      && b.startedAt <= times[k - 1] < b.startedAt + RATE_WINDOW_MS
      && b.count <= CallsIn(times, k, b.startedAt, b.startedAt + RATE_WINDOW_MS)
  {
    if k == 1 {
    } else {
      CountIsCalls(times, k - 1);
      assert times[k - 2] <= times[k - 1];
    }
  }

  lemma {:induction false} CallsGrow(times: seq<int>, k: nat, n: nat, from: int, before: int)
    requires k <= n <= |times|
    ensures CallsIn(times, k, from, before) <= CallsIn(times, n, from, before)
  {
    if k == n {
    } else {
      CallsGrow(times, k, n - 1, from, before);
    }
  }

  /** A caller that never exceeds the limit in any minute is never refused. */
  lemma ModestCallerIsAccepted(times: seq<int>, limit: int, k: nat)
    requires Steady(times) && k < |times|
    requires forall from :: CallsInMinute(times, from) <= limit
    ensures AcceptedAt(times, k, limit)
  {
    var b := BucketAt(times, k + 1).value;
    CountIsCalls(times, k + 1);
    CallsGrow(times, k + 1, |times|, b.startedAt, b.startedAt + RATE_WINDOW_MS);
    assert CallsInMinute(times, b.startedAt) <= limit;
  }

  // The limiter itself.

  /** A bucket that still matters at `now`. */
  function Live(bucket: Option<Bucket>, now: int): Option<Bucket> {
    if bucket.Some? && now - bucket.value.startedAt < RATE_WINDOW_MS then bucket else None
  }

  function Find<T>(m: map<string, T>, key: string): Option<T> {
    if key in m then Some(m[key]) else None
  }

  type Caller = (string, string)   // namespace and address

  /** The limiter's fields, with when each caller called and whether time has ever gone back. */
  datatype State = State(
    namespaces: map<string, map<string, Bucket>>, calls: map<Caller, seq<int>>, clock: int, steady: bool)

  function CallsOf(s: State, c: Caller): seq<int> {
    if c in s.calls then s.calls[c] else []
  }

  function BucketsOf(s: State, namespace: string): map<string, Bucket> {
    if namespace in s.namespaces then s.namespaces[namespace] else map[]
  }

  function BucketOf(s: State, c: Caller): Option<Bucket> {
    Find(BucketsOf(s, c.0), c.1)
  }

  /** A caller's live bucket is what the specification says. */
  ghost predicate Agrees(c: Caller, s: State) {
    var times := CallsOf(s, c);
    && Live(BucketOf(s, c), s.clock) == Live(BucketAt(times, |times|), s.clock)
    && Steady(times) && (times != [] ==> times[|times| - 1] <= s.clock)
  }

  ghost predicate Consistent(s: State) {
    s.steady ==> forall c: Caller {:trigger Agrees(c, s)} :: Agrees(c, s)
  }

  /** The state after a call that leaves the caller's namespace with `buckets`. */
  function Recorded(s: State, c: Caller, now: int, buckets: map<string, Bucket>): State {
    State(s.namespaces[c.0 := buckets], s.calls[c := CallsOf(s, c) + [now]], now, s.steady && now >= s.clock)
  }

  /** A sweep or none: whatever differs from `before` is expired at `now`. */
  ghost predicate SweptAt(before: map<string, Bucket>, after: map<string, Bucket>, now: int) {
    forall ip: string {:trigger Find(after, ip)} :: Live(Find(after, ip), now) == Live(Find(before, ip), now)
  }

  lemma AnotherCaller(s: State, c: Caller, now: int, swept: map<string, Bucket>, bucket: Bucket, other: Caller)
    requires Consistent(s) && s.steady && now >= s.clock && SweptAt(BucketsOf(s, c.0), swept, now) && other != c
    ensures Agrees(other, Recorded(s, c, now, swept[c.1 := bucket]))
  {
    assert Agrees(other, s);
    assert Live(Find(swept, other.1), now) == Live(Find(BucketsOf(s, c.0), other.1), now);
  }

  lemma SameCaller(s: State, c: Caller, now: int, swept: map<string, Bucket>)
    requires Consistent(s) && s.steady && now >= s.clock && SweptAt(BucketsOf(s, c.0), swept, now)
    ensures var times := CallsOf(s, c) + [now];
      && Some(Counted(Find(swept, c.1), now)) == BucketAt(times, |times|)
      && Agrees(c, Recorded(s, c, now, swept[c.1 := Counted(Find(swept, c.1), now)]))
  {
    assert Agrees(c, s);
    var was := CallsOf(s, c);
    BucketAtPrefix(was, now, |was|);
    assert Live(Find(swept, c.1), now) == Live(BucketOf(s, c), now);
  }

  /** A call keeps every caller's bucket in agreement, swept or not. */
  lemma RecordedKeeps(s: State, c: Caller, now: int, swept: map<string, Bucket>, limit: int)
    requires Consistent(s) && SweptAt(BucketsOf(s, c.0), swept, now)
    ensures Consistent(Recorded(s, c, now, swept[c.1 := Counted(Find(swept, c.1), now)]))
    ensures s.steady && now >= s.clock ==>
      && AcceptedAt(CallsOf(s, c) + [now], |CallsOf(s, c)|, limit) == Accepts(Counted(Find(swept, c.1), now), limit)
      && (Live(Find(swept, c.1), now).Some? ==> Find(swept, c.1).value.count >= 1)
  {
    if s.steady && now >= s.clock {
      var bucket := Counted(Find(swept, c.1), now);
      var after := Recorded(s, c, now, swept[c.1 := bucket]);
      forall other: Caller ensures Agrees(other, after) {
        if other == c { SameCaller(s, c, now, swept); } else { AnotherCaller(s, c, now, swept, bucket, other); }
      }
      SameCaller(s, c, now, swept);
      assert Agrees(c, s) && Live(Find(swept, c.1), now) == Live(BucketOf(s, c), now);
    }
  }

  /** The sweep over a large namespace: expired buckets go, live ones stay. */
  method Sweep(buckets: map<string, Bucket>, now: int) returns (kept: map<string, Bucket>)
    ensures forall ip :: ip in kept <==> ip in buckets && now - buckets[ip].startedAt < RATE_WINDOW_MS
    ensures forall ip :: ip in kept ==> kept[ip] == buckets[ip]
    ensures SweptAt(buckets, kept, now)
  {
    kept := buckets;
    var left := buckets.Keys;
    while left != {}
      invariant left <= buckets.Keys
      invariant forall ip ::
        ip in kept <==> ip in buckets && (ip in left || now - buckets[ip].startedAt < RATE_WINDOW_MS)
      invariant forall ip :: ip in kept ==> kept[ip] == buckets[ip]
      decreases |left|
    {
      var key :| key in left;
      left := left - {key};
      if now - buckets[key].startedAt >= RATE_WINDOW_MS { kept := kept - {key}; }
    }
  }

  /** The swept namespace counts one more call of `ip`. */
  method Spend(buckets: map<string, Bucket>, ip: string, now: int, limit: int)
    returns (after: map<string, Bucket>, ok: bool)
    ensures after == buckets[ip := Counted(Find(buckets, ip), now)]
    ensures ok <==> Live(Find(buckets, ip), now).None? || buckets[ip].count < limit
  {
    if ip !in buckets || now - buckets[ip].startedAt >= RATE_WINDOW_MS {
      return buckets[ip := Bucket(now, 1)], true;
    }
    var current := buckets[ip].(count := buckets[ip].count + 1);
    return buckets[ip := current], current.count <= limit;
  }

  lemma Overwritten<K, V>(m: map<K, V>, key: K, first: V, second: V)
    ensures m[key := first][key := second] == m[key := second]
  {
  }

  class RateLimiter {
    var namespaces: map<string, map<string, Bucket>>
    ghost var calls: map<Caller, seq<int>>
    ghost var clock: int
    ghost var steady: bool

    ghost function Now(): State
      reads this
    {
      State(namespaces, calls, clock, steady)
    }

    constructor (start: int)
      ensures Consistent(Now()) && Now() == State(map[], map[], start, true)
    {
      namespaces, calls, clock, steady := map[], map[], start, true;
    }

    /** `bucketsFor` */
    method BucketsFor(namespace: string) returns (buckets: map<string, Bucket>)
      modifies this`namespaces
      ensures buckets == old(BucketsOf(Now(), namespace))
      ensures namespaces == old(namespaces)[namespace := buckets]
    {
      if namespace in namespaces { return namespaces[namespace]; }
      namespaces := namespaces[namespace := map[]];
      return map[];
    }

    /** While time does not go back, the answer is the unswept specification's for that caller alone. */
    method Allowed(namespace: string, ip: string, now: int, limit: int) returns (ok: bool)
      requires Consistent(Now())
      modifies this
      ensures Consistent(Now())
      ensures steady == (old(steady) && now >= old(clock)) && clock == now
      ensures calls == old(calls)[(namespace, ip) := old(CallsOf(Now(), (namespace, ip))) + [now]]
      ensures steady ==>
        ok == AcceptedAt(old(CallsOf(Now(), (namespace, ip))) + [now], |old(CallsOf(Now(), (namespace, ip)))|, limit)
    {
      ghost var was, caller := Now(), (namespace, ip);
      var rateLimits := BucketsFor(namespace);
      if |rateLimits| > SWEEP_ABOVE {
        rateLimits := Sweep(rateLimits, now);
      }
      ghost var swept := rateLimits;
      assert SweptAt(BucketsOf(was, namespace), swept, now);
      rateLimits, ok := Spend(rateLimits, ip, now, limit);
      namespaces := namespaces[namespace := rateLimits];
      steady := steady && now >= clock;
      calls := calls[caller := CallsOf(was, caller) + [now]];
      clock := now;
      Overwritten(was.namespaces, namespace, BucketsOf(was, namespace), rateLimits);
      assert Now() == Recorded(was, caller, now, swept[ip := Counted(Find(swept, ip), now)]);
      RecordedKeeps(was, caller, now, swept, limit);
    }
  }

  // Runs of many callers.

  datatype Request = Request(caller: Caller, now: int)

  /** When one of the callers called. */
  function TimesOf(requests: seq<Request>, c: Caller): seq<int> {
    if requests == [] then []
    else
      var last := |requests| - 1;
      TimesOf(requests[..last], c) + if requests[last].caller == c then [requests[last].now] else []
  }

  /** The specification's answers: each caller's own calls decide. */
  function Answers(requests: seq<Request>, limit: int): (answers: seq<bool>)
    ensures |answers| == |requests|
  {
    if requests == [] then []
    else
      var last := |requests| - 1;
      var times := TimesOf(requests, requests[last].caller);
      Answers(requests[..last], limit) + [AcceptedAt(times, |times| - 1, limit)]
  }

  /** How many of a caller's requests in the minute from `from` were accepted. */
  function AcceptedInMinute(requests: seq<Request>, answers: seq<bool>, c: Caller, from: int): nat
    requires |answers| == |requests|
  {
    if requests == [] then 0
    else
      var last := |requests| - 1;
      AcceptedInMinute(requests[..last], answers[..last], c, from)
      + if requests[last].caller == c && from <= requests[last].now < from + 60_000 && answers[last]
        then 1 else 0
  }

  /** Time does not go back from `start` on. */
  ghost predicate SteadyRun(requests: seq<Request>, start: int) {
    && (forall i :: 0 <= i < |requests| ==> start <= requests[i].now)
    && (forall i, j :: 0 <= i <= j < |requests| ==> requests[i].now <= requests[j].now)
  }

  lemma {:induction false} TimesAreSteady(requests: seq<Request>, start: int, c: Caller)
    requires SteadyRun(requests, start)
    ensures Steady(TimesOf(requests, c))
    ensures forall i :: 0 <= i < |TimesOf(requests, c)| ==> TimesOf(requests, c)[i] <= requests[|requests| - 1].now
  {
    if requests == [] {
    } else {
      var last := |requests| - 1;
      var front := requests[..last];
      TimesAreSteady(front, start, c);
      assert front != [] ==> front[last - 1].now <= requests[last].now;
    }
  }

  lemma {:induction false} AcceptedInPrefix(times: seq<int>, now: int, k: nat, limit: int,
          from: int, before: Option<int>)
    requires k <= |times|
    ensures AcceptedIn(times + [now], k, limit, from, before) == AcceptedIn(times, k, limit, from, before)
  {
    if k == 0 {
    } else {
      BucketAtPrefix(times, now, k);
      AcceptedInPrefix(times, now, k - 1, limit, from, before);
    }
  }

  /** Counting a run's accepted requests is counting the specification's accepted calls. */
  lemma {:induction false} CountsAgree(requests: seq<Request>, limit: int, c: Caller, from: int)
    ensures var times := TimesOf(requests, c);
      AcceptedInMinute(requests, Answers(requests, limit), c, from) ==
      AcceptedIn(times, |times|, limit, from, Some(from + RATE_WINDOW_MS))
  {
    if requests == [] {
    } else {
      var last := |requests| - 1;
      var was, q := TimesOf(requests[..last], c), requests[last];
      CountsAgree(requests[..last], limit, c, from);
      assert Answers(requests, limit)[..last] == Answers(requests[..last], limit);
      if q.caller == c {
        AcceptedInPrefix(was, q.now, |was|, limit, from, Some(from + RATE_WINDOW_MS));
        assert TimesOf(requests, c) == was + [q.now];
        assert Answers(requests, limit)[last] == AcceptedAt(was + [q.now], |was|, limit);
      } else {
        assert TimesOf(requests, c) == was;
      }
    }
  }

  ghost predicate AnsweredAt(times: seq<int>, k: nat, limit: int, answer: bool) {
    k < |times| && answer == AcceptedAt(times, k, limit)
  }

  /** The specification's answer to the `i`-th request, a call of its caller's own. */
  lemma {:induction false} AnswerAt(requests: seq<Request>, limit: int, i: nat)
    requires i < |requests|
    ensures exists k: nat :: AnsweredAt(TimesOf(requests, requests[i].caller), k, limit, Answers(requests, limit)[i])
  {
    var last := |requests| - 1;
    var c := requests[i].caller;
    var times := TimesOf(requests, c);
    if i == last {
      assert AnsweredAt(times, |times| - 1, limit, Answers(requests, limit)[i]);
    } else {
      var was := TimesOf(requests[..last], c);
      AnswerAt(requests[..last], limit, i);
      var k: nat :| AnsweredAt(was, k, limit, Answers(requests[..last], limit)[i]);
      if requests[last].caller == c {
        BucketAtPrefix(was, requests[last].now, k + 1);
        assert times == was + [requests[last].now];
      } else {
        assert times == was;
      }
      assert AnsweredAt(times, k, limit, Answers(requests, limit)[i]);
    }
  }

  /** A caller with at most `limit` requests in every minute. */
  ghost predicate Modest(requests: seq<Request>, c: Caller, limit: int) {
    forall from :: CallsInMinute(TimesOf(requests, c), from) <= limit
  }

  lemma ModestIsAccepted(requests: seq<Request>, start: int, limit: int, i: nat)
    requires SteadyRun(requests, start) && i < |requests| && Modest(requests, requests[i].caller, limit)
    ensures Answers(requests, limit)[i]
  {
    var times := TimesOf(requests, requests[i].caller);
    TimesAreSteady(requests, start, requests[i].caller);
    AnswerAt(requests, limit, i);
    var k: nat :| AnsweredAt(times, k, limit, Answers(requests, limit)[i]);
    ModestCallerIsAccepted(times, limit, k);
  }

  lemma MinuteIsBounded(requests: seq<Request>, start: int, limit: int, c: Caller, from: int)
    requires SteadyRun(requests, start) && limit >= 1
    ensures AcceptedInMinute(requests, Answers(requests, limit), c, from) <= 2 * limit - 1
  {
    TimesAreSteady(requests, start, c);
    CountsAgree(requests, limit, c, from);
    AcceptedPerMinute(TimesOf(requests, c), limit, from);
  }

  ghost predicate RecordsAll(s: State, requests: seq<Request>) {
    forall c: Caller {:trigger CallsOf(s, c)} :: CallsOf(s, c) == TimesOf(requests, c)
  }

  lemma RecordsOneMore(s: State, t: State, requests: seq<Request>, q: Request)
    requires RecordsAll(s, requests) && t.calls == s.calls[q.caller := CallsOf(s, q.caller) + [q.now]]
    ensures RecordsAll(t, requests + [q])
  {
    assert (requests + [q])[..|requests|] == requests;
    forall c: Caller ensures CallsOf(t, c) == TimesOf(requests + [q], c) {
      assert CallsOf(s, c) == TimesOf(requests, c);
    }
  }

  /** Any run of requests, from any number of callers, under one limit. */
  method Serve(limit: int, start: int, requests: seq<Request>) returns (answers: seq<bool>)
    ensures |answers| == |requests|
    ensures SteadyRun(requests, start) ==>
      && answers == Answers(requests, limit)
      && (limit >= 1 ==> forall c: Caller, from :: AcceptedInMinute(requests, answers, c, from) <= 2 * limit - 1)
      && (forall i :: 0 <= i < |requests| && Modest(requests, requests[i].caller, limit) ==> answers[i])
  {
    var limiter := new RateLimiter(start);
    answers := [];
    for i := 0 to |requests|
      invariant fresh(limiter) && Consistent(limiter.Now()) && |answers| == i
      invariant RecordsAll(limiter.Now(), requests[..i])
      invariant limiter.clock == if i == 0 then start else requests[i - 1].now
      invariant SteadyRun(requests, start) ==> limiter.steady && answers == Answers(requests[..i], limit)
    {
      var q := requests[i];
      ghost var was := limiter.Now();
      assert requests[..i + 1] == requests[..i] + [q] && requests[..i + 1][..i] == requests[..i];
      var ok := limiter.Allowed(q.caller.0, q.caller.1, q.now, limit);
      RecordsOneMore(was, limiter.Now(), requests[..i], q);
      answers := answers + [ok];
    }
    assert requests[..|requests|] == requests;
    if SteadyRun(requests, start) {
      forall c: Caller, from | limit >= 1 ensures AcceptedInMinute(requests, answers, c, from) <= 2 * limit - 1 {
        MinuteIsBounded(requests, start, limit, c, from);
      }
      forall i | 0 <= i < |requests| && Modest(requests, requests[i].caller, limit) ensures answers[i] {
        ModestIsAccepted(requests, start, limit, i);
      }
    }
  }
}

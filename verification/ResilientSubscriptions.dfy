/**
 The self-retrying subscription (src/lib/control-plane-client.ts:259-263, 450-539).

 Every call out of the code (the client's `subscribe`, a returned disposer, `terminate`, a sink
 method, a recovery listener) may call back in before it returns. A `Call` is one call into the
 subscription together with everything that its own outward calls do meanwhile, so a value of
 type `seq<Call>` is any finite synchronous interleaving. Timers fire only between calls.
 */
module ResilientSubscriptions {
  import opened Options

  const SUBSCRIPTION_RETRY_BASE_MS: nat := 1_000
  const SUBSCRIPTION_RETRY_MAX_MS: nat := 30_000
  const AUTHENTICATION_TERMINATION_COOLDOWN_MS: nat := 250

  /** What the two classifiers say about an error. */
  datatype SubscriptionError = SubscriptionError(permanent: bool, authentication: bool)

  type Attempt = nat

  datatype Call =
    | Next(attempt: Attempt, value: int, inSink: seq<Call>)
    | Error(attempt: Attempt, error: SubscriptionError, now: int,
            inRelease: seq<Call>, inTerminate: seq<Call>, inSink: seq<Call>)
    | Complete(attempt: Attempt, inSink: seq<Call>)
    | Dispose(inRelease: seq<Call>)

  /** What the outside does during one `subscribe`. */
  datatype Subscribing = Subscribing(inSubscribe: seq<Call>, inRelease: seq<Call>, inListeners: seq<Call>)

  datatype Event = Happens(call: Call) | TimerFires(subscribing: Subscribing)

  /** What the outside sees, in order. */
  datatype Seen =
    | Opened(attempt: Attempt)
    | Released(attempt: Attempt)
    | SinkNext(attempt: Attempt, value: int)
    | SinkError(attempt: Attempt, error: SubscriptionError)
    | SinkComplete(attempt: Attempt)
    | RetryScheduled(delay: nat)
    | RecoveryAnnounced
    | DisposeCalled

  function Power2(n: nat): nat {
    if n == 0 then 1 else 2 * Power2(n - 1)
  }

  function Min(a: nat, b: nat): nat {
    if a <= b then a else b
  }

  function Delay(retries: nat): nat {
    Min(SUBSCRIPTION_RETRY_MAX_MS, SUBSCRIPTION_RETRY_BASE_MS * Power2(Min(retries, 5)))
  }

  /** One second, doubled for every failure before, and never more than half a minute. */
  lemma DelayDoubles(retries: nat)
    ensures Delay(0) == 1_000
    ensures Delay(retries + 1) == if 2 * Delay(retries) < 30_000 then 2 * Delay(retries) else 30_000
    ensures Delay(retries) ==
      if retries == 0 then 1_000 else if retries == 1 then 2_000 else if retries == 2 then 4_000
      else if retries == 3 then 8_000 else if retries == 4 then 16_000 else 30_000
  {
    assert Power2(1) == 2 && Power2(2) == 4 && Power2(3) == 8 && Power2(4) == 16 && Power2(5) == 32;
  }

  /** A running account of what has been seen. */
  datatype Facts = Facts(
    open: set<Attempt>,   // opened upstreams, not released
    last: Attempt,        // the latest opened, 0 before the first
    disposeCalled: bool,
    ended: bool,          // the sink got its error or complete
    failures: nat,        // retries scheduled since the last value
    waiting: bool,        // a retry has been scheduled since the latest was opened
    late: bool,           // an error reached the sink after `dispose` had been called
    outlived: bool        // a retry was scheduled after `dispose` had been called
  )

  function After(f: Facts, e: Seen): Facts {
    match e
    case Opened(a) => f.(open := f.open + {a}, last := a, waiting := false)
    case Released(a) => f.(open := f.open - {a})
    case SinkNext(_, _) => f.(failures := 0)
    case SinkError(_, _) => f.(ended := true, late := f.late || f.disposeCalled)
    case SinkComplete(_) => f.(ended := true)
    case RetryScheduled(_) => f.(failures := f.failures + 1, waiting := true, outlived := f.outlived || f.disposeCalled)
    case RecoveryAnnounced => f
    case DisposeCalled => f.(disposeCalled := true)
  }

  /** What may be seen next. */
  predicate Allowed(f: Facts, e: Seen) {
    match e
    case Opened(a) => !f.ended && !f.disposeCalled && f.open == {} && a > f.last && (f.last == 0 || f.waiting)
    case Released(a) => true
    case SinkNext(a, _) => !f.ended && !f.disposeCalled && a == f.last && a in f.open && !f.waiting
    case SinkComplete(a) => !f.ended && !f.disposeCalled && a == f.last && a in f.open && !f.waiting
    case SinkError(a, error) => !f.ended && a == f.last && !f.waiting && error.permanent && !error.authentication
    case RetryScheduled(delay) => !f.ended && f.last > 0 && !f.waiting && delay == Delay(f.failures)
    case RecoveryAnnounced => !f.ended && !f.disposeCalled && f.last in f.open && !f.waiting
    case DisposeCalled => true
  }

  /** The account of the first `k` things seen. */
  function FactsAt(seen: seq<Seen>, k: nat): Facts
    requires k <= |seen|
  {
    if k == 0 then Facts({}, 0, false, false, 0, false, false, false) else After(FactsAt(seen, k - 1), seen[k - 1])
  }

  function FactsOf(seen: seq<Seen>): Facts {
    FactsAt(seen, |seen|)
  }

  /** Every step was allowed by what came before it. */
  ghost predicate AllAllowed(seen: seq<Seen>) {
    forall k {:trigger AllowedAt(seen, k)} :: 0 <= k < |seen| ==> AllowedAt(seen, k)
  }

  ghost predicate AllowedAt(seen: seq<Seen>, k: nat)
    requires k < |seen|
  {
    Allowed(FactsAt(seen, k), seen[k])
  }

  lemma {:induction false} SnocAt(seen: seq<Seen>, e: Seen, k: nat)
    requires k <= |seen|
    ensures FactsAt(seen + [e], k) == FactsAt(seen, k)
  {
    if k == 0 {
    } else {
      SnocAt(seen, e, k - 1);
    }
  }

  lemma Snoc(seen: seq<Seen>, e: Seen)
    ensures FactsOf(seen + [e]) == After(FactsOf(seen), e)
    ensures AllAllowed(seen) && Allowed(FactsOf(seen), e) ==> AllAllowed(seen + [e])
  {
    SnocAt(seen, e, |seen|);
    if AllAllowed(seen) && Allowed(FactsOf(seen), e) {
      forall k | 0 <= k < |seen + [e]| ensures AllowedAt(seen + [e], k) {
        if k < |seen| {
          SnocAt(seen, e, k);
          assert AllowedAt(seen, k);
        }
      }
    }
  }

  predicate HasDispose(calls: seq<Call>) {
    exists i :: 0 <= i < |calls| && calls[i].Dispose?
  }

  /** Releasing an upstream never calls `dispose` back and, if `strict`, a forced reconnect does not either. */
  predicate Polite(calls: seq<Call>, strict: bool)
    decreases calls
  {
    calls == [] || (PoliteCall(calls[0], strict) && Polite(calls[1..], strict))
  }

  predicate PoliteCall(call: Call, strict: bool)
    decreases call
  {
    match call
    case Next(_, _, inSink) => Polite(inSink, strict)
    case Error(_, _, _, inRelease, inTerminate, inSink) =>
      && !HasDispose(inRelease) && (strict ==> !HasDispose(inTerminate))
      && Polite(inRelease, strict) && Polite(inTerminate, strict) && Polite(inSink, strict)
    case Complete(_, inSink) => Polite(inSink, strict)
    case Dispose(inRelease) => Polite(inRelease, strict)
  }

  /** A callback that runs somewhere inside these. */
  ghost predicate Inside(inner: Call, calls: seq<Call>)
    decreases calls
  {
    calls != [] && (inner == calls[0] || InsideCall(inner, calls[0]) || Inside(inner, calls[1..]))
  }

  ghost predicate InsideCall(inner: Call, call: Call)
    decreases call
  {
    match call
    case Next(_, _, inSink) => Inside(inner, inSink)
    case Error(_, _, _, inRelease, inTerminate, inSink) =>
      Inside(inner, inRelease) || Inside(inner, inTerminate) || Inside(inner, inSink)
    case Complete(_, inSink) => Inside(inner, inSink)
    case Dispose(inRelease) => Inside(inner, inRelease)
  }

  /** No `dispose` runs while an error releases its upstream or, if `strict`, forces a reconnect. */
  ghost predicate NoDisposeWithin(e: Call, strict: bool) {
    e.Error? ==>
      && (forall i :: 0 <= i < |e.inRelease| ==> !e.inRelease[i].Dispose?)
      && (strict ==> forall i :: 0 <= i < |e.inTerminate| ==> !e.inTerminate[i].Dispose?)
  }

  /** Politeness, said of every callback at whatever depth. */
  lemma {:induction false} PoliteExactly(calls: seq<Call>, strict: bool)
    ensures Polite(calls, strict) <==> forall e :: Inside(e, calls) ==> NoDisposeWithin(e, strict)
    decreases calls
  {
    if calls == [] {
    } else {
      PoliteCallExactly(calls[0], strict);
      PoliteExactly(calls[1..], strict);
      assert Inside(calls[0], calls);
    }
  }

  lemma {:induction false} PoliteCallExactly(call: Call, strict: bool)
    ensures PoliteCall(call, strict) <==>
      NoDisposeWithin(call, strict) && forall e :: InsideCall(e, call) ==> NoDisposeWithin(e, strict)
    decreases call
  {
    match call
    case Next(_, _, inSink) => PoliteExactly(inSink, strict);
    case Error(_, _, _, inRelease, inTerminate, inSink) =>
      PoliteExactly(inRelease, strict);
      PoliteExactly(inTerminate, strict);
      PoliteExactly(inSink, strict);
    case Complete(_, inSink) => PoliteExactly(inSink, strict);
    case Dispose(inRelease) => PoliteExactly(inRelease, strict);
  }

  /** The guard on forced reconnects, shared by every subscription of the client. */
  class AuthenticationRecovery {
    var lastAuthenticationTerminationAt: Option<int>   // None is minus infinity
    ghost var terminations: seq<int>

    ghost predicate Valid()
      reads this
    {
      && Spaced(terminations)
      && lastAuthenticationTerminationAt == if terminations == [] then None else Some(terminations[|terminations| - 1])
    }

    constructor ()
      ensures Valid() && terminations == []
    {
      lastAuthenticationTerminationAt := None;
      terminations := [];
    }

    method Terminate(now: int) returns (terminated: bool)
      requires Valid()
      modifies this
      ensures Valid() && terminated == CooledDown(old(terminations), now)
      ensures terminated <==> old(terminations) == [] || now - old(terminations)[|old(terminations)| - 1] >= 250
      ensures terminations == if terminated then old(terminations) + [now] else old(terminations)
    {
      if lastAuthenticationTerminationAt.Some?
         && now - lastAuthenticationTerminationAt.value < AUTHENTICATION_TERMINATION_COOLDOWN_MS {
        return false;
      }
      terminated := true;
      lastAuthenticationTerminationAt := Some(now);
      terminations := terminations + [now];
    }
  }

  /** The last forced termination, if any, was 250 ms ago or earlier. */
  ghost predicate CooledDown(times: seq<int>, now: int) {
    times == [] || now - times[|times| - 1] >= AUTHENTICATION_TERMINATION_COOLDOWN_MS
  }

  ghost predicate Spaced(times: seq<int>) {
    forall i :: 0 <= i < |times| - 1 ==> times[i + 1] - times[i] >= AUTHENTICATION_TERMINATION_COOLDOWN_MS
  }

  lemma {:induction false} SpacedFar(times: seq<int>, i: nat, j: nat)
    requires Spaced(times) && i <= j < |times|
    ensures times[j] - times[i] >= AUTHENTICATION_TERMINATION_COOLDOWN_MS * (j - i)
    decreases j - i
  {
    if i == j {
    } else {
      SpacedFar(times, i + 1, j);
    }
  }

  /** Any span of `span` milliseconds holds at most `span / 250 + 1` forced terminations. */
  lemma TerminationsPerSpan(times: seq<int>, i: nat, j: nat, span: nat)
    requires Spaced(times) && i <= j < |times| && times[j] - times[i] <= span
    ensures j - i + 1 <= span / AUTHENTICATION_TERMINATION_COOLDOWN_MS + 1
  {
    SpacedFar(times, i, j);
  }

  class ResilientSubscription {
    const recovery: AuthenticationRecovery
    var disposed: bool
    var retries: nat
    var retryTimer: Option<nat>
    var disposeCurrent: Option<Attempt>
    var generation: nat

    var timerPending: bool          // the platform still holds the timer in `retryTimer`
    var seen: seq<Seen>
    ghost var inSubscribe: Option<Attempt>   // `client.subscribe` has not returned yet
    ghost var facts: Facts                   // FactsOf(seen)

    /** Callbacks of the current attempt still count. */
    ghost predicate Live()
      reads this
    {
      !disposed && generation == facts.last && generation > 0
    }

    /** Holds at every point where the outside may call in. */
    ghost predicate Recorded()
      reads this`seen, this`facts
    {
      facts == FactsOf(seen) && AllAllowed(seen)
    }

    ghost predicate Valid()
      reads this, recovery
    {
      // After `dispose`, only an upstream whose `subscribe` has not returned yet is still open.
      Sound() && (facts.disposeCalled && inSubscribe.None? ==> facts.open == {})
    }

    ghost predicate Sound()
      reads this, recovery
    {
      && recovery.Valid() && Recorded()
      && (facts.disposeCalled || facts.ended ==> disposed)
      && facts.last <= generation
      && facts.failures == retries
      && (Live() ==> generation in facts.open)
      // At most one upstream is open, and somebody holds its disposer.
      && (disposeCurrent.Some? ==> inSubscribe.None?)
      && (forall a :: a in facts.open ==> disposeCurrent == Some(a) || inSubscribe == Some(a))
      // Never a live attempt and a pending retry timer together.
      && (Live() ==> !facts.waiting)
      && (timerPending ==> facts.waiting && disposeCurrent.None? && retryTimer.Some?)
      && (inSubscribe.Some? ==> inSubscribe.value == facts.last)
      && (disposeCurrent.Some? ==> disposeCurrent.value == facts.last)
    }

    /** What any call in keeps, however deep the callbacks nest. */
    twostate predicate Later()
      reads this, recovery
    {
      && old(generation) <= generation && (old(disposed) ==> disposed) && old(seen) <= seen
      && facts.open <= old(facts.open) && facts.last == old(facts.last) && inSubscribe == old(inSubscribe)
      && (disposeCurrent == old(disposeCurrent) || disposeCurrent.None?)
      && (old(facts.ended) ==> facts.ended) && (old(facts.disposeCalled) ==> facts.disposeCalled)
      && (!old(Live()) ==> Inert())
    }

    /** Without a live attempt, a call in can release, clear the timer and count as a dispose. */
    twostate predicate Inert()
      reads this, recovery
    {
      && recovery.terminations == old(recovery.terminations)
      && !Live() && disposeCurrent == old(disposeCurrent) && retries == old(retries)
      && (timerPending ==> old(timerPending)) && retryTimer == old(retryTimer)
      && facts.ended == old(facts.ended) && facts.waiting == old(facts.waiting)
      && facts.late == old(facts.late) && facts.outlived == old(facts.outlived)
    }

    constructor (recovery: AuthenticationRecovery)
      requires recovery.Valid()
      ensures Valid() && this.recovery == recovery
      ensures facts == FactsOf([]) && seen == [] && !disposed && generation == 0
      ensures !timerPending && disposeCurrent.None? && inSubscribe.None?
    {
      this.recovery := recovery;
      disposed, retries, retryTimer, disposeCurrent, generation := false, 0, None, None, 0;
      timerPending, seen, inSubscribe, facts := false, [], None, FactsOf([]);
    }

    method Log(e: Seen)
      requires Recorded() && Allowed(facts, e)
      modifies this`seen, this`facts
      ensures Recorded()
      ensures facts == After(old(facts), e) && seen == old(seen) + [e]
    {
      Snoc(seen, e);
      seen, facts := seen + [e], After(facts, e);
    }

    /** A run of synchronous calls into the subscription. */
    method PerformAll(calls: seq<Call>)
      requires Valid()
      modifies this, recovery
      ensures Valid() && Later()
      ensures !old(Live()) ==> (facts.disposeCalled <==> old(facts.disposeCalled) || HasDispose(calls))
      ensures Polite(calls, false) && !old(facts.late) ==> !facts.late
      ensures Polite(calls, true) && !old(facts.outlived) ==> !facts.outlived
      ensures calls == [] ==> unchanged(this) && unchanged(recovery)
      decreases calls, 0
    {
      if calls != [] {
        Perform(calls[0]);
        label first:
        PerformAll(calls[1..]);
        assert HasDispose(calls) <==> calls[0].Dispose? || HasDispose(calls[1..]) by {
          assert calls == [calls[0]] + calls[1..];
        }
      }
    }

    method Perform(call: Call)
      requires Valid()
      modifies this, recovery
      ensures Valid() && Later()
      ensures !old(Live()) ==> (facts.disposeCalled <==> old(facts.disposeCalled) || call.Dispose?)
      ensures PoliteCall(call, false) && !old(facts.late) ==> !facts.late
      ensures PoliteCall(call, true) && !old(facts.outlived) ==> !facts.outlived
      decreases call, 3
    {
      match call
      case Next(attempt, _, _) => if Opened(attempt) in seen { OnNext(call); }
      case Error(attempt, _, _, _, _, _) => if Opened(attempt) in seen { OnError(call); }
      case Complete(attempt, _) => if Opened(attempt) in seen { OnComplete(call); }
      case Dispose(_) => OnDispose(call);
    }

    /** The `next` callback of one attempt. */
    method OnNext(call: Call)
      requires Valid() && call.Next? && Opened(call.attempt) in seen
      modifies this, recovery
      ensures Valid() && Later()
      ensures !old(Live()) || old(generation) != call.attempt ==> seen == old(seen)
      ensures old(Live()) && old(generation) == call.attempt ==>
        old(seen) + [SinkNext(call.attempt, call.value)] <= seen
      ensures PoliteCall(call, false) && !old(facts.late) ==> !facts.late
      ensures PoliteCall(call, true) && !old(facts.outlived) ==> !facts.outlived
      decreases call, 0
    {
      OpenedUpToLast(seen, call.attempt);
      if disposed || generation != call.attempt { return; }
      retries := 0;
      Log(SinkNext(call.attempt, call.value));
      PerformAll(call.inSink);
    }

    /** The `complete` callback of one attempt. */
    method OnComplete(call: Call)
      requires Valid() && call.Complete? && Opened(call.attempt) in seen
      modifies this, recovery
      ensures Valid() && Later()
      ensures !old(Live()) || old(generation) != call.attempt ==> seen == old(seen)
      ensures old(Live()) && old(generation) == call.attempt ==>
        disposed && old(seen) + [SinkComplete(call.attempt)] <= seen
      ensures PoliteCall(call, false) && !old(facts.late) ==> !facts.late
      ensures PoliteCall(call, true) && !old(facts.outlived) ==> !facts.outlived
      decreases call, 0
    {
      OpenedUpToLast(seen, call.attempt);
      if disposed || generation != call.attempt { return; }
      generation := generation + 1;
      disposed := true;
      Log(SinkComplete(call.attempt));
      PerformAll(call.inSink);
    }

    /** `disposeCurrent?.()` */
    method ReleaseCurrent(calls: seq<Call>)
      requires Sound() && !Live()
      modifies this, recovery
      ensures Valid() && Later()
      ensures disposeCurrent.Some? ==> disposeCurrent.value !in facts.open
      ensures facts.disposeCalled <==> old(facts.disposeCalled) || (disposeCurrent.Some? && HasDispose(calls))
      decreases calls, 1
    {
      if disposeCurrent.Some? {
        Log(Released(disposeCurrent.value));
        PerformAll(calls);
      }
    }

    predicate GivesUp(error: SubscriptionError)
      ensures GivesUp(error) <==> error.permanent && !error.authentication
    {
      error.permanent && !error.authentication
    }

    /** The error has reached the sink since `from`. */
    ghost predicate ToldError(from: nat, attempt: Attempt, error: SubscriptionError)
      reads this`seen
    {
      exists k :: from <= k < |seen| && seen[k] == SinkError(attempt, error)
    }

    /** An authentication error forces a reconnect, unless one was forced less than 250 ms ago. */
    twostate predicate Reconnects(call: Call)
      requires call.Error?
      reads recovery
    {
      recovery.terminations ==
        if call.error.authentication && CooledDown(old(recovery.terminations), call.now)
        then old(recovery.terminations) + [call.now] else old(recovery.terminations)
    }

    /** Handling a transient error calls `dispose` back: from the release, or from a reconnect that is due. */
    ghost predicate DisposesMeanwhile(call: Call)
      requires call.Error?
      reads this, recovery
    {
      || (disposeCurrent.Some? && HasDispose(call.inRelease))
      || (call.error.authentication && CooledDown(recovery.terminations, call.now) && HasDispose(call.inTerminate))
    }

    /** The `error` callback of one attempt: supersede it, then give up or retry later. */
    method OnError(call: Call)
      requires Valid() && call.Error? && Opened(call.attempt) in seen
      modifies this, recovery
      ensures Valid() && Later()
      ensures !old(Live()) || old(generation) != call.attempt ==> seen == old(seen)
      ensures old(Live()) && old(generation) == call.attempt ==>
        && (old(disposeCurrent).Some? ==> old(disposeCurrent).value !in facts.open)
        && if call.error.permanent && !call.error.authentication
           then disposed && ToldError(|old(seen)|, call.attempt, call.error)
           else timerPending && retryTimer == Some(Delay(old(retries))) && Reconnects(call)
      // Doubling from one second to half a minute.
      ensures old(Live()) && old(generation) == call.attempt && (!call.error.permanent || call.error.authentication) ==>
        var r := old(retries);
        retryTimer == Some(if r == 0 then 1_000 else if r == 1 then 2_000 else if r == 2 then 4_000
                           else if r == 3 then 8_000 else if r == 4 then 16_000 else 30_000)
      // A reconnect is forced for an authentication error alone, 250 ms after the last one or later.
      ensures old(Live()) && old(generation) == call.attempt && (!call.error.permanent || call.error.authentication) ==>
        var was := old(recovery.terminations);
        recovery.terminations ==
          if call.error.authentication && (was == [] || call.now - was[|was| - 1] >= 250) then was + [call.now] else was
      // A timer outlives `dispose` exactly if the release or the reconnect called it.
      ensures facts.outlived <==>
        old(facts.outlived) || (old(Live()) && old(generation) == call.attempt && !GivesUp(call.error)
                                && old(DisposesMeanwhile(call)))
      // The sink can be told after `dispose` in exactly one way: the release itself called it.
      ensures facts.late <==>
        old(facts.late) || (old(Live()) && old(generation) == call.attempt && GivesUp(call.error)
                            && old(disposeCurrent).Some? && HasDispose(call.inRelease))
      decreases call, 2
    {
      OpenedUpToLast(seen, call.attempt);
      if disposed || generation != call.attempt { return; }
      generation := generation + 1;
      DelayDoubles(retries);
      if GivesUp(call.error) {
        GiveUp(call);
      } else {
        RetryLater(call);
      }
    }

    /** A permanent error: release, then tell the sink. */
    method GiveUp(call: Call)
      requires Valid() && call.Error? && GivesUp(call.error)
      requires !disposed && !Live() && !facts.waiting && call.attempt == facts.last > 0
      modifies this, recovery
      ensures Valid() && disposed && facts.ended && old(seen) <= seen
      ensures ToldError(|old(seen)|, call.attempt, call.error)
      ensures old(disposeCurrent).Some? ==> old(disposeCurrent).value !in facts.open
      ensures facts.open <= old(facts.open) && facts.last == old(facts.last) && inSubscribe == old(inSubscribe)
      ensures generation >= old(generation) && disposeCurrent.None?
      ensures facts.late <==> old(facts.late) || (old(disposeCurrent).Some? && HasDispose(call.inRelease))
      ensures facts.outlived == old(facts.outlived)
      decreases call, 1
    {
      disposed := true;
      ReleaseCurrent(call.inRelease);
      disposeCurrent := None;
      ghost var told := |seen|;
      Log(SinkError(call.attempt, call.error));
      PerformAll(call.inSink);
      assert seen[told] == SinkError(call.attempt, call.error);
    }

    /** Any other error: release, perhaps force a reconnect, and set the retry timer. */
    method RetryLater(call: Call)
      requires Valid() && call.Error? && !GivesUp(call.error)
      requires !disposed && !Live() && !facts.waiting && call.attempt == facts.last > 0
      modifies this, recovery
      ensures Valid() && timerPending && retryTimer == Some(Delay(old(retries)))
      ensures old(seen) <= seen && Reconnects(call)
      ensures old(disposeCurrent).Some? ==> old(disposeCurrent).value !in facts.open
      ensures facts.open <= old(facts.open) && facts.last == old(facts.last) && inSubscribe == old(inSubscribe)
      ensures generation >= old(generation) && disposeCurrent.None?
      ensures facts.late == old(facts.late) && facts.ended == old(facts.ended)
      ensures facts.disposeCalled <==> old(facts.disposeCalled) || old(DisposesMeanwhile(call))
      ensures facts.outlived <==> old(facts.outlived) || old(facts.disposeCalled) || old(DisposesMeanwhile(call))
      decreases call, 1
    {
      ReleaseCurrent(call.inRelease);
      ghost var released := seen;
      disposeCurrent := None;
      Reconnect(call);
      assert old(seen) <= released <= seen;
      ScheduleRetry();
    }

    /** `terminateForAuthenticationRecovery`, for an authentication error. */
    method Reconnect(call: Call)
      requires Valid() && call.Error? && !Live() && disposeCurrent.None?
      modifies this, recovery
      ensures Valid() && !Live() && disposeCurrent.None? && Reconnects(call)
      ensures old(generation) <= generation && old(seen) <= seen && retries == old(retries)
      ensures facts.open <= old(facts.open) && facts.last == old(facts.last) && inSubscribe == old(inSubscribe)
      ensures facts.ended == old(facts.ended) && facts.waiting == old(facts.waiting)
      ensures facts.late == old(facts.late) && facts.outlived == old(facts.outlived)
      ensures facts.disposeCalled <==> old(facts.disposeCalled) || old(DisposesMeanwhile(call))
      decreases call, 0
    {
      if call.error.authentication {
        var terminated := recovery.Terminate(call.now);
        if terminated { PerformAll(call.inTerminate); }
      }
    }

    method ScheduleRetry()
      requires Valid() && !Live() && disposeCurrent.None? && !facts.ended && !facts.waiting && facts.last > 0
      modifies this`retries, this`retryTimer, this`timerPending, this`seen, this`facts
      ensures Valid() && timerPending && retryTimer == Some(Delay(old(retries))) && old(seen) <= seen
      ensures facts == After(old(facts), RetryScheduled(Delay(old(retries))))
    {
      var delay := Delay(retries);
      retries := retries + 1;
      retryTimer, timerPending := Some(delay), true;
      Log(RetryScheduled(delay));
    }

    /** The function that `resilientSubscribe` returns. */
    method OnDispose(call: Call)
      requires Valid() && call.Dispose?
      modifies this, recovery
      ensures Valid() && Later() && disposed && !timerPending
      ensures facts.disposeCalled && old(seen) + [DisposeCalled] <= seen
      ensures disposeCurrent.Some? ==> disposeCurrent.value !in facts.open
      ensures PoliteCall(call, false) && !old(facts.late) ==> !facts.late
      ensures PoliteCall(call, true) && !old(facts.outlived) ==> !facts.outlived
      decreases call, 0
    {
      MarkDisposed();
      ReleaseCurrent(call.inRelease);
    }

    /** Disposed from now on, with no attempt live and no timer pending. */
    method MarkDisposed()
      requires Valid()
      modifies this`disposed, this`generation, this`timerPending, this`seen, this`facts
      ensures Sound() && !Live() && disposed && !timerPending && generation == old(generation) + 1
      ensures seen == old(seen) + [DisposeCalled] && facts == After(old(facts), DisposeCalled)
    {
      Log(DisposeCalled);
      disposed := true;
      generation := generation + 1;
      if retryTimer.Some? { timerPending := false; }
    }

    /** The inner `subscribe`: one attempt. It runs once at the start and then only from the timer. */
    method Subscribe(recovering: bool, script: Subscribing)
      requires Valid() && !timerPending && disposeCurrent.None? && inSubscribe.None?
      requires facts.last == 0 || facts.waiting
      modifies this, recovery
      ensures Valid() && inSubscribe.None?
      ensures old(disposed) ==> seen == old(seen)
      ensures !old(disposed) ==> old(seen) + [Opened(old(generation) + 1)] <= seen
      // What is open has its disposer; an attempt ended during `subscribe` leaves nothing open.
      ensures facts.open <= if disposeCurrent.Some? then {disposeCurrent.value} else {}
      ensures PoliteAll(script, false) && !old(facts.late) ==> !facts.late
      ensures PoliteAll(script, true) && !old(facts.outlived) ==> !facts.outlived
      ensures !old(disposed) && script.inSubscribe == [] && recovering ==>
        old(seen) + [Opened(old(generation) + 1), RecoveryAnnounced] <= seen
      ensures !old(disposed) && script.inSubscribe == [] && !recovering ==>
        && Live() && generation == old(generation) + 1 && disposeCurrent == Some(generation)
        && seen == old(seen) + [Opened(generation)]
        && facts.late == old(facts.late) && facts.outlived == old(facts.outlived)
    {
      if disposed { return; }
      var attempt := Begin();
      PerformAll(script.inSubscribe);
      if disposed || generation != attempt {
        Abandon(attempt, script.inRelease);
      } else {
        Adopt(attempt, recovering, script.inListeners);
      }
    }

    /** The attempt is live and its disposer known; a retry announces the recovery. */
    method Adopt(attempt: Attempt, recovering: bool, inListeners: seq<Call>)
      requires Valid() && inSubscribe == Some(attempt) && Live() && generation == attempt
      modifies this, recovery
      ensures Valid() && inSubscribe.None? && old(seen) <= seen
      ensures Polite(inListeners, false) && !old(facts.late) ==> !facts.late
      ensures Polite(inListeners, true) && !old(facts.outlived) ==> !facts.outlived
      ensures recovering ==> old(seen) + [RecoveryAnnounced] <= seen
      ensures !recovering ==>
        Live() && generation == attempt && disposeCurrent == Some(attempt) && seen == old(seen) && facts == old(facts)
    {
      disposeCurrent, inSubscribe := Some(attempt), None;
      if recovering {
        Log(RecoveryAnnounced);
        PerformAll(inListeners);
      }
    }

    /** The next attempt's upstream is opened. */
    method Begin() returns (attempt: Attempt)
      requires Valid() && !disposed && !timerPending && disposeCurrent.None? && inSubscribe.None?
      requires facts.last == 0 || facts.waiting
      modifies this`generation, this`seen, this`facts, this`inSubscribe
      ensures Valid() && inSubscribe == Some(attempt) && facts.last == attempt && generation == attempt && Live()
      ensures facts.late == old(facts.late) && facts.outlived == old(facts.outlived)
      ensures attempt == old(generation) + 1 && seen == old(seen) + [Opened(attempt)]
    {
      assert facts.open == {};
      generation := generation + 1;
      Log(Opened(generation));
      attempt, inSubscribe := generation, Some(generation);
    }

    /** A callback during `client.subscribe` ended this attempt before its disposer was known. */
    method Abandon(attempt: Attempt, calls: seq<Call>)
      requires Valid() && inSubscribe == Some(attempt) && !Live()
      modifies this, recovery
      ensures Valid() && inSubscribe.None?
      ensures Polite(calls, false) && !old(facts.late) ==> !facts.late
      ensures Polite(calls, true) && !old(facts.outlived) ==> !facts.outlived
      ensures attempt !in facts.open && old(seen) + [Released(attempt)] <= seen
    {
      Log(Released(attempt));
      inSubscribe := None;
      PerformAll(calls);
    }

    /** The retry timer fires. */
    method OnTimer(script: Subscribing)
      requires Valid() && timerPending && inSubscribe.None?
      modifies this, recovery
      ensures Valid() && inSubscribe.None?
      ensures if old(disposed) then seen == old(seen) else old(seen) + [Opened(old(generation) + 1)] <= seen
      // A retry whose `subscribe` returns undisturbed announces the recovery.
      ensures !old(disposed) && script.inSubscribe == [] ==>
        old(seen) + [Opened(old(generation) + 1), RecoveryAnnounced] <= seen
      ensures PoliteAll(script, false) && !old(facts.late) ==> !facts.late
      ensures PoliteAll(script, true) && !old(facts.outlived) ==> !facts.outlived
    {
      retryTimer, timerPending := None, false;
      Subscribe(true, script);
    }
  }

  predicate PoliteAll(script: Subscribing, strict: bool) {
    Polite(script.inSubscribe, strict) && Polite(script.inRelease, strict) && Polite(script.inListeners, strict)
  }

  /** Attempts are opened in increasing order. */
  lemma {:induction false} OpenedBefore(seen: seq<Seen>, i: nat, k: nat)
    requires i < k <= |seen| && seen[i].Opened? && AllAllowed(seen)
    ensures 0 < seen[i].attempt <= FactsAt(seen, k).last
  {
    assert AllowedAt(seen, k - 1);
    if i == k - 1 {
    } else {
      OpenedBefore(seen, i, k - 1);
    }
  }

  lemma OpenedUpToLast(seen: seq<Seen>, a: Attempt)
    requires Opened(a) in seen && AllAllowed(seen)
    ensures 0 < a <= FactsOf(seen).last
  {
    var i :| 0 <= i < |seen| && seen[i] == Opened(a);
    OpenedBefore(seen, i, |seen|);
  }

  // What an allowed trace looks like from outside.

  predicate IsDelivery(e: Seen) {
    e.SinkNext? || IsEnd(e)
  }

  predicate IsEnd(e: Seen) {
    e.SinkError? || e.SinkComplete?
  }

  /** The attempt whose upstream made a delivery. */
  function Source(e: Seen): Attempt
    requires IsDelivery(e)
  {
    e.attempt
  }

  /** The sink sees values and then at most one error or complete, and nothing after that. */
  ghost predicate SinkGrammar(seen: seq<Seen>) {
    forall i, j :: 0 <= i < j < |seen| && IsEnd(seen[i]) ==> !IsDelivery(seen[j])
  }

  /** After `dispose`, nothing reaches the sink but an error whose own release disposed. */
  ghost predicate QuietAfterDispose(seen: seq<Seen>, late: bool) {
    forall i, j :: 0 <= i < j < |seen| && seen[i].DisposeCalled? && IsDelivery(seen[j]) ==> late && seen[j].SinkError?
  }

  /** No retry is scheduled after `dispose`. */
  ghost predicate NoTimerAfterDispose(seen: seq<Seen>) {
    forall i, j :: 0 <= i < j < |seen| && seen[i].DisposeCalled? ==> !seen[j].RetryScheduled?
  }

  /** Every upstream that was ever opened has been released. */
  ghost predicate AllReleased(seen: seq<Seen>) {
    forall i :: 0 <= i < |seen| && seen[i].Opened? ==> ReleasedWithin(seen, i, |seen|, seen[i].attempt)
  }

  /** No upstream is opened after the end or after `dispose`. */
  ghost predicate NoLateOpen(seen: seq<Seen>) {
    forall i, j :: 0 <= i < j < |seen| && (seen[i].DisposeCalled? || IsEnd(seen[i])) ==> !seen[j].Opened?
  }

  /** An upstream is released before the next one is opened. */
  ghost predicate OneUpstream(seen: seq<Seen>) {
    forall i, j :: 0 <= i < j < |seen| && seen[i].Opened? && seen[j].Opened? ==>
      ReleasedWithin(seen, i, j, seen[i].attempt)
  }

  ghost predicate ReleasedWithin(seen: seq<Seen>, i: nat, j: nat, a: Attempt)
    requires i <= j <= |seen|
  {
    exists m :: i <= m < j && seen[m] == Released(a)
  }

  /** Every attempt but the first answers a retry that was scheduled since the one before. */
  ghost predicate OpenedByRetry(seen: seq<Seen>) {
    forall i, j :: 0 <= i < j < |seen| && seen[i].Opened? && seen[j].Opened? ==> RetriedWithin(seen, i, j)
  }

  ghost predicate RetriedWithin(seen: seq<Seen>, i: nat, j: nat)
    requires i <= j <= |seen|
  {
    exists m :: i <= m < j && seen[m].RetryScheduled?
  }

  /** Only the latest attempt is heard. */
  ghost predicate OnlyLatest(seen: seq<Seen>) {
    forall i, j :: 0 <= i < j < |seen| && seen[i].Opened? && IsDelivery(seen[j]) ==> seen[i].attempt <= Source(seen[j])
  }

  /** While a retry is pending nothing is live: no delivery, no second timer, until the next attempt. */
  ghost predicate SilentWhileWaiting(seen: seq<Seen>) {
    forall i, j ::
      0 <= i < j < |seen| && seen[i].RetryScheduled? && (IsDelivery(seen[j]) || seen[j].RetryScheduled?) ==>
      exists m :: i < m < j && seen[m].Opened?
  }

  /**
   The first retry, and the first after a value, waits one second. The next one without a value in
   between waits twice as long as the one before it, but never more than half a minute; so the delays
   between values never shrink.
   */
  ghost predicate Paced(seen: seq<Seen>) {
    && (forall k :: 0 <= k < |seen| && seen[k].RetryScheduled? ==> 1_000 <= seen[k].delay <= 30_000)
    && (forall k :: 0 <= k < |seen| && seen[k].RetryScheduled? && NoRetry(seen, 0, k) ==> seen[k].delay == 1_000)
    && (forall i, k :: 0 <= i < k < |seen| && seen[i].SinkNext? && seen[k].RetryScheduled? && NoRetry(seen, i, k) ==>
          seen[k].delay == 1_000)
    && (forall i, k ::
          (0 <= i < k < |seen| && seen[i].RetryScheduled? && seen[k].RetryScheduled?
           && NoValue(seen, i, k) && NoRetry(seen, i + 1, k)) ==>
          seen[k].delay == if 2 * seen[i].delay < 30_000 then 2 * seen[i].delay else 30_000)
    && (forall i, k ::
          0 <= i < k < |seen| && seen[i].RetryScheduled? && seen[k].RetryScheduled? && NoValue(seen, i, k) ==>
          seen[i].delay <= seen[k].delay)
  }

  ghost predicate NoValue(seen: seq<Seen>, i: nat, k: nat)
    requires i <= k <= |seen|
  {
    forall m :: i <= m < k ==> !seen[m].SinkNext?
  }

  ghost predicate NoRetry(seen: seq<Seen>, i: nat, k: nat)
    requires i <= k <= |seen|
  {
    forall m :: i <= m < k ==> !seen[m].RetryScheduled?
  }

  /** Facts only accumulate. */
  lemma {:induction false} Accumulate(seen: seq<Seen>, i: nat, j: nat)
    requires i <= j <= |seen| && AllAllowed(seen)
    ensures FactsAt(seen, i).last <= FactsAt(seen, j).last
    ensures FactsAt(seen, i).ended ==> FactsAt(seen, j).ended
    ensures FactsAt(seen, i).disposeCalled ==> FactsAt(seen, j).disposeCalled
    ensures FactsAt(seen, i).late ==> FactsAt(seen, j).late
    ensures FactsAt(seen, i).outlived ==> FactsAt(seen, j).outlived
    decreases j - i
  {
    if i == j {
    } else {
      assert AllowedAt(seen, j - 1);
      Accumulate(seen, i, j - 1);
    }
  }

  /** What one step does to the account of failures and of late timers. */
  lemma OneStep(f: Facts, e: Seen)
    ensures !e.SinkNext? ==> f.failures <= After(f, e).failures
    ensures After(f, e).outlived <==> f.outlived || (e.RetryScheduled? && f.disposeCalled)
  {
  }

  lemma {:induction false} FailuresGrow(seen: seq<Seen>, i: nat, j: nat)
    requires i <= j <= |seen| && NoValue(seen, i, j)
    ensures FactsAt(seen, i).failures <= FactsAt(seen, j).failures
    decreases j - i
  {
    if i == j {
    } else {
      OneStep(FactsAt(seen, j - 1), seen[j - 1]);
      FailuresGrow(seen, i, j - 1);
    }
  }

  lemma {:induction false} FailuresStayZero(seen: seq<Seen>, i: nat, j: nat)
    requires i <= j <= |seen| && NoRetry(seen, i, j) && FactsAt(seen, i).failures == 0
    ensures FactsAt(seen, j).failures == 0
    decreases j - i
  {
    if i == j {
    } else {
      FailuresStayZero(seen, i, j - 1);
    }
  }

  lemma {:induction false} StaysOpen(seen: seq<Seen>, i: nat, j: nat, a: Attempt)
    requires i <= j <= |seen| && a in FactsAt(seen, i).open
    ensures a in FactsAt(seen, j).open || ReleasedWithin(seen, i, j, a)
    decreases j - i
  {
    if i == j {
    } else {
      StaysOpen(seen, i, j - 1, a);
    }
  }

  lemma {:induction false} DelayGrows(m: nat, n: nat)
    requires m <= n
    ensures Delay(m) <= Delay(n)
    ensures SUBSCRIPTION_RETRY_BASE_MS <= Delay(m) <= SUBSCRIPTION_RETRY_MAX_MS
  {
    Power2Grows(Min(m, 5), Min(n, 5));
    Power2Grows(0, Min(m, 5));
  }

  lemma {:induction false} Power2Grows(m: nat, n: nat)
    requires m <= n
    ensures Power2(m) <= Power2(n)
  {
    if m == n {
    } else {
      Power2Grows(m, n - 1);
    }
  }

  lemma {:induction false} KeepsWaiting(seen: seq<Seen>, i: nat, j: nat)
    requires i <= j <= |seen| && FactsAt(seen, i).waiting
    requires forall m :: i <= m < j ==> !seen[m].Opened?
    ensures FactsAt(seen, j).waiting
    decreases j - i
  {
    if i == j {
    } else {
      assert FactsAt(seen, j) == After(FactsAt(seen, j - 1), seen[j - 1]);
      KeepsWaiting(seen, i, j - 1);
    }
  }

  /** Only scheduling a retry makes an account waiting. */
  lemma {:induction false} RetryWitness(seen: seq<Seen>, i: nat, j: nat)
    requires i <= j <= |seen| && !FactsAt(seen, i).waiting && FactsAt(seen, j).waiting
    ensures RetriedWithin(seen, i, j)
    decreases j - i
  {
    if i == j {
    } else {
      assert FactsAt(seen, j) == After(FactsAt(seen, j - 1), seen[j - 1]);
      if !seen[j - 1].RetryScheduled? { RetryWitness(seen, i, j - 1); }
    }
  }

  lemma ReopeningIsRetry(seen: seq<Seen>, i: nat, j: nat)
    requires AllAllowed(seen) && i < j < |seen| && seen[i].Opened? && seen[j].Opened?
    ensures RetriedWithin(seen, i, j)
  {
    assert AllowedAt(seen, j);
    OpenedBefore(seen, i, j);
    assert FactsAt(seen, i + 1) == After(FactsAt(seen, i), seen[i]);
    RetryWitness(seen, i + 1, j);
  }

  lemma Before(seen: seq<Seen>, i: nat, j: nat)
    requires AllAllowed(seen) && i < j < |seen|
    ensures Allowed(FactsAt(seen, j), seen[j])
    ensures IsEnd(seen[i]) ==> FactsAt(seen, j).ended
    ensures seen[i].DisposeCalled? ==> FactsAt(seen, j).disposeCalled
    ensures seen[i].Opened? ==> seen[i].attempt <= FactsAt(seen, j).last
  {
    assert AllowedAt(seen, j);
    Accumulate(seen, i + 1, j);
  }

  lemma AllowedTraceIsSafe(seen: seq<Seen>)
    requires AllAllowed(seen)
    ensures SinkGrammar(seen) && NoLateOpen(seen) && OneUpstream(seen) && OnlyLatest(seen) && SilentWhileWaiting(seen)
    ensures OpenedByRetry(seen)
  {
    forall i, j | 0 <= i < j < |seen| && seen[i].RetryScheduled? && (IsDelivery(seen[j]) || seen[j].RetryScheduled?)
      ensures exists m :: i < m < j && seen[m].Opened?
    {
      assert AllowedAt(seen, j);
      if forall m :: i + 1 <= m < j ==> !seen[m].Opened? { KeepsWaiting(seen, i + 1, j); }
    }
    forall i, j | 0 <= i < j < |seen|
      ensures IsEnd(seen[i]) ==> !IsDelivery(seen[j])
      ensures seen[i].DisposeCalled? || IsEnd(seen[i]) ==> !seen[j].Opened?
      ensures seen[i].Opened? && IsDelivery(seen[j]) ==> seen[i].attempt <= Source(seen[j])
    {
      Before(seen, i, j);
    }
    forall i, j | 0 <= i < j < |seen| && seen[i].Opened? && seen[j].Opened?
      ensures ReleasedWithin(seen, i, j, seen[i].attempt) && RetriedWithin(seen, i, j)
    {
      Before(seen, i, j);
      StaysOpen(seen, i + 1, j, seen[i].attempt);
      ReopeningIsRetry(seen, i, j);
    }
  }

  /** Whether an error came after `dispose` is exactly what `late` records. */
  lemma {:induction false} QuietExactly(seen: seq<Seen>)
    requires AllAllowed(seen)
    ensures QuietAfterDispose(seen, true)
    ensures QuietAfterDispose(seen, false) <==> !FactsOf(seen).late
  {
    forall i, j | 0 <= i < j < |seen| && seen[i].DisposeCalled? && IsDelivery(seen[j])
      ensures FactsOf(seen).late && seen[j].SinkError?
    {
      Before(seen, i, j);
      Accumulate(seen, j + 1, |seen|);
    }
    if FactsOf(seen).late {
      var i, j := LateWitness(seen, |seen|);
    }
  }

  /** Whether a retry was scheduled after `dispose` is exactly what `outlived` records. */
  lemma TimersExactly(seen: seq<Seen>)
    requires AllAllowed(seen)
    ensures NoTimerAfterDispose(seen) <==> !FactsOf(seen).outlived
  {
    forall i, j | 0 <= i < j < |seen| && seen[i].DisposeCalled? && seen[j].RetryScheduled?
      ensures FactsOf(seen).outlived
    {
      Before(seen, i, j);
      Accumulate(seen, j + 1, |seen|);
    }
    if FactsOf(seen).outlived {
      var i, j := TimerWitness(seen, |seen|);
    }
  }

  lemma {:induction false} TimerWitness(seen: seq<Seen>, k: nat) returns (i: nat, j: nat)
    requires k <= |seen| && FactsAt(seen, k).outlived
    ensures i < j < k && seen[i].DisposeCalled? && seen[j].RetryScheduled?
  {
    assert FactsAt(seen, k) == After(FactsAt(seen, k - 1), seen[k - 1]);
    OneStep(FactsAt(seen, k - 1), seen[k - 1]);
    if FactsAt(seen, k - 1).outlived {
      i, j := TimerWitness(seen, k - 1);
    } else {
      i := DisposeWitness(seen, k - 1);
      j := k - 1;
    }
  }

  /** With nothing open, everything opened has been released. */
  lemma NothingStaysOpen(seen: seq<Seen>)
    requires FactsOf(seen).open == {}
    ensures AllReleased(seen)
  {
    forall i | 0 <= i < |seen| && seen[i].Opened? ensures ReleasedWithin(seen, i, |seen|, seen[i].attempt) {
      StaysOpen(seen, i + 1, |seen|, seen[i].attempt);
    }
  }

  lemma DisposeIsKnown(seen: seq<Seen>)
    requires AllAllowed(seen) && exists i :: 0 <= i < |seen| && seen[i].DisposeCalled?
    ensures FactsOf(seen).disposeCalled
  {
    var i :| 0 <= i < |seen| && seen[i].DisposeCalled?;
    Accumulate(seen, i + 1, |seen|);
  }

  lemma {:induction false} LateWitness(seen: seq<Seen>, k: nat) returns (i: nat, j: nat)
    requires k <= |seen| && FactsAt(seen, k).late
    ensures i < j < k && seen[i].DisposeCalled? && seen[j].SinkError?
  {
    assert FactsAt(seen, k) == After(FactsAt(seen, k - 1), seen[k - 1]);
    if FactsAt(seen, k - 1).late {
      i, j := LateWitness(seen, k - 1);
    } else {
      i := DisposeWitness(seen, k - 1);
      j := k - 1;
    }
  }

  lemma {:induction false} DisposeWitness(seen: seq<Seen>, k: nat) returns (i: nat)
    requires k <= |seen| && FactsAt(seen, k).disposeCalled
    ensures i < k && seen[i].DisposeCalled?
  {
    if seen[k - 1].DisposeCalled? {
      i := k - 1;
    } else {
      i := DisposeWitness(seen, k - 1);
    }
  }

  /** Neither a value nor a retry: the account of failures stands still. */
  lemma {:induction false} FailuresStay(seen: seq<Seen>, i: nat, j: nat)
    requires i <= j <= |seen| && NoValue(seen, i, j) && NoRetry(seen, i, j)
    ensures FactsAt(seen, j).failures == FactsAt(seen, i).failures
    decreases j - i
  {
    if i == j {
    } else {
      FailuresStay(seen, i, j - 1);
    }
  }

  lemma RetryDoubles(seen: seq<Seen>, i: nat, k: nat)
    requires AllAllowed(seen) && i < k < |seen| && seen[i].RetryScheduled? && seen[k].RetryScheduled?
    requires NoValue(seen, i, k) && NoRetry(seen, i + 1, k)
    ensures seen[k].delay == if 2 * seen[i].delay < 30_000 then 2 * seen[i].delay else 30_000
  {
    assert AllowedAt(seen, i) && AllowedAt(seen, k);
    assert FactsAt(seen, i + 1) == After(FactsAt(seen, i), seen[i]);
    FailuresStay(seen, i + 1, k);
    DelayDoubles(FactsAt(seen, i).failures);
  }

  lemma AllowedTraceIsPaced(seen: seq<Seen>)
    requires AllAllowed(seen)
    ensures Paced(seen)
  {
    forall k | 0 <= k < |seen| && seen[k].RetryScheduled?
      ensures 1_000 <= seen[k].delay <= 30_000
      ensures NoRetry(seen, 0, k) ==> seen[k].delay == 1_000
    {
      assert AllowedAt(seen, k);
      DelayDoubles(FactsAt(seen, k).failures);
      if NoRetry(seen, 0, k) { FailuresStayZero(seen, 0, k); }
    }
    forall i, k | 0 <= i < k < |seen| && seen[i].RetryScheduled? && seen[k].RetryScheduled? && NoValue(seen, i, k)
      ensures seen[i].delay <= seen[k].delay
    {
      assert AllowedAt(seen, i);
      assert AllowedAt(seen, k);
      FailuresGrow(seen, i, k);
      DelayGrows(FactsAt(seen, i).failures, FactsAt(seen, k).failures);
    }
    forall i, k | 0 <= i < k < |seen| && seen[i].RetryScheduled? && seen[k].RetryScheduled? && NoValue(seen, i, k)
                  && NoRetry(seen, i + 1, k)
      ensures seen[k].delay == if 2 * seen[i].delay < 30_000 then 2 * seen[i].delay else 30_000
    {
      RetryDoubles(seen, i, k);
    }
    forall i, k | 0 <= i < k < |seen| && seen[i].SinkNext? && seen[k].RetryScheduled? && NoRetry(seen, i, k)
      ensures seen[k].delay == 1_000
    {
      assert AllowedAt(seen, k);
      FailuresStayZero(seen, i + 1, k);
      DelayDoubles(0);
    }
  }

  predicate PoliteEvent(e: Event, strict: bool) {
    match e
    case Happens(call) => PoliteCall(call, strict)
    case TimerFires(script) => PoliteAll(script, strict)
  }

  predicate AllPolite(first: Subscribing, events: seq<Event>, strict: bool) {
    PoliteAll(first, strict) && forall i :: 0 <= i < |events| ==> PoliteEvent(events[i], strict)
  }

  /** Every run of one subscription, with every synchronous interleaving of its callbacks. */
  method RunEvents(recovery: AuthenticationRecovery, first: Subscribing, events: seq<Event>)
    returns (seen: seq<Seen>, timerPending: bool)
    requires recovery.Valid()
    modifies recovery
    ensures recovery.Valid() && AllAllowed(seen)
    // A timer is pending only after a retry was scheduled, with no upstream open beside it.
    ensures timerPending ==> FactsOf(seen).waiting && FactsOf(seen).open == {}
    ensures OpenedByRetry(seen) && SinkGrammar(seen) && NoLateOpen(seen) && OneUpstream(seen)
    ensures OnlyLatest(seen) && SilentWhileWaiting(seen) && Paced(seen)
    ensures QuietAfterDispose(seen, true)
    ensures AllPolite(first, events, false) ==> QuietAfterDispose(seen, false)
    ensures AllPolite(first, events, true) ==> NoTimerAfterDispose(seen)
    ensures (exists i :: 0 <= i < |seen| && seen[i].DisposeCalled?) ==> AllReleased(seen)
  {
    var s := new ResilientSubscription(recovery);
    s.Subscribe(false, first);
    for n := 0 to |events|
      invariant fresh(s) && s.recovery == recovery && s.Valid() && s.inSubscribe.None?
      invariant AllPolite(first, events, false) ==> !s.facts.late
      invariant AllPolite(first, events, true) ==> !s.facts.outlived
    {
      match events[n]
      case Happens(call) => s.Perform(call);
      case TimerFires(script) => if s.timerPending { s.OnTimer(script); }
    }
    AllowedTraceIsSafe(s.seen);
    AllowedTraceIsPaced(s.seen);
    QuietExactly(s.seen);
    TimersExactly(s.seen);
    if exists i :: 0 <= i < |s.seen| && s.seen[i].DisposeCalled? {
      DisposeIsKnown(s.seen);
      NothingStaysOpen(s.seen);
    }
    return s.seen, s.timerPending;
  }

  /** The one way to hear after `dispose`: a permanent error whose release calls `dispose` back. */
  method DisposedDuringRelease(recovery: AuthenticationRecovery) returns (seen: seq<Seen>)
    requires recovery.Valid()
    modifies recovery
    ensures !QuietAfterDispose(seen, false)
  {
    var s := new ResilientSubscription(recovery);
    s.Subscribe(false, Subscribing([], [], []));
    var error := Error(1, SubscriptionError(true, false), 0, [Dispose([])], [], []);
    assert error.inRelease[0].Dispose?;
    s.OnError(error);
    QuietExactly(s.seen);
    return s.seen;
  }

  /** A transient error whose release calls `dispose` back leaves a timer behind, which will do nothing. */
  method TimerOutlivesDispose(recovery: AuthenticationRecovery) returns (seen: seq<Seen>, pending: bool)
    requires recovery.Valid()
    modifies recovery
    ensures !NoTimerAfterDispose(seen) && pending
  {
    var s := new ResilientSubscription(recovery);
    s.Subscribe(false, Subscribing([], [], []));
    var error := Error(1, SubscriptionError(false, false), 0, [Dispose([])], [], []);
    assert error.inRelease[0].Dispose?;
    s.OnError(error);
    TimersExactly(s.seen);
    return s.seen, s.timerPending;
  }
}

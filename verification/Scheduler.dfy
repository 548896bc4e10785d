/**
 The six-slot request scheduler (src/lib/control-plane-client.ts:14-80).

 A submission is identified by its number. Its closure `run` and its captured signal are the
 job number and `signalOf[job]`; the promise it returns is settled by the methods below.
 */
module Scheduler {
  import opened Options

  const MAX_CONCURRENT_REQUESTS: nat := 6

  type Job = nat

  /** A caller's own signal, or the controller that a shared query owns (named by its job). */
  datatype Signal = Caller(id: nat) | Controller(job: Job)

  ghost predicate Earlier(s: seq<Job>, i: int, j: int) {
    0 <= i < j < |s| ==> s[i] < s[j]
  }

  ghost predicate Increasing(s: seq<Job>) {
    forall i: int, j: int {:trigger Earlier(s, i, j)} :: Earlier(s, i, j)
  }

  ghost function Count(s: seq<Job>, j: Job): nat {
    if s == [] then 0 else (if s[0] == j then 1 else 0) + Count(s[1..], j)
  }

  lemma {:induction false} CountAppend(a: seq<Job>, b: seq<Job>, j: Job)
    ensures Count(a + b, j) == Count(a, j) + Count(b, j)
  {
    if a == [] {
      assert a + b == b;
    } else {
      assert (a + b)[0] == a[0] && (a + b)[1..] == a[1..] + b;
      CountAppend(a[1..], b, j);
    }
  }

  lemma {:induction false} CountMembers(s: seq<Job>, j: Job)
    ensures j in s <==> Count(s, j) > 0
  {
    if s == [] {
    } else {
      CountMembers(s[1..], j);
    }
  }

  predicate Captured(signalOf: map<Job, Option<Signal>>, job: Job, signal: Signal) {
    job in signalOf && signalOf[job] == Some(signal)
  }

  /** The job's own signal has been aborted. */
  predicate Stopped(signalOf: map<Job, Option<Signal>>, raised: set<Signal>, job: Job) {
    job in signalOf && signalOf[job].Some? && signalOf[job].value in raised
  }

  /** The jobs of a queue that did (or did not) capture `signal`, in queue order. */
  function Select(queue: seq<Job>, signalOf: map<Job, Option<Signal>>, signal: Signal, captured: bool): (r: seq<Job>)
    ensures |r| <= |queue|
  {
    if queue == [] then []
    else
      (if Captured(signalOf, queue[0], signal) == captured then [queue[0]] else [])
      + Select(queue[1..], signalOf, signal, captured)
  }

  lemma {:induction false} SelectMembers(queue: seq<Job>, signalOf: map<Job, Option<Signal>>, signal: Signal,
          captured: bool)
    ensures forall j :: j in Select(queue, signalOf, signal, captured) <==>
      j in queue && Captured(signalOf, j, signal) == captured
  {
    if queue == [] {
    } else {
      SelectMembers(queue[1..], signalOf, signal, captured);
    }
  }

  lemma {:induction false} SelectSnoc(a: seq<Job>, job: Job, signalOf: map<Job, Option<Signal>>, signal: Signal,
          captured: bool)
    ensures Select(a + [job], signalOf, signal, captured)
         == Select(a, signalOf, signal, captured) + if Captured(signalOf, job, signal) == captured then [job] else []
  {
    if a == [] {
    } else {
      assert (a + [job])[0] == a[0] && (a + [job])[1..] == a[1..] + [job];
      SelectSnoc(a[1..], job, signalOf, signal, captured);
    }
  }

  /** The walk over the queue has looked at `done` jobs; the next one stands at `i`. */
  ghost predicate Walked(was: seq<Job>, done: nat, queue: seq<Job>, i: nat, gone: seq<Job>,
          signalOf: map<Job, Option<Signal>>, signal: Signal) {
    && done <= |was|
    && queue == Select(was[..done], signalOf, signal, false) + was[done..]
    && i == |Select(was[..done], signalOf, signal, false)|
    && gone == Select(was[..done], signalOf, signal, true)
  }

  lemma WalkStarts(was: seq<Job>, signalOf: map<Job, Option<Signal>>, signal: Signal)
    ensures Walked(was, 0, was, 0, [], signalOf, signal)
  {
    assert was[..0] == [] && was[0..] == was;
  }

  lemma WalkStep(was: seq<Job>, done: nat, queue: seq<Job>, i: nat, gone: seq<Job>, signalOf: map<Job, Option<Signal>>,
          signal: Signal)
    requires Walked(was, done, queue, i, gone, signalOf, signal) && i < |queue|
    ensures Captured(signalOf, queue[i], signal) ==>
      Walked(was, done + 1, queue[..i] + queue[i + 1..], i, gone + [queue[i]], signalOf, signal)
    ensures !Captured(signalOf, queue[i], signal) ==> Walked(was, done + 1, queue, i + 1, gone, signalOf, signal)
  {
    assert was[..done + 1] == was[..done] + [was[done]];
    SelectSnoc(was[..done], was[done], signalOf, signal, false);
    SelectSnoc(was[..done], was[done], signalOf, signal, true);
  }

  lemma WalkEnds(was: seq<Job>, done: nat, queue: seq<Job>, i: nat, gone: seq<Job>, signalOf: map<Job, Option<Signal>>,
          signal: Signal)
    requires Walked(was, done, queue, i, gone, signalOf, signal) && i == |queue|
    ensures queue == Select(was, signalOf, signal, false) && gone == Select(was, signalOf, signal, true)
  {
    assert done == |was| && was[..done] == was && was[done..] == [];
  }

  /** Every submission is queued, dispatched or rejected, and that only once. */
  ghost predicate Accounted(dispatched: seq<Job>, queue: seq<Job>, rejected: seq<Job>, n: nat) {
    forall j: Job {:trigger Count(dispatched, j)} {:trigger Count(queue, j)} {:trigger Count(rejected, j)} ::
      Count(dispatched, j) + Count(queue, j) + Count(rejected, j) == if j < n then 1 else 0
  }

  lemma AccountedDispatch(dispatched: seq<Job>, queue: seq<Job>, rejected: seq<Job>, n: nat)
    requires Accounted(dispatched, queue, rejected, n)
    ensures Accounted(dispatched + [n], queue, rejected, n + 1)
  {
    forall j: Job
      ensures Count(dispatched + [n], j) == Count(dispatched, j) + if j == n then 1 else 0
    {
      CountAppend(dispatched, [n], j);
    }
  }

  lemma AccountedWaiting(dispatched: seq<Job>, queue: seq<Job>, rejected: seq<Job>, n: nat)
    requires Accounted(dispatched, queue, rejected, n)
    ensures Accounted(dispatched, queue + [n], rejected, n + 1)
  {
    forall j: Job
      ensures Count(queue + [n], j) == Count(queue, j) + if j == n then 1 else 0
    {
      CountAppend(queue, [n], j);
    }
  }

  lemma AccountedRefusal(dispatched: seq<Job>, queue: seq<Job>, rejected: seq<Job>, n: nat)
    requires Accounted(dispatched, queue, rejected, n)
    ensures Accounted(dispatched, queue, rejected + [n], n + 1)
  {
    forall j: Job
      ensures Count(rejected + [n], j) == Count(rejected, j) + if j == n then 1 else 0
    {
      CountAppend(rejected, [n], j);
    }
  }

  lemma AccountedRemoval(dispatched: seq<Job>, queue: seq<Job>, rejected: seq<Job>, n: nat, index: nat)
    requires Accounted(dispatched, queue, rejected, n) && index < |queue|
    ensures Accounted(dispatched + [queue[index]], queue[..index] + queue[index + 1..], rejected, n)
    ensures Accounted(dispatched, queue[..index] + queue[index + 1..], rejected + [queue[index]], n)
  {
    var job := queue[index];
    forall j: Job
      ensures Count(dispatched + [job], j) == Count(dispatched, j) + Count([job], j)
      ensures Count(rejected + [job], j) == Count(rejected, j) + Count([job], j)
      ensures Count(queue[..index] + queue[index + 1..], j) + Count([job], j) == Count(queue, j)
    {
      CountAppend(dispatched, [job], j);
      CountAppend(rejected, [job], j);
      CountAppend(queue[..index], queue[index + 1..], j);
      CountAppend(queue[..index], [job], j);
      CountAppend(queue[..index] + [job], queue[index + 1..], j);
      assert queue == queue[..index] + [job] + queue[index + 1..];
    }
  }

  /** Every submission is in exactly one place. */
  lemma ExactlyOnePlace(dispatched: seq<Job>, queue: seq<Job>, rejected: seq<Job>, n: nat, j: Job)
    requires Accounted(dispatched, queue, rejected, n)
    ensures j in dispatched ==> j !in queue && j !in rejected
    ensures j in queue ==> j !in rejected
    ensures j < n <==> j in dispatched || j in queue || j in rejected
  {
    CountMembers(dispatched, j);
    CountMembers(queue, j);
    CountMembers(rejected, j);
  }

  /** A new submission is later than everything in line. */
  lemma JoinsInOrder(dispatched: seq<Job>, queue: seq<Job>, rejected: seq<Job>, n: nat)
    requires Accounted(dispatched, queue, rejected, n)
    requires Increasing(dispatched + queue)
    ensures Increasing(dispatched + queue + [n])
  {
    var line: seq<Job> := dispatched + queue;
    forall i | 0 <= i < |line| ensures line[i] < n {
      ExactlyOnePlace(dispatched, queue, rejected, n, line[i]);
      assert line[i] in dispatched || line[i] in queue;
    }
    forall i: int, j: int ensures Earlier(line + [n], i, j) { assert Earlier(line, i, j); }
  }

  /** The jobs an abort leaves waiting keep their place behind the dispatched ones. */
  lemma {:induction false} SelectIncreasing(prefix: seq<Job>, queue: seq<Job>, signalOf: map<Job, Option<Signal>>,
          signal: Signal, captured: bool)
    requires Increasing(prefix + queue)
    ensures Increasing(prefix + Select(queue, signalOf, signal, captured))
    decreases |queue|
  {
    if queue == [] {
    } else {
      var rest := Select(queue[1..], signalOf, signal, captured);
      if Captured(signalOf, queue[0], signal) == captured {
        assert prefix + queue == (prefix + [queue[0]]) + queue[1..];
        SelectIncreasing(prefix + [queue[0]], queue[1..], signalOf, signal, captured);
        assert prefix + Select(queue, signalOf, signal, captured) == (prefix + [queue[0]]) + rest;
      } else {
        IncreasingSkip(prefix, queue);
        SelectIncreasing(prefix, queue[1..], signalOf, signal, captured);
        assert Select(queue, signalOf, signal, captured) == rest;
      }
    }
  }

  lemma IncreasingSkip(prefix: seq<Job>, queue: seq<Job>)
    requires queue != [] && Increasing(prefix + queue)
    ensures Increasing(prefix + queue[1..])
  {
    var line, short := prefix + queue, prefix + queue[1..];
    forall i: int, j: int ensures Earlier(short, i, j) {
      assert Earlier(line, if i < |prefix| then i else i + 1, if j < |prefix| then j else j + 1);
    }
  }

  /** The scheduler's variables. */
  datatype State = State(
    running: set<Job>, dispatched: seq<Job>, queue: seq<Job>, rejected: seq<Job>,
    signalOf: map<Job, Option<Signal>>, raised: set<Signal>, submitted: nat)

  ghost predicate ValidState(s: State) {
    && |s.running| <= MAX_CONCURRENT_REQUESTS
    && (forall j: Job :: j in s.signalOf <==> j < s.submitted)
    && (forall j: Job :: j in s.running ==> j in s.dispatched)
    && Accounted(s.dispatched, s.queue, s.rejected, s.submitted)
    // Only a job's own signal rejects it.
    && (forall i :: 0 <= i < |s.rejected| ==> Stopped(s.signalOf, s.raised, s.rejected[i]))
  }

  ghost predicate FairState(s: State) {
    // A waiting request means that all six slots are busy.
    && (s.queue != [] ==> |s.running| == MAX_CONCURRENT_REQUESTS)
    && (forall i :: 0 <= i < |s.queue| ==> !Stopped(s.signalOf, s.raised, s.queue[i]))
    // First come, first served: dispatches so far, then the queue, in submission order.
    && Increasing(s.dispatched + s.queue)
  }

  /** A submission: refused under an aborted signal, dispatched into a free slot, or queued. */
  function Submitted(s: State, signal: Option<Signal>): State {
    var job := s.submitted;
    var t := s.(submitted := job + 1, signalOf := s.signalOf[job := signal]);
    if signal.Some? && signal.value in s.raised then t.(rejected := s.rejected + [job])
    else if |s.running| < MAX_CONCURRENT_REQUESTS then
      t.(running := s.running + {job}, dispatched := s.dispatched + [job])
    else t.(queue := s.queue + [job])
  }

  lemma RefusedValid(s: State, signal: Signal)
    requires ValidState(s) && signal in s.raised
    ensures ValidState(Submitted(s, Some(signal)))
  {
    var t := Submitted(s, Some(signal));
    AccountedRefusal(s.dispatched, s.queue, s.rejected, s.submitted);
    forall i | 0 <= i < |t.rejected| ensures Stopped(t.signalOf, t.raised, t.rejected[i]) {
      if i < |s.rejected| { assert Stopped(s.signalOf, s.raised, s.rejected[i]); }
    }
  }

  lemma AcceptedValid(s: State, signal: Option<Signal>)
    requires ValidState(s) && (signal.Some? ==> signal.value !in s.raised)
    ensures ValidState(Submitted(s, signal))
  {
    var t := Submitted(s, signal);
    if |s.running| < MAX_CONCURRENT_REQUESTS {
      AccountedDispatch(s.dispatched, s.queue, s.rejected, s.submitted);
    } else {
      AccountedWaiting(s.dispatched, s.queue, s.rejected, s.submitted);
    }
    forall i | 0 <= i < |t.rejected| ensures Stopped(t.signalOf, t.raised, t.rejected[i]) {
      assert Stopped(s.signalOf, s.raised, s.rejected[i]);
    }
  }

  lemma SubmittedValid(s: State, signal: Option<Signal>)
    requires ValidState(s)
    ensures ValidState(Submitted(s, signal)) && s.submitted !in s.running
  {
    ExactlyOnePlace(s.dispatched, s.queue, s.rejected, s.submitted, s.submitted);
    if signal.Some? && signal.value in s.raised {
      RefusedValid(s, signal.value);
    } else {
      AcceptedValid(s, signal);
    }
  }

  lemma SubmittedFair(s: State, signal: Option<Signal>)
    requires ValidState(s) && FairState(s)
    ensures FairState(Submitted(s, signal))
  {
    var t := Submitted(s, signal);
    ExactlyOnePlace(s.dispatched, s.queue, s.rejected, s.submitted, s.submitted);
    JoinsInOrder(s.dispatched, s.queue, s.rejected, s.submitted);
    var line := s.dispatched + s.queue;
    assert t.dispatched + t.queue == line || t.dispatched + t.queue == line + [s.submitted];
    forall i | 0 <= i < |t.queue| ensures !Stopped(t.signalOf, t.raised, t.queue[i]) {
      if i < |s.queue| { assert s.queue[i] in s.queue; }
    }
  }

  /** A slot is freed and the head of the queue, if any, is run: dispatched, or rejected if it was stopped meanwhile. */
  function Settled(s: State, job: Job): State {
    var t := s.(running := s.running - {job});
    if s.queue == [] then t
    else
      var head := s.queue[0];
      if Stopped(s.signalOf, s.raised, head) then t.(queue := s.queue[1..], rejected := s.rejected + [head])
      else t.(queue := s.queue[1..], running := t.running + {head}, dispatched := s.dispatched + [head])
  }

  lemma HeadRejectedValid(s: State, job: Job)
    requires ValidState(s) && job in s.running && s.queue != [] && Stopped(s.signalOf, s.raised, s.queue[0])
    ensures ValidState(Settled(s, job))
  {
    var t := Settled(s, job);
    assert s.queue[..0] + s.queue[1..] == s.queue[1..];
    AccountedRemoval(s.dispatched, s.queue, s.rejected, s.submitted, 0);
    forall i | 0 <= i < |t.rejected| ensures Stopped(t.signalOf, t.raised, t.rejected[i]) {
      if i < |s.rejected| { assert Stopped(s.signalOf, s.raised, s.rejected[i]); }
    }
  }

  lemma HeadDispatchedValid(s: State, job: Job)
    requires ValidState(s) && job in s.running && s.queue != [] && !Stopped(s.signalOf, s.raised, s.queue[0])
    ensures ValidState(Settled(s, job))
  {
    assert s.queue[..0] + s.queue[1..] == s.queue[1..];
    AccountedRemoval(s.dispatched, s.queue, s.rejected, s.submitted, 0);
  }

  lemma SettledValid(s: State, job: Job)
    requires ValidState(s) && job in s.running
    ensures ValidState(Settled(s, job)) && (s.queue != [] ==> s.queue[0] !in s.running)
  {
    if s.queue != [] {
      ExactlyOnePlace(s.dispatched, s.queue, s.rejected, s.submitted, s.queue[0]);
      if Stopped(s.signalOf, s.raised, s.queue[0]) { HeadRejectedValid(s, job); } else { HeadDispatchedValid(s, job); }
    }
  }

  lemma SettledFair(s: State, job: Job)
    requires ValidState(s) && FairState(s) && job in s.running
    ensures FairState(Settled(s, job))
  {
    var t := Settled(s, job);
    SettledValid(s, job);
    if s.queue != [] {
      assert !Stopped(s.signalOf, s.raised, s.queue[0]);
      assert t.dispatched + t.queue == s.dispatched + s.queue;
    }
  }

  class RequestScheduler {
    var activeRequests: int
    var requestQueue: seq<Job>
    var signalOf: map<Job, Option<Signal>>
    var raised: set<Signal>          // signals whose `aborted` flag is set

    var submitted: nat
    var running: set<Job>            // the network: dispatched and not yet settled

    // Histories: what became of every submission.
    ghost var dispatched: seq<Job>   // in dispatch order
    ghost var rejected: seq<Job>     // rejected with an abort reason, never dispatched

    /** What every step keeps, even when a raised flag and its listeners are separate steps. */
    ghost function Now(): State
      reads this
    {
      State(running, dispatched, requestQueue, rejected, signalOf, raised, submitted)
    }

    ghost predicate Valid()
      reads this
    {
      activeRequests == |running| && ValidState(Now())
    }

    /** A waiting request means that all six slots are busy. */
    ghost predicate Conserving()
      reads this
    {
      requestQueue != [] ==> activeRequests == MAX_CONCURRENT_REQUESTS
    }

    ghost predicate Fair()
      reads this
    {
      FairState(Now())
    }

    constructor ()
      ensures Valid() && Fair()
      ensures submitted == 0 && raised == {} && requestQueue == []
      ensures dispatched == [] && rejected == [] && running == {}
    {
      activeRequests, requestQueue, signalOf, raised := 0, [], map[], {};
      submitted, running, dispatched, rejected := 0, {}, [], [];
    }

    /** The closure `run`: dispatches the job unless its signal was aborted meanwhile. */
    method Run(job: Job)
      modifies this`activeRequests, this`running, this`dispatched, this`rejected
      ensures Stopped(signalOf, raised, job) ==>
        && rejected == old(rejected) + [job]
        && activeRequests == old(activeRequests) && running == old(running) && dispatched == old(dispatched)
      ensures !Stopped(signalOf, raised, job) ==>
        && activeRequests == old(activeRequests) + 1 && running == old(running) + {job}
        && dispatched == old(dispatched) + [job] && rejected == old(rejected)
    {
      if Stopped(signalOf, raised, job) {
        rejected := rejected + [job];
        return;
      }
      activeRequests := activeRequests + 1;
      running := running + {job};
      dispatched := dispatched + [job];
    }

    method Submit(signal: Option<Signal>) returns (job: Job)
      requires Valid()
      modifies this
      ensures Valid()
      ensures old(Fair()) ==> Fair()
      ensures job == old(submitted) && Now() == Submitted(old(Now()), signal)
      ensures signalOf == old(signalOf)[job := signal] && raised == old(raised) && submitted == job + 1
      // Refused under an aborted signal, dispatched into one of six slots, or last in the queue.
      ensures rejected == old(rejected) + if signal.Some? && signal.value in raised then [job] else []
      ensures (signal.Some? ==> signal.value !in raised) && |old(running)| < 6 ==>
        running == old(running) + {job} && dispatched == old(dispatched) + [job] && requestQueue == old(requestQueue)
      ensures (signal.Some? && signal.value in raised) || |old(running)| >= 6 ==>
        running == old(running) && dispatched == old(dispatched)
      ensures (signal.Some? ==> signal.value !in raised) && |old(running)| >= 6 ==>
        requestQueue == old(requestQueue) + [job]
      ensures signal.Some? && signal.value in raised ==> requestQueue == old(requestQueue)
    {
      ghost var was := Now();
      job := submitted;
      submitted := submitted + 1;
      signalOf := signalOf[job := signal];
      if signal.Some? && signal.value in raised {
        rejected := rejected + [job];
      } else if activeRequests < MAX_CONCURRENT_REQUESTS {
        Run(job);
      } else {
        requestQueue := requestQueue + [job];
      }
      assert Now() == Submitted(was, signal);
      SubmittedValid(was, signal);
      if FairState(was) { SubmittedFair(was, signal); }
    }

    /**
     A dispatched request settles: `finish` frees its slot and runs the head of the queue.

     The aborted branch of `run` does not wake the next waiter, so from a conserving state the
     queue stays conserving exactly when the job taken from it still wants to run.
     */
    method Settle(job: Job)
      requires Valid() && job in running
      modifies this
      ensures Valid()
      ensures old(Fair()) ==> Fair()
      ensures old(Conserving()) ==>
        (Conserving() <==> |old(requestQueue)| <= 1 || !old(Stopped(signalOf, raised, requestQueue[0])))
      ensures Now() == Settled(old(Now()), job)
      ensures signalOf == old(signalOf) && raised == old(raised) && submitted == old(submitted)
      // The head of the queue takes the slot, or is rejected if its own signal is aborted by now.
      ensures old(requestQueue) == [] ==>
        && requestQueue == [] && running == old(running) - {job}
        && dispatched == old(dispatched) && rejected == old(rejected)
      ensures old(requestQueue) != [] ==>
        var head := old(requestQueue)[0];
        && requestQueue == old(requestQueue)[1..]
        && if head in signalOf && signalOf[head].Some? && signalOf[head].value in raised
           then running == old(running) - {job} && dispatched == old(dispatched) && rejected == old(rejected) + [head]
           else running == old(running) - {job} + {head} && dispatched == old(dispatched) + [head]
                && rejected == old(rejected)
    {
      ghost var was := Now();
      if requestQueue != [] { SettledValid(was, job); }
      activeRequests := activeRequests - 1;
      running := running - {job};
      if requestQueue != [] {
        var head := requestQueue[0];
        requestQueue := requestQueue[1..];
        Run(head);
      }
      assert Now() == Settled(was, job);
      SettledValid(was, job);
      if FairState(was) { SettledFair(was, job); }
    }

    /** The `abort` listener of one waiting job: `abortQueued`. */
    method AbortQueued(index: nat)
      requires Valid() && index < |requestQueue| && Stopped(signalOf, raised, requestQueue[index])
      modifies this`requestQueue, this`rejected
      ensures Valid()
      ensures requestQueue == old(requestQueue)[..index] + old(requestQueue)[index + 1..]
      ensures rejected == old(rejected) + [old(requestQueue)[index]]
    {
      var job := requestQueue[index];
      AccountedRemoval(dispatched, requestQueue, rejected, submitted, index);
      requestQueue := requestQueue[..index] + requestQueue[index + 1..];
      rejected := rejected + [job];
    }

    /** A signal's flag is set while none of its listeners has run yet. */
    method RaiseFlag(signal: Signal)
      requires Valid()
      modifies this`raised
      ensures Valid()
      ensures raised == old(raised) + {signal}
    {
      raised := raised + {signal};
    }

    /** The listeners of one raised signal, run one after another over the queue. */
    method AbortAllQueued(signal: Signal)
      requires Valid() && signal in raised
      modifies this`requestQueue, this`rejected
      ensures Valid()
      ensures requestQueue == Select(old(requestQueue), signalOf, signal, false)
      ensures rejected == old(rejected) + Select(old(requestQueue), signalOf, signal, true)
    {
      var i := 0;
      ghost var was, done: nat, gone := requestQueue, 0, [];
      WalkStarts(was, signalOf, signal);
      while i < |requestQueue|
        invariant 0 <= i <= |requestQueue|
        invariant Valid()
        invariant Walked(was, done, requestQueue, i, gone, signalOf, signal)
        invariant rejected == old(rejected) + gone
        decreases |requestQueue| - i
      {
        WalkStep(was, done, requestQueue, i, gone, signalOf, signal);
        if Captured(signalOf, requestQueue[i], signal) {
          gone := gone + [requestQueue[i]];
          AbortQueued(i);
        } else {
          i := i + 1;
        }
        done := done + 1;
      }
      WalkEnds(was, done, requestQueue, i, gone, signalOf, signal);
    }

    /**
     `controller.abort()`: the flag and every listener in one step. Waiting jobs that captured
     the signal are rejected; what is running is not touched.
     */
    method Abort(signal: Signal)
      requires Valid()
      modifies this`raised, this`requestQueue, this`rejected
      ensures Valid()
      ensures old(Fair()) ==> Fair()
      ensures raised == old(raised) + {signal}
      ensures requestQueue == Select(old(requestQueue), signalOf, signal, false)
      ensures rejected == old(rejected) + Select(old(requestQueue), signalOf, signal, true)
    {
      RaiseFlag(signal);
      AbortAllQueued(signal);
      if old(Fair()) {
        SelectIncreasing(dispatched, old(requestQueue), signalOf, signal, false);
        SelectMembers(old(requestQueue), signalOf, signal, false);
        assert forall i :: 0 <= i < |requestQueue| ==> requestQueue[i] in requestQueue;
      }
    }
  }

  datatype Event = Submit(signal: Option<Signal>) | Settle(job: Job) | Abort(aborted: Signal)

  /** Every run: any number of submissions, settlements and aborts, in any order. */
  method RunEvents(events: seq<Event>)
      returns (active: int, queue: seq<Job>, submitted: nat, signalOf: map<Job, Option<Signal>>, raised: set<Signal>,
               ghost dispatched: seq<Job>, ghost rejected: seq<Job>)
    ensures 0 <= active <= MAX_CONCURRENT_REQUESTS
    ensures queue != [] ==> active == MAX_CONCURRENT_REQUESTS
    ensures Increasing(dispatched + queue)
    ensures Accounted(dispatched, queue, rejected, submitted)
    // Only a job's own signal rejects it, and no waiting job's signal is aborted.
    ensures forall i :: 0 <= i < |rejected| ==> Stopped(signalOf, raised, rejected[i])
    ensures forall i :: 0 <= i < |queue| ==> !Stopped(signalOf, raised, queue[i])
    ensures (forall e :: e in events ==> !e.Abort?) ==> rejected == []
  {
    var s := new RequestScheduler();
    for i := 0 to |events|
      invariant fresh(s) && s.Valid() && s.Fair()
      invariant (forall e :: e in events[..i] ==> !e.Abort?) ==> s.rejected == [] && s.raised == {}
    {
      assert events[i] in events[..i + 1] && forall e :: e in events[..i] ==> e in events[..i + 1];
      match events[i]
      case Submit(signal) => var _ := s.Submit(signal);
      case Settle(job) =>
        // Only a running request can settle.
        if job in s.running { s.Settle(job); }
      case Abort(signal) => s.Abort(signal);
    }
    assert events[..|events|] == events;
    return s.activeRequests, s.requestQueue, s.submitted, s.signalOf, s.raised, s.dispatched, s.rejected;
  }

  /** A request without a signal goes into a free slot. */
  method DispatchNext(s: RequestScheduler)
    requires s.Valid() && s.Fair() && s.activeRequests < MAX_CONCURRENT_REQUESTS
    modifies s
    ensures s.Valid() && s.Fair() && s.Now() == Submitted(old(s.Now()), None)
    ensures s.activeRequests == old(s.activeRequests) + 1 && s.dispatched == old(s.dispatched) + [old(s.submitted)]
    ensures s.running == old(s.running) + {old(s.submitted)}
  {
    SubmittedValid(s.Now(), None);
    var _ := s.Submit(None);
  }

  /** Six dispatched requests, numbered 0 to 5. */
  method SixBusy() returns (s: RequestScheduler)
    ensures fresh(s) && s.Valid() && s.Fair()
    ensures s.submitted == 6 && s.requestQueue == [] && s.raised == {} && 0 in s.running
    ensures s.activeRequests == 6 && s.dispatched == [0, 1, 2, 3, 4, 5]
  {
    s := new RequestScheduler();
    for i := 0 to MAX_CONCURRENT_REQUESTS
      invariant fresh(s) && s.Valid() && s.Fair()
      invariant s.submitted == s.activeRequests == i && s.requestQueue == [] && s.raised == {}
      invariant |s.dispatched| == i && forall j :: 0 <= j < i ==> s.dispatched[j] == j
      invariant i > 0 ==> 0 in s.running
    {
      DispatchNext(s);
    }
    ghost var d := s.dispatched;
    assert d[0] == 0 && d[1] == 1 && d[2] == 2 && d[3] == 3 && d[4] == 4 && d[5] == 5;
  }

  /** Behind them a request with a signal and one without wait. */
  method TwoWaiting() returns (s: RequestScheduler)
    ensures fresh(s) && s.Valid() && s.Fair() && s.submitted == 8 && 0 in s.running
    ensures s.requestQueue == [6, 7] && s.raised == {} && s.signalOf == s.signalOf[6 := Some(Caller(0))][7 := None]
    ensures s.dispatched == [0, 1, 2, 3, 4, 5] && s.activeRequests == 6
  {
    s := SixBusy();
    var disposable := s.Submit(Some(Caller(0)));
    var waiting := s.Submit(None);
  }

  /**
   The branch of `run` that meets an aborted signal does not call the next waiter. If a signal's
   flag is up while its listener has not run yet, one settlement can leave a free slot beside a
   waiting request, and a later submission overtakes it.
   */
  method StalledRun() returns (stalled: seq<Job>, activeThen: int, late: Job, ghost dispatched: seq<Job>)
    ensures stalled == [7] && activeThen == 5
    ensures late == 8 && dispatched == [0, 1, 2, 3, 4, 5, 8]
  {
    var s := TwoWaiting();
    s.RaiseFlag(Caller(0));
    s.Settle(0);
    stalled, activeThen := s.requestQueue, s.activeRequests;
    late := s.Submit(None);
    dispatched := s.dispatched;
  }
}

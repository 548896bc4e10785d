/**
 Filtering an asynchronous iterator (src/lib/filter-async-iterator.ts:1-33).

 Every call of `next` is a coroutine that waits for the source, then for `accept`. Answers arrive
 as steps of their own, in any order and for any number of calls at once.
 */
module FilterIterator {
  datatype Result<T> = Yielded(value: T) | Finished | Rejected
  datatype Call<T> = AwaitingSource | AwaitingAccept(candidate: T) | Ended(result: Result<T>)

  /** A call of `return` or `throw`, which waits for the source's `return`. */
  datatype Closing = AwaitingReturn(thrown: bool) | Returned | Thrown

  function Filter<T>(values: seq<T>, accept: T -> bool): seq<T> {
    if values == [] then []
    else
      var last := |values| - 1;
      Filter(values[..last], accept) + if accept(values[last]) then [values[last]] else []
  }

  lemma FilterAppends<T>(values: seq<T>, value: T, accept: T -> bool)
    ensures Filter(values + [value], accept) == Filter(values, accept) + if accept(value) then [value] else []
  {
    assert (values + [value])[..|values|] == values;
  }

  /** The value whose acceptance the latest call waits for. */
  function Held<T>(calls: seq<Call<T>>): seq<T> {
    if calls != [] && calls[|calls| - 1].AwaitingAccept? then [calls[|calls| - 1].candidate] else []
  }

  ghost predicate AllButLastEnded<T>(calls: seq<Call<T>>) {
    forall i :: 0 <= i < |calls| - 1 ==> calls[i].Ended?
  }

  /** When at most the last call is open, an open call is the last, and answering it leaves none before it open. */
  lemma OnlyLastIsOpen<T>(calls: seq<Call<T>>, c: nat, answered: Call<T>)
    requires AllButLastEnded(calls) && c < |calls| && !calls[c].Ended?
    ensures Held(calls) == if calls[c].AwaitingAccept? then [calls[c].candidate] else []
    ensures AllButLastEnded(calls[c := answered])
    ensures Held(calls[c := answered]) == if answered.AwaitingAccept? then [answered.candidate] else []
  {
  }

  predicate IsValue<T>(call: Call<T>) {
    call.Ended? && call.result.Yielded?
  }

  /** The values that calls of `next` came to, in the order of the calls. */
  function Yields<T>(calls: seq<Call<T>>): seq<T> {
    if calls == [] then []
    else
      var last := |calls| - 1;
      Yields(calls[..last]) + if IsValue(calls[last]) then [calls[last].result.value] else []
  }

  lemma YieldsAppends<T>(calls: seq<Call<T>>, call: Call<T>)
    ensures Yields(calls + [call]) == Yields(calls) + if IsValue(call) then [call.result.value] else []
  {
    assert (calls + [call])[..|calls|] == calls;
  }

  /** Answering the last call adds its value at the end. */
  lemma YieldsAtLast<T>(calls: seq<Call<T>>, answered: Call<T>)
    requires calls != [] && !IsValue(calls[|calls| - 1])
    ensures Yields(calls[|calls| - 1 := answered]) == Yields(calls) + Yields([answered])
    ensures Yields([answered]) == if IsValue(answered) then [answered.result.value] else []
  {
    var last := |calls| - 1;
    assert calls[last := answered][..last] == calls[..last];
    YieldsAppends([], answered);
    assert [] + [answered] == [answered];
  }

  lemma AddedBefore<T>(was: seq<T>, now: seq<T>, added: seq<T>, rest: seq<T>)
    requires multiset(now) == multiset(was) + multiset(added)
    ensures multiset(now + rest) == multiset(was + rest) + multiset(added)
  {
  }

  lemma AnsweredFront<T>(calls: seq<Call<T>>, c: nat, answered: Call<T>)
    requires c < |calls| - 1
    ensures var last := |calls| - 1;
      && Yields(calls) == Yields(calls[..last]) + Yields([calls[last]])
      && Yields(calls[c := answered]) == Yields(calls[..last][c := answered]) + Yields([calls[last]])
  {
    var last := |calls| - 1;
    var front := calls[..last];
    assert calls == front + [calls[last]] && calls[c := answered] == front[c := answered] + [calls[last]];
    YieldsAppends(front, calls[last]);
    YieldsAppends(front[c := answered], calls[last]);
    YieldsAppends([], calls[last]);
    assert [] + [calls[last]] == [calls[last]];
  }

  /** Answering any call adds its value somewhere. */
  lemma {:induction false} YieldsAnywhere<T>(calls: seq<Call<T>>, c: nat, answered: Call<T>)
    requires c < |calls| && !IsValue(calls[c])
    ensures multiset(Yields(calls[c := answered])) == multiset(Yields(calls)) + multiset(Yields([answered]))
  {
    var last := |calls| - 1;
    if c == last {
      YieldsAtLast(calls, answered);
    } else {
      var front, rest := calls[..last], Yields([calls[last]]);
      YieldsAnywhere(front, c, answered);
      AddedBefore(Yields(front), Yields(front[c := answered]), Yields([answered]), rest);
      AnsweredFront(calls, c, answered);
    }
  }

  /** The calls, and what the source, `accept` and the consumer have seen. */
  datatype State<T> = State(
    closed: bool, calls: seq<Call<T>>, closings: seq<Closing>, sourceReturnCalls: nat,
    answers: seq<T>, judged: seq<T>, handed: seq<T>, orderly: bool)

  /** What the consumer got are the results of its calls, in their order if it awaited each of them. */
  ghost predicate Results<T>(calls: seq<Call<T>>, handed: seq<T>, orderly: bool) {
    && multiset(handed) == multiset(Yields(calls))
    && (orderly ==> handed == Yields(calls) && AllButLastEnded(calls))
  }

  /** A consumer that awaits each `next` has the source's values judged one by one. */
  ghost predicate InTurn<T>(s: State<T>) {
    && (s.orderly ==> s.judged <= s.answers)
    && (s.orderly && !s.closed ==> s.answers == s.judged + Held(s.calls))
  }

  ghost predicate Sound<T>(s: State<T>, accept: T -> bool, sourceReturns: bool) {
    && (s.closed <==> s.closings != []) && s.sourceReturnCalls == (if sourceReturns then |s.closings| else 0)
    && s.handed == Filter(s.judged, accept) && Results(s.calls, s.handed, s.orderly) && InTurn(s)
  }

  // The steps.

  /** `next` is called. */
  function Asked<T>(s: State<T>): State<T> {
    s.(calls := s.calls + [if s.closed then Ended(Finished) else AwaitingSource],
       orderly := s.orderly && (s.calls == [] || s.calls[|s.calls| - 1].Ended?))
  }

  /** One open call is answered. */
  function Answered<T>(s: State<T>, c: nat, answered: Call<T>): State<T>
    requires c < |s.calls|
  {
    s.(calls := s.calls[c := answered],
       handed := if IsValue(answered) then s.handed + [answered.result.value] else s.handed)
  }

  /** The source yields a value, which counts for nothing once the iterator is closed. */
  function Fed<T>(s: State<T>, c: nat, value: T): State<T>
    requires c < |s.calls|
  {
    if s.closed then Answered(s, c, Ended(Finished))
    else Answered(s, c, AwaitingAccept(value)).(answers := s.answers + [value])
  }

  /** What a decision does to its call: hand the value out, ask again, or end without it when closed. */
  function Decision<T>(closed: bool, call: Call<T>, accept: T -> bool): (r: Call<T>)
    requires call.AwaitingAccept?
    ensures !r.AwaitingAccept?
  {
    if closed then Ended(Finished)
    else if accept(call.candidate) then Ended(Yielded(call.candidate))
    else AwaitingSource
  }

  function Decided<T>(s: State<T>, c: nat, accept: T -> bool): State<T>
    requires c < |s.calls| && s.calls[c].AwaitingAccept?
  {
    Answered(s, c, Decision(s.closed, s.calls[c], accept))
      .(judged := if s.closed then s.judged else s.judged + [s.calls[c].candidate])
  }

  function Shut<T>(s: State<T>, thrown: bool, sourceReturns: bool): State<T> {
    s.(closed := true, closings := s.closings + [AwaitingReturn(thrown)],
       sourceReturnCalls := s.sourceReturnCalls + if sourceReturns then 1 else 0)
  }

  function Settled<T>(s: State<T>, k: nat, failed: bool): State<T>
    requires k < |s.closings| && s.closings[k].AwaitingReturn?
  {
    s.(closings := s.closings[k := if s.closings[k].thrown || failed then Thrown else Returned])
  }

  /** An open call comes to no value, or to one that is handed out. */
  lemma ResultsStay<T>(calls: seq<Call<T>>, handed: seq<T>, orderly: bool, c: nat, answered: Call<T>)
    requires Results(calls, handed, orderly) && c < |calls| && !calls[c].Ended?
    ensures Results(calls[c := answered],
                    if IsValue(answered) then handed + [answered.result.value] else handed, orderly)
  {
    YieldsAnywhere(calls, c, answered);
    assert Yields([answered]) == if IsValue(answered) then [answered.result.value] else [];
    if orderly {
      OnlyLastIsOpen(calls, c, answered);
      YieldsAtLast(calls, answered);
    }
  }

  lemma AskedKeeps<T>(s: State<T>)
    requires Results(s.calls, s.handed, s.orderly) && InTurn(s)
    ensures var t := Asked(s); Results(t.calls, t.handed, t.orderly) && InTurn(t)
  {
    YieldsAppends(s.calls, if s.closed then Ended(Finished) else AwaitingSource);
  }

  /** The state after one answer; it may spoil the order. */
  lemma AnsweredKeeps<T>(s: State<T>, t: State<T>, c: nat, answered: Call<T>, accept: T -> bool, sourceReturns: bool)
    requires Sound(s, accept, sourceReturns) && c < |s.calls| && !s.calls[c].Ended?
    requires t == Answered(s, c, answered).(answers := t.answers, judged := t.judged, orderly := t.orderly)
    requires t.orderly ==> s.orderly
    requires t.handed == Filter(t.judged, accept) && InTurn(t)
    ensures Sound(t, accept, sourceReturns)
  {
    ResultsStay(s.calls, s.handed, s.orderly, c, answered);
  }

  lemma EndedInTurn<T>(s: State<T>, c: nat, result: Result<T>)
    requires InTurn(s) && (s.orderly ==> AllButLastEnded(s.calls)) && c < |s.calls| && !result.Yielded?
    requires !s.calls[c].Ended? && (s.closed || s.calls[c].AwaitingSource?)
    ensures InTurn(Answered(s, c, Ended(result)))
  {
    if s.orderly { OnlyLastIsOpen(s.calls, c, Ended(result)); }
  }

  lemma FedInTurn<T>(s: State<T>, c: nat, value: T)
    requires InTurn(s) && (s.orderly ==> AllButLastEnded(s.calls)) && c < |s.calls| && s.calls[c].AwaitingSource?
    ensures InTurn(Fed(s, c, value))
  {
    if s.closed {
      EndedInTurn(s, c, Finished);
    } else if s.orderly {
      OnlyLastIsOpen(s.calls, c, AwaitingAccept(value));
    }
  }

  lemma DecidedInTurn<T>(s: State<T>, c: nat, accept: T -> bool)
    requires InTurn(s) && (s.orderly ==> AllButLastEnded(s.calls)) && c < |s.calls| && s.calls[c].AwaitingAccept?
    ensures InTurn(Decided(s, c, accept))
  {
    if s.orderly { OnlyLastIsOpen(s.calls, c, Decision(s.closed, s.calls[c], accept)); }
  }

  lemma EndedKeeps<T>(s: State<T>, c: nat, result: Result<T>, accept: T -> bool, sourceReturns: bool)
    requires Sound(s, accept, sourceReturns) && c < |s.calls| && s.calls[c].AwaitingSource? && !result.Yielded?
    ensures Sound(Answered(s, c, Ended(result)), accept, sourceReturns)
  {
    EndedInTurn(s, c, result);
    AnsweredKeeps(s, Answered(s, c, Ended(result)), c, Ended(result), accept, sourceReturns);
  }

  lemma FedKeeps<T>(s: State<T>, c: nat, value: T, accept: T -> bool, sourceReturns: bool)
    requires Sound(s, accept, sourceReturns) && c < |s.calls| && s.calls[c].AwaitingSource?
    ensures Sound(Fed(s, c, value), accept, sourceReturns)
  {
    var answered := if s.closed then Ended(Finished) else AwaitingAccept(value);
    FedInTurn(s, c, value);
    AnsweredKeeps(s, Fed(s, c, value), c, answered, accept, sourceReturns);
  }

  lemma DecidedFilters<T>(s: State<T>, c: nat, accept: T -> bool)
    requires s.handed == Filter(s.judged, accept) && c < |s.calls| && s.calls[c].AwaitingAccept?
    ensures var t := Decided(s, c, accept); t.handed == Filter(t.judged, accept)
  {
    FilterAppends(s.judged, s.calls[c].candidate, accept);
  }

  lemma DecidedKeeps<T>(s: State<T>, c: nat, accept: T -> bool, sourceReturns: bool)
    requires Sound(s, accept, sourceReturns) && c < |s.calls| && s.calls[c].AwaitingAccept?
    ensures Sound(Decided(s, c, accept), accept, sourceReturns)
  {
    DecidedFilters(s, c, accept);
    DecidedInTurn(s, c, accept);
    AnsweredKeeps(s, Decided(s, c, accept), c, Decision(s.closed, s.calls[c], accept), accept, sourceReturns);
  }

  /** `accept` throws: its value is not judged, so the consumer no longer has all of them. */
  lemma FailedKeeps<T>(s: State<T>, c: nat, accept: T -> bool, sourceReturns: bool)
    requires Sound(s, accept, sourceReturns) && c < |s.calls| && s.calls[c].AwaitingAccept?
    ensures Sound(Answered(s, c, Ended(Rejected)).(orderly := false), accept, sourceReturns)
  {
    AnsweredKeeps(s, Answered(s, c, Ended(Rejected)).(orderly := false), c, Ended(Rejected), accept, sourceReturns);
  }

  // Runs.

  datatype Event<T> =
    | CallsNext
    | Gives(call: nat, value: T)
    | Ends(call: nat, failed: bool)
    | Decides(call: nat)
    | Fails(call: nat)
    | Closes(thrown: bool)
    | Settles(closing: nat, broken: bool)

  /** One answer of the source or of `accept`; one that nothing waits for changes nothing. */
  function AnswerTaken<T>(s: State<T>, event: Event<T>, accept: T -> bool): State<T> {
    match event
    case Gives(c, value) => if c < |s.calls| && s.calls[c].AwaitingSource? then Fed(s, c, value) else s
    case Ends(c, failed) =>
      if c < |s.calls| && s.calls[c].AwaitingSource? then Answered(s, c, Ended(if failed then Rejected else Finished))
      else s
    case Decides(c) => if c < |s.calls| && s.calls[c].AwaitingAccept? then Decided(s, c, accept) else s
    case Fails(c) =>
      if c < |s.calls| && s.calls[c].AwaitingAccept? then Answered(s, c, Ended(Rejected)).(orderly := false) else s
    case _ => s
  }

  /** One event. */
  function Taken<T>(s: State<T>, event: Event<T>, accept: T -> bool, sourceReturns: bool): State<T> {
    match event
    case CallsNext => Asked(s)
    case Closes(thrown) => Shut(s, thrown, sourceReturns)
    case Settles(k, broken) => if k < |s.closings| && s.closings[k].AwaitingReturn? then Settled(s, k, broken) else s
    case _ => AnswerTaken(s, event, accept)
  }

  /** The state after a run. */
  function After<T>(accept: T -> bool, sourceReturns: bool, events: seq<Event<T>>): State<T> {
    if events == [] then State(false, [], [], 0, [], [], [], true)
    else
      var last := |events| - 1;
      Taken(After(accept, sourceReturns, events[..last]), events[last], accept, sourceReturns)
  }

  lemma AnswerTakenKeeps<T>(s: State<T>, event: Event<T>, accept: T -> bool, sourceReturns: bool)
    requires Sound(s, accept, sourceReturns)
    ensures Sound(AnswerTaken(s, event, accept), accept, sourceReturns)
  {
    var t := AnswerTaken(s, event, accept);
    if t == s {
    } else if event.Gives? {
      FedKeeps(s, event.call, event.value, accept, sourceReturns);
      assert t == Fed(s, event.call, event.value);
    } else if event.Ends? {
      var result := if event.failed then Rejected else Finished;
      EndedKeeps(s, event.call, result, accept, sourceReturns);
      assert t == Answered(s, event.call, Ended(result));
    } else if event.Decides? {
      DecidedKeeps(s, event.call, accept, sourceReturns);
      assert t == Decided(s, event.call, accept);
    } else {
      FailedKeeps(s, event.call, accept, sourceReturns);
      assert t == Answered(s, event.call, Ended(Rejected)).(orderly := false);
    }
  }

  lemma TakenKeeps<T>(s: State<T>, event: Event<T>, accept: T -> bool, sourceReturns: bool)
    requires Sound(s, accept, sourceReturns)
    ensures Sound(Taken(s, event, accept, sourceReturns), accept, sourceReturns)
  {
    var t := Taken(s, event, accept, sourceReturns);
    if event.CallsNext? {
      AskedKeeps(s);
      assert t == Asked(s);
    } else if event.Closes? || event.Settles? {
      assert t.calls == s.calls && t.handed == s.handed && t.judged == s.judged && t.answers == s.answers;
    } else {
      AnswerTakenKeeps(s, event, accept, sourceReturns);
      assert t == AnswerTaken(s, event, accept);
    }
  }

  /**
   After every run. What the consumer got are the results of its calls, and the accepted ones among
   the judged values. If it awaited each `next`, it got the results in the order of its calls, and
   the judged values are the source's own, all of them while the iterator is open.
   */
  lemma {:induction false} EveryRunIsSound<T>(accept: T -> bool, sourceReturns: bool, events: seq<Event<T>>)
    ensures Sound(After(accept, sourceReturns, events), accept, sourceReturns)
  {
    if events == [] {
    } else {
      var last := |events| - 1;
      EveryRunIsSound(accept, sourceReturns, events[..last]);
      TakenKeeps(After(accept, sourceReturns, events[..last]), events[last], accept, sourceReturns);
    }
  }

  // What may happen to calls.

  /** Ended calls stay as they are, and once closed no call comes to a value. */
  ghost predicate FollowsAt<T>(before: seq<Call<T>>, after: seq<Call<T>>, closed: bool, i: int) {
    && (0 <= i < |before| <= |after| && before[i].Ended? ==> after[i] == before[i])
    && (closed && 0 <= i < |after| && IsValue(after[i]) ==> i < |before| && after[i] == before[i])
  }

  ghost predicate Follows<T>(before: seq<Call<T>>, after: seq<Call<T>>, closed: bool) {
    && |before| <= |after|
    && forall i: int {:trigger FollowsAt(before, after, closed, i)} :: FollowsAt(before, after, closed, i)
  }

  lemma SameFollows<T>(calls: seq<Call<T>>, closed: bool)
    ensures Follows(calls, calls, closed)
  {
    forall i: int ensures FollowsAt(calls, calls, closed, i) {}
  }

  lemma AnsweredFollows<T>(calls: seq<Call<T>>, c: nat, answered: Call<T>, closed: bool)
    requires c < |calls| && !calls[c].Ended? && (closed ==> !IsValue(answered))
    ensures Follows(calls, calls[c := answered], closed)
  {
    var after := calls[c := answered];
    forall i: int ensures FollowsAt(calls, after, closed, i) {}
  }

  lemma BegunFollows<T>(calls: seq<Call<T>>, call: Call<T>, closed: bool)
    requires !IsValue(call)
    ensures Follows(calls, calls + [call], closed)
  {
    var after := calls + [call];
    forall i: int ensures FollowsAt(calls, after, closed, i) {}
  }

  lemma FollowsOn<T>(a: seq<Call<T>>, b: seq<Call<T>>, c: seq<Call<T>>, closed: bool, later: bool)
    requires Follows(a, b, closed) && Follows(b, c, later) && (closed ==> later)
    ensures Follows(a, c, closed)
  {
    forall i: int ensures FollowsAt(a, c, closed, i) {
      assert FollowsAt(a, b, closed, i) && FollowsAt(b, c, later, i);
    }
  }

  /** One event: no call ends twice; once closed, none comes to a value, whether it was waiting or begins now. */
  lemma TakenFollows<T>(s: State<T>, event: Event<T>, accept: T -> bool, sourceReturns: bool)
    ensures var t := Taken(s, event, accept, sourceReturns);
      && Follows(s.calls, t.calls, s.closed) && s.handed <= t.handed
      && (s.closed ==> t.closed && t.handed == s.handed)
  {
    var t := Taken(s, event, accept, sourceReturns);
    if t.calls == s.calls {
      SameFollows(s.calls, s.closed);
    } else if event.CallsNext? {
      BegunFollows(s.calls, if s.closed then Ended(Finished) else AwaitingSource, s.closed);
    } else {
      var c := event.call;
      AnsweredFollows(s.calls, c, t.calls[c], s.closed);
    }
  }

  /** From any moment of a run to its end: ended calls stay so, and closed stays closed and hands nothing out. */
  lemma {:induction false} LaterInRun<T>(accept: T -> bool, sourceReturns: bool, events: seq<Event<T>>, k: nat)
    requires k <= |events|
    ensures var s, t := After(accept, sourceReturns, events[..k]), After(accept, sourceReturns, events);
      && Follows(s.calls, t.calls, s.closed) && s.handed <= t.handed
      && (s.closed ==> t.closed && t.handed == s.handed)
  {
    var s := After(accept, sourceReturns, events[..k]);
    if k == |events| {
      assert events[..k] == events;
      SameFollows(s.calls, s.closed);
    } else {
      var last := |events| - 1;
      var middle := After(accept, sourceReturns, events[..last]);
      assert events[..last][..k] == events[..k];
      LaterInRun(accept, sourceReturns, events[..last], k);
      TakenFollows(middle, events[last], accept, sourceReturns);
      var t := Taken(middle, events[last], accept, sourceReturns);
      FollowsOn(s.calls, middle.calls, t.calls, s.closed, middle.closed);
    }
  }

  class FilteredIterator<T> {
    const accept: T -> bool
    const sourceReturns: bool       // the source has a `return`
    var closed: bool
    var calls: seq<Call<T>>
    var closings: seq<Closing>
    var sourceReturnCalls: nat

    ghost var answers: seq<T>       // what the source answered while open, in order
    ghost var judged: seq<T>        // what `accept` decided about while open, in order
    ghost var handed: seq<T>        // what the consumer got, in order
    ghost var orderly: bool         // each `next` was awaited before the following one; `accept` never failed

    ghost function Now(): State<T>
      reads this
    {
      State(closed, calls, closings, sourceReturnCalls, answers, judged, handed, orderly)
    }

    constructor (accept: T -> bool, sourceReturns: bool)
      ensures this.accept == accept && this.sourceReturns == sourceReturns
      ensures Now() == After(accept, sourceReturns, [])
    {
      this.accept, this.sourceReturns := accept, sourceReturns;
      closed, calls, closings, sourceReturnCalls := false, [], [], 0;
      answers, judged, handed, orderly := [], [], [], true;
    }

    method Next() returns (c: nat)
      modifies this`calls, this`orderly
      ensures c == |old(calls)| && Now() == Asked(old(Now()))
      ensures calls == old(calls) + [if closed then Ended(Finished) else AwaitingSource]
    {
      c := |calls|;
      orderly := orderly && (calls == [] || calls[c - 1].Ended?);
      calls := calls + [if closed then Ended(Finished) else AwaitingSource];
    }

    /** The source answers with a value, which counts for nothing once the iterator is closed. */
    method SourceYields(c: nat, value: T)
      requires c < |calls| && calls[c].AwaitingSource?
      modifies this`calls, this`answers
      ensures Now() == Fed(old(Now()), c, value)
      ensures calls == old(calls)[c := if closed then Ended(Finished) else AwaitingAccept(value)]
    {
      if closed {
        calls := calls[c := Ended(Finished)];
      } else {
        calls := calls[c := AwaitingAccept(value)];
        answers := answers + [value];
      }
    }

    /** The source is exhausted, or fails. */
    method SourceEnds(c: nat, failed: bool)
      requires c < |calls| && calls[c].AwaitingSource?
      modifies this`calls
      ensures Now() == Answered(old(Now()), c, Ended(if failed then Rejected else Finished))
      ensures calls == old(calls)[c := Ended(if failed then Rejected else Finished)]
    {
      calls := calls[c := Ended(if failed then Rejected else Finished)];
    }

    /** `accept` has decided: hand the value out, or ask the source again. */
    method Decide(c: nat)
      requires c < |calls| && calls[c].AwaitingAccept?
      modifies this`calls, this`judged, this`handed
      ensures Now() == Decided(old(Now()), c, accept)
      ensures calls == old(calls)[c :=
        if closed then Ended(Finished)
        else if accept(old(calls)[c].candidate) then Ended(Yielded(old(calls)[c].candidate))
        else AwaitingSource]
      ensures calls == old(calls)[c := Decision(closed, old(calls)[c], accept)]
    {
      ghost var after := Decided(Now(), c, accept);
      var value := calls[c].candidate;
      if closed {
        calls := calls[c := Ended(Finished)];
      } else {
        judged := judged + [value];
        if accept(value) {
          handed := handed + [value];
          calls := calls[c := Ended(Yielded(value))];
        } else {
          calls := calls[c := AwaitingSource];
        }
      }
      assert Now() == after;
    }

    /** `accept` throws: so does the call, and the source stays open. */
    method AcceptFails(c: nat)
      requires c < |calls| && calls[c].AwaitingAccept?
      modifies this`calls, this`orderly
      ensures Now() == Answered(old(Now()), c, Ended(Rejected)).(orderly := false)
      ensures calls == old(calls)[c := Ended(Rejected)]
    {
      orderly := false;
      calls := calls[c := Ended(Rejected)];
    }

    /** `return` or `throw`: closed at once, and the source is told. */
    method Close(thrown: bool)
      modifies this`closed, this`closings, this`sourceReturnCalls
      ensures closed && Now() == Shut(old(Now()), thrown, sourceReturns)
      ensures sourceReturnCalls == old(sourceReturnCalls) + if sourceReturns then 1 else 0
    {
      closed := true;
      if sourceReturns { sourceReturnCalls := sourceReturnCalls + 1; }
      closings := closings + [AwaitingReturn(thrown)];
    }

    /** The source's `return` settles: `throw` always throws, `return` only if the source failed. */
    method SourceReturned(k: nat, failed: bool)
      requires k < |closings| && closings[k].AwaitingReturn?
      modifies this`closings
      ensures Now() == Settled(old(Now()), k, failed)
      ensures closings[k] == if old(closings)[k].thrown || failed then Thrown else Returned
    {
      closings := closings[k := if closings[k].thrown || failed then Thrown else Returned];
    }

    /** One answer of the source or of `accept`, if something waits for it. */
    method AnswerStep(event: Event<T>)
      requires event.Gives? || event.Ends? || event.Decides? || event.Fails?
      modifies this
      ensures Now() == AnswerTaken(old(Now()), event, accept)
    {
      match event
      case Gives(c, value) => if c < |calls| && calls[c].AwaitingSource? { SourceYields(c, value); }
      case Ends(c, failed) => if c < |calls| && calls[c].AwaitingSource? { SourceEnds(c, failed); }
      case Decides(c) => if c < |calls| && calls[c].AwaitingAccept? { Decide(c); }
      case Fails(c) => if c < |calls| && calls[c].AwaitingAccept? { AcceptFails(c); }
    }

    /** One event; an event that nothing waits for changes nothing. */
    method Step(event: Event<T>)
      modifies this
      ensures Now() == Taken(old(Now()), event, accept, sourceReturns)
      // No call ends twice; once closed, none comes to a value, whether it was waiting or begins now.
      ensures Follows(old(calls), calls, old(closed)) && old(handed) <= handed
      ensures old(closed) ==> closed && handed == old(handed)
    {
      TakenFollows(Now(), event, accept, sourceReturns);
      match event
      case CallsNext => var _ := Next();
      case Closes(thrown) => Close(thrown);
      case Settles(k, broken) => if k < |closings| && closings[k].AwaitingReturn? { SourceReturned(k, broken); }
      case _ => AnswerStep(event);
    }
  }

  /**
   Every run comes to the state that its events determine, which is sound. From the first moment at
   which the iterator is closed, no call comes to a value.
   */
  method RunEvents<T>(accept: T -> bool, sourceReturns: bool, events: seq<Event<T>>)
    returns (it: FilteredIterator<T>)
    ensures it.Now() == After(accept, sourceReturns, events) && Sound(it.Now(), accept, sourceReturns)
    ensures forall k :: 0 <= k <= |events| && After(accept, sourceReturns, events[..k]).closed ==>
      && it.closed && it.handed == After(accept, sourceReturns, events[..k]).handed
      && Follows(After(accept, sourceReturns, events[..k]).calls, it.calls, true)
  {
    it := new FilteredIterator(accept, sourceReturns);
    for i := 0 to |events|
      invariant fresh(it) && it.accept == accept && it.sourceReturns == sourceReturns
      invariant it.Now() == After(accept, sourceReturns, events[..i])
    {
      assert events[..i + 1][..i] == events[..i];
      it.Step(events[i]);
    }
    assert events[..|events|] == events;
    EveryRunIsSound(accept, sourceReturns, events);
    forall k | 0 <= k <= |events| && After(accept, sourceReturns, events[..k]).closed
      ensures it.closed && it.handed == After(accept, sourceReturns, events[..k]).handed
      ensures Follows(After(accept, sourceReturns, events[..k]).calls, it.calls, true)
    {
      LaterInRun(accept, sourceReturns, events, k);
    }
  }

  /** The iterator is open, and `c` is its latest call and still open. */
  ghost predicate Asking<T>(it: FilteredIterator<T>, c: nat)
    reads it
  {
    !it.closed && |it.calls| == c + 1 && it.calls[c].AwaitingSource?
  }

  /** The source's next value is judged. */
  method Feed<T>(it: FilteredIterator<T>, value: T, c: nat)
    requires Asking(it, c)
    modifies it
    ensures it.calls == old(it.calls)[c := if it.accept(value) then Ended(Yielded(value)) else AwaitingSource]
    ensures !it.closed
  {
    it.SourceYields(c, value);
    it.Decide(c);
  }

  /** Between these two places the source has this accepted value, or none. */
  ghost predicate NextAccepted<T>(values: seq<T>, accept: T -> bool, next: nat, after: nat, found: seq<T>) {
    next <= after <= |values| && Filter(values[..after], accept) == Filter(values[..next], accept) + found
  }

  lemma OneMore<T>(values: seq<T>, accept: T -> bool, next: nat, after: nat)
    requires NextAccepted(values, accept, next, after, []) && after < |values|
    ensures NextAccepted(values, accept, next, after + 1, if accept(values[after]) then [values[after]] else [])
  {
    FilterAppends(values[..after], values[after], accept);
    assert values[..after + 1] == values[..after] + [values[after]];
  }

  /** `await iterator.next()` on a source that has `values[next..]` left. */
  method AwaitNext<T>(it: FilteredIterator<T>, values: seq<T>, next: nat) returns (after: nat, result: Result<T>)
    requires !it.closed && next <= |values|
    modifies it
    ensures !it.closed && |it.calls| == |old(it.calls)| + 1 && it.calls[|old(it.calls)|] == Ended(result)
    ensures NextAccepted(values, it.accept, next, after, if result.Yielded? then [result.value] else [])
    ensures if result.Yielded? then after > next else result.Finished? && after == |values|
  {
    var c := it.Next();
    after := next;
    while after < |values| && it.calls[c].AwaitingSource?
      invariant !it.closed && |it.calls| == c + 1 && next <= after <= |values|
      invariant it.calls[c].AwaitingSource? || (IsValue(it.calls[c]) && after > next)
      invariant NextAccepted(values, it.accept, next, after,
                             if it.calls[c].AwaitingSource? then [] else [it.calls[c].result.value])
      decreases |values| - after
    {
      OneMore(values, it.accept, next, after);
      Feed(it, values[after], c);
      after := after + 1;
    }
    if it.calls[c].AwaitingSource? { it.SourceEnds(c, false); }
    result := it.calls[c].result;
  }

  /** Read to its end by a consumer that awaits each `next`, the source gives exactly its accepted values. */
  method Drain<T>(accept: T -> bool, values: seq<T>) returns (got: seq<T>)
    ensures got == Filter(values, accept)
  {
    var it := new FilteredIterator(accept, true);
    got := [];
    var next, done := 0, false;
    while !done
      invariant fresh(it) && it.accept == accept && !it.closed
      invariant next <= |values| && got == Filter(values[..next], accept)
      invariant done ==> next == |values|
      decreases |values| - next, !done
    {
      var result;
      next, result := AwaitNext(it, values, next);
      if result.Yielded? { got := got + [result.value]; } else { done := true; }
    }
    assert values[..|values|] == values;
  }
}

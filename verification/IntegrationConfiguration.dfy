/**
 The revision-guarded configuration cache (src/lib/integration-configuration.ts:10-93).

 A read is a coroutine: it runs to its `await`, and goes on when the transport answers. Its two
 halves are steps here, so that clears and other reads can come between them. The log holds what
 reads and the transport do, and the clears, in the order in which they happen.
 */
module IntegrationConfiguration {
  import opened Options
  import opened OperationKeys

  /** The providers whose revision an unscoped clear bumps. */
  const KNOWN_PROVIDERS: seq<string> := ["github", "gitlab", "jira", "cacheServer"]

  datatype Event<V> =
    | Began(reader: nat, provider: string, query: string)
    | Called(reader: nat, provider: string, query: string)
    | Replied(call: nat, value: V)                 // the transport's answer to the call at that place
    | Finished(reader: nat, returned: Option<V>)   // None when the read throws
    | Cleared(scope: Option<string>)

  /** `!provider`: no provider and the empty one both mean all of them. */
  function ScopeOf(provider: Option<string>): Option<string> {
    if provider == Some("") then None else provider
  }

  /** The providers whose revision a clear bumps. */
  predicate InScope(scope: Option<string>, provider: string) {
    if scope.None? then provider in KNOWN_PROVIDERS else scope.value == provider
  }

  predicate Bumps<V>(e: Event<V>, provider: string) {
    e.Cleared? && InScope(e.scope, provider)
  }

  /** How often the first `k` events bump a provider's revision. */
  function Bumped<V>(log: seq<Event<V>>, k: nat, provider: string): nat
    requires k <= |log|
  {
    if k == 0 then 0 else Bumped(log, k - 1, provider) + if Bumps(log[k - 1], provider) then 1 else 0
  }

  /** Between two places the count rises by the number of events there that bump the revision. */
  lemma {:induction false} BumpedCounts<V>(log: seq<Event<V>>, i: nat, k: nat, provider: string)
    requires i <= k <= |log|
    ensures Bumped(log, k, provider) - Bumped(log, i, provider) == |set n | i <= n < k && Bumps(log[n], provider)|
  {
    if i == k {
    } else {
      BumpedCounts(log, i, k - 1, provider);
      var fewer := set n | i <= n < k - 1 && Bumps(log[n], provider);
      assert (set n | i <= n < k && Bumps(log[n], provider)) ==
        if Bumps(log[k - 1], provider) then fewer + {k - 1} else fewer;
    }
  }

  lemma {:induction false} BumpedAppends<V>(log: seq<Event<V>>, e: Event<V>, k: nat, provider: string)
    requires k <= |log|
    ensures Bumped(log + [e], k, provider) == Bumped(log, k, provider)
  {
    if k == 0 {
    } else {
      BumpedAppends(log, e, k - 1, provider);
    }
  }

  lemma {:induction false} BumpedGrows<V>(log: seq<Event<V>>, i: nat, k: nat, provider: string)
    requires i <= k <= |log|
    ensures Bumped(log, i, provider) <= Bumped(log, k, provider)
  {
    if i == k {
    } else {
      BumpedGrows(log, i, k - 1, provider);
    }
  }

  /** An unchanged count means that nothing bumped the revision in between. */
  lemma {:induction false} NoneBetween<V>(log: seq<Event<V>>, i: nat, k: nat, provider: string)
    requires i <= k <= |log| && Bumped(log, i, provider) == Bumped(log, k, provider)
    ensures NoBumps(log, i, k, provider)
  {
    if i == k {
    } else {
      BumpedGrows(log, i, k - 1, provider);
      NoneBetween(log, i, k - 1, provider);
    }
  }

  ghost predicate NoBumps<V>(log: seq<Event<V>>, i: nat, k: nat, provider: string)
    requires k <= |log|
  {
    forall n :: i <= n < k ==> !Bumps(log[n], provider)
  }

  datatype Entry<V> = Entry(provider: string, value: V)
  datatype Phase<V> = Running | Waiting(revision: nat) | Returned(value: V) | Threw
  datatype Reader<V> = Reader(provider: string, query: string, signal: Option<nat>, phase: Phase<V>)

  /** The places in the log where a read began and last went on or ended, and the call behind it. */
  datatype Past = Past(startedAt: nat, resumedAt: nat, call: nat)

  /** How many of the first `k` events are transport calls of one read. */
  function CallsBy<V>(log: seq<Event<V>>, k: nat, reader: nat): nat
    requires k <= |log|
  {
    if k == 0 then 0
    else CallsBy(log, k - 1, reader) + if log[k - 1].Called? && log[k - 1].reader == reader then 1 else 0
  }

  lemma {:induction false} CallsCount<V>(log: seq<Event<V>>, k: nat, reader: nat)
    requires k <= |log|
    ensures CallsBy(log, k, reader) == |set n | 0 <= n < k && log[n].Called? && log[n].reader == reader|
  {
    if k == 0 {
    } else {
      CallsCount(log, k - 1, reader);
      var fewer := set n | 0 <= n < k - 1 && log[n].Called? && log[n].reader == reader;
      assert (set n | 0 <= n < k && log[n].Called? && log[n].reader == reader) ==
        if log[k - 1].Called? && log[k - 1].reader == reader then fewer + {k - 1} else fewer;
    }
  }

  lemma {:induction false} CallsAppend<V>(log: seq<Event<V>>, e: Event<V>, k: nat, reader: nat)
    requires k <= |log|
    ensures CallsBy(log + [e], k, reader) == CallsBy(log, k, reader)
  {
    if k == 0 {
    } else {
      CallsAppend(log, e, k - 1, reader);
    }
  }

  /** An event of a read's own. */
  predicate Own<V>(e: Event<V>, reader: nat) {
    (e.Began? || e.Called? || e.Finished?) && e.reader == reader
  }

  /** Only reads that have begun are in the log. */
  ghost predicate ReadersKnown<V>(log: seq<Event<V>>, readers: nat) {
    forall n, r: nat {:trigger Own(log[n], r)} :: 0 <= n < |log| && Own(log[n], r) ==> r < readers
  }

  lemma NothingYet<V>(log: seq<Event<V>>, reader: nat)
    requires ReadersKnown(log, reader)
    ensures forall n {:trigger log[n]} :: 0 <= n < |log| ==> !Own(log[n], reader)
  {
  }

  lemma {:induction false} NoCallsYet<V>(log: seq<Event<V>>, k: nat, reader: nat)
    requires k <= |log| && ReadersKnown(log, reader)
    ensures CallsBy(log, k, reader) == 0
  {
    if k == 0 {
    } else {
      assert !Own(log[k - 1], reader);
      NoCallsYet(log, k - 1, reader);
    }
  }

  /** The module's variables, with what the proofs keep track of. */
  datatype State<V> = State(
    cache: map<string, Entry<V>>,
    revisions: map<string, nat>,
    readers: seq<Reader<V>>,
    aborted: set<nat>,
    log: seq<Event<V>>,
    pasts: seq<Past>,
    fetched: map<string, nat>)   // the call behind each cached value

  function Revision(revisions: map<string, nat>, provider: string): nat {
    if provider in revisions then revisions[provider] else 0
  }

  /** Before place `k`, the transport answered that call, a call for this provider and query, with `value`. */
  ghost predicate Answered<V>(log: seq<Event<V>>, k: nat, call: nat, provider: string, query: string, value: V) {
    && call < k <= |log| && log[call].Called? && log[call].provider == provider && log[call].query == query
    && exists n :: call < n < k && log[n] == Replied(call, value)
  }

  lemma StaysAnswered<V>(log: seq<Event<V>>, more: seq<Event<V>>, k: nat, l: nat, call: nat,
          provider: string, query: string, value: V)
    requires Answered(log, k, call, provider, query, value) && log <= more && k <= l <= |more|
    ensures Answered(more, l, call, provider, query, value)
  {
    var n :| call < n < k && log[n] == Replied(call, value);
    assert more[n] == log[n];
  }

  ghost predicate RevisionOk<V>(provider: string, s: State<V>) {
    Revision(s.revisions, provider) == Bumped(s.log, |s.log|, provider)
  }

  /** A cached value answers a call for its key, made after the last bump of its provider. */
  ghost predicate EntryOk<V>(key: string, e: Entry<V>, s: State<V>) {
    && key in s.fetched && s.fetched[key] < |s.log| && s.log[s.fetched[key]].Called?
    && key == PairKey(e.provider, s.log[s.fetched[key]].query)
    && Answered(s.log, |s.log|, s.fetched[key], e.provider, s.log[s.fetched[key]].query, e.value)
    && Bumped(s.log, s.fetched[key], e.provider) == Bumped(s.log, |s.log|, e.provider)
  }

  /** What the log must hold for a read in this phase. */
  ghost predicate PhaseOk<V>(r: nat, x: Reader<V>, past: Past, log: seq<Event<V>>) {
    past.resumedAt < |log| &&
    match x.phase
    case Waiting(revision) =>
      && past.call == past.resumedAt && log[past.call] == Called(r, x.provider, x.query)
      && revision == Bumped(log, past.call, x.provider)
    case Returned(value) =>
      // The value was asked for after the last bump before it was returned.
      && log[past.resumedAt] == Finished(r, Some(value))
      && Answered(log, past.resumedAt, past.call, x.provider, x.query, value)
      && Bumped(log, past.call, x.provider) == Bumped(log, past.resumedAt, x.provider)
    case Running => true
    case Threw => log[past.resumedAt] == Finished(r, None)
  }

  ghost predicate ReaderOk<V>(r: nat, x: Reader<V>, past: Past, s: State<V>) {
    && past.startedAt <= past.resumedAt < |s.log| && s.log[past.startedAt] == Began(r, x.provider, x.query)
    && CallsBy(s.log, |s.log|, r) + Bumped(s.log, past.startedAt, x.provider) <=
       1 + Bumped(s.log, past.resumedAt, x.provider)
    && PhaseOk(r, x, past, s.log)
    && (forall n {:trigger Own(s.log[n], r)} :: 0 <= n < |s.log| && Own(s.log[n], r) ==>
          past.startedAt <= n <= past.resumedAt
          && (s.log[n].Finished? ==> n == past.resumedAt && (x.phase.Returned? || x.phase.Threw?)))
  }

  ghost predicate Consistent<V>(s: State<V>) {
    && |s.pasts| == |s.readers|
    && ReadersKnown(s.log, |s.readers|)
    && (forall p: string {:trigger RevisionOk(p, s)} :: RevisionOk(p, s))
    && (forall key: string {:trigger EntryOk(key, s.cache[key], s)} :: key in s.cache ==> EntryOk(key, s.cache[key], s))
    && (forall r: nat {:trigger ReaderOk(r, s.readers[r], s.pasts[r], s)} ::
          r < |s.readers| ==> ReaderOk(r, s.readers[r], s.pasts[r], s))
  }

  // What consistency means

  /** A cached value answers a call for its key that was made after the last clear that bumps its provider. */
  lemma CachedIsFresh<V>(s: State<V>, key: string)
    requires Consistent(s) && key in s.cache
    ensures key in s.fetched && s.fetched[key] < |s.log| && s.log[s.fetched[key]].Called?
    ensures var e, call := s.cache[key], s.fetched[key];
      && key == PairKey(e.provider, s.log[call].query)
      && Answered(s.log, |s.log|, call, e.provider, s.log[call].query, e.value)
      && NoBumps(s.log, call, |s.log|, e.provider)
  {
    assert EntryOk(key, s.cache[key], s);
    NoneBetween(s.log, s.fetched[key], |s.log|, s.cache[key].provider);
  }

  /** A read that has returned answered with a call for its provider and query, not bumped before the return. */
  lemma ReturnedWasFresh<V>(s: State<V>, r: nat)
    requires Consistent(s) && r < |s.readers| && s.readers[r].phase.Returned?
    ensures s.pasts[r].resumedAt < |s.log|
    ensures var x, past := s.readers[r], s.pasts[r];
      && s.log[past.resumedAt] == Finished(r, Some(x.phase.value))
      && Answered(s.log, past.resumedAt, past.call, x.provider, x.query, x.phase.value)
      && NoBumps(s.log, past.call, past.resumedAt, x.provider)
  {
    assert ReaderOk(r, s.readers[r], s.pasts[r], s);
    NoneBetween(s.log, s.pasts[r].call, s.pasts[r].resumedAt, s.readers[r].provider);
  }

  /**
   A read's events lie between its beginning and its last call or its end. It makes one call, and
   one more at most for every bump meanwhile.
   */
  lemma CallsAreBounded<V>(s: State<V>, r: nat)
    requires Consistent(s) && r < |s.readers|
    ensures s.pasts[r].startedAt <= s.pasts[r].resumedAt < |s.log|
    ensures s.log[s.pasts[r].startedAt] == Began(r, s.readers[r].provider, s.readers[r].query)
    ensures forall n {:trigger Own(s.log[n], r)} :: 0 <= n < |s.log| && Own(s.log[n], r) ==>
      s.pasts[r].startedAt <= n <= s.pasts[r].resumedAt
    ensures |set n | 0 <= n < |s.log| && s.log[n].Called? && s.log[n].reader == r| <=
      1 + |set n | s.pasts[r].startedAt <= n < s.pasts[r].resumedAt && Bumps(s.log[n], s.readers[r].provider)|
  {
    assert ReaderOk(r, s.readers[r], s.pasts[r], s);
    CallsCount(s.log, |s.log|, r);
    BumpedCounts(s.log, s.pasts[r].startedAt, s.pasts[r].resumedAt, s.readers[r].provider);
  }

  // Steps

  lemma PhaseStays<V>(r: nat, x: Reader<V>, past: Past, log: seq<Event<V>>, e: Event<V>)
    requires PhaseOk(r, x, past, log)
    ensures PhaseOk(r, x, past, log + [e])
  {
    BumpedAppends(log, e, past.resumedAt, x.provider);
    match x.phase
    case Waiting(_) =>
    case Returned(value) =>
      BumpedAppends(log, e, past.call, x.provider);
      StaysAnswered(log, log + [e], past.resumedAt, past.resumedAt, past.call, x.provider, x.query, value);
    case Running =>
    case Threw =>
  }

  /** An event at the end of the log changes nothing about what was before. */
  lemma ReaderStays<V>(r: nat, x: Reader<V>, past: Past, s: State<V>, t: State<V>, e: Event<V>)
    requires ReaderOk(r, x, past, s) && t.log == s.log + [e] && !Own(e, r)
    ensures ReaderOk(r, x, past, t)
  {
    CallsAppend(s.log, e, |s.log|, r);
    BumpedAppends(s.log, e, past.startedAt, x.provider);
    BumpedAppends(s.log, e, past.resumedAt, x.provider);
    PhaseStays(r, x, past, s.log, e);
    forall n | 0 <= n < |t.log| && Own(t.log[n], r)
      ensures past.startedAt <= n <= past.resumedAt
      ensures t.log[n].Finished? ==> n == past.resumedAt && (x.phase.Returned? || x.phase.Threw?)
    {
      assert n < |s.log| && Own(s.log[n], r);
    }
  }

  lemma EntryStays<V>(key: string, x: Entry<V>, s: State<V>, t: State<V>, e: Event<V>)
    requires EntryOk(key, x, s) && t.log == s.log + [e] && t.fetched == s.fetched && !Bumps(e, x.provider)
    ensures EntryOk(key, x, t)
  {
    BumpedAppends(s.log, e, s.fetched[key], x.provider);
    BumpedAppends(s.log, e, |s.log|, x.provider);
    StaysAnswered(s.log, t.log, |s.log|, |t.log|, s.fetched[key], x.provider, s.log[s.fetched[key]].query, x.value);
  }

  lemma RevisionStays<V>(provider: string, s: State<V>, t: State<V>, e: Event<V>)
    requires RevisionOk(provider, s) && t.log == s.log + [e]
    requires Revision(t.revisions, provider) == Revision(s.revisions, provider) + if Bumps(e, provider) then 1 else 0
    ensures RevisionOk(provider, t)
  {
    BumpedAppends(s.log, e, |s.log|, provider);
  }

  lemma StillKnown<V>(log: seq<Event<V>>, e: Event<V>, readers: nat, more: nat)
    requires ReadersKnown(log, readers) && readers <= more && forall r: nat :: Own(e, r) ==> r < more
    ensures ReadersKnown(log + [e], more)
  {
    var longer := log + [e];
    forall n, r: nat | 0 <= n < |longer| && Own(longer[n], r) ensures r < more {
      assert n < |log| ==> Own(log[n], r);
    }
  }

  /** What a clear leaves cached. */
  function Kept<V>(cache: map<string, Entry<V>>, scope: Option<string>): map<string, Entry<V>> {
    map key | key in cache && scope.Some? && cache[key].provider != scope.value :: cache[key]
  }

  function AfterClear<V>(s: State<V>, scope: Option<string>): State<V> {
    s.(cache := Kept(s.cache, scope), revisions := Raised(s.revisions, Bumping(scope)), log := s.log + [Cleared(scope)])
  }

  /** The revisions with those of some providers one higher. */
  function Raised(revisions: map<string, nat>, providers: seq<string>): (r: map<string, nat>)
    ensures forall p: string {:trigger Revision(r, p)} ::
      Revision(r, p) == Revision(revisions, p) + if p in providers then 1 else 0
  {
    map p | p in revisions.Keys + (set q | q in providers) ::
      Revision(revisions, p) + if p in providers then 1 else 0
  }

  /** The revisions a clear bumps. */
  function Bumping(scope: Option<string>): (providers: seq<string>)
    ensures forall p :: p in providers <==> InScope(scope, p)
    ensures forall i, j :: 0 <= i < j < |providers| ==> providers[i] != providers[j]
  {
    if scope.None? then KNOWN_PROVIDERS else [scope.value]
  }

  lemma ClearKeeps<V>(s: State<V>, scope: Option<string>)
    requires Consistent(s)
    ensures Consistent(AfterClear(s, scope))
  {
    var t, e := AfterClear(s, scope), Cleared(scope);
    forall p: string ensures RevisionOk(p, t) {
      assert RevisionOk(p, s);
      RevisionStays(p, s, t, e);
    }
    forall key: string | key in t.cache ensures EntryOk(key, t.cache[key], t) {
      assert EntryOk(key, s.cache[key], s);
      EntryStays(key, s.cache[key], s, t, e);
    }
    forall r: nat | r < |t.readers| ensures ReaderOk(r, t.readers[r], t.pasts[r], t) {
      assert ReaderOk(r, s.readers[r], s.pasts[r], s);
      ReaderStays(r, s.readers[r], s.pasts[r], s, t, e);
    }
    StillKnown(s.log, e, |s.readers|, |t.readers|);
  }

  function KeyOf<V>(x: Reader<V>): string {
    PairKey(x.provider, x.query)
  }

  /** A new read, before it has looked at anything. */
  function Begun<V>(s: State<V>, provider: string, query: string, signal: Option<nat>): State<V> {
    s.(readers := s.readers + [Reader(provider, query, signal, Running)],
       log := s.log + [Began(|s.readers|, provider, query)],
       pasts := s.pasts + [Past(|s.log|, |s.log|, 0)])
  }

  /** The top of the loop found nothing cached: remember the revision and call. */
  function Asking<V>(s: State<V>, r: nat): State<V>
    requires r < |s.readers| && r < |s.pasts|
  {
    var x := s.readers[r];
    s.(readers := s.readers[r := x.(phase := Waiting(Revision(s.revisions, x.provider)))],
       log := s.log + [Called(r, x.provider, x.query)],
       pasts := s.pasts[r := Past(s.pasts[r].startedAt, |s.log|, |s.log|)])
  }

  /** The call's answer has come; the read goes on. */
  function Resumed<V>(s: State<V>, r: nat, value: V): State<V>
    requires r < |s.readers| && r < |s.pasts|
  {
    s.(readers := s.readers[r := s.readers[r].(phase := Running)], log := s.log + [Replied(s.pasts[r].call, value)])
  }

  function Outcome<V>(phase: Phase<V>): Option<V> {
    if phase.Returned? then Some(phase.value) else None
  }

  function Ended<V>(s: State<V>, r: nat, phase: Phase<V>, call: nat): State<V>
    requires r < |s.readers| && r < |s.pasts|
  {
    s.(readers := s.readers[r := s.readers[r].(phase := phase)],
       log := s.log + [Finished(r, Outcome(phase))],
       pasts := s.pasts[r := s.pasts[r].(resumedAt := |s.log|, call := call)])
  }

  function Stored<V>(s: State<V>, r: nat, value: V): State<V>
    requires r < |s.readers| && r < |s.pasts|
  {
    s.(cache := s.cache[KeyOf(s.readers[r]) := Entry(s.readers[r].provider, value)],
       fetched := s.fetched[KeyOf(s.readers[r]) := s.pasts[r].call])
  }

  predicate GaveUp<V>(s: State<V>, x: Reader<V>) {
    x.signal.Some? && x.signal.value in s.aborted
  }

  /** The top of the loop: give up, hit, or call. */
  function Looped<V>(s: State<V>, r: nat): State<V>
    requires r < |s.readers| && r < |s.pasts|
  {
    var x := s.readers[r];
    var key := KeyOf(x);
    if GaveUp(s, x) then Ended(s, r, Threw, 0)
    else if key in s.cache && key in s.fetched then Ended(s, r, Returned(s.cache[key].value), s.fetched[key])
    else Asking(s, r)
  }

  /** An answer: dropped for an aborted reader, asked for again under a new revision, or stored and returned. */
  function AnsweredWith<V>(s: State<V>, r: nat, value: V): State<V>
    requires r < |s.readers| && r < |s.pasts| && s.readers[r].phase.Waiting?
  {
    var x, resumed := s.readers[r], Resumed(s, r, value);
    if GaveUp(s, x) then Ended(resumed, r, Threw, 0)
    else if x.phase.revision != Revision(s.revisions, x.provider) then Looped(resumed, r)
    else Ended(Stored(resumed, r, value), r, Returned(value), s.pasts[r].call)
  }

  /** The read is between two awaits and may call once more: every call so far has been outrun by a bump. */
  ghost predicate MayCall<V>(s: State<V>, r: nat)
    requires r < |s.readers| && r < |s.pasts|
  {
    && s.readers[r].phase.Running? && s.pasts[r].startedAt <= |s.log|
    && CallsBy(s.log, |s.log|, r) + Bumped(s.log, s.pasts[r].startedAt, s.readers[r].provider) <=
       Bumped(s.log, |s.log|, s.readers[r].provider)
  }

  ghost predicate SameReader<V>(i: nat, s: State<V>, t: State<V>) {
    && i < |s.readers| && i < |s.pasts| && i < |t.readers| && i < |t.pasts|
    && t.readers[i] == s.readers[i] && t.pasts[i] == s.pasts[i]
  }

  /** Steps that log one event and touch one reader only. */
  lemma OneEvent<V>(s: State<V>, t: State<V>, r: nat, e: Event<V>)
    requires Consistent(s) && r < |t.readers| == |t.pasts| && |s.readers| <= |t.readers|
    requires t.log == s.log + [e] && t.revisions == s.revisions && t.cache == s.cache && t.fetched == s.fetched
    requires !e.Cleared? && forall i: nat :: Own(e, i) ==> i == r
    requires forall i: nat {:trigger SameReader(i, s, t)} :: i < |t.readers| && i != r ==> SameReader(i, s, t)
    requires ReaderOk(r, t.readers[r], t.pasts[r], t)
    ensures Consistent(t)
  {
    forall p: string ensures RevisionOk(p, t) {
      assert RevisionOk(p, s);
      RevisionStays(p, s, t, e);
    }
    forall key: string | key in t.cache ensures EntryOk(key, t.cache[key], t) {
      assert EntryOk(key, s.cache[key], s);
      EntryStays(key, s.cache[key], s, t, e);
    }
    forall i: nat | i < |t.readers| ensures ReaderOk(i, t.readers[i], t.pasts[i], t) {
      if i != r {
        assert SameReader(i, s, t) && ReaderOk(i, s.readers[i], s.pasts[i], s);
        ReaderStays(i, s.readers[i], s.pasts[i], s, t, e);
      }
    }
    StillKnown(s.log, e, |s.readers|, |t.readers|);
  }

  lemma BegunKeeps<V>(s: State<V>, provider: string, query: string, signal: Option<nat>)
    requires Consistent(s)
    ensures Consistent(Begun(s, provider, query, signal)) && MayCall(Begun(s, provider, query, signal), |s.readers|)
  {
    var t, r, e := Begun(s, provider, query, signal), |s.readers|, Began(|s.readers|, provider, query);
    NoCallsYet(s.log, |s.log|, r);
    CallsAppend(s.log, e, |s.log|, r);
    NothingYet(s.log, r);
    forall i: nat | i < |s.readers| ensures SameReader(i, s, t) {}
    OneEvent(s, t, r, e);
  }

  /** A read's last event lies at the end of the log. */
  lemma LastOfOwn<V>(s: State<V>, t: State<V>, r: nat, e: Event<V>)
    requires r < |s.readers| && r < |s.pasts| && ReaderOk(r, s.readers[r], s.pasts[r], s)
    requires !s.readers[r].phase.Returned? && !s.readers[r].phase.Threw? && t.log == s.log + [e]
    ensures forall n {:trigger Own(t.log[n], r)} :: 0 <= n < |t.log| && Own(t.log[n], r) ==>
      s.pasts[r].startedAt <= n <= |s.log| && (t.log[n].Finished? ==> n == |s.log|)
  {
    forall n | 0 <= n < |t.log| && Own(t.log[n], r)
      ensures s.pasts[r].startedAt <= n <= |s.log| && (t.log[n].Finished? ==> n == |s.log|)
    {
      assert n < |s.log| ==> Own(s.log[n], r);
    }
  }

  lemma EndedKeeps<V>(s: State<V>, r: nat, phase: Phase<V>, call: nat)
    requires Consistent(s) && r < |s.readers| && (phase.Threw? || phase.Returned?)
    requires !s.readers[r].phase.Returned? && !s.readers[r].phase.Threw?
    requires phase.Returned? ==>
      && Answered(s.log, |s.log|, call, s.readers[r].provider, s.readers[r].query, phase.value)
      && Bumped(s.log, call, s.readers[r].provider) == Bumped(s.log, |s.log|, s.readers[r].provider)
    ensures Consistent(Ended(s, r, phase, call))
  {
    var t, x, e := Ended(s, r, phase, call), s.readers[r], Finished(r, Outcome(phase));
    assert ReaderOk(r, x, s.pasts[r], s);
    LastOfOwn(s, t, r, e);
    CallsAppend(s.log, e, |s.log|, r);
    BumpedAppends(s.log, e, s.pasts[r].startedAt, x.provider);
    BumpedAppends(s.log, e, |s.log|, x.provider);
    BumpedGrows(s.log, s.pasts[r].resumedAt, |s.log|, x.provider);
    if phase.Returned? {
      BumpedAppends(s.log, e, call, x.provider);
      StaysAnswered(s.log, t.log, |s.log|, |s.log|, call, x.provider, x.query, phase.value);
    }
    forall i: nat | i < |s.readers| && i != r ensures SameReader(i, s, t) {}
    OneEvent(s, t, r, e);
  }

  /** A cache hit returns a value that is fresh now. */
  lemma HitIsFresh<V>(s: State<V>, r: nat)
    requires Consistent(s) && r < |s.readers| && KeyOf(s.readers[r]) in s.cache
    ensures var x, key := s.readers[r], KeyOf(s.readers[r]);
      && key in s.fetched && Answered(s.log, |s.log|, s.fetched[key], x.provider, x.query, s.cache[key].value)
      && Bumped(s.log, s.fetched[key], x.provider) == Bumped(s.log, |s.log|, x.provider)
  {
    var x, key := s.readers[r], KeyOf(s.readers[r]);
    assert EntryOk(key, s.cache[key], s);
    PairKeyInjective(x.provider, x.query, s.cache[key].provider, s.log[s.fetched[key]].query);
  }

  lemma AskingKeeps<V>(s: State<V>, r: nat)
    requires Consistent(s) && r < |s.readers| && MayCall(s, r)
    ensures Consistent(Asking(s, r))
  {
    var t, x := Asking(s, r), s.readers[r];
    var e := Called(r, x.provider, x.query);
    assert ReaderOk(r, x, s.pasts[r], s) && RevisionOk(x.provider, s);
    LastOfOwn(s, t, r, e);
    CallsAppend(s.log, e, |s.log|, r);
    BumpedAppends(s.log, e, s.pasts[r].startedAt, x.provider);
    BumpedAppends(s.log, e, |s.log|, x.provider);
    forall i: nat | i < |s.readers| && i != r ensures SameReader(i, s, t) {}
    OneEvent(s, t, r, e);
  }

  /** An answer for one call leaves what is cached and the other reads alone. */
  lemma ResumedKeeps<V>(s: State<V>, r: nat, value: V)
    requires Consistent(s) && r < |s.readers| && s.readers[r].phase.Waiting?
    ensures var t, x, call := Resumed(s, r, value), s.readers[r], s.pasts[r].call;
      && Consistent(t) && Answered(t.log, |t.log|, call, x.provider, x.query, value)
      && (x.phase.revision != Revision(t.revisions, x.provider) ==> MayCall(t, r))
      && (x.phase.revision == Revision(t.revisions, x.provider) ==>
            Bumped(t.log, call, x.provider) == Bumped(t.log, |t.log|, x.provider))
  {
    var t, x, past := Resumed(s, r, value), s.readers[r], s.pasts[r];
    var e := Replied(past.call, value);
    assert ReaderOk(r, x, past, s) && RevisionOk(x.provider, s);
    ReaderStays(r, x, past, s, t, e);
    assert t.log[|s.log|] == e;
    CallsAppend(s.log, e, |s.log|, r);
    BumpedAppends(s.log, e, past.startedAt, x.provider);
    BumpedAppends(s.log, e, past.call, x.provider);
    BumpedAppends(s.log, e, |s.log|, x.provider);
    BumpedGrows(s.log, past.call, |s.log|, x.provider);
    assert ReaderOk(r, t.readers[r], past, t);
    forall i: nat | i < |s.readers| && i != r ensures SameReader(i, s, t) {}
    OneEvent(s, t, r, e);
  }

  lemma StoredKeeps<V>(s: State<V>, r: nat, value: V)
    requires Consistent(s) && r < |s.readers|
    requires var x, call := s.readers[r], s.pasts[r].call;
      && Answered(s.log, |s.log|, call, x.provider, x.query, value)
      && Bumped(s.log, call, x.provider) == Bumped(s.log, |s.log|, x.provider)
    ensures Consistent(Stored(s, r, value))
  {
    var t, stored := Stored(s, r, value), KeyOf(s.readers[r]);
    forall p: string ensures RevisionOk(p, t) { assert RevisionOk(p, s); }
    forall key: string | key in t.cache ensures EntryOk(key, t.cache[key], t) {
      if key != stored { assert EntryOk(key, s.cache[key], s); }
    }
    forall i: nat | i < |t.readers| ensures ReaderOk(i, t.readers[i], t.pasts[i], t) {
      assert ReaderOk(i, s.readers[i], s.pasts[i], s);
    }
  }

  /** Storing an answer and returning it. */
  lemma StoredAndEnded<V>(s: State<V>, r: nat, value: V)
    requires Consistent(s) && r < |s.readers| && s.readers[r].phase.Running?
    requires var x, call := s.readers[r], s.pasts[r].call;
      && Answered(s.log, |s.log|, call, x.provider, x.query, value)
      && Bumped(s.log, call, x.provider) == Bumped(s.log, |s.log|, x.provider)
    ensures Consistent(Ended(Stored(s, r, value), r, Returned(value), s.pasts[r].call))
  {
    StoredKeeps(s, r, value);
    EndedKeeps(Stored(s, r, value), r, Returned(value), s.pasts[r].call);
  }

  lemma LoopedKeeps<V>(s: State<V>, r: nat)
    requires Consistent(s) && r < |s.readers| && MayCall(s, r)
    ensures Consistent(Looped(s, r)) && (KeyOf(s.readers[r]) in s.cache ==> KeyOf(s.readers[r]) in s.fetched)
  {
    var x := s.readers[r];
    if KeyOf(x) in s.cache { HitIsFresh(s, r); }
    if GaveUp(s, x) {
      EndedKeeps(s, r, Threw, 0);
    } else if KeyOf(x) in s.cache {
      EndedKeeps(s, r, Returned(s.cache[KeyOf(x)].value), s.fetched[KeyOf(x)]);
    } else {
      AskingKeeps(s, r);
    }
  }

  lemma AnsweredKeeps<V>(s: State<V>, r: nat, value: V)
    requires Consistent(s) && r < |s.readers| && s.readers[r].phase.Waiting?
    ensures Consistent(AnsweredWith(s, r, value))
  {
    var x, resumed := s.readers[r], Resumed(s, r, value);
    ResumedKeeps(s, r, value);
    if GaveUp(s, x) {
      EndedKeeps(resumed, r, Threw, 0);
    } else if x.phase.revision != Revision(s.revisions, x.provider) {
      LoopedKeeps(resumed, r);
    } else {
      StoredAndEnded(resumed, r, value);
    }
  }

  lemma AbortKeeps<V>(s: State<V>, signal: nat)
    requires Consistent(s)
    ensures Consistent(s.(aborted := s.aborted + {signal}))
  {
    var t := s.(aborted := s.aborted + {signal});
    forall p: string ensures RevisionOk(p, t) { assert RevisionOk(p, s); }
    forall key: string | key in t.cache ensures EntryOk(key, t.cache[key], t) { assert EntryOk(key, s.cache[key], s); }
    forall i: nat | i < |t.readers| ensures ReaderOk(i, t.readers[i], t.pasts[i], t) {
      assert ReaderOk(i, s.readers[i], s.pasts[i], s);
    }
  }

  /** The three ways in which an answer is taken. */
  lemma AnswerSays<V>(s: State<V>, r: nat, value: V)
    requires Consistent(s) && r < |s.readers| && s.readers[r].phase.Waiting?
    ensures var x, key, t := s.readers[r], KeyOf(s.readers[r]), AnsweredWith(s, r, value);
      && t.log[|s.log|] == Replied(s.pasts[r].call, value)
      && (GaveUp(s, x) ==>
            t.readers[r].phase == Threw && t.cache == s.cache && t.log[|s.log| + 1..] == [Finished(r, None)])
      && (!GaveUp(s, x) && x.phase.revision == Revision(s.revisions, x.provider) ==>
            && t.readers[r].phase == Returned(value) && t.cache == s.cache[key := Entry(x.provider, value)]
            && t.log[|s.log| + 1..] == [Finished(r, Some(value))])
      && (!GaveUp(s, x) && x.phase.revision != Revision(s.revisions, x.provider) ==>
            && t.cache == s.cache
            && if key in s.cache then t.readers[r].phase == Returned(s.cache[key].value)
               else t.readers[r].phase.Waiting? && t.log[|s.log| + 1..] == [Called(r, x.provider, x.query)])
  {
    if KeyOf(s.readers[r]) in s.cache { HitIsFresh(s, r); }
  }

  // Runs

  datatype Step<V> =
    | Reads(provider: string, query: string, signal: Option<nat>)
    | Answers(reader: nat, value: V)
    | Rejects(reader: nat)
    | Aborts(which: nat)
    | Clears(scope: Option<string>)

  /** One step; an answer that no read waits for changes nothing. */
  function Taken<V>(s: State<V>, step: Step<V>): (t: State<V>)
    requires |s.pasts| == |s.readers|
    ensures |t.pasts| == |t.readers| >= |s.readers|
  {
    match step
    case Reads(provider, query, signal) => Looped(Begun(s, provider, query, signal), |s.readers|)
    case Answers(r, value) => if r < |s.readers| && s.readers[r].phase.Waiting? then AnsweredWith(s, r, value) else s
    case Rejects(r) => if r < |s.readers| && s.readers[r].phase.Waiting? then Ended(s, r, Threw, 0) else s
    case Aborts(signal) => s.(aborted := s.aborted + {signal})
    case Clears(provider) => AfterClear(s, ScopeOf(provider))
  }

  /** The state after a run. */
  function After<V>(steps: seq<Step<V>>): (s: State<V>)
    ensures |s.pasts| == |s.readers|
  {
    if steps == [] then State(map[], map[], [], {}, [], [], map[])
    else Taken(After(steps[..|steps| - 1]), steps[|steps| - 1])
  }

  lemma TakenKeeps<V>(s: State<V>, step: Step<V>)
    requires Consistent(s)
    ensures Consistent(Taken(s, step))
  {
    match step
    case Reads(provider, query, signal) =>
      BegunKeeps(s, provider, query, signal);
      LoopedKeeps(Begun(s, provider, query, signal), |s.readers|);
    case Answers(r, value) => if r < |s.readers| && s.readers[r].phase.Waiting? { AnsweredKeeps(s, r, value); }
    case Rejects(r) => if r < |s.readers| && s.readers[r].phase.Waiting? { EndedKeeps(s, r, Threw, 0); }
    case Aborts(signal) => AbortKeeps(s, signal);
    case Clears(provider) => ClearKeeps(s, ScopeOf(provider));
  }

  lemma {:induction false} AfterIsConsistent<V>(steps: seq<Step<V>>)
    ensures Consistent(After(steps))
  {
    if steps == [] {
    } else {
      AfterIsConsistent(steps[..|steps| - 1]);
      TakenKeeps(After(steps[..|steps| - 1]), steps[|steps| - 1]);
    }
  }

  /** That call is for the key and was answered with its value, and no clear has bumped its provider since. */
  ghost predicate FreshFrom<V>(s: State<V>, key: string, call: nat, query: string)
    requires key in s.cache
  {
    var e := s.cache[key];
    && key == PairKey(e.provider, query)
    && Answered(s.log, |s.log|, call, e.provider, query, e.value)
    && NoBumps(s.log, call, |s.log|, e.provider)
  }

  /** Every cached value answers a call for its key, made after the latest clear that bumps its provider. */
  ghost predicate FreshCache<V>(s: State<V>) {
    forall key :: key in s.cache ==> FreshEntry(s, key)
  }

  ghost predicate FreshEntry<V>(s: State<V>, key: string)
    requires key in s.cache
  {
    exists call, query :: FreshFrom(s, key, call, query)
  }

  /**
   The read began and last called or ended at those places, and called no more often than one call
   and the bumps in between. If it returned, it did so at the second place, with the answer to that
   call, and no clear bumped its provider between the call and the return.
   */
  ghost predicate FreshWithin<V>(s: State<V>, r: nat, began: nat, now: nat, call: nat)
    requires r < |s.readers|
  {
    var x := s.readers[r];
    && began <= now < |s.log| && s.log[began] == Began(r, x.provider, x.query)
    && (forall n {:trigger Own(s.log[n], r)} :: 0 <= n < |s.log| && Own(s.log[n], r) ==> began <= n <= now)
    && |set n | 0 <= n < |s.log| && s.log[n].Called? && s.log[n].reader == r| <=
      1 + |set n | began <= n < now && Bumps(s.log[n], x.provider)|
    && (x.phase.Returned? ==>
          && s.log[now] == Finished(r, Some(x.phase.value))
          && Answered(s.log, now, call, x.provider, x.query, x.phase.value)
          && NoBumps(s.log, call, now, x.provider))
  }

  ghost predicate FreshReads<V>(s: State<V>) {
    forall r :: 0 <= r < |s.readers| ==> FreshRead(s, r)
  }

  ghost predicate FreshRead<V>(s: State<V>, r: nat)
    requires r < |s.readers|
  {
    exists began, now, call :: FreshWithin(s, r, began, now, call)
  }

  lemma EntryIsFresh<V>(s: State<V>, key: string)
    requires Consistent(s) && key in s.cache
    ensures FreshEntry(s, key)
  {
    CachedIsFresh(s, key);
    assert FreshFrom(s, key, s.fetched[key], s.log[s.fetched[key]].query);
  }

  lemma ReadIsFresh<V>(s: State<V>, r: nat)
    requires Consistent(s) && r < |s.readers|
    ensures FreshRead(s, r)
  {
    CallsAreBounded(s, r);
    if s.readers[r].phase.Returned? { ReturnedWasFresh(s, r); }
    assert FreshWithin(s, r, s.pasts[r].startedAt, s.pasts[r].resumedAt, s.pasts[r].call);
  }

  // What the cache is for: a read after a read that has returned makes no call.

  /** A clear that concerns a provider's entries. */
  ghost predicate ClearsFor<V>(e: Event<V>, provider: string) {
    e.Cleared? && (e.scope.None? || e.scope.value == provider)
  }

  ghost predicate NoClears<V>(log: seq<Event<V>>, i: nat, k: nat, provider: string)
    requires k <= |log|
  {
    forall n :: i <= n < k ==> !ClearsFor(log[n], provider)
  }

  predicate HasEnded<V>(x: Reader<V>) {
    x.phase.Returned? || x.phase.Threw?
  }

  /** What a read has returned is still cached, if nothing has cleared its provider since. */
  ghost predicate Recalls<V>(q: nat, s: State<V>)
    requires q < |s.readers| && q < |s.pasts|
  {
    s.readers[q].phase.Returned? && NoClears(s.log, s.pasts[q].resumedAt, |s.log|, s.readers[q].provider) ==>
      KeyOf(s.readers[q]) in s.cache
  }

  /** A read that begins after one of the same provider and query returned, with no clear in between, makes no call. */
  ghost predicate CallsNoMore<V>(q: nat, r: nat, s: State<V>)
    requires q < |s.readers| && q < |s.pasts| && r < |s.readers| && r < |s.pasts|
  {
    (&& s.readers[q].phase.Returned? && s.pasts[q].resumedAt < s.pasts[r].startedAt <= |s.log|
     && s.readers[q].provider == s.readers[r].provider && s.readers[q].query == s.readers[r].query
     && NoClears(s.log, s.pasts[q].resumedAt, s.pasts[r].startedAt, s.readers[q].provider)) ==>
      HasEnded(s.readers[r]) && CallsBy(s.log, |s.log|, r) == 0
  }

  ghost predicate Remembers<V>(s: State<V>) {
    && |s.pasts| == |s.readers|
    && (forall q: nat {:trigger Recalls(q, s)} :: q < |s.readers| ==> Recalls(q, s))
    && (forall q: nat, r: nat {:trigger CallsNoMore(q, r, s)} :: q < |s.readers| && r < |s.readers| ==>
          CallsNoMore(q, r, s))
  }

  lemma {:induction false} CallsSame<V>(log: seq<Event<V>>, more: seq<Event<V>>, r: nat)
    requires log <= more && forall n :: |log| <= n < |more| ==> !(more[n].Called? && more[n].reader == r)
    ensures CallsBy(more, |more|, r) == CallsBy(log, |log|, r)
    decreases |more|
  {
    if more == log {
    } else {
      var front := more[..|more| - 1];
      CallsSame(log, front, r);
      CallsAppend(front, more[|more| - 1], |front|, r);
      assert more == front + [more[|more| - 1]];
    }
  }

  /** A step of one read: it was waiting or is new, and nothing is cleared. */
  ghost predicate OneReads<V>(s: State<V>, t: State<V>, r: nat) {
    && |s.pasts| == |s.readers| <= |t.readers| == |t.pasts| && r < |t.readers| && s.log <= t.log
    && (forall i: nat {:trigger SameReader(i, s, t)} :: i < |t.readers| && i != r ==> SameReader(i, s, t))
    && (forall n :: |s.log| <= n < |t.log| ==>
          !t.log[n].Cleared? && (t.log[n].Called? ==> t.log[n].reader == r))
    && s.cache.Keys <= t.cache.Keys
    && (if r < |s.readers| then
          && s.readers[r].phase.Waiting? && t.pasts[r].startedAt == s.pasts[r].startedAt
          && t.readers[r].provider == s.readers[r].provider && t.readers[r].query == s.readers[r].query
        else
          && t.pasts[r].startedAt == |s.log|
          && (KeyOf(t.readers[r]) in s.cache ==> HasEnded(t.readers[r]) && CallsBy(t.log, |t.log|, r) == 0))
    && (t.readers[r].phase.Returned? ==> KeyOf(t.readers[r]) in t.cache && t.pasts[r].resumedAt >= |s.log|)
  }

  lemma RecallsStill<V>(s: State<V>, t: State<V>, r: nat, q: nat)
    requires Remembers(s) && OneReads(s, t, r) && q < |t.readers|
    ensures Recalls(q, t)
  {
    if q != r {
      assert SameReader(q, s, t) && Recalls(q, s);
      if NoClears(t.log, t.pasts[q].resumedAt, |t.log|, t.readers[q].provider) {
        forall n | s.pasts[q].resumedAt <= n < |s.log| ensures !ClearsFor(s.log[n], s.readers[q].provider) {
          assert t.log[n] == s.log[n];
        }
      }
    }
  }

  lemma CallsNoMoreStill<V>(s: State<V>, t: State<V>, r: nat, q: nat, i: nat)
    requires Consistent(s) && Remembers(s) && OneReads(s, t, r) && q < |t.readers| && i < |t.readers|
    ensures CallsNoMore(q, i, t)
  {
    if t.readers[q].phase.Returned? && t.pasts[q].resumedAt < t.pasts[i].startedAt <= |t.log|
       && t.readers[q].provider == t.readers[i].provider && t.readers[q].query == t.readers[i].query
       && NoClears(t.log, t.pasts[q].resumedAt, t.pasts[i].startedAt, t.readers[q].provider)
    {
      if i < |s.readers| { assert ReaderOk(i, s.readers[i], s.pasts[i], s); }
      assert i != r ==> SameReader(i, s, t);
      assert q != r && SameReader(q, s, t);
      forall n | s.pasts[q].resumedAt <= n < t.pasts[i].startedAt && n < |s.log|
        ensures !ClearsFor(s.log[n], s.readers[q].provider)
      {
        assert t.log[n] == s.log[n];
      }
      if i < |s.readers| {
        assert CallsNoMore(q, i, s);
        assert i != r;
        CallsSame(s.log, t.log, i);
      } else {
        assert Recalls(q, s);
      }
    }
  }

  lemma OneReadsKeeps<V>(s: State<V>, t: State<V>, r: nat)
    requires Consistent(s) && Remembers(s) && OneReads(s, t, r)
    ensures Remembers(t)
  {
    forall q: nat | q < |t.readers| ensures Recalls(q, t) { RecallsStill(s, t, r, q); }
    forall q: nat, i: nat | q < |t.readers| && i < |t.readers| ensures CallsNoMore(q, i, t) {
      CallsNoMoreStill(s, t, r, q, i);
    }
  }

  lemma ReadRemembers<V>(s: State<V>, provider: string, query: string, signal: Option<nat>)
    requires Consistent(s)
    ensures OneReads(s, Looped(Begun(s, provider, query, signal), |s.readers|), |s.readers|)
  {
    var begun, r := Begun(s, provider, query, signal), |s.readers|;
    var t := Looped(begun, r);
    BegunKeeps(s, provider, query, signal);
    if KeyOf(begun.readers[r]) in s.cache {
      HitIsFresh(begun, r);
      NoCallsYet(s.log, |s.log|, r);
      CallsSame(s.log, t.log, r);
    }
    forall i: nat | i < r ensures SameReader(i, s, t) {}
  }

  lemma AnswerRemembers<V>(s: State<V>, r: nat, value: V)
    requires Consistent(s) && r < |s.readers| && s.readers[r].phase.Waiting?
    ensures OneReads(s, AnsweredWith(s, r, value), r)
  {
    var t := AnsweredWith(s, r, value);
    forall i: nat | i < |s.readers| && i != r ensures SameReader(i, s, t) {}
  }

  /** A clear keeps what it does not concern. */
  lemma ClearRemembers<V>(s: State<V>, scope: Option<string>)
    requires Consistent(s) && Remembers(s)
    ensures Remembers(AfterClear(s, scope))
  {
    var t := AfterClear(s, scope);
    forall q: nat | q < |t.readers| ensures Recalls(q, t) {
      var x := s.readers[q];
      assert Recalls(q, s);
      if x.phase.Returned? && NoClears(t.log, s.pasts[q].resumedAt, |t.log|, x.provider) {
        assert ReaderOk(q, x, s.pasts[q], s);
        assert !ClearsFor(t.log[|s.log|], x.provider);
        forall n | s.pasts[q].resumedAt <= n < |s.log| ensures !ClearsFor(s.log[n], x.provider) {
          assert t.log[n] == s.log[n];
        }
        CachedProvider(s, q);
      }
    }
    forall q: nat, i: nat | q < |t.readers| && i < |t.readers| ensures CallsNoMore(q, i, t) {
      assert CallsNoMore(q, i, s);
      assert ReaderOk(i, s.readers[i], s.pasts[i], s);
      if NoClears(t.log, t.pasts[q].resumedAt, t.pasts[i].startedAt, t.readers[q].provider) {
        forall n | s.pasts[q].resumedAt <= n < s.pasts[i].startedAt
          ensures !ClearsFor(s.log[n], s.readers[q].provider)
        {
          assert t.log[n] == s.log[n];
        }
      }
      CallsSame(s.log, t.log, i);
    }
  }

  /** What is cached under a read's key is cached for its provider. */
  lemma CachedProvider<V>(s: State<V>, r: nat)
    requires Consistent(s) && r < |s.readers| && KeyOf(s.readers[r]) in s.cache
    ensures s.cache[KeyOf(s.readers[r])].provider == s.readers[r].provider
  {
    var x, key := s.readers[r], KeyOf(s.readers[r]);
    assert EntryOk(key, s.cache[key], s);
    PairKeyInjective(x.provider, x.query, s.cache[key].provider, s.log[s.fetched[key]].query);
  }

  lemma TakenRemembers<V>(s: State<V>, step: Step<V>)
    requires Consistent(s) && Remembers(s)
    ensures Remembers(Taken(s, step))
  {
    match step
    case Reads(provider, query, signal) =>
      ReadRemembers(s, provider, query, signal);
      OneReadsKeeps(s, Taken(s, step), |s.readers|);
    case Answers(r, value) =>
      if r < |s.readers| && s.readers[r].phase.Waiting? {
        AnswerRemembers(s, r, value);
        OneReadsKeeps(s, Taken(s, step), r);
      }
    case Rejects(r) =>
      if r < |s.readers| && s.readers[r].phase.Waiting? {
        forall i: nat | i < |s.readers| && i != r ensures SameReader(i, s, Taken(s, step)) {}
        OneReadsKeeps(s, Taken(s, step), r);
      }
    case Aborts(signal) => AbortRemembers(s, signal);
    case Clears(provider) => ClearRemembers(s, ScopeOf(provider));
  }

  lemma AbortRemembers<V>(s: State<V>, signal: nat)
    requires Remembers(s)
    ensures Remembers(s.(aborted := s.aborted + {signal}))
  {
    var t := s.(aborted := s.aborted + {signal});
    forall q: nat | q < |t.readers| ensures Recalls(q, t) { assert Recalls(q, s); }
    forall q: nat, i: nat | q < |t.readers| && i < |t.readers| ensures CallsNoMore(q, i, t) {
      assert CallsNoMore(q, i, s);
    }
  }

  /**
   After every sequence of steps: a read that began after another one of the same provider and query
   had returned, with no clear of its provider or of everything in between, has made no call.
   */
  lemma {:induction false} EveryRunRemembers<V>(steps: seq<Step<V>>)
    ensures Remembers(After(steps))
  {
    if steps == [] {
    } else {
      var before := After(steps[..|steps| - 1]);
      AfterIsConsistent(steps[..|steps| - 1]);
      EveryRunRemembers(steps[..|steps| - 1]);
      TakenRemembers(before, steps[|steps| - 1]);
    }
  }

  /** However reads, answers, failures, aborts and clears interleave. */
  lemma EveryRunIsFresh<V>(steps: seq<Step<V>>)
    ensures FreshCache(After(steps)) && FreshReads(After(steps))
  {
    var s := After(steps);
    AfterIsConsistent(steps);
    forall key | key in s.cache ensures FreshEntry(s, key) { EntryIsFresh(s, key); }
    forall r: nat | r < |s.readers| ensures FreshRead(s, r) { ReadIsFresh(s, r); }
  }

  /** The first loop of a clear. */
  method DeleteEach<V>(cache: map<string, Entry<V>>, provider: Option<string>) returns (kept: map<string, Entry<V>>)
    ensures kept == Kept(cache, ScopeOf(provider))
  {
    kept := cache;
    var all := provider == None || provider.value == "";
    var left := cache.Keys;
    while left != {}
      invariant left <= cache.Keys
      invariant forall key ::
        key in kept <==> key in cache && (key in left || (!all && cache[key].provider != provider.value))
      invariant forall key :: key in kept ==> kept[key] == cache[key]
      decreases |left|
    {
      var key :| key in left;
      left := left - {key};
      if all || kept[key].provider == provider.value { kept := kept - {key}; }
    }
  }

  /** The second loop of a clear. */
  method BumpEach(revisions: map<string, nat>, providers: seq<string>) returns (bumped: map<string, nat>)
    requires forall i, j :: 0 <= i < j < |providers| ==> providers[i] != providers[j]
    ensures bumped == Raised(revisions, providers)
  {
    bumped := revisions;
    for i := 0 to |providers|
      invariant bumped == Raised(revisions, providers[..i])
    {
      ghost var before := bumped;
      bumped := bumped[providers[i] := Revision(bumped, providers[i]) + 1];
      RaisedOneMore(revisions, providers, i);
    }
    assert providers[..|providers|] == providers;
  }

  lemma RaisedOneMore(revisions: map<string, nat>, providers: seq<string>, i: nat)
    requires i < |providers| && forall j, k :: 0 <= j < k < |providers| ==> providers[j] != providers[k]
    ensures var before := Raised(revisions, providers[..i]);
      Raised(revisions, providers[..i + 1]) == before[providers[i] := Revision(before, providers[i]) + 1]
  {
    var before, p := Raised(revisions, providers[..i]), providers[i];
    assert providers[..i + 1] == providers[..i] + [p] && p !in providers[..i];
    assert Revision(before, p) == Revision(revisions, p);
  }

  class ConfigurationCache<V> {
    var cache: map<string, Entry<V>>
    var revisions: map<string, nat>
    var readers: seq<Reader<V>>
    var aborted: set<nat>
    ghost var log: seq<Event<V>>
    ghost var pasts: seq<Past>
    ghost var fetched: map<string, nat>

    ghost function Now(): State<V>
      reads this
    {
      State(cache, revisions, readers, aborted, log, pasts, fetched)
    }

    constructor ()
      ensures Consistent(Now()) && Now() == After([])
    {
      cache, revisions, readers, aborted := map[], map[], [], {};
      log, pasts, fetched := [], [], map[];
    }

    /** `clearIntegrationConfigurationCache` */
    method Clear(provider: Option<string>)
      requires Consistent(Now())
      modifies this`cache, this`revisions, this`log
      ensures Consistent(Now()) && Now() == AfterClear(old(Now()), ScopeOf(provider))
      // No provider, or an empty one, means everything.
      ensures forall key :: key in cache <==>
        key in old(cache) && provider.Some? && provider.value != "" && old(cache)[key].provider != provider.value
      ensures forall key :: key in cache ==> cache[key] == old(cache)[key]
      ensures forall p: string {:trigger Revision(revisions, p)} ::
        Revision(revisions, p) == Revision(old(revisions), p) +
          if (if provider.Some? && provider.value != "" then p == provider.value
              else p == "github" || p == "gitlab" || p == "jira" || p == "cacheServer") then 1 else 0
    {
      ClearKeeps(Now(), ScopeOf(provider));
      cache := DeleteEach(cache, provider);
      revisions := BumpEach(revisions, Bumping(if provider == Some("") then None else provider));
      log := log + [Cleared(ScopeOf(provider))];
    }

    /** A signal's flag; the reads that captured it look at it when they go on. */
    method AbortSignal(signal: nat)
      requires Consistent(Now())
      modifies this`aborted
      ensures Consistent(Now()) && Now() == old(Now()).(aborted := old(aborted) + {signal})
    {
      AbortKeeps(Now(), signal);
      aborted := aborted + {signal};
    }

    /** The read's promise settles. */
    method End(r: nat, phase: Phase<V>, ghost call: nat)
      requires r < |readers| && r < |pasts|
      modifies this`readers, this`pasts, this`log
      ensures Now() == Ended(old(Now()), r, phase, call)
    {
      readers := readers[r := readers[r].(phase := phase)];
      pasts := pasts[r := pasts[r].(resumedAt := |log|, call := call)];
      log := log + [Finished(r, Outcome(phase))];
    }

    /** The top of the loop: give up, hit, or remember the revision and call. */
    method Loop(r: nat)
      requires Consistent(Now()) && r < |readers| && MayCall(Now(), r)
      modifies this`readers, this`pasts, this`log
      ensures Consistent(Now()) && |readers| == old(|readers|) && !readers[r].phase.Running?
      ensures Now() == Looped(old(Now()), r)
      ensures var x, key := old(readers)[r], PairKey(old(readers)[r].provider, old(readers)[r].query);
        if x.signal.Some? && x.signal.value in aborted then
          readers[r].phase == Threw && log == old(log) + [Finished(r, None)]
        else if key in cache then
          readers[r].phase == Returned(cache[key].value) && log == old(log) + [Finished(r, Some(cache[key].value))]
        else
          && readers[r].phase == Waiting(if x.provider in revisions then revisions[x.provider] else 0)
          && log == old(log) + [Called(r, x.provider, x.query)]
    {
      LoopedKeeps(Now(), r);
      var x := readers[r];
      var key := PairKey(x.provider, x.query);
      if x.signal.Some? && x.signal.value in aborted {
        End(r, Threw, 0);
      } else if key in cache {
        End(r, Returned(cache[key].value), fetched[key]);
      } else {
        readers := readers[r := x.(phase := Waiting(Revision(revisions, x.provider)))];
        pasts := pasts[r := Past(pasts[r].startedAt, |log|, |log|)];
        log := log + [Called(r, x.provider, x.query)];
      }
    }

    /** A read runs to its first `await`, or returns at once. */
    method Read(provider: string, query: string, signal: Option<nat>) returns (r: nat)
      requires Consistent(Now())
      modifies this`readers, this`pasts, this`log
      ensures Consistent(Now()) && r == |old(readers)|
      ensures Now() == Looped(Begun(old(Now()), provider, query, signal), r)
      ensures r < |readers| && readers[..r] == old(readers)
      ensures readers[r] == Reader(provider, query, signal, readers[r].phase)
      // An aborted caller gets nothing, a cached value is returned without a call, anything else is one call.
      ensures var key := PairKey(provider, query);
        if signal.Some? && signal.value in aborted then
          readers[r].phase == Threw && log == old(log) + [Began(r, provider, query), Finished(r, None)]
        else if key in cache then
          && readers[r].phase == Returned(cache[key].value)
          && log == old(log) + [Began(r, provider, query), Finished(r, Some(cache[key].value))]
        else
          && readers[r].phase == Waiting(if provider in revisions then revisions[provider] else 0)
          && log == old(log) + [Began(r, provider, query), Called(r, provider, query)]
    {
      r := |readers|;
      BegunKeeps(Now(), provider, query, signal);
      readers := readers + [Reader(provider, query, signal, Running)];
      pasts := pasts + [Past(|log|, |log|, 0)];
      log := log + [Began(r, provider, query)];
      Loop(r);
    }

    /** The transport answers: give up, call again if the revision moved, or store and return. */
    method Answer(r: nat, value: V)
      requires Consistent(Now()) && r < |readers| && readers[r].phase.Waiting?
      modifies this
      ensures Consistent(Now()) && Now() == AnsweredWith(old(Now()), r, value)
      ensures r < |readers| && |log| > |old(log)| && log[|old(log)|] == Replied(old(pasts)[r].call, value)
      ensures var x, key := old(readers)[r], PairKey(old(readers)[r].provider, old(readers)[r].query);
        && (x.signal.Some? && x.signal.value in aborted ==>
              readers[r].phase == Threw && cache == old(cache) && log[|old(log)| + 1..] == [Finished(r, None)])
        && ((x.signal.Some? ==> x.signal.value !in aborted) ==>
              if x.phase.revision == (if x.provider in revisions then revisions[x.provider] else 0) then
                // Nothing was cleared meanwhile: store it and return it.
                && readers[r].phase == Returned(value) && cache == old(cache)[key := Entry(x.provider, value)]
                && log[|old(log)| + 1..] == [Finished(r, Some(value))]
              else
                // Look again: another answer may be there by now.
                && cache == old(cache)
                && if key in cache then readers[r].phase == Returned(cache[key].value)
                   else readers[r].phase.Waiting? && log[|old(log)| + 1..] == [Called(r, x.provider, x.query)])
    {
      AnsweredKeeps(Now(), r, value);
      ResumedKeeps(Now(), r, value);
      AnswerSays(Now(), r, value);
      var x := readers[r];
      Resume(r, value);
      if x.signal.Some? && x.signal.value in aborted {
        End(r, Threw, 0);
      } else if x.phase.revision != Revision(revisions, x.provider) {
        Loop(r);
      } else {
        Store(r, value);
        End(r, Returned(value), pasts[r].call);
      }
    }

    /** The `await` is over. */
    method Resume(r: nat, value: V)
      requires r < |readers| && r < |pasts|
      modifies this`readers, this`log
      ensures Now() == Resumed(old(Now()), r, value)
    {
      readers := readers[r := readers[r].(phase := Running)];
      log := log + [Replied(pasts[r].call, value)];
    }

    /** `cache.set` */
    method Store(r: nat, value: V)
      requires r < |readers| && r < |pasts|
      modifies this`cache, this`fetched
      ensures Now() == Stored(old(Now()), r, value)
    {
      var key := PairKey(readers[r].provider, readers[r].query);
      cache := cache[key := Entry(readers[r].provider, value)];
      fetched := fetched[key := pasts[r].call];
    }

    /** The transport fails, perhaps because the signal was aborted: the read fails with it. */
    method Reject(r: nat)
      requires Consistent(Now()) && r < |readers| && readers[r].phase.Waiting?
      modifies this`readers, this`pasts, this`log
      ensures Consistent(Now()) && Now() == Ended(old(Now()), r, Threw, 0)
      ensures readers == old(readers)[r := old(readers)[r].(phase := Threw)] && log == old(log) + [Finished(r, None)]
    {
      EndedKeeps(Now(), r, Threw, 0);
      End(r, Threw, 0);
    }

    method Take(step: Step<V>)
      requires Consistent(Now())
      modifies this
      ensures Consistent(Now()) && Now() == Taken(old(Now()), step)
    {
      match step
      case Reads(provider, query, signal) => var _ := Read(provider, query, signal);
      case Answers(r, value) => if r < |readers| && readers[r].phase.Waiting? { Answer(r, value); }
      case Rejects(r) => if r < |readers| && readers[r].phase.Waiting? { Reject(r); }
      case Aborts(signal) => AbortSignal(signal);
      case Clears(scope) => Clear(scope);
    }
  }

  /** Every run comes to the state that its steps determine, and that state is fresh. */
  method RunSteps<V>(steps: seq<Step<V>>) returns (cache: ConfigurationCache<V>)
    ensures cache.Now() == After(steps) && FreshCache(cache.Now()) && FreshReads(cache.Now())
    ensures Remembers(cache.Now())
  {
    cache := new ConfigurationCache();
    for i := 0 to |steps|
      invariant fresh(cache) && Consistent(cache.Now()) && cache.Now() == After(steps[..i])
    {
      assert steps[..i + 1][..i] == steps[..i];
      cache.Take(steps[i]);
    }
    assert steps[..|steps|] == steps;
    EveryRunIsFresh(steps);
    EveryRunRemembers(steps);
  }

  /**
   An unscoped clear empties the cache, but a read that is under way is made to ask again only if
   its provider is one of the known four. For any other provider the old answer is stored.
   */
  method UnscopedClearDuringRead<V>(cache: ConfigurationCache<V>, r: nat, value: V)
    requires Consistent(cache.Now()) && r < |cache.readers|
    requires var x := cache.readers[r];
      x.phase == Waiting(Revision(cache.revisions, x.provider)) && (x.signal.Some? ==> x.signal.value !in cache.aborted)
    modifies cache
    ensures r < |cache.readers| && |old(cache.readers)| == |cache.readers|
    ensures var x := old(cache.readers)[r];
      && (x.provider !in KNOWN_PROVIDERS <==> KeyOf(x) in cache.cache)
      && (x.provider in KNOWN_PROVIDERS <==> x.provider in {"github", "gitlab", "jira", "cacheServer"})
      && cache.readers[r].phase ==
         if x.provider in KNOWN_PROVIDERS then Waiting(Revision(cache.revisions, x.provider)) else Returned(value)
  {
    cache.Clear(None);
    cache.Answer(r, value);
  }

  // Listeners

  datatype Listener = Listener(id: nat, provider: Option<string>)

  /** Whether a change of `changed` concerns a listener. */
  predicate Concerns(changed: Option<string>, listener: Listener) {
    ScopeOf(changed).None? || ScopeOf(listener.provider).None? || listener.provider == changed
  }

  function Concerned(listeners: seq<Listener>, changed: Option<string>): seq<nat> {
    if listeners == [] then []
    else
      var last := |listeners| - 1;
      Concerned(listeners[..last], changed) + if Concerns(changed, listeners[last]) then [listeners[last].id] else []
  }

  function WithoutListener(listeners: seq<Listener>, id: nat): seq<Listener> {
    if listeners == [] then []
    else
      var last := |listeners| - 1;
      WithoutListener(listeners[..last], id) + if listeners[last].id == id then [] else [listeners[last]]
  }

  /** Ids are given out in increasing order. */
  ghost predicate IdsIncrease(listeners: seq<Listener>, nextId: nat) {
    && (forall i :: 0 <= i < |listeners| ==> listeners[i].id < nextId)
    && (forall i, j :: 0 <= i < j < |listeners| ==> listeners[i].id < listeners[j].id)
  }

  ghost predicate Ascending(ids: seq<nat>) {
    forall i, j :: 0 <= i < j < |ids| ==> ids[i] < ids[j]
  }

  /** A change of everything or of its own provider concerns a listener, and every change one of no provider. */
  ghost predicate Wants(listener: Listener, id: nat, changed: Option<string>) {
    && listener.id == id
    && (changed == None || changed == Some("") || listener.provider == None || listener.provider == Some("")
        || listener.provider == changed)
  }

  ghost predicate Wanted(listeners: seq<Listener>, id: nat, changed: Option<string>) {
    exists i :: 0 <= i < |listeners| && Wants(listeners[i], id, changed)
  }

  lemma WantedAppends(listeners: seq<Listener>, last: Listener, id: nat, changed: Option<string>)
    ensures Wanted(listeners + [last], id, changed) <==> Wanted(listeners, id, changed) || Wants(last, id, changed)
  {
    var all := listeners + [last];
    if Wanted(listeners, id, changed) {
      var i :| 0 <= i < |listeners| && Wants(listeners[i], id, changed);
      assert all[i] == listeners[i];
    }
    assert all[|listeners|] == last;
  }

  lemma WantedIdsBelow(listeners: seq<Listener>, nextId: nat, changed: Option<string>, ids: seq<nat>)
    requires IdsIncrease(listeners, nextId) && Ascending(ids)
    requires forall id :: id in ids ==> Wanted(listeners, id, changed)
    ensures Ascending(ids + [nextId])
  {
    forall k | 0 <= k < |ids| ensures ids[k] < nextId {
      assert ids[k] in ids;
      var i :| 0 <= i < |listeners| && Wants(listeners[i], ids[k], changed);
    }
  }

  /** Everyone whom the change concerns, once and in order of subscription, and nobody else. */
  lemma {:induction false} ConcernedExactly(listeners: seq<Listener>, nextId: nat, changed: Option<string>)
    requires IdsIncrease(listeners, nextId)
    ensures Ascending(Concerned(listeners, changed))
    ensures forall id :: id in Concerned(listeners, changed) <==> Wanted(listeners, id, changed)
  {
    if listeners == [] {
    } else {
      var last := |listeners| - 1;
      var front := Concerned(listeners[..last], changed);
      ConcernedExactly(listeners[..last], listeners[last].id, changed);
      assert listeners == listeners[..last] + [listeners[last]];
      WantedIdsBelow(listeners[..last], listeners[last].id, changed, front);
      forall id ensures id in Concerned(listeners, changed) <==> Wanted(listeners, id, changed) {
        WantedAppends(listeners[..last], listeners[last], id, changed);
      }
    }
  }

  /** Everybody but that one is left, in the same order. */
  lemma {:induction false} WithoutOnlyThat(listeners: seq<Listener>, nextId: nat, id: nat)
    requires IdsIncrease(listeners, nextId)
    ensures IdsIncrease(WithoutListener(listeners, id), nextId)
    ensures forall l :: l in WithoutListener(listeners, id) <==> l in listeners && l.id != id
  {
    if listeners == [] {
    } else {
      var last := |listeners| - 1;
      var front := WithoutListener(listeners[..last], id);
      WithoutOnlyThat(listeners[..last], listeners[last].id, id);
      assert listeners == listeners[..last] + [listeners[last]];
      IdsAppend(front, listeners[last], nextId);
    }
  }

  lemma IdsAppend(front: seq<Listener>, last: Listener, nextId: nat)
    requires IdsIncrease(front, last.id) && last.id < nextId
    ensures IdsIncrease(front, nextId) && IdsIncrease(front + [last], nextId)
  {
  }

  class ConfigurationListeners<V> {
    const configuration: ConfigurationCache<V>
    var listeners: seq<Listener>
    var subscribed: bool      // `disposeSubscription` is set
    var nextId: nat
    ghost var upstreams: int  // subscriptions opened and not disposed
    ghost var told: seq<nat>  // every call of a listener

    /** One upstream subscription while somebody listens, none otherwise. */
    ghost predicate Valid()
      reads this, configuration
    {
      && Consistent(configuration.Now()) && IdsIncrease(listeners, nextId)
      && (subscribed <==> listeners != [])
      && upstreams == if listeners != [] then 1 else 0
    }

    constructor ()
      ensures Valid() && fresh(configuration) && listeners == [] && told == []
    {
      configuration := new ConfigurationCache();
      listeners, subscribed, nextId, upstreams, told := [], false, 0, 0, [];
    }

    /** `subscribeIntegrationConfiguration` */
    method Subscribe(provider: Option<string>) returns (id: nat)
      requires Valid()
      modifies this`listeners, this`subscribed, this`nextId, this`upstreams
      ensures Valid() && id == old(nextId) && nextId == id + 1
      ensures listeners == old(listeners) + [Listener(id, provider)]
    {
      id, nextId := nextId, nextId + 1;
      listeners := listeners + [Listener(id, provider)];
      if !subscribed {
        upstreams := upstreams + 1;
        subscribed := true;
      }
    }

    /** The function a subscriber gets back, called once or again. The last one out clears the cache. */
    method Leave(id: nat)
      requires Valid()
      modifies this`listeners, this`subscribed, this`upstreams, configuration
      ensures Valid() && listeners == WithoutListener(old(listeners), id)
      ensures forall l :: l in listeners <==> l in old(listeners) && l.id != id
      ensures listeners != [] ==> configuration.Now() == old(configuration.Now())
      ensures listeners == [] ==> configuration.Now() == AfterClear(old(configuration.Now()), None)
    {
      WithoutOnlyThat(listeners, nextId, id);
      listeners := WithoutListener(listeners, id);
      if listeners == [] {
        if subscribed { upstreams := upstreams - 1; }
        subscribed := false;
        configuration.Clear(None);
      }
    }

    /** `invalidate`: clear, then tell everybody concerned, in order of subscription. */
    method Invalidate(changed: Option<string>)
      requires Valid()
      modifies this`told, configuration
      ensures Valid() && configuration.Now() == AfterClear(old(configuration.Now()), ScopeOf(changed))
      ensures told == old(told) + Concerned(listeners, changed)
      // Exactly those the change concerns, each once, in order of subscription.
      ensures Ascending(told[|old(told)|..])
      ensures forall id :: id in told[|old(told)|..] <==> Wanted(listeners, id, changed)
    {
      ConcernedExactly(listeners, nextId, changed);
      configuration.Clear(changed);
      TellEach(changed);
      assert told[|old(told)|..] == Concerned(listeners, changed);
    }

    /** The loop over the listeners. */
    method TellEach(changed: Option<string>)
      requires Valid()
      modifies this`told
      ensures Valid() && told == old(told) + Concerned(listeners, changed)
    {
      for i := 0 to |listeners|
        invariant Valid() && told == old(told) + Concerned(listeners[..i], changed)
      {
        assert listeners[..i + 1][..i] == listeners[..i];
        if Concerns(changed, listeners[i]) { told := told + [listeners[i].id]; }
      }
      assert listeners[..|listeners|] == listeners;
    }

    /** The subscription delivers the provider that changed, or "ALL". */
    method Deliver(changed: Option<string>)
      requires Valid()
      modifies this`told, configuration
      ensures Valid()
      ensures configuration.Now() ==
        AfterClear(old(configuration.Now()), if changed == Some("ALL") then None else ScopeOf(changed))
      ensures told == old(told) + Concerned(listeners, if changed == Some("ALL") then None else changed)
    {
      Invalidate(if changed == Some("ALL") then None else changed);
    }

    /** The connection recovered: everything may have changed, except on the first connection. */
    method Recover(initialConnection: bool)
      requires Valid()
      modifies this`told, configuration
      ensures Valid()
      ensures initialConnection ==> configuration.Now() == old(configuration.Now()) && told == old(told)
      ensures !initialConnection ==> configuration.Now() == AfterClear(old(configuration.Now()), None)
      ensures !initialConnection ==> told == old(told) + Concerned(listeners, None)
    {
      if !initialConnection { Invalidate(None); }
    }
  }
}

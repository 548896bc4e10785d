/**
 Shared in-flight queries and mutations over the six-slot scheduler
 (src/lib/control-plane-client.ts:18-25, 103-247).

 A query is named by the job that the scheduler gave it, and so is its controller. Promise
 reactions run as separate steps: reaction 0 is `cleanup`, then one reaction per consumer in the
 order they attached. Between any two steps any other step may happen.
 */
module ControlPlaneRequests {
  import opened Options
  import opened Scheduler
  import MutationListeners

  type Key = string
  type Consumer = nat   // consumers are numbered in the order of their requests

  datatype Failure = Network(code: int) | TimedOut | Aborted(reason: Signal)
  datatype Outcome = Data(value: int) | Failed(error: Failure)

  /** How one consumer's promise was settled. */
  datatype Settlement = ByOwnSignal(signal: nat) | ByRequest(outcome: Outcome)

  /** What the network did: a response with data, or something thrown. */
  datatype Response = Answer(value: int) | Threw(code: int)

  /** The end of `executeRequest`: a timeout wins over an abort, an abort over the thrown error. */
  function Execute(response: Response, timedOut: bool, aborted: bool, signal: Signal): Outcome {
    match response
    case Answer(value) => Data(value)
    case Threw(code) =>
      if timedOut then Failed(TimedOut) else if aborted then Failed(Aborted(signal)) else Failed(Network(code))
  }

  /** One shared record, and the state of the promise it holds. */
  datatype SharedQuery = SharedQuery(
    key: Key,
    consumers: int,
    settled: bool,
    open: set<Consumer>,         // consumers whose `done` is still false
    outcome: Option<Outcome>,    // the promise
    reactions: seq<Consumer>,    // consumers attached to the promise, after `cleanup`
    ran: nat                     // reactions that have run, `cleanup` first
  )

  /** One consumer: the query it joined, its own signal, and every settlement of its promise. */
  datatype Reader = Reader(query: Job, position: nat, signal: Option<nat>, told: seq<Settlement>)

  /** A promise stays as it is, or is rejected by its own controller's abort. */
  ghost predicate CancelledAt(before: Option<Outcome>, after: Option<Outcome>, j: Job, raised: set<Signal>) {
    after == before
    || (before.None? && after == Some(Failed(Aborted(Controller(j)))) && Controller(j) in raised)
  }

  /** A query that a new consumer may still join. */
  predicate Joinable(q: SharedQuery, job: Job, raised: set<Signal>) {
    !q.settled && Controller(job) !in raised
  }

  predicate AbortOutcome(outcome: Option<Outcome>) {
    outcome.Some? && outcome.value.Failed? && outcome.value.error.Aborted?
  }

  /** A consumer is settled by its own signal, or with the outcome of the request it joined. */
  predicate Justified(s: Settlement, signal: Option<nat>, outcome: Option<Outcome>, raised: set<Signal>) {
    match s
    case ByOwnSignal(own) => signal == Some(own) && Caller(own) in raised
    case ByRequest(result) => outcome == Some(result) && !AbortOutcome(outcome)
  }

  /** The values that the in-flight invariant talks about. */
  datatype Snapshot = Snapshot(
    table: map<Key, Job>,
    queries: map<Job, SharedQuery>,
    readers: seq<Reader>,
    raised: set<Signal>,
    signalOf: map<Job, Option<Signal>>,
    pending: set<Job>,           // the scheduler has it queued or running
    mutations: map<Job, Option<nat>>
  )

  /** Whoever a record knows is a reader that joined it. */
  ghost predicate Attached(j: Job, q: SharedQuery, readers: seq<Reader>) {
    && (forall c :: c in q.open ==> c < |readers| && readers[c].query == j)
    && (forall i {:trigger AttachedAt(j, i, q.reactions[i], readers)} :: 0 <= i < |q.reactions| ==>
          AttachedAt(j, i, q.reactions[i], readers))
  }

  ghost predicate AttachedAt(j: Job, i: nat, c: Consumer, readers: seq<Reader>) {
    c < |readers| && readers[c].query == j && readers[c].position == i
  }

  /** One record. `but` names a query between two halves of one step, with no consumer left or yet. */
  ghost predicate QueryOk(j: Job, q: SharedQuery, s: Snapshot, but: set<Job>) {
    && q.consumers == |q.open|
    && (q.settled <==> q.ran > 0)
    && (q.ran > 0 ==> q.outcome.Some?)
    && q.ran <= |q.reactions| + 1
    && (forall i :: 0 <= i < q.ran - 1 ==> q.reactions[i] !in q.open)
    && Attached(j, q, s.readers)
    // Joinable queries are in the table, and somebody waits for each.
    && (Joinable(q, j, s.raised) ==> q.key in s.table && s.table[q.key] == j)
    && (Joinable(q, j, s.raised) && j !in but ==> q.open != {})
    // A controller is aborted only when nobody is left, and only that makes an abort outcome.
    && (Controller(j) in s.raised ==> q.open == {})
    && (AbortOutcome(q.outcome) ==> Controller(j) in s.raised)
    // The scheduler has the job, under its own controller, exactly until the outcome.
    && j in s.signalOf && s.signalOf[j] == Some(Controller(j))
    && (q.outcome.None? <==> j in s.pending)
  }

  ghost predicate KeyOk(k: Key, j: Job, s: Snapshot) {
    j in s.queries && s.queries[j].key == k && Joinable(s.queries[j], j, s.raised)
  }

  ghost predicate ReaderOk(c: Consumer, r: Reader, s: Snapshot) {
    && r.query in s.queries
    && r.position < |s.queries[r.query].reactions| && s.queries[r.query].reactions[r.position] == c
    && |r.told| <= 1 && (r.told == [] <==> c in s.queries[r.query].open)
    && (r.told != [] ==> Justified(r.told[0], r.signal, s.queries[r.query].outcome, s.raised))
  }

  ghost predicate SignalsOk(s: Snapshot) {
    && (forall i :: i in s.signalOf && s.signalOf[i].Some? && s.signalOf[i].value.Controller? ==>
          s.signalOf[i].value.job == i)
    && (forall j: Job :: Controller(j) in s.raised ==> j in s.signalOf)
  }

  /** A caller's signal as the scheduler knows it. */
  function CallerSignal(signal: Option<nat>): Option<Signal> {
    if signal.Some? then Some(Caller(signal.value)) else None
  }

  /** A mutation's job carries no controller: at most its caller's signal, for the time it waits. */
  ghost predicate MutationOk(j: Job, signal: Option<nat>, s: Snapshot) {
    && j in s.signalOf && j !in s.queries
    && s.signalOf[j] == CallerSignal(signal)
  }

  ghost predicate Consistent(s: Snapshot, but: set<Job>) {
    && (forall j {:trigger QueryOk(j, s.queries[j], s, but)} :: j in s.queries ==> QueryOk(j, s.queries[j], s, but))
    && (forall k {:trigger KeyOk(k, s.table[k], s)} :: k in s.table ==> KeyOk(k, s.table[k], s))
    && (forall c {:trigger ReaderOk(c, s.readers[c], s)} :: 0 <= c < |s.readers| ==> ReaderOk(c, s.readers[c], s))
    && (forall j {:trigger MutationOk(j, s.mutations[j], s)} :: j in s.mutations ==> MutationOk(j, s.mutations[j], s))
    && SignalsOk(s)
  }

  ghost function Pending(running: set<Job>, queue: seq<Job>): set<Job> {
    running + set j | j in queue
  }

  /** The record after one more consumer has been counted and attached. */
  function Joined(q: SharedQuery, c: Consumer): SharedQuery {
    q.(consumers := q.consumers + 1, open := q.open + {c}, reactions := q.reactions + [c])
  }

  lemma JoinAttached(s: Snapshot, t: Snapshot, job: Job, signal: Option<nat>, j: Job)
    requires job in s.queries && j in s.queries && Attached(j, s.queries[j], s.readers)
    requires t == s.(queries := s.queries[job := Joined(s.queries[job], |s.readers|)],
                     readers := s.readers + [Reader(job, |s.queries[job].reactions|, signal, [])])
    ensures Attached(j, t.queries[j], t.readers)
    ensures |s.readers| !in s.queries[j].open && |s.readers| in t.queries[job].open
    ensures forall i :: 0 <= i < |s.queries[j].reactions| ==> s.queries[j].reactions[i] != |s.readers|
  {
    var q := t.queries[j];
    forall i | 0 <= i < |q.reactions| ensures AttachedAt(j, i, q.reactions[i], t.readers) {
      if i < |s.queries[j].reactions| { assert AttachedAt(j, i, s.queries[j].reactions[i], s.readers); }
    }
    forall i | 0 <= i < |s.queries[j].reactions| ensures s.queries[j].reactions[i] != |s.readers| {
      assert AttachedAt(j, i, s.queries[j].reactions[i], s.readers);
    }
  }

  lemma JoinKeeps(s: Snapshot, t: Snapshot, job: Job, signal: Option<nat>)
    requires Consistent(s, {job}) && job in s.queries && Joinable(s.queries[job], job, s.raised)
    requires t == s.(queries := s.queries[job := Joined(s.queries[job], |s.readers|)],
                     readers := s.readers + [Reader(job, |s.queries[job].reactions|, signal, [])])
    ensures Consistent(t, {})
  {
    forall j | j in t.queries ensures QueryOk(j, t.queries[j], t, {}) {
      assert QueryOk(j, s.queries[j], s, {job});
      JoinAttached(s, t, job, signal, j);
    }
    forall j | j in t.mutations ensures MutationOk(j, t.mutations[j], t) { assert MutationOk(j, s.mutations[j], s); }
    forall k | k in t.table ensures KeyOk(k, t.table[k], t) { assert KeyOk(k, s.table[k], s); }
    forall c | 0 <= c < |t.readers| ensures ReaderOk(c, t.readers[c], t) {
      if c < |s.readers| { assert ReaderOk(c, s.readers[c], s); }
    }
  }

  /** The record of a query that has just been scheduled. */
  function Fresh(key: Key): SharedQuery {
    SharedQuery(key, 0, false, {}, None, [], 0)
  }

  lemma StartKeeps(s: Snapshot, t: Snapshot, key: Key, job: Job)
    requires Consistent(s, {}) && key !in s.table && job !in s.signalOf
    requires t == s.(table := s.table[key := job], queries := s.queries[job := Fresh(key)],
                     signalOf := s.signalOf[job := Some(Controller(job))], pending := s.pending + {job})
    ensures Consistent(t, {job}) && Controller(job) !in s.raised && job !in s.queries
  {
    assert job in s.queries ==> QueryOk(job, s.queries[job], s, {});
    forall j | j in t.queries ensures QueryOk(j, t.queries[j], t, {job}) {
      if j != job { assert QueryOk(j, s.queries[j], s, {}); }
    }
    forall j | j in t.mutations ensures MutationOk(j, t.mutations[j], t) { assert MutationOk(j, s.mutations[j], s); }
    forall k | k in t.table ensures KeyOk(k, t.table[k], t) {
      if k != key { assert KeyOk(k, s.table[k], s); }
    }
    forall c | 0 <= c < |t.readers| ensures ReaderOk(c, t.readers[c], t) { assert ReaderOk(c, s.readers[c], s); }
  }

  /** The record after `release` has ended one of its consumers. */
  function Released(q: SharedQuery, c: Consumer): SharedQuery {
    q.(consumers := q.consumers - 1, open := q.open - {c})
  }

  function Told(readers: seq<Reader>, c: Consumer, s: Settlement): seq<Reader>
    requires c < |readers|
  {
    readers[c := readers[c].(told := readers[c].told + [s])]
  }

  lemma ReleaseKeeps(s: Snapshot, t: Snapshot, c: Consumer, how: Settlement)
    requires Consistent(s, {}) && c < |s.readers|
    requires s.readers[c].query in s.queries && c in s.queries[s.readers[c].query].open
    requires Justified(how, s.readers[c].signal, s.queries[s.readers[c].query].outcome, s.raised)
    requires t == s.(queries := s.queries[s.readers[c].query := Released(s.queries[s.readers[c].query], c)],
                     readers := Told(s.readers, c, how))
    ensures Consistent(t, {s.readers[c].query})
  {
    var job := s.readers[c].query;
    forall j | j in t.queries ensures QueryOk(j, t.queries[j], t, {job}) {
      assert QueryOk(j, s.queries[j], s, {});
      forall i | 0 <= i < |t.queries[j].reactions| ensures AttachedAt(j, i, t.queries[j].reactions[i], t.readers) {
        assert AttachedAt(j, i, s.queries[j].reactions[i], s.readers);
      }
    }
    forall j | j in t.mutations ensures MutationOk(j, t.mutations[j], t) { assert MutationOk(j, s.mutations[j], s); }
    forall k | k in t.table ensures KeyOk(k, t.table[k], t) { assert KeyOk(k, s.table[k], s); }
    forall d | 0 <= d < |t.readers| ensures ReaderOk(d, t.readers[d], t) { assert ReaderOk(d, s.readers[d], s); }
  }

  /** The record once its promise has an outcome. */
  function Resolved(q: SharedQuery, outcome: Outcome): SharedQuery {
    q.(outcome := Some(outcome))
  }

  lemma ResolveKeeps(s: Snapshot, t: Snapshot, job: Job, outcome: Outcome)
    requires Consistent(s, {}) && job in s.queries && s.queries[job].outcome.None?
    requires AbortOutcome(Some(outcome)) ==> Controller(job) in s.raised
    requires t == s.(queries := s.queries[job := Resolved(s.queries[job], outcome)], pending := s.pending - {job})
    ensures Consistent(t, {})
  {
    forall j | j in t.queries ensures QueryOk(j, t.queries[j], t, {}) { assert QueryOk(j, s.queries[j], s, {}); }
    forall j | j in t.mutations ensures MutationOk(j, t.mutations[j], t) { assert MutationOk(j, s.mutations[j], s); }
    forall k | k in t.table ensures KeyOk(k, t.table[k], t) { assert KeyOk(k, s.table[k], s); }
    forall c | 0 <= c < |t.readers| ensures ReaderOk(c, t.readers[c], t) { assert ReaderOk(c, s.readers[c], s); }
  }

  /** What a reader's own record says of it. */
  lemma ReaderFacts(s: Snapshot, c: Consumer)
    requires Consistent(s, {}) && c < |s.readers|
    ensures s.readers[c].query in s.queries
    ensures c in s.queries[s.readers[c].query].open ==> Controller(s.readers[c].query) !in s.raised
  {
    assert ReaderOk(c, s.readers[c], s);
    assert QueryOk(s.readers[c].query, s.queries[s.readers[c].query], s, {});
  }

  /** The last consumer left: the query leaves the table in the same step that aborts its controller. */
  lemma CancelKeeps(s: Snapshot, t: Snapshot, job: Job)
    requires Consistent(s, {job}) && job in s.queries
    requires Joinable(s.queries[job], job, s.raised) && s.queries[job].open == {}
    requires t == s.(table := s.table - {s.queries[job].key}, raised := s.raised + {Controller(job)})
    ensures Consistent(t, {})
    ensures s.queries[job].key in s.table && s.table[s.queries[job].key] == job
  {
    assert QueryOk(job, s.queries[job], s, {job});
    forall j | j in t.queries ensures QueryOk(j, t.queries[j], t, {}) { assert QueryOk(j, s.queries[j], s, {job}); }
    forall j | j in t.mutations ensures MutationOk(j, t.mutations[j], t) { assert MutationOk(j, s.mutations[j], s); }
    forall k | k in t.table ensures KeyOk(k, t.table[k], t) { assert KeyOk(k, s.table[k], s); }
    forall c | 0 <= c < |t.readers| ensures ReaderOk(c, t.readers[c], t) { assert ReaderOk(c, s.readers[c], s); }
  }

  /** A caller's signal touches no query by itself. */
  lemma RaiseKeeps(s: Snapshot, t: Snapshot, id: nat)
    requires Consistent(s, {}) && t == s.(raised := s.raised + {Caller(id)}, pending := t.pending)
    requires forall j :: j in s.queries ==> (j in t.pending <==> j in s.pending)
    ensures Consistent(t, {})
  {
    forall j | j in t.queries ensures QueryOk(j, t.queries[j], t, {}) { assert QueryOk(j, s.queries[j], s, {}); }
    forall j | j in t.mutations ensures MutationOk(j, t.mutations[j], t) { assert MutationOk(j, s.mutations[j], s); }
    forall k | k in t.table ensures KeyOk(k, t.table[k], t) { assert KeyOk(k, s.table[k], s); }
    forall c | 0 <= c < |t.readers| ensures ReaderOk(c, t.readers[c], t) { assert ReaderOk(c, s.readers[c], s); }
  }

  /** The record after one more reaction: `cleanup` marks it settled, the others leave it so. */
  function Reacted(q: SharedQuery): SharedQuery {
    q.(settled := true, ran := q.ran + 1)
  }

  /** `cleanup` takes its own query out of the table and nobody else's. */
  lemma CleanupKeeps(s: Snapshot, t: Snapshot, job: Job)
    requires Consistent(s, {}) && job in s.queries && s.queries[job].outcome.Some? && s.queries[job].ran == 0
    requires var q := s.queries[job];
      t == s.(queries := s.queries[job := Reacted(q)],
              table := if q.key in s.table && s.table[q.key] == job then s.table - {q.key} else s.table)
    ensures Consistent(t, {})
  {
    assert QueryOk(job, s.queries[job], s, {});
    forall j | j in t.queries ensures QueryOk(j, t.queries[j], t, {}) { assert QueryOk(j, s.queries[j], s, {}); }
    forall j | j in t.mutations ensures MutationOk(j, t.mutations[j], t) { assert MutationOk(j, s.mutations[j], s); }
    forall k | k in t.table ensures KeyOk(k, t.table[k], t) { assert KeyOk(k, s.table[k], s); }
    forall c | 0 <= c < |t.readers| ensures ReaderOk(c, t.readers[c], t) { assert ReaderOk(c, s.readers[c], s); }
  }

  lemma ReactionKeeps(s: Snapshot, t: Snapshot, job: Job)
    requires Consistent(s, {job}) && job in s.queries && 0 < s.queries[job].ran <= |s.queries[job].reactions|
    requires s.queries[job].reactions[s.queries[job].ran - 1] !in s.queries[job].open
    requires t == s.(queries := s.queries[job := Reacted(s.queries[job])])
    ensures Consistent(t, {})
  {
    assert QueryOk(job, s.queries[job], s, {job});
    forall j | j in t.queries ensures QueryOk(j, t.queries[j], t, {}) { assert QueryOk(j, s.queries[j], s, {job}); }
    forall j | j in t.mutations ensures MutationOk(j, t.mutations[j], t) { assert MutationOk(j, s.mutations[j], s); }
    forall k | k in t.table ensures KeyOk(k, t.table[k], t) { assert KeyOk(k, s.table[k], s); }
    forall c | 0 <= c < |t.readers| ensures ReaderOk(c, t.readers[c], t) { assert ReaderOk(c, s.readers[c], s); }
  }

  lemma ValidButAny(s: Snapshot, job: Job)
    requires Consistent(s, {})
    ensures Consistent(s, {job})
  {
    forall j | j in s.queries ensures QueryOk(j, s.queries[j], s, {job}) { assert QueryOk(j, s.queries[j], s, {}); }
  }

  /** After a release: either the last consumer of a listed query left, or nothing is suspended. */
  lemma LastOut(s: Snapshot, job: Job)
    requires Consistent(s, {job}) && job in s.queries
    ensures s.queries[job].consumers == 0 <==> s.queries[job].open == {}
    ensures s.queries[job].settled || s.queries[job].open != {} ==> Consistent(s, {})
  {
    assert QueryOk(job, s.queries[job], s, {job});
    if s.queries[job].settled || s.queries[job].open != {} {
      forall j | j in s.queries ensures QueryOk(j, s.queries[j], s, {}) { assert QueryOk(j, s.queries[j], s, {job}); }
    }
  }

  /** Aborting a query's controller takes at most its own job out of the queue. */
  lemma PendingAbort(running: set<Job>, queue: seq<Job>, signalOf: map<Job, Option<Signal>>, job: Job)
    requires job in signalOf && signalOf[job] == Some(Controller(job))
    requires forall i :: i in signalOf && signalOf[i].Some? && signalOf[i].value.Controller? ==>
      signalOf[i].value.job == i
    requires job in queue ==> job !in running
    ensures Pending(running, Select(queue, signalOf, Controller(job), false))
         == if job in queue then Pending(running, queue) - {job} else Pending(running, queue)
  {
    SelectMembers(queue, signalOf, Controller(job), false);
  }

  /** A mutation joins the scheduler. */
  lemma MutationKeeps(s: Snapshot, t: Snapshot, job: Job, signal: Option<nat>)
    requires Consistent(s, {}) && job !in s.signalOf
    requires t == s.(signalOf := s.signalOf[job := CallerSignal(signal)],
                     mutations := s.mutations[job := signal], pending := t.pending)
    requires forall j :: j != job ==> (j in t.pending <==> j in s.pending)
    ensures Consistent(t, {})
  {
    assert job in s.queries ==> QueryOk(job, s.queries[job], s, {});
    forall j | j in t.queries ensures QueryOk(j, t.queries[j], t, {}) { assert QueryOk(j, s.queries[j], s, {}); }
    forall j | j in t.mutations ensures MutationOk(j, t.mutations[j], t) {
      if j != job { assert MutationOk(j, s.mutations[j], s); }
    }
    forall k | k in t.table ensures KeyOk(k, t.table[k], t) { assert KeyOk(k, s.table[k], s); }
    forall c | 0 <= c < |t.readers| ensures ReaderOk(c, t.readers[c], t) { assert ReaderOk(c, s.readers[c], s); }
  }

  /** A mutation leaves the scheduler. */
  lemma MutationDone(s: Snapshot, t: Snapshot, job: Job)
    requires Consistent(s, {}) && job in s.mutations && t == s.(pending := s.pending - {job})
    ensures Consistent(t, {})
  {
    assert MutationOk(job, s.mutations[job], s);
    forall j | j in t.queries ensures QueryOk(j, t.queries[j], t, {}) { assert QueryOk(j, s.queries[j], s, {}); }
    forall j | j in t.mutations ensures MutationOk(j, t.mutations[j], t) { assert MutationOk(j, s.mutations[j], s); }
    forall k | k in t.table ensures KeyOk(k, t.table[k], t) { assert KeyOk(k, s.table[k], s); }
    forall c | 0 <= c < |t.readers| ensures ReaderOk(c, t.readers[c], t) { assert ReaderOk(c, s.readers[c], s); }
  }

  // What the invariant says, in the table's own terms.

  /** Every listed query is unsettled, un-aborted, and counts its open consumers, at least one. */
  lemma ListedQueries(s: Snapshot, k: Key)
    requires Consistent(s, {}) && k in s.table
    ensures s.table[k] in s.queries
    ensures var q := s.queries[s.table[k]];
      && q.key == k && !q.settled && Controller(s.table[k]) !in s.raised
      && q.consumers == |q.open| >= 1
  {
    assert KeyOk(k, s.table[k], s);
    assert QueryOk(s.table[k], s.queries[s.table[k]], s, {});
  }

  /** At most one query under a key is neither settled nor aborted, and it is the listed one. */
  lemma OneLiveQueryPerKey(s: Snapshot, i: Job, j: Job)
    requires Consistent(s, {}) && i in s.queries && j in s.queries && s.queries[i].key == s.queries[j].key
    requires Joinable(s.queries[i], i, s.raised) && Joinable(s.queries[j], j, s.raised)
    ensures i == j && s.queries[i].key in s.table && s.table[s.queries[i].key] == i
  {
    assert QueryOk(i, s.queries[i], s, {});
    assert QueryOk(j, s.queries[j], s, {});
  }

  /**
   Isolation: a consumer is settled at most once, by its own signal or with its request's own
   outcome, and never with the abort that somebody else's leaving caused.
   */
  lemma ConsumerIsolation(s: Snapshot, c: Consumer)
    requires Consistent(s, {}) && c < |s.readers|
    ensures |s.readers[c].told| <= 1 && s.readers[c].query in s.queries
    ensures forall how :: how in s.readers[c].told ==>
      || (how.ByOwnSignal? && s.readers[c].signal == Some(how.signal) && Caller(how.signal) in s.raised)
      || (how.ByRequest? && !(how.outcome.Failed? && how.outcome.error.Aborted?)
          && s.queries[s.readers[c].query].outcome == Some(how.outcome))
    ensures Controller(s.readers[c].query) in s.raised ==> |s.readers[c].told| == 1
  {
    assert ReaderOk(c, s.readers[c], s);
    assert QueryOk(s.readers[c].query, s.queries[s.readers[c].query], s, {});
  }

  /** Once every reaction has run, every consumer of the query has been settled exactly once. */
  lemma EveryConsumerSettles(s: Snapshot, c: Consumer)
    requires Consistent(s, {}) && c < |s.readers|
    requires s.readers[c].query in s.queries
    requires s.queries[s.readers[c].query].ran == |s.queries[s.readers[c].query].reactions| + 1
    ensures |s.readers[c].told| == 1
  {
    assert ReaderOk(c, s.readers[c], s);
    assert QueryOk(s.readers[c].query, s.queries[s.readers[c].query], s, {});
  }

  /** A submission under a signal that is not aborted is pending. */
  lemma PendingSubmit(s: State, signal: Option<Signal>)
    requires signal.Some? ==> signal.value !in s.raised
    ensures var t := Submitted(s, signal); Pending(t.running, t.queue) == Pending(s.running, s.queue) + {s.submitted}
  {
  }

  /** A submission is known by its caller's signal, and rejected at once exactly if that is aborted. */
  lemma ScheduledUnder(s: State, caller: Option<nat>)
    requires ValidState(s)
    ensures var t := Submitted(s, CallerSignal(caller));
      && s.submitted in t.signalOf
      && t.signalOf[s.submitted] == (if caller.Some? then Some(Caller(caller.value)) else None)
      && (s.submitted in t.rejected <==> caller.Some? && Caller(caller.value) in s.raised)
  {
    ExactlyOnePlace(s.dispatched, s.queue, s.rejected, s.submitted, s.submitted);
  }

  /** A submission changes at most whether its own job is pending. */
  lemma PendingMutation(s: State, signal: Option<Signal>)
    ensures var t := Submitted(s, signal);
      Pending(t.running, t.queue) ==
        if signal.Some? && signal.value in s.raised then Pending(s.running, s.queue)
        else Pending(s.running, s.queue) + {s.submitted}
  {
    if signal.None? || signal.value !in s.raised { PendingSubmit(s, signal); }
  }

  /** Settling one job and dispatching the next takes exactly the first out of what is pending. */
  lemma PendingSettle(running: set<Job>, queue: seq<Job>, job: Job)
    requires job in running && job !in queue
    ensures queue == [] ==> Pending(running - {job}, []) == Pending(running, queue) - {job}
    ensures queue != [] ==> Pending(running - {job} + {queue[0]}, queue[1..]) == Pending(running, queue) - {job}
  {
    if queue != [] {
      assert queue == [queue[0]] + queue[1..];
    }
  }

  /** Finding a record and joining it touches no other record. */
  lemma OnlyJoined(before: map<Job, SharedQuery>, found: map<Job, SharedQuery>, after: map<Job, SharedQuery>,
          key: Key, job: Job, c: Consumer)
    requires job in found && after == found[job := Joined(found[job], c)]
    requires found == if job in before then before else before[job := Fresh(key)]
    ensures after.Keys == before.Keys + {job} && forall j :: j in before && j != job ==> after[j] == before[j]
    ensures after[job] == Joined(if job in before then before[job] else Fresh(key), c)
  {
  }

  /** What a mutation's submission leaves of the invariant's values. */
  ghost function Mutated(s: Snapshot, before: State, scheduled: Option<nat>): Snapshot {
    var t := Enqueued(s, before, CallerSignal(scheduled));
    t.(mutations := s.mutations[before.submitted := scheduled])
  }

  /** A submission's new signal and pending jobs. */
  ghost function Enqueued(s: Snapshot, before: State, signal: Option<Signal>): Snapshot {
    var t := Submitted(before, signal);
    s.(signalOf := t.signalOf, pending := Pending(t.running, t.queue))
  }

  lemma MutatedKeeps(s: Snapshot, before: State, scheduled: Option<nat>)
    requires Consistent(s, {}) && ValidState(before)
    requires s.signalOf == before.signalOf && s.pending == Pending(before.running, before.queue)
    ensures Consistent(Mutated(s, before, scheduled), {})
  {
    PendingMutation(before, CallerSignal(scheduled));
    MutationKeeps(s, Mutated(s, before, scheduled), before.submitted, scheduled);
  }

  class ControlPlaneClient {
    const scheduler: RequestScheduler
    const mutationListeners: MutationListeners.ListenerSet
    var inFlightQueries: map<Key, Job>
    var queries: map<Job, SharedQuery>
    var readers: seq<Reader>

    var mutations: map<Job, Option<nat>>   // the signal a mutation handed to the scheduler, if any
    var results: map<Job, Outcome>         // settled mutations

    ghost function Now(): Snapshot
      reads this, scheduler
    {
      Snapshot(inFlightQueries, queries, readers, scheduler.raised, scheduler.signalOf,
               Pending(scheduler.running, scheduler.requestQueue), mutations)
    }

    ghost predicate Valid()
      reads this, scheduler, mutationListeners
    {
      scheduler.Valid() && scheduler.Fair() && Consistent(Now(), {}) && mutationListeners.Valid()
    }

    /** Valid, but for one query between two halves of a step. */
    ghost predicate ValidBut(job: Job)
      reads this, scheduler, mutationListeners
    {
      scheduler.Valid() && scheduler.Fair() && Consistent(Now(), {job}) && mutationListeners.Valid()
    }

    constructor ()
      ensures Valid() && fresh(scheduler) && fresh(mutationListeners)
      ensures scheduler.raised == {} && queries == map[] && inFlightQueries == map[] && readers == []
      ensures results == map[]
    {
      scheduler := new RequestScheduler();
      inFlightQueries, queries, readers := map[], map[], [];
      mutations, results := map[], map[];
      mutationListeners := new MutationListeners.ListenerSet();
    }

    /** A fresh entry, scheduled under its own controller; its first consumer joins next. */
    method Start(key: Key) returns (job: Job)
      requires Valid() && key !in inFlightQueries
      modifies this`queries, this`inFlightQueries, scheduler
      ensures ValidBut(job) && job == old(scheduler.submitted) && scheduler.raised == old(scheduler.raised)
      ensures inFlightQueries == old(inFlightQueries)[key := job]
      ensures job !in old(queries) && Controller(job) !in scheduler.raised
      ensures queries == old(queries)[job := Fresh(key)]
      ensures scheduler.Now() == Submitted(old(scheduler.Now()), Some(Controller(job)))
    {
      ghost var was := Now();
      ghost var before := scheduler.Now();
      job := scheduler.Submit(Some(Controller(scheduler.submitted)));
      PendingSubmit(before, Some(Controller(job)));
      queries := queries[job := Fresh(key)];
      inFlightQueries := inFlightQueries[key := job];
      StartKeeps(was, Now(), key, job);
    }

    /** The shared record for a key: what is in flight, or a fresh request. */
    method Find(key: Key) returns (job: Job)
      requires Valid()
      modifies this`queries, this`inFlightQueries, scheduler
      ensures ValidBut(job) && scheduler.raised == old(scheduler.raised)
      ensures job in queries && Joinable(queries[job], job, scheduler.raised)
      ensures inFlightQueries == old(inFlightQueries)[key := job]
      ensures key in old(inFlightQueries) ==> job == old(inFlightQueries)[key] && queries == old(queries)
      ensures key !in old(inFlightQueries) ==>
        job == old(scheduler.submitted) && job !in old(queries) && queries == old(queries)[job := Fresh(key)]
    {
      if key in inFlightQueries {
        job := inFlightQueries[key];
        assert KeyOk(key, inFlightQueries[key], Now());
        ValidButAny(Now(), job);
      } else {
        job := Start(key);
      }
    }

    /** `consumeQuery` for a caller whose signal is not aborted: count the consumer, attach its reactions. */
    method Consume(job: Job, signal: Option<nat>) returns (c: Consumer)
      requires ValidBut(job) && job in queries && Joinable(queries[job], job, scheduler.raised)
      modifies this`queries, this`readers
      ensures Valid() && c == |old(readers)|
      ensures readers == old(readers) + [Reader(job, |old(queries)[job].reactions|, signal, [])]
      ensures queries == old(queries)[job := Joined(old(queries)[job], c)]
    {
      ghost var was := Now();
      c := |readers|;
      var q := queries[job];
      readers := readers + [Reader(job, |q.reactions|, signal, [])];
      queries := queries[job := q.(consumers := q.consumers + 1, open := q.open + {c}, reactions := q.reactions + [c])];
      JoinKeeps(was, Now(), job, signal);
    }

    /** `controlPlaneRequest` for a query: nothing for an aborted caller, else join or start. */
    method Request(key: Key, signal: Option<nat>) returns (c: Option<Consumer>)
      requires Valid()
      modifies this`inFlightQueries, this`queries, this`readers, scheduler
      ensures Valid()
      ensures c.None? <==> signal.Some? && Caller(signal.value) in old(scheduler.raised)
      ensures scheduler.raised == old(scheduler.raised) && old(queries.Keys) <= queries.Keys
      ensures c.Some? ==> key in inFlightQueries && Controller(inFlightQueries[key]) !in scheduler.raised
      ensures forall j :: j in old(queries) && (c.Some? ==> j != inFlightQueries[key]) ==> queries[j] == old(queries)[j]
      ensures c.None? ==> inFlightQueries == old(inFlightQueries) && readers == old(readers) && queries == old(queries)
      ensures c.Some? ==>
        var job := inFlightQueries[key];
        && queries.Keys == old(queries.Keys) + {job}
        && queries[job] == Joined(if job in old(queries) then old(queries)[job] else Fresh(key), c.value)
      ensures c.Some? ==>
        && key in inFlightQueries && inFlightQueries == old(inFlightQueries)[key := inFlightQueries[key]]
        && (key in old(inFlightQueries) ==> inFlightQueries[key] == old(inFlightQueries)[key])
        && (key !in old(inFlightQueries) ==> inFlightQueries[key] !in old(queries))
        && c.value == |old(readers)| && |readers| == c.value + 1 && readers[..c.value] == old(readers)
        && readers[c.value].query == inFlightQueries[key]
        && readers[c.value].signal == signal && readers[c.value].told == []
    {
      if signal.Some? && Caller(signal.value) in scheduler.raised { return None; }
      ghost var before := queries;
      var job := Find(key);
      ghost var found := queries;
      var consumer := Consume(job, signal);
      OnlyJoined(before, found, queries, key, job, consumer);
      return Some(consumer);
    }

    /** The query leaves the table and its controller is aborted, which takes a waiting job out of the queue. */
    method Forget(job: Job) returns (waiting: bool)
      requires ValidBut(job)
      requires job in queries && Joinable(queries[job], job, scheduler.raised) && queries[job].open == {}
      modifies this`inFlightQueries, scheduler
      ensures scheduler.Valid() && scheduler.Fair() && mutationListeners.Valid()
      ensures old(queries)[job].key in old(inFlightQueries) && old(inFlightQueries)[old(queries)[job].key] == job
      ensures inFlightQueries == old(inFlightQueries) - {queries[job].key}
      ensures scheduler.running == old(scheduler.running)
      ensures scheduler.raised == old(scheduler.raised) + {Controller(job)}
      ensures Consistent(Now().(pending := old(Now()).pending), {})
      ensures waiting <==> job in old(scheduler.requestQueue)
      ensures waiting ==> job in old(Now()).pending
      ensures Now().pending == if waiting then old(Now()).pending - {job} else old(Now()).pending
    {
      ghost var was := Now();
      assert QueryOk(job, queries[job], was, {job});
      ExactlyOnePlace(scheduler.dispatched, scheduler.requestQueue, scheduler.rejected, scheduler.submitted, job);
      PendingAbort(scheduler.running, scheduler.requestQueue, scheduler.signalOf, job);
      CancelKeeps(was, was.(table := was.table - {queries[job].key}, raised := was.raised + {Controller(job)}), job);
      var key := queries[job].key;
      if key in inFlightQueries && inFlightQueries[key] == job {
        inFlightQueries := inFlightQueries - {key};
      }
      waiting := job in scheduler.requestQueue;
      scheduler.Abort(Controller(job));
    }

    /** No consumer is left: the query is forgotten and, if it never ran, rejected. */
    method Cancel(job: Job)
      requires ValidBut(job)
      requires job in queries && Joinable(queries[job], job, scheduler.raised) && queries[job].open == {}
      modifies this`inFlightQueries, this`queries, scheduler
      ensures Valid() && queries.Keys == old(queries.Keys)
      ensures inFlightQueries == old(inFlightQueries) - {old(queries)[job].key}
      ensures old(queries)[job].key in old(inFlightQueries) && old(inFlightQueries)[old(queries)[job].key] == job
      ensures scheduler.running == old(scheduler.running)
      ensures scheduler.raised == old(scheduler.raised) + {Controller(job)}
      ensures job in old(scheduler.requestQueue) ==> old(queries)[job].outcome.None?
      // A waiting job is rejected at once; a dispatched fetch rejects later, or not at all.
      ensures queries ==
        if job !in old(scheduler.requestQueue) then old(queries)
        else old(queries)[job := Resolved(old(queries)[job], Failed(Aborted(Controller(job))))]
    {
      ghost var was := Now();
      var waiting := Forget(job);
      if waiting {
        ghost var gone := Now().(pending := was.pending);
        assert QueryOk(job, queries[job], gone, {});
        queries := queries[job := Resolved(queries[job], Failed(Aborted(Controller(job))))];
        ResolveKeeps(gone, Now(), job, Failed(Aborted(Controller(job))));
      }
    }

    /** `release`, and the settlement that follows it when this was the consumer's first. */
    method Release(c: Consumer, how: Settlement) returns (first: bool)
      requires Valid() && c < |readers| && readers[c].query in queries
      requires c in queries[readers[c].query].open ==>
        Justified(how, readers[c].signal, queries[readers[c].query].outcome, scheduler.raised)
      modifies this`queries, this`readers
      ensures ValidBut(old(readers)[c].query) && (!first ==> Valid())
      ensures first <==> c in old(queries)[old(readers)[c].query].open
      ensures first <==> old(readers)[c].told == []
      ensures queries.Keys == old(queries.Keys)
      ensures readers == if first then Told(old(readers), c, how) else old(readers)
      ensures queries ==
        if first then old(queries)[readers[c].query := Released(old(queries)[readers[c].query], c)] else old(queries)
    {
      ghost var was := Now();
      var job := readers[c].query;
      assert ReaderOk(c, readers[c], was);
      if c !in queries[job].open {
        ValidButAny(was, job);
        return false;
      }
      queries := queries[job := Released(queries[job], c)];
      readers := Told(readers, c, how);
      ReleaseKeeps(was, Now(), c, how);
      return true;
    }

    /** The end of `abort`: a query that nobody waits for any more is cancelled, unless settled. */
    method CancelIfLast(job: Job)
      requires ValidBut(job) && job in queries && Controller(job) !in scheduler.raised
      modifies this`inFlightQueries, this`queries, scheduler
      ensures Valid() && queries.Keys == old(queries.Keys) && old(scheduler.raised) <= scheduler.raised
      ensures forall j :: j in queries ==> queries[j].reactions == old(queries)[j].reactions
      ensures forall j :: j in queries ==>
        CancelledAt(old(queries)[j].outcome, queries[j].outcome, j, scheduler.raised)
      ensures Controller(job) in scheduler.raised <==> old(queries)[job].open == {} && !old(queries)[job].settled
      ensures Controller(job) in scheduler.raised ==>
        && old(queries)[job].key in old(inFlightQueries) && old(inFlightQueries)[old(queries)[job].key] == job
        && inFlightQueries == old(inFlightQueries) - {old(queries)[job].key}
      ensures Controller(job) !in scheduler.raised ==>
        inFlightQueries == old(inFlightQueries) && scheduler.raised == old(scheduler.raised)
      ensures scheduler.running == old(scheduler.running)
    {
      LastOut(Now(), job);
      if queries[job].consumers == 0 && !queries[job].settled {
        Cancel(job);
      }
    }

    /** The `abort` listener of one consumer, run by its own signal. */
    method AbortConsumer(c: Consumer)
      requires Valid() && c < |readers|
      requires readers[c].signal.Some? && Caller(readers[c].signal.value) in scheduler.raised
      modifies this`inFlightQueries, this`queries, this`readers, scheduler
      ensures Valid() && queries.Keys == old(queries.Keys) && old(scheduler.raised) <= scheduler.raised
      ensures forall j :: j in queries ==> queries[j].reactions == old(queries)[j].reactions
      ensures forall j :: j in queries ==>
        CancelledAt(old(queries)[j].outcome, queries[j].outcome, j, scheduler.raised)
      ensures readers == if old(readers)[c].told == []
                         then Told(old(readers), c, ByOwnSignal(old(readers)[c].signal.value)) else old(readers)
      ensures old(readers)[c].query in old(queries)
      ensures inFlightQueries != old(inFlightQueries) ==>
        var key := old(queries)[old(readers)[c].query].key;
        && key in old(inFlightQueries) && old(inFlightQueries)[key] == old(readers)[c].query
        && inFlightQueries == old(inFlightQueries) - {key}
      ensures scheduler.running == old(scheduler.running)
    {
      var job := readers[c].query;
      ReaderFacts(Now(), c);
      var first := Release(c, ByOwnSignal(readers[c].signal.value));
      if !first { return; }
      CancelIfLast(job);
    }

    /** A caller's signal fires. Its consumers' listeners are steps of their own. */
    method AbortCaller(id: nat)
      requires Valid()
      modifies scheduler
      ensures Valid()
      ensures scheduler.raised == old(scheduler.raised) + {Caller(id)} && scheduler.running == old(scheduler.running)
    {
      ghost var was := Now();
      scheduler.Abort(Caller(id));
      SelectMembers(old(scheduler.requestQueue), scheduler.signalOf, Caller(id), false);
      forall j | j in queries ensures j in Now().pending <==> j in was.pending {
        assert QueryOk(j, queries[j], was, {});
      }
      RaiseKeeps(was, Now(), id);
    }

    /** The network settles a dispatched query: free its slot, then settle the shared promise. */
    method Respond(job: Job, response: Response, timedOut: bool)
      requires Valid() && job in queries && job in scheduler.running
      modifies this`queries, scheduler
      ensures Valid() && scheduler.raised == old(scheduler.raised)
      ensures old(queries)[job].outcome.None? && scheduler.Now() == Settled(old(scheduler.Now()), job)
      ensures job in queries && queries[job].outcome.Some?
      ensures queries == old(queries)[job := old(queries)[job].(outcome := queries[job].outcome)]
      // Data is data; of a failure the timeout comes first, then the abort by the last consumer's leaving.
      ensures response.Answer? ==> queries[job].outcome.value == Data(response.value)
      ensures response.Threw? && timedOut ==> queries[job].outcome.value == Failed(TimedOut)
      ensures response.Threw? && !timedOut && Controller(job) in scheduler.raised ==>
        queries[job].outcome.value == Failed(Aborted(Controller(job)))
      ensures response.Threw? && !timedOut && Controller(job) !in scheduler.raised ==>
        queries[job].outcome.value == Failed(Network(response.code))
    {
      ghost var was := Now();
      assert QueryOk(job, queries[job], was, {});
      var outcome := Execute(response, timedOut, Controller(job) in scheduler.raised, Controller(job));
      ExactlyOnePlace(scheduler.dispatched, scheduler.requestQueue, scheduler.rejected, scheduler.submitted, job);
      PendingSettle(scheduler.running, scheduler.requestQueue, job);
      scheduler.Settle(job);
      queries := queries[job := Resolved(queries[job], outcome)];
      ResolveKeeps(was, Now(), job, outcome);
    }

    /** The first reaction of a settled promise: `cleanup`. */
    method Cleanup(job: Job)
      requires Valid() && job in queries && queries[job].outcome.Some? && queries[job].ran == 0
      modifies this`inFlightQueries, this`queries
      ensures Valid() && queries == old(queries)[job := Reacted(old(queries)[job])]
      ensures inFlightQueries ==
        if queries[job].key in old(inFlightQueries) && old(inFlightQueries)[queries[job].key] == job
                                 then old(inFlightQueries) - {queries[job].key} else old(inFlightQueries)
    {
      ghost var was := Now();
      var q := queries[job];
      queries := queries[job := Reacted(q)];
      if q.key in inFlightQueries && inFlightQueries[q.key] == job {
        inFlightQueries := inFlightQueries - {q.key};
      }
      CleanupKeeps(was, Now(), job);
    }

    /** The next reaction after `cleanup`: the consumer that attached next. */
    method Notify(job: Job)
      requires Valid() && job in queries && 0 < queries[job].ran <= |queries[job].reactions|
      modifies this`queries, this`readers
      ensures Valid() && queries.Keys == old(queries.Keys)
      ensures queries[job].ran == old(queries)[job].ran + 1
      ensures forall j :: j in queries ==>
        queries[j].reactions == old(queries)[j].reactions && queries[j].outcome == old(queries)[j].outcome
      ensures var c := old(queries)[job].reactions[old(queries)[job].ran - 1];
        && old(queries)[job].outcome.Some? && c < |old(readers)|
        && readers == if old(readers)[c].told == []
                      then Told(old(readers), c, ByRequest(old(queries)[job].outcome.value)) else old(readers)
    {
      var c := queries[job].reactions[queries[job].ran - 1];
      assert QueryOk(job, queries[job], Now(), {}) && AttachedAt(job, queries[job].ran - 1, c, readers);
      var first := Release(c, ByRequest(queries[job].outcome.value));
      ghost var told := Now();
      queries := queries[job := Reacted(queries[job])];
      ReactionKeeps(told, Now(), job);
    }

    /** `scheduleRequest`, as it shows in the values of the invariant. */
    method Enqueue(caller: Option<nat>) returns (job: Job)
      requires Valid()
      modifies scheduler
      ensures scheduler.Valid() && scheduler.Fair() && mutationListeners.Valid()
      ensures job == old(scheduler.submitted) && scheduler.raised == old(scheduler.raised)
      ensures scheduler.Now() == Submitted(old(scheduler.Now()), CallerSignal(caller))
      ensures Now() == Enqueued(old(Now()), old(scheduler.Now()), CallerSignal(caller))
      ensures job in scheduler.signalOf
      ensures scheduler.signalOf[job] == if caller.Some? then Some(Caller(caller.value)) else None
      ensures job in scheduler.rejected <==> caller.Some? && Caller(caller.value) in scheduler.raised
    {
      ScheduledUnder(scheduler.Now(), caller);
      job := scheduler.Submit(CallerSignal(caller));
    }

    /** `controlPlaneRequest` for a mutation: its signal counts only while a disposable one waits. */
    method Mutate(signal: Option<nat>, cancelBeforeDispatch: bool) returns (job: Job)
      requires Valid()
      modifies this`mutations, scheduler
      ensures Valid() && job == old(scheduler.submitted) && scheduler.raised == old(scheduler.raised)
      ensures mutations == old(mutations)[job := if cancelBeforeDispatch then signal else None]
      ensures scheduler.Now() ==
        Submitted(old(scheduler.Now()), CallerSignal(if cancelBeforeDispatch then signal else None))
      // Only a disposable mutation shows its caller's signal to the scheduler, and only then it can be refused.
      ensures job in scheduler.signalOf &&
        scheduler.signalOf[job] ==
          if cancelBeforeDispatch && signal.Some? then Some(Caller(signal.value)) else None
      ensures job in scheduler.rejected <==>
        cancelBeforeDispatch && signal.Some? && Caller(signal.value) in scheduler.raised
    {
      ghost var was, before := Now(), scheduler.Now();
      var scheduled := if cancelBeforeDispatch then signal else None;
      job := Enqueue(scheduled);
      mutations := mutations[job := scheduled];
      MutatedKeeps(was, before, scheduled);
    }

    /** The network settles a dispatched mutation, whose fetch carries no signal at all. */
    method MutationSettles(job: Job, response: Response, timedOut: bool)
      requires Valid() && job in mutations && job in scheduler.running
      modifies this`results, scheduler
      ensures Valid() && scheduler.raised == old(scheduler.raised)
      ensures job in results && results == old(results)[job := results[job]]
      ensures response.Answer? ==> results[job] == Data(response.value)
      ensures response.Threw? && timedOut ==> results[job] == Failed(TimedOut)
      ensures response.Threw? && !timedOut ==> results[job] == Failed(Network(response.code))
      ensures scheduler.Now() == Settled(old(scheduler.Now()), job)
    {
      ghost var was := Now();
      ExactlyOnePlace(scheduler.dispatched, scheduler.requestQueue, scheduler.rejected, scheduler.submitted, job);
      PendingSettle(scheduler.running, scheduler.requestQueue, job);
      scheduler.Settle(job);
      results := results[job := Execute(response, timedOut, false, Controller(job))];
      MutationDone(was, Now(), job);
    }

    /**
     A successful mutation resumes: the listeners registered at this moment are told once each,
     whatever they register, remove or throw meanwhile, and the caller gets the data.
     */
    method MutationSucceeds(job: Job, reactions: seq<MutationListeners.Reaction>) returns (data: int)
      requires Valid() && job in results && results[job].Data? && job !in mutationListeners.audiences
      modifies mutationListeners
      ensures Valid() && Data(data) == results[job]
      ensures mutationListeners.audiences == old(mutationListeners.audiences)[job := old(mutationListeners.listeners)]
      ensures MutationListeners.EachOnce(mutationListeners.calls, job, old(mutationListeners.listeners))
    {
      mutationListeners.TellAll(job, reactions);
      MutationListeners.AudienceOnce(mutationListeners.calls, mutationListeners.audiences, job);
      return results[job].value;
    }
  }

  /** A rejected mutation was disposable, its own caller aborted, and it was never dispatched. */
  lemma OnlyDisposableMutationsAreRejected(client: ControlPlaneClient, job: Job)
    requires client.Valid() && job in client.mutations && job in client.scheduler.rejected
    ensures client.mutations[job].Some? && Caller(client.mutations[job].value) in client.scheduler.raised
    ensures job !in client.scheduler.dispatched && job !in client.scheduler.requestQueue
  {
    var i :| 0 <= i < |client.scheduler.rejected| && client.scheduler.rejected[i] == job;
    assert MutationOk(job, client.mutations[job], client.Now());
    var s := client.scheduler;
    ExactlyOnePlace(s.dispatched, s.requestQueue, s.rejected, s.submitted, job);
  }

  datatype Event =
    | Requests(key: Key, signal: Option<nat>)
    | CallerAborts(id: nat)
    | ListenerRuns(consumer: Consumer)
    | NetworkSettles(job: Job, response: Response, timedOut: bool)
    | ReactionRuns(query: Job)
    | Mutates(own: Option<nat>, cancelBeforeDispatch: bool)
    | Succeeds(mutation: Job, reactions: seq<MutationListeners.Reaction>)
    | Registers(listener: MutationListeners.Listener)
    | Unregisters(former: MutationListeners.Listener)

  /** What the network's part in an event makes of a dispatched job that no abort has reached. */
  ghost predicate NetworkMakes(event: Event, j: Job, outcome: Outcome) {
    && event.NetworkSettles? && event.job == j
    && match event.response
       case Answer(value) => outcome == Data(value)
       case Threw(code) => outcome == if event.timedOut then Failed(TimedOut) else Failed(Network(code))
  }

  /** An event settles a query's promise by the network or by its controller's abort, and never settles it again. */
  ghost predicate OutcomeStep(before: Option<Outcome>, after: Option<Outcome>, j: Job, event: Event,
          raised: set<Signal>) {
    CancelledAt(before, after, j, raised) || (before.None? && after.Some? && NetworkMakes(event, j, after.value))
  }

  function OutcomeOf(queries: map<Job, SharedQuery>, j: Job): Option<Outcome> {
    if j in queries then queries[j].outcome else None
  }

  ghost predicate Outcomes(before: map<Job, SharedQuery>, after: map<Job, SharedQuery>, event: Event,
          raised: set<Signal>) {
    forall j: Job {:trigger OutcomeOf(after, j)} ::
      OutcomeStep(OutcomeOf(before, j), OutcomeOf(after, j), j, event, raised)
  }

  /** Only the network settles a mutation. */
  ghost predicate Results(before: map<Job, Outcome>, after: map<Job, Outcome>, event: Event) {
    forall j {:trigger after[j]} :: j in after ==>
      (j in before && before[j] == after[j]) || NetworkMakes(event, j, after[j])
  }

  lemma OthersKeepReactions(before: map<Job, SharedQuery>, raised: set<Signal>, after: map<Job, SharedQuery>, job: Job)
    requires Controller(job) !in raised && before.Keys <= after.Keys
    requires forall j :: j in before && j != job ==> after[j] == before[j]
    ensures NobodyJoins(before, raised, after)
  {
  }

  /** A consumer that joins a query settles nothing. */
  lemma JoinedOutcomes(before: map<Job, SharedQuery>, after: map<Job, SharedQuery>, key: Key, job: Job, c: Consumer,
          event: Event, raised: set<Signal>)
    requires job in after && after.Keys == before.Keys + {job}
    requires forall j :: j in before && j != job ==> after[j] == before[j]
    requires after[job] == Joined(if job in before then before[job] else Fresh(key), c)
    ensures Outcomes(before, after, event, raised)
  {
    SameOutcomes(before, after, event, raised);
  }

  lemma SameOutcomes(before: map<Job, SharedQuery>, after: map<Job, SharedQuery>, event: Event, raised: set<Signal>)
    requires forall j {:trigger after[j]} :: j in after ==> after[j].outcome == OutcomeOf(before, j)
    requires before.Keys <= after.Keys
    ensures Outcomes(before, after, event, raised)
  {
  }

  lemma OneOutcome(before: map<Job, SharedQuery>, after: map<Job, SharedQuery>, job: Job, event: Event,
          raised: set<Signal>)
    requires job in before && job in after && after == before[job := after[job]]
    requires OutcomeStep(before[job].outcome, after[job].outcome, job, event, raised)
    ensures Outcomes(before, after, event, raised)
  {
  }

  /** Some event of the run made this of a job. */
  ghost predicate Made(events: seq<Event>, j: Job, outcome: Outcome) {
    exists i :: 0 <= i < |events| && NetworkMakes(events[i], j, outcome)
  }

  ghost predicate Explained(events: seq<Event>, j: Job, outcome: Outcome, raised: set<Signal>) {
    (outcome == Failed(Aborted(Controller(j))) && Controller(j) in raised) || Made(events, j, outcome)
  }

  /** Every settled promise goes back to an event, or to its controller's abort; a mutation's to an event. */
  ghost predicate AllExplained(events: seq<Event>, queries: map<Job, SharedQuery>, results: map<Job, Outcome>,
          raised: set<Signal>) {
    && (forall j {:trigger queries[j]} :: j in queries && queries[j].outcome.Some? ==>
          Explained(events, j, queries[j].outcome.value, raised))
    && (forall j {:trigger results[j]} :: j in results ==> Made(events, j, results[j]))
  }

  lemma MadeLater(events: seq<Event>, event: Event, j: Job, outcome: Outcome)
    requires Made(events, j, outcome) || NetworkMakes(event, j, outcome)
    ensures Made(events + [event], j, outcome)
  {
    if Made(events, j, outcome) {
      var i :| 0 <= i < |events| && NetworkMakes(events[i], j, outcome);
      assert (events + [event])[i] == events[i];
    } else {
      assert (events + [event])[|events|] == event;
    }
  }

  lemma ExplainedOneMore(events: seq<Event>, event: Event, before: map<Job, SharedQuery>, after: map<Job, SharedQuery>,
          settled: map<Job, Outcome>, results: map<Job, Outcome>, was: set<Signal>, raised: set<Signal>)
    requires AllExplained(events, before, settled, was) && was <= raised
    requires Outcomes(before, after, event, raised) && Results(settled, results, event)
    ensures AllExplained(events + [event], after, results, raised)
  {
    forall j | j in after && after[j].outcome.Some?
      ensures Explained(events + [event], j, after[j].outcome.value, raised)
    {
      assert OutcomeStep(OutcomeOf(before, j), OutcomeOf(after, j), j, event, raised);
      if Made(events, j, after[j].outcome.value) || NetworkMakes(event, j, after[j].outcome.value) {
        MadeLater(events, event, j, after[j].outcome.value);
      }
    }
    forall j | j in results ensures Made(events + [event], j, results[j]) {
      MadeLater(events, event, j, results[j]);
    }
  }

  /**
   What a consumer can rely on: it waits exactly while it has not been settled, is settled at most
   once, by its own signal or with its query's outcome, and exactly once when the reactions have run.
   If its own signal is not aborted, it is told what its query came to.
   */
  ghost predicate ConsumerServed(c: Consumer, r: Reader, queries: map<Job, SharedQuery>, raised: set<Signal>) {
    && r.query in queries && |r.told| <= 1
    && (r.told == [] <==> c in queries[r.query].open)
    && (r.told != [] ==> Justified(r.told[0], r.signal, queries[r.query].outcome, raised))
    && (queries[r.query].ran == |queries[r.query].reactions| + 1 ==> |r.told| == 1)
    && ((r.signal.Some? ==> Caller(r.signal.value) !in raised) ==>
          forall how :: how in r.told ==> how.ByRequest? && queries[r.query].outcome == Some(how.outcome))
  }

  lemma EveryConsumerIsServed(s: Snapshot, c: Consumer)
    requires Consistent(s, {}) && c < |s.readers|
    ensures ConsumerServed(c, s.readers[c], s.queries, s.raised)
  {
    assert ReaderOk(c, s.readers[c], s);
    var q := s.queries[s.readers[c].query];
    if q.ran == |q.reactions| + 1 { EveryConsumerSettles(s, c); }
  }

  /** One more event of a run. */
  method StepOn(client: ControlPlaneClient, ghost past: seq<Event>, event: Event)
    requires client.Valid() && AllExplained(past, client.queries, client.results, client.scheduler.raised)
    modifies client, client.scheduler, client.mutationListeners
    ensures client.Valid() && AllExplained(past + [event], client.queries, client.results, client.scheduler.raised)
  {
    ghost var was, settled, raised := client.queries, client.results, client.scheduler.raised;
    Step(client, event);
    ExplainedOneMore(past, event, was, client.queries, settled, client.results, raised, client.scheduler.raised);
  }

  /** Events one after another. */
  method RunOn(client: ControlPlaneClient, events: seq<Event>)
    requires client.Valid() && client.queries == map[] && client.results == map[]
    modifies client, client.scheduler, client.mutationListeners
    ensures client.Valid() && AllExplained(events, client.queries, client.results, client.scheduler.raised)
  {
    ghost var past := [];
    for n := 0 to |events|
      invariant client.Valid() && past == events[..n]
      invariant AllExplained(past, client.queries, client.results, client.scheduler.raised)
    {
      StepOn(client, past, events[n]);
      past := past + [events[n]];
    }
    assert past == events;
  }

  /**
   Every run of the request layer, whatever the interleaving, leaves its consumers isolated, and
   each listener has been told exactly once of each success at whose moment it was registered.
   */
  method RunEvents(events: seq<Event>)
      returns (table: map<Key, Job>, queries: map<Job, SharedQuery>, readers: seq<Reader>, raised: set<Signal>,
               results: map<Job, Outcome>, active: int,
               calls: seq<MutationListeners.Call>, audiences: map<Job, seq<MutationListeners.Listener>>)
    ensures 0 <= active <= MAX_CONCURRENT_REQUESTS
    ensures forall k :: k in table ==>
      && table[k] in queries && queries[table[k]].key == k && Joinable(queries[table[k]], table[k], raised)
      && queries[table[k]].consumers == |queries[table[k]].open| >= 1
    ensures forall j :: j in queries && Joinable(queries[j], j, raised) ==>
      queries[j].key in table && table[queries[j].key] == j
    ensures forall j :: j in queries && Controller(j) in raised ==> queries[j].open == {}
    ensures forall c :: 0 <= c < |readers| ==> ConsumerServed(c, readers[c], queries, raised)
    // Data was answered, a failure was thrown or timed out; an abort is the query's own controller's.
    ensures AllExplained(events, queries, results, raised)
    ensures forall j: Job :: MutationListeners.EachOnce(calls, j, MutationListeners.Audience(audiences, j))
  {
    var client := new ControlPlaneClient();
    RunOn(client, events);
    table, queries, readers, raised := client.inFlightQueries, client.queries, client.readers, client.scheduler.raised;
    results, active := client.results, client.scheduler.activeRequests;
    calls, audiences := client.mutationListeners.calls, client.mutationListeners.audiences;
    forall j: Job ensures MutationListeners.EachOnce(calls, j, MutationListeners.Audience(audiences, j)) {
      MutationListeners.AudienceOnce(calls, audiences, j);
    }
    ghost var s := client.Now();
    forall k | k in table
      ensures table[k] in queries && queries[table[k]].key == k && Joinable(queries[table[k]], table[k], raised)
      ensures queries[table[k]].consumers == |queries[table[k]].open| >= 1
    {
      ListedQueries(s, k);
    }
    forall j | j in queries
      ensures Joinable(queries[j], j, raised) ==> queries[j].key in table && table[queries[j].key] == j
      ensures Controller(j) in raised ==> queries[j].open == {}
    {
      assert QueryOk(j, s.queries[j], s, {});
    }
    forall c | 0 <= c < |readers| ensures ConsumerServed(c, readers[c], queries, raised) {
      EveryConsumerIsServed(s, c);
    }
  }

  ghost predicate NobodyJoins(before: map<Job, SharedQuery>, raised: set<Signal>, after: map<Job, SharedQuery>) {
    forall j {:trigger before[j]} {:trigger after[j]} :: j in before && Controller(j) in raised ==>
      j in after && after[j].reactions == before[j].reactions
  }

  /** A mutation that has ended with data, and whose caller has not gone on yet. */
  predicate MaySucceed(client: ControlPlaneClient, job: Job)
    reads client
  {
    job in client.results && client.results[job].Data?
  }

  /** A dispatched query or mutation that the network answers comes to the data. */
  ghost predicate AnsweredNow(running: set<Job>, event: Event, client: ControlPlaneClient)
    reads client
  {
    event.NetworkSettles? && event.job in running && event.response.Answer? ==>
      && (event.job in client.queries ==> OutcomeOf(client.queries, event.job) == Some(Data(event.response.value)))
      && (event.job in client.mutations && event.job !in client.queries ==>
            event.job in client.results && client.results[event.job] == Data(event.response.value))
  }

  /** The network settles a dispatched query. */
  method QueryStep(client: ControlPlaneClient, job: Job, response: Response, timedOut: bool)
    requires client.Valid() && job in client.scheduler.running && job in client.queries
    modifies client`queries, client.scheduler
    ensures client.Valid() && client.scheduler.raised == old(client.scheduler.raised)
    ensures NobodyJoins(old(client.queries), client.scheduler.raised, client.queries)
    ensures Outcomes(old(client.queries), client.queries, NetworkSettles(job, response, timedOut),
                     client.scheduler.raised)
    ensures response.Answer? ==> OutcomeOf(client.queries, job) == Some(Data(response.value))
    ensures client.queries.Keys == old(client.queries.Keys)
  {
    ghost var was := client.queries;
    client.Respond(job, response, timedOut);
    OneOutcome(was, client.queries, job, NetworkSettles(job, response, timedOut), client.scheduler.raised);
  }

  /** The network settles a dispatched query or mutation. */
  method NetworkStep(client: ControlPlaneClient, job: Job, response: Response, timedOut: bool)
    requires client.Valid()
    modifies client, client.scheduler
    ensures client.Valid() && client.scheduler.raised == old(client.scheduler.raised)
    ensures NobodyJoins(old(client.queries), client.scheduler.raised, client.queries)
    ensures Outcomes(old(client.queries), client.queries, NetworkSettles(job, response, timedOut),
                     client.scheduler.raised)
    ensures Results(old(client.results), client.results, NetworkSettles(job, response, timedOut))
    ensures AnsweredNow(old(client.scheduler.running), NetworkSettles(job, response, timedOut), client)
  {
    if job in client.scheduler.running {
      if job in client.queries {
        QueryStep(client, job, response, timedOut);
      } else if job in client.mutations {
        client.MutationSettles(job, response, timedOut);
      }
    }
  }

  /** The next reaction of a settled promise runs: `cleanup` first, then the consumers. */
  method ReactionStep(client: ControlPlaneClient, job: Job)
    requires client.Valid()
    modifies client, client.scheduler
    ensures Outcomes(old(client.queries), client.queries, ReactionRuns(job), client.scheduler.raised)
    ensures client.results == old(client.results)
    ensures client.Valid() && client.scheduler.raised == old(client.scheduler.raised)
    ensures NobodyJoins(old(client.queries), client.scheduler.raised, client.queries)
  {
    if job in client.queries && client.queries[job].outcome.Some? {
      ghost var was := client.queries;
      if client.queries[job].ran == 0 {
        client.Cleanup(job);
      } else if client.queries[job].ran <= |client.queries[job].reactions| {
        client.Notify(job);
      }
      SameOutcomes(was, client.queries, ReactionRuns(job), client.scheduler.raised);
    }
  }

  predicate ConcernsListeners(event: Event) {
    event.Succeeds? || event.Registers? || event.Unregisters?
  }

  /** A query is asked for. */
  method AskStep(client: ControlPlaneClient, key: Key, signal: Option<nat>)
    requires client.Valid()
    modifies client, client.scheduler
    ensures client.Valid() && client.scheduler.raised == old(client.scheduler.raised)
    ensures NobodyJoins(old(client.queries), client.scheduler.raised, client.queries)
    ensures Outcomes(old(client.queries), client.queries, Requests(key, signal), client.scheduler.raised)
    ensures client.results == old(client.results)
  {
    ghost var was, raised := client.queries, client.scheduler.raised;
    var c := client.Request(key, signal);
    if c.Some? {
      OthersKeepReactions(was, raised, client.queries, client.inFlightQueries[key]);
      JoinedOutcomes(was, client.queries, key, client.inFlightQueries[key], c.value, Requests(key, signal),
                     client.scheduler.raised);
    }
  }

  /** A consumer's `abort` listener runs, if its signal is aborted. */
  method AbortStep(client: ControlPlaneClient, c: Consumer)
    requires client.Valid()
    modifies client, client.scheduler
    ensures client.Valid() && old(client.scheduler.raised) <= client.scheduler.raised
    ensures NobodyJoins(old(client.queries), old(client.scheduler.raised), client.queries)
    ensures Outcomes(old(client.queries), client.queries, ListenerRuns(c), client.scheduler.raised)
    ensures client.results == old(client.results)
  {
    if c < |client.readers| && client.readers[c].signal.Some? {
      if Caller(client.readers[c].signal.value) in client.scheduler.raised { client.AbortConsumer(c); }
    }
  }

  /** An event of the queries and mutations themselves. */
  method RequestStep(client: ControlPlaneClient, event: Event)
    requires client.Valid() && !ConcernsListeners(event)
    modifies client, client.scheduler
    ensures client.Valid()
    ensures Outcomes(old(client.queries), client.queries, event, client.scheduler.raised)
    ensures Results(old(client.results), client.results, event)
    ensures AnsweredNow(old(client.scheduler.running), event, client)
    ensures old(client.scheduler.raised) <= client.scheduler.raised
    ensures NobodyJoins(old(client.queries), old(client.scheduler.raised), client.queries)
  {
    match event
    case Requests(key, signal) => AskStep(client, key, signal);
    case CallerAborts(id) => client.AbortCaller(id);
    case ListenerRuns(c) => AbortStep(client, c);
    case NetworkSettles(job, response, timedOut) => NetworkStep(client, job, response, timedOut);
    case ReactionRuns(job) => ReactionStep(client, job);
    case Mutates(own, disposable) => var _ := client.Mutate(own, disposable);
  }

  /** An event of the mutation listeners, which touches no request. */
  method ListenerStep(client: ControlPlaneClient, event: Event)
    requires client.Valid() && ConcernsListeners(event)
    modifies client.mutationListeners
    ensures client.Valid() && client.mutationListeners.audiences ==
      if event.Succeeds? && event.mutation in client.results && client.results[event.mutation].Data?
        && event.mutation !in old(client.mutationListeners.audiences)
      then old(client.mutationListeners.audiences[event.mutation := client.mutationListeners.listeners])
      else old(client.mutationListeners.audiences)
  {
    match event
    case Succeeds(job, reactions) =>
      if MaySucceed(client, job) && job !in client.mutationListeners.audiences {
        var _ := client.MutationSucceeds(job, reactions);
      }
    case Registers(listener) => client.mutationListeners.Add(listener);
    case Unregisters(listener) => client.mutationListeners.Remove(listener);
  }

  /** One event. An event that cannot happen now (no such request, nothing to run) changes nothing. */
  method Step(client: ControlPlaneClient, event: Event)
    requires client.Valid()
    modifies client, client.scheduler, client.mutationListeners
    ensures client.Valid()
    ensures old(client.scheduler.raised) <= client.scheduler.raised
    // Promises settle once, by the network or by their controller's abort; a mutation's by the network alone.
    ensures Outcomes(old(client.queries), client.queries, event, client.scheduler.raised)
    ensures Results(old(client.results), client.results, event)
    ensures AnsweredNow(old(client.scheduler.running), event, client)
    // The audience of a success is who is registered at its moment; it is told then and never again.
    ensures client.mutationListeners.audiences ==
      if event.Succeeds? && event.mutation in old(client.results) && old(client.results)[event.mutation].Data?
        && event.mutation !in old(client.mutationListeners.audiences)
      then old(client.mutationListeners.audiences[event.mutation := client.mutationListeners.listeners])
      else old(client.mutationListeners.audiences)
    // Nobody joins a query whose controller has been aborted.
    ensures NobodyJoins(old(client.queries), old(client.scheduler.raised), client.queries)
  {
    if ConcernsListeners(event) { ListenerStep(client, event); } else { RequestStep(client, event); }
  }
}

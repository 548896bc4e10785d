/**
 One upstream subscription fanned out to many sinks (src/lib/control-plane-client.ts:289-300, 541-597).

 Registrations are numbered, so a set of them iterated in increasing order is a JavaScript `Set`
 iterated in insertion order. Sinks call back in: a `Reaction` is everything one sink does while
 an event is being delivered to it, including new subscriptions whose own upstream reports
 synchronously, and whether it throws in the end.
 */
module SharedSubscriptions {
  import opened Options

  type Key = string
  type Consumer = nat
  type Entry = nat

  datatype Message = Value(value: int) | Failed(code: int) | Completed

  datatype Call =
    | Subscribe(key: Key, during: seq<Delivery>)   // what a fresh upstream reports before `subscribe` returns
    | Leave(consumer: Consumer)

  /** One upstream message, and what each sink in the snapshot does with it, in order. */
  datatype Delivery = Delivery(message: Message, reactions: seq<Reaction>)

  datatype Reaction = Reaction(calls: seq<Call>, throws: bool)

  datatype Event = Do(call: Call) | Reports(entry: Entry, delivery: Delivery)

  /** What happens to an entry: sinks come and go, and messages are delivered to those there are. */
  datatype Item = Joined(consumer: Consumer) | Removed(consumer: Consumer) | Sent(message: Message)

  /** One entry of the table, also after it has left the table. */
  datatype Shared = Shared(
    key: Key,
    sinks: set<Consumer>,
    first: Consumer,          // the registration that created it
    disposable: bool,         // `resilientSubscribe` has returned its disposer
    upstreamOpen: bool,       // neither disposed nor ended
    log: seq<Item>            // a message is logged when its delivery begins
  )

  datatype Registration = Registration(
    entry: Entry,
    received: seq<Message>,
    owed: seq<Message>,       // in a snapshot that is being delivered, and not yet reached
    handle: bool              // its leave function has been returned
  )

  datatype State = State(table: map<Key, Entry>, entries: seq<Shared>, consumers: seq<Registration>)

  /** An error or a completion leaves nobody. */
  function MembersAfter(members: set<Consumer>, item: Item): set<Consumer> {
    if item.Joined? then members + {item.consumer}
    else if item.Removed? then members - {item.consumer}
    else if item.message.Value? then members
    else {}
  }

  /** Who is registered after these events. */
  function Members(log: seq<Item>): set<Consumer> {
    if log == [] then {} else MembersAfter(Members(log[..|log| - 1]), log[|log| - 1])
  }

  /** The messages whose delivery began while the consumer was registered. */
  function Due(log: seq<Item>, c: Consumer): seq<Message> {
    if log == [] then []
    else
      var last := |log| - 1;
      Due(log[..last], c) + if log[last].Sent? && c in Members(log[..last]) then [log[last].message] else []
  }

  /** The messages among these events. */
  function SentIn(log: seq<Item>): seq<Message> {
    if log == [] then []
    else
      var last := |log| - 1;
      SentIn(log[..last]) + if log[last].Sent? then [log[last].message] else []
  }

  lemma LogAppends(log: seq<Item>, item: Item)
    ensures Members(log + [item]) == MembersAfter(Members(log), item)
    ensures SentIn(log + [item]) == SentIn(log) + if item.Sent? then [item.message] else []
  {
    assert (log + [item])[..|log|] == log;
  }

  lemma DueAppends(log: seq<Item>, item: Item, c: Consumer)
    ensures Due(log + [item], c) == Due(log, c) + if item.Sent? && c in Members(log) then [item.message] else []
  {
    assert (log + [item])[..|log|] == log;
  }

  ghost predicate JoinersKnown(log: seq<Item>, consumers: nat) {
    forall i :: 0 <= i < |log| && log[i].Joined? ==> log[i].consumer < consumers
  }

  /** Registrations are numbered as they come, so nobody joins twice. */
  ghost predicate JoinersIncrease(log: seq<Item>) {
    forall i, j :: 0 <= i < j < |log| && log[i].Joined? && log[j].Joined? ==> log[i].consumer < log[j].consumer
  }

  /** Who has left an entry never comes back, and nothing more is due to it. */
  lemma {:induction false} GoneForGood(log: seq<Item>, more: seq<Item>, c: Consumer)
    requires log <= more && JoinersIncrease(more) && Joined(c) in log && c !in Members(log)
    ensures c !in Members(more) && Due(more, c) == Due(log, c)
    decreases |more|
  {
    if more == log {
    } else {
      var last := |more| - 1;
      assert log <= more[..last];
      GoneForGood(log, more[..last], c);
      var i :| 0 <= i < |log| && log[i] == Joined(c);
      assert more[i] == Joined(c);
    }
  }

  /** Who has not joined yet is no member and nothing is due to it. */
  lemma {:induction false} NotYetJoined(log: seq<Item>, c: Consumer)
    requires JoinersKnown(log, c)
    ensures c !in Members(log) && Due(log, c) == []
  {
    if log == [] {
    } else {
      NotYetJoined(log[..|log| - 1], c);
    }
  }

  /** A registration has been handed, or is owed, exactly what is due to it. */
  ghost predicate RegistrationOk(c: Consumer, r: Registration, s: State) {
    && r.entry < |s.entries| && Joined(c) in s.entries[r.entry].log
    && r.received + r.owed == Due(s.entries[r.entry].log, c)
  }

  /** An entry is listed, and its upstream open, exactly while it has a sink. */
  ghost predicate EntryOk(e: Entry, x: Shared, s: State) {
    && (x.sinks != {} <==> x.key in s.table && s.table[x.key] == e)
    && (x.sinks != {} <==> x.upstreamOpen)
    && (forall c {:trigger SinkOk(c, e, s)} :: c in x.sinks ==> SinkOk(c, e, s))
    && x.sinks == Members(x.log) && JoinersKnown(x.log, |s.consumers|) && JoinersIncrease(x.log)
    // Its creator joined before anything was sent.
    && x.first < |s.consumers| && x.log != [] && x.log[0] == Joined(x.first)
    // While the disposer is unknown, the creator is still registered and cannot leave.
    && (x.sinks != {} && !x.disposable ==> x.first in x.sinks && !s.consumers[x.first].handle)
  }

  ghost predicate SinkOk(c: Consumer, e: Entry, s: State) {
    c < |s.consumers| && s.consumers[c].entry == e
  }

  ghost predicate KeyOk(k: Key, e: Entry, s: State) {
    e < |s.entries| && s.entries[e].key == k
  }

  ghost predicate Consistent(s: State) {
    && (forall k {:trigger KeyOk(k, s.table[k], s)} :: k in s.table ==> KeyOk(k, s.table[k], s))
    && (forall e {:trigger EntryOk(e, s.entries[e], s)} :: 0 <= e < |s.entries| ==> EntryOk(e, s.entries[e], s))
    && (forall c {:trigger RegistrationOk(c, s.consumers[c], s)} :: 0 <= c < |s.consumers| ==>
          RegistrationOk(c, s.consumers[c], s))
  }

  /**
   What a call may do to what existed before it: deliver the messages of the entries in `but`,
   and let registrations leave. Nothing stays owed that was not owed before.
   */
  ghost predicate Extends(s: State, t: State, but: set<Entry>) {
    && |s.entries| <= |t.entries| && |s.consumers| <= |t.consumers|
    && (forall e {:trigger EntryKept(e, s, t, but)} :: 0 <= e < |s.entries| ==> EntryKept(e, s, t, but))
    && (forall c {:trigger RegistrationKept(c, s, t, but)} :: 0 <= c < |t.consumers| ==> RegistrationKept(c, s, t, but))
  }

  ghost predicate EntryKept(e: Entry, s: State, t: State, but: set<Entry>)
    requires e < |s.entries| <= |t.entries|
  {
    Kept(s.entries[e], t.entries[e], e !in but, |s.consumers|)
  }

  /** An entry whose sinks came and went, `silent` if nothing was sent to them. */
  ghost predicate Kept(x: Shared, y: Shared, silent: bool, consumers: nat) {
    && y.key == x.key && y.first == x.first && y.disposable == x.disposable
    && x.log <= y.log && (silent ==> SentIn(y.log) == SentIn(x.log))
    && (x.sinks == {} ==> y.sinks == {})
    && (forall c :: c in y.sinks && c < consumers ==> c in x.sinks)
  }

  lemma KeptTrans(x: Shared, y: Shared, z: Shared, silent: bool, consumers: nat, more: nat)
    requires Kept(x, y, silent, consumers) && Kept(y, z, silent, more) && consumers <= more
    ensures Kept(x, z, silent, consumers)
  {
  }

  ghost predicate RegistrationKept(c: Consumer, s: State, t: State, but: set<Entry>)
    requires c < |t.consumers|
  {
    if c < |s.consumers| then
      && t.consumers[c].entry == s.consumers[c].entry && t.consumers[c].handle == s.consumers[c].handle
      && (if s.consumers[c].entry in but then t.consumers[c].owed == []
          else t.consumers[c].received == s.consumers[c].received && t.consumers[c].owed == s.consumers[c].owed)
    else
      t.consumers[c].owed == []
  }

  lemma ExtendsTrans(s: State, t: State, u: State, but: set<Entry>)
    requires Extends(s, t, but) && Extends(t, u, but)
    ensures Extends(s, u, but)
  {
    forall e | 0 <= e < |s.entries| ensures EntryKept(e, s, u, but) {
      assert EntryKept(e, s, t, but) && EntryKept(e, t, u, but);
      KeptTrans(s.entries[e], t.entries[e], u.entries[e], e !in but, |s.consumers|, |t.consumers|);
    }
    forall c | 0 <= c < |u.consumers| ensures RegistrationKept(c, s, u, but) {
      assert RegistrationKept(c, t, u, but);
      if c < |t.consumers| { assert RegistrationKept(c, s, t, but); }
    }
  }

  /** Nobody is owed a message of this entry. */
  ghost predicate Idle(s: State, e: Entry) {
    forall c {:trigger IdleAt(c, s, e)} :: 0 <= c < |s.consumers| ==> IdleAt(c, s, e)
  }

  ghost predicate IdleAt(c: Consumer, s: State, e: Entry)
    requires c < |s.consumers|
  {
    s.consumers[c].entry == e ==> s.consumers[c].owed == []
  }

  /** A consumer is a sink of its own entry at most. */
  lemma KnownEverywhere(s: State, c: Consumer)
    requires Consistent(s) && c < |s.consumers|
    ensures s.consumers[c].entry < |s.entries|
    ensures forall e :: 0 <= e < |s.entries| && e != s.consumers[c].entry ==> c !in s.entries[e].sinks
    ensures var x := s.entries[s.consumers[c].entry];
      c in x.sinks ==> x.upstreamOpen && x.key in s.table && s.table[x.key] == s.consumers[c].entry
  {
    assert RegistrationOk(c, s.consumers[c], s);
    assert EntryOk(s.consumers[c].entry, s.entries[s.consumers[c].entry], s);
    forall e | 0 <= e < |s.entries| && e != s.consumers[c].entry ensures c !in s.entries[e].sinks {
      assert EntryOk(e, s.entries[e], s);
      assert !SinkOk(c, e, s);
    }
  }

  // The transitions.

  /** A registration joins an entry that is in the table. */
  function Join(s: State, e: Entry): State
    requires e < |s.entries|
  {
    var c := |s.consumers|;
    var x := s.entries[e];
    s.(entries := s.entries[e := x.(sinks := x.sinks + {c}, log := x.log + [Joined(c)])],
       consumers := s.consumers + [Registration(e, [], [], false)])
  }

  /** An entry that a transition does not touch. */
  lemma OtherEntry(s: State, t: State, d: Entry)
    requires d < |s.entries| <= |t.entries| && EntryOk(d, s.entries[d], s) && t.entries[d] == s.entries[d]
    requires |s.consumers| <= |t.consumers|
    requires forall c :: 0 <= c < |s.consumers| ==>
      t.consumers[c].entry == s.consumers[c].entry && t.consumers[c].handle == s.consumers[c].handle
    requires var key := s.entries[d].key; key in t.table && t.table[key] == d <==> key in s.table && s.table[key] == d
    ensures EntryOk(d, t.entries[d], t)
  {
    SinksStay(s, t, d);
  }

  /** A registration that stays as it is while sinks come and go. */
  lemma SameDue(s: State, t: State, e: Entry, item: Item, c: Consumer)
    requires c < |s.consumers| && RegistrationOk(c, s.consumers[c], s) && e < |s.entries| == |t.entries|
    requires c < |t.consumers| && t.consumers[c] == s.consumers[c] && !item.Sent?
    requires t.entries[e].log == s.entries[e].log + [item]
    requires forall d :: 0 <= d < |s.entries| && d != e ==> t.entries[d] == s.entries[d]
    ensures RegistrationOk(c, t.consumers[c], t)
  {
    DueAppends(s.entries[e].log, item, c);
  }

  lemma JoinedEntry(s: State, e: Entry)
    requires e < |s.entries| && EntryOk(e, s.entries[e], s) && s.entries[e].sinks != {}
    ensures EntryOk(e, Join(s, e).entries[e], Join(s, e))
  {
    LogAppends(s.entries[e].log, Joined(|s.consumers|));
    SinksStay(s, Join(s, e), e);
  }

  lemma JoinedRegistration(s: State, e: Entry, c: Consumer)
    requires e < |s.entries| && EntryOk(e, s.entries[e], s) && c <= |s.consumers|
    requires c < |s.consumers| ==> RegistrationOk(c, s.consumers[c], s)
    ensures RegistrationOk(c, Join(s, e).consumers[c], Join(s, e))
  {
    var item := Joined(|s.consumers|);
    if c < |s.consumers| {
      SameDue(s, Join(s, e), e, item, c);
    } else {
      NotYetJoined(s.entries[e].log, c);
      DueAppends(s.entries[e].log, item, c);
      assert (s.entries[e].log + [item])[|s.entries[e].log|] == item;
    }
  }

  /** A transition of one entry, with at most new registrations. */
  lemma OneEntryExtends(s: State, t: State, e: Entry)
    requires e < |s.entries| <= |t.entries| && EntryKept(e, s, t, {})
    requires forall d :: 0 <= d < |s.entries| && d != e ==> t.entries[d] == s.entries[d]
    requires |s.consumers| <= |t.consumers| && t.consumers[..|s.consumers|] == s.consumers
    requires forall c :: |s.consumers| <= c < |t.consumers| ==> t.consumers[c].owed == []
    ensures Extends(s, t, {})
  {
    forall d | 0 <= d < |s.entries| ensures EntryKept(d, s, t, {}) {}
    forall c | 0 <= c < |t.consumers| ensures RegistrationKept(c, s, t, {}) {
      if c < |s.consumers| { assert t.consumers[c] == t.consumers[..|s.consumers|][c]; }
    }
  }

  lemma JoinExtends(s: State, e: Entry)
    requires e < |s.entries| && s.entries[e].sinks != {}
    ensures Extends(s, Join(s, e), {})
  {
    LogAppends(s.entries[e].log, Joined(|s.consumers|));
    OneEntryExtends(s, Join(s, e), e);
  }

  lemma JoinKeeps(s: State, key: Key)
    requires Consistent(s) && key in s.table
    ensures s.table[key] < |s.entries| && Consistent(Join(s, s.table[key])) && Extends(s, Join(s, s.table[key]), {})
    ensures s.entries[s.table[key]].first < |s.consumers|
  {
    var e := s.table[key];
    assert KeyOk(key, e, s);
    assert EntryOk(e, s.entries[e], s);
    var t := Join(s, e);
    forall k | k in t.table ensures KeyOk(k, t.table[k], t) { assert KeyOk(k, s.table[k], s); }
    forall d | 0 <= d < |t.entries| ensures EntryOk(d, t.entries[d], t) {
      assert EntryOk(d, s.entries[d], s);
      if d == e { JoinedEntry(s, e); } else { OtherEntry(s, t, d); }
    }
    forall c | 0 <= c < |t.consumers| ensures RegistrationOk(c, t.consumers[c], t) {
      if c < |s.consumers| { assert RegistrationOk(c, s.consumers[c], s); }
      JoinedRegistration(s, e, c);
    }
    JoinExtends(s, e);
  }

  /** Sinks that stay, or that are the newest registration, are still known after a transition. */
  lemma SinksStay(s: State, t: State, e: Entry)
    requires e < |s.entries| <= |t.entries| && EntryOk(e, s.entries[e], s)
    requires |s.consumers| <= |t.consumers|
    requires forall c :: 0 <= c < |s.consumers| ==> t.consumers[c].entry == s.consumers[c].entry
    requires forall c :: c in t.entries[e].sinks && c !in s.entries[e].sinks ==> SinkOk(c, e, t)
    ensures forall c :: c in t.entries[e].sinks ==> SinkOk(c, e, t)
  {
    forall c | c in t.entries[e].sinks ensures SinkOk(c, e, t) {
      if c in s.entries[e].sinks { assert SinkOk(c, e, s); }
    }
  }

  /** A fresh entry with its creator. */
  function Create(s: State, key: Key): State {
    var e, c := |s.entries|, |s.consumers|;
    State(s.table[key := e], s.entries + [Shared(key, {c}, c, false, true, [Joined(c)])],
          s.consumers + [Registration(e, [], [], false)])
  }

  lemma CreatedEntry(s: State, key: Key)
    ensures EntryOk(|s.entries|, Create(s, key).entries[|s.entries|], Create(s, key))
    ensures RegistrationOk(|s.consumers|, Create(s, key).consumers[|s.consumers|], Create(s, key))
  {
    var item := Joined(|s.consumers|);
    LogAppends([], item);
    DueAppends([], item, |s.consumers|);
    assert [] + [item] == [item];
  }

  lemma CreateExtends(s: State, key: Key)
    ensures Extends(s, Create(s, key), {})
  {
    forall d | 0 <= d < |s.entries| ensures EntryKept(d, s, Create(s, key), {}) {}
    forall c | 0 <= c <= |s.consumers| ensures RegistrationKept(c, s, Create(s, key), {}) {}
  }

  lemma CreateKeeps(s: State, key: Key)
    requires Consistent(s) && key !in s.table
    ensures Consistent(Create(s, key)) && Extends(s, Create(s, key), {}) && Idle(Create(s, key), |s.entries|)
  {
    var t := Create(s, key);
    CreatedEntry(s, key);
    forall k | k in t.table ensures KeyOk(k, t.table[k], t) {
      if k != key { assert KeyOk(k, s.table[k], s); }
    }
    forall d | 0 <= d < |t.entries| ensures EntryOk(d, t.entries[d], t) {
      if d < |s.entries| {
        assert EntryOk(d, s.entries[d], s);
        OtherEntry(s, t, d);
      }
    }
    forall c | 0 <= c < |t.consumers| ensures RegistrationOk(c, t.consumers[c], t) && IdleAt(c, t, |s.entries|) {
      if c < |s.consumers| { assert RegistrationOk(c, s.consumers[c], s); }
    }
    CreateExtends(s, key);
  }

  /** An entry with one sink less; the last one out disposes of the upstream. */
  function Thinned(x: Shared, c: Consumer): Shared {
    x.(sinks := x.sinks - {c}, log := x.log + [Removed(c)],
       upstreamOpen := x.upstreamOpen && !(x.disposable && x.sinks - {c} == {}))
  }

  lemma ThinnedKept(x: Shared, c: Consumer, consumers: nat)
    ensures Kept(x, Thinned(x, c), true, consumers)
  {
    LogAppends(x.log, Removed(c));
  }

  /** `entry.sinks.delete(consumer)`, and the disposal when it was the last. */
  function Remove(s: State, c: Consumer): State
    requires c < |s.consumers| && s.consumers[c].entry < |s.entries|
  {
    var e := s.consumers[c].entry;
    var x := s.entries[e];
    var last := x.sinks - {c} == {};
    s.(table := if last && x.key in s.table && s.table[x.key] == e then s.table - {x.key} else s.table,
       entries := s.entries[e := Thinned(x, c)])
  }

  /** What a leave function does: nothing before it is returned, and nothing twice. */
  function Left(s: State, c: Consumer): State {
    if c < |s.consumers| && s.consumers[c].handle && s.consumers[c].entry < |s.entries|
       && c in s.entries[s.consumers[c].entry].sinks
    then Remove(s, c) else s
  }

  function Messages(deliveries: seq<Delivery>): seq<Message> {
    if deliveries == [] then [] else [deliveries[0].message] + Messages(deliveries[1..])
  }

  /** One message for each report, in order. */
  lemma {:induction false} MessagesInOrder(deliveries: seq<Delivery>)
    ensures |Messages(deliveries)| == |deliveries|
    ensures forall i :: 0 <= i < |deliveries| ==> Messages(deliveries)[i] == deliveries[i].message
  {
    if deliveries == [] {
    } else {
      MessagesInOrder(deliveries[1..]);
    }
  }

  /** A new registration joins what is listed under its key, or an entry of its own with a new upstream. */
  ghost predicate Subscribed(s: State, t: State, call: Call)
    requires call.Subscribe?
  {
    var c := |s.consumers|;
    && c < |t.consumers| && t.consumers[c].handle
    && if call.key in s.table && s.table[call.key] < |s.entries| then
         && t.consumers[c].entry == s.table[call.key] && s.table[call.key] < |t.entries|
         && t.entries[s.table[call.key]].log == s.entries[s.table[call.key]].log + [Joined(c)]
       else
         && t.consumers[c].entry == |s.entries| < |t.entries|
         && t.entries[|s.entries|].log != [] && t.entries[|s.entries|].log[0] == Joined(c)
         && t.entries[|s.entries|].key == call.key && SentIn(t.entries[|s.entries|].log) == Messages(call.during)
         && t.entries[|s.entries|].disposable
  }

  /** The last one out is not the creator before its handle exists, so the disposer is known. */
  lemma RemovedEntry(s: State, c: Consumer)
    requires c < |s.consumers| && s.consumers[c].handle && s.consumers[c].entry < |s.entries|
    requires var e := s.consumers[c].entry; EntryOk(e, s.entries[e], s) && c in s.entries[e].sinks
    ensures var e := s.consumers[c].entry; EntryOk(e, Remove(s, c).entries[e], Remove(s, c))
    ensures Remove(s, c).entries[s.consumers[c].entry].sinks == {} ==> s.entries[s.consumers[c].entry].disposable
  {
    var e := s.consumers[c].entry;
    LogAppends(s.entries[e].log, Removed(c));
    if s.entries[e].sinks - {c} == {} { assert s.entries[e].sinks == {c}; }
    SinksStay(s, Remove(s, c), e);
  }

  lemma RemoveExtends(s: State, c: Consumer)
    requires c < |s.consumers| && s.consumers[c].entry < |s.entries|
    ensures Extends(s, Remove(s, c), {})
  {
    ThinnedKept(s.entries[s.consumers[c].entry], c, |s.consumers|);
    assert Remove(s, c).consumers == s.consumers;
    OneEntryExtends(s, Remove(s, c), s.consumers[c].entry);
  }

  lemma RemoveKeeps(s: State, c: Consumer)
    requires Consistent(s) && c < |s.consumers| && s.consumers[c].handle
    requires s.consumers[c].entry < |s.entries| && c in s.entries[s.consumers[c].entry].sinks
    ensures Consistent(Remove(s, c)) && Extends(s, Remove(s, c), {})
  {
    var e := s.consumers[c].entry;
    var t := Remove(s, c);
    assert EntryOk(e, s.entries[e], s);
    RemovedEntry(s, c);
    forall k | k in t.table ensures KeyOk(k, t.table[k], t) { assert KeyOk(k, s.table[k], s); }
    forall d | 0 <= d < |t.entries| ensures EntryOk(d, t.entries[d], t) {
      assert EntryOk(d, s.entries[d], s);
      if d != e { OtherEntry(s, t, d); }
    }
    forall d | 0 <= d < |t.consumers| ensures RegistrationOk(d, t.consumers[d], t) {
      assert RegistrationOk(d, s.consumers[d], s);
      SameDue(s, t, e, Removed(c), d);
    }
    RemoveExtends(s, c);
  }

  /** An entry whose delivery of `m` has begun. */
  function Sending(x: Shared, m: Message): Shared {
    var logged := x.(log := x.log + [Sent(m)]);
    if m.Value? then logged else logged.(sinks := {}, upstreamOpen := false)
  }

  /** Delivering a message and then whatever its sinks do. */
  lemma SendingKept(x: Shared, m: Message, y: Shared, consumers: nat)
    requires Kept(Sending(x, m), y, true, consumers)
    ensures Kept(x, y, false, consumers)
    ensures x.log + [Sent(m)] <= y.log && SentIn(y.log) == SentIn(x.log) + [m]
    ensures !m.Value? ==> y.sinks == {}
  {
    LogAppends(x.log, Sent(m));
  }

  /** The snapshot is taken: every sink of this moment is owed the message, and an end clears them. */
  function Begin(s: State, e: Entry, m: Message): State
    requires e < |s.entries|
  {
    var x := s.entries[e];
    State(if !m.Value? && x.key in s.table && s.table[x.key] == e then s.table - {x.key} else s.table,
          s.entries[e := Sending(x, m)],
          Owing(s.consumers, x.sinks, m))
  }

  function Owing(consumers: seq<Registration>, sinks: set<Consumer>, m: Message): (r: seq<Registration>)
    ensures |r| == |consumers|
    ensures forall c :: 0 <= c < |r| ==> r[c] == if c in sinks then consumers[c].(owed := [m]) else consumers[c]
  {
    seq(|consumers|, c requires 0 <= c < |consumers| =>
      if c in sinks then consumers[c].(owed := [m]) else consumers[c])
  }

  lemma BegunEntry(s: State, e: Entry, m: Message)
    requires e < |s.entries| && EntryOk(e, s.entries[e], s)
    ensures EntryOk(e, Begin(s, e, m).entries[e], Begin(s, e, m))
  {
    LogAppends(s.entries[e].log, Sent(m));
    SinksStay(s, Begin(s, e, m), e);
  }

  lemma BeginKeeps(s: State, e: Entry, m: Message)
    requires Consistent(s) && e < |s.entries| && Idle(s, e)
    ensures Consistent(Begin(s, e, m))
  {
    var t := Begin(s, e, m);
    assert EntryOk(e, s.entries[e], s);
    forall k | k in t.table ensures KeyOk(k, t.table[k], t) { assert KeyOk(k, s.table[k], s); }
    forall d | 0 <= d < |t.entries| ensures EntryOk(d, t.entries[d], t) {
      assert EntryOk(d, s.entries[d], s);
      if d == e { BegunEntry(s, e, m); } else { OtherEntry(s, t, d); }
    }
    forall c | 0 <= c < |t.consumers| ensures RegistrationOk(c, t.consumers[c], t) {
      BeginRegistration(s, e, m, c);
    }
  }

  lemma BeginRegistration(s: State, e: Entry, m: Message, c: Consumer)
    requires Consistent(s) && e < |s.entries| && Idle(s, e) && c < |s.consumers|
    ensures RegistrationOk(c, Begin(s, e, m).consumers[c], Begin(s, e, m))
  {
    var r, log := s.consumers[c], s.entries[e].log;
    assert RegistrationOk(c, r, s) && IdleAt(c, s, e) && EntryOk(e, s.entries[e], s);
    DueAppends(log, Sent(m), c);
    if c in s.entries[e].sinks {
      assert SinkOk(c, e, s);
      assert r.received == r.received + r.owed;
    }
  }

  /** One sink of the snapshot gets the message. */
  function Hand(s: State, c: Consumer, m: Message): State
    requires c < |s.consumers|
  {
    s.(consumers := s.consumers[c := s.consumers[c].(received := s.consumers[c].received + [m], owed := [])])
  }

  lemma HandKeeps(s: State, c: Consumer, m: Message)
    requires Consistent(s) && c < |s.consumers| && s.consumers[c].owed == [m]
    ensures Consistent(Hand(s, c, m))
  {
    var t := Hand(s, c, m);
    forall k | k in t.table ensures KeyOk(k, t.table[k], t) { assert KeyOk(k, s.table[k], s); }
    forall d | 0 <= d < |t.entries| ensures EntryOk(d, t.entries[d], t) {
      assert EntryOk(d, s.entries[d], s);
      SinksStay(s, t, d);
    }
    forall d | 0 <= d < |t.consumers| ensures RegistrationOk(d, t.consumers[d], t) {
      assert RegistrationOk(d, s.consumers[d], s);
    }
  }

  /** The walk over a snapshot has handed the message to the members before `i`. */
  ghost predicate Progress(b: State, t: State, snapshot: set<Consumer>, i: nat) {
    && |b.entries| <= |t.entries| && |b.consumers| <= |t.consumers|
    && (forall d {:trigger EntryKept(d, b, t, {})} :: 0 <= d < |b.entries| ==> EntryKept(d, b, t, {}))
    && (forall c {:trigger ProgressAt(c, b, t, snapshot, i)} :: 0 <= c < |t.consumers| ==>
          ProgressAt(c, b, t, snapshot, i))
  }

  ghost predicate ProgressAt(c: Consumer, b: State, t: State, snapshot: set<Consumer>, i: nat)
    requires c < |t.consumers|
  {
    if c < |b.consumers| then
      && t.consumers[c].entry == b.consumers[c].entry && t.consumers[c].handle == b.consumers[c].handle
      && (if c in snapshot && c < i then t.consumers[c].owed == []
          else t.consumers[c].received == b.consumers[c].received && t.consumers[c].owed == b.consumers[c].owed)
    else
      t.consumers[c].owed == []
  }

  lemma ProgressSkips(b: State, t: State, snapshot: set<Consumer>, i: nat)
    requires Progress(b, t, snapshot, i) && i !in snapshot
    ensures Progress(b, t, snapshot, i + 1)
  {
    var next := i + 1;
    forall c | 0 <= c < |t.consumers| ensures ProgressAt(c, b, t, snapshot, next) {
      assert ProgressAt(c, b, t, snapshot, i);
    }
  }

  lemma ProgressHands(b: State, t: State, u: State, snapshot: set<Consumer>, i: nat, m: Message)
    requires Progress(b, t, snapshot, i) && i in snapshot && i < |b.consumers|
    requires Extends(Hand(t, i, m), u, {})
    ensures Progress(b, u, snapshot, i + 1)
  {
    forall d | 0 <= d < |b.entries| ensures EntryKept(d, b, u, {}) {
      assert EntryKept(d, b, t, {}) && EntryKept(d, Hand(t, i, m), u, {});
      KeptTrans(b.entries[d], t.entries[d], u.entries[d], true, |b.consumers|, |t.consumers|);
    }
    var next := i + 1;
    forall c | 0 <= c < |u.consumers| ensures ProgressAt(c, b, u, snapshot, next) {
      assert RegistrationKept(c, Hand(t, i, m), u, {});
      if c < |t.consumers| { assert ProgressAt(c, b, t, snapshot, i); }
    }
  }

  lemma ProgressStarts(b: State, snapshot: set<Consumer>)
    ensures Progress(b, b, snapshot, 0)
  {
    forall d | 0 <= d < |b.entries| ensures EntryKept(d, b, b, {}) {}
    forall c | 0 <= c < |b.consumers| ensures ProgressAt(c, b, b, snapshot, 0) {}
  }

  /** Until its turn comes, a sink of the snapshot is owed the message. */
  lemma StillOwed(s: State, b: State, t: State, e: Entry, snapshot: set<Consumer>, i: nat, m: Message)
    requires e < |s.entries| && b == Begin(s, e, m) && snapshot == s.entries[e].sinks
    requires Progress(b, t, snapshot, i) && i in snapshot && i < |b.consumers|
    ensures t.consumers[i].owed == [m]
  {
    assert ProgressAt(i, b, t, snapshot, i);
  }

  lemma ProgressServed(s: State, e: Entry, m: Message, t: State, c: Consumer)
    requires Consistent(s) && e < |s.entries| && Idle(s, e) && c < |t.consumers|
    requires Progress(Begin(s, e, m), t, s.entries[e].sinks, |s.consumers|)
    ensures RegistrationKept(c, s, t, {e})
  {
    assert EntryOk(e, s.entries[e], s);
    assert ProgressAt(c, Begin(s, e, m), t, s.entries[e].sinks, |s.consumers|);
    if c < |s.consumers| {
      assert IdleAt(c, s, e);
      assert c in s.entries[e].sinks ==> SinkOk(c, e, s);
    }
  }

  lemma ProgressEnds(s: State, e: Entry, m: Message, t: State)
    requires Consistent(s) && e < |s.entries| && Idle(s, e)
    requires Progress(Begin(s, e, m), t, s.entries[e].sinks, |s.consumers|)
    ensures Extends(s, t, {e})
    ensures s.entries[e].log + [Sent(m)] <= t.entries[e].log
    ensures SentIn(t.entries[e].log) == SentIn(s.entries[e].log) + [m]
    ensures !m.Value? ==> t.entries[e].sinks == {}
  {
    var b := Begin(s, e, m);
    assert EntryKept(e, b, t, {});
    SendingKept(s.entries[e], m, t.entries[e], |s.consumers|);
    forall d | 0 <= d < |s.entries| ensures EntryKept(d, s, t, {e}) { assert EntryKept(d, b, t, {}); }
    forall c | 0 <= c < |t.consumers| ensures RegistrationKept(c, s, t, {e}) { ProgressServed(s, e, m, t, c); }
  }

  class SubscriptionTable {
    var sharedSubscriptions: map<Key, Entry>
    var entries: seq<Shared>
    var consumers: seq<Registration>
    var reported: nat             // errors thrown by sinks, passed to `reportError`

    ghost function Now(): State
      reads this
    {
      State(sharedSubscriptions, entries, consumers)
    }

    ghost predicate Valid()
      reads this
    {
      Consistent(Now())
    }

    constructor ()
      ensures Valid() && entries == [] && consumers == [] && sharedSubscriptions == map[]
    {
      sharedSubscriptions, entries, consumers, reported := map[], [], [], 0;
    }

    method PerformAll(calls: seq<Call>)
      requires Valid()
      modifies this
      ensures Valid() && Extends(old(Now()), Now(), {})
      decreases calls, 0
    {
      if calls == [] {
        ExtendsRefl(Now());
      } else {
        Perform(calls[0]);
        ghost var middle := Now();
        PerformAll(calls[1..]);
        ExtendsTrans(old(Now()), middle, Now(), {});
      }
    }

    method Perform(call: Call)
      requires Valid()
      modifies this
      ensures Valid() && Extends(old(Now()), Now(), {})
      ensures call.Leave? ==> Now() == Left(old(Now()), call.consumer)
      ensures call.Subscribe? ==> Subscribed(old(Now()), Now(), call)
      decreases call, 1
    {
      match call
      case Subscribe(key, _) => var _ := SharedSubscribe(call);
      case Leave(c) =>
        // Only a leave function that has been returned can be called.
        if c < |consumers| && consumers[c].handle { LeaveNow(c); } else { ExtendsRefl(Now()); }
    }

    /** The function that `sharedSubscribe` returns. */
    method LeaveNow(c: Consumer)
      requires Valid() && c < |consumers| && consumers[c].handle
      modifies this
      ensures Valid() && Extends(old(Now()), Now(), {})
      ensures Now() == Left(old(Now()), c)
      ensures consumers == old(consumers) && consumers[c].entry < |entries| == |old(entries)|
      ensures forall e :: 0 <= e < |entries| ==> c !in entries[e].sinks
      ensures var e := consumers[c].entry;
        && (forall d :: 0 <= d < |entries| && d != e ==> entries[d] == old(entries)[d])
        && (c !in old(entries)[e].sinks ==>
              entries == old(entries) && sharedSubscriptions == old(sharedSubscriptions))
        && (c in old(entries)[e].sinks ==>
              && entries[e].sinks == old(entries)[e].sinks - {c}
              && entries[e].log == old(entries)[e].log + [Removed(c)]
              // The last one out delists its own entry and disposes of its upstream.
              && (if entries[e].sinks == {}
                  then !entries[e].upstreamOpen && sharedSubscriptions == old(sharedSubscriptions) - {entries[e].key}
                  else entries[e].upstreamOpen && sharedSubscriptions == old(sharedSubscriptions)))
    {
      KnownEverywhere(Now(), c);
      assert RegistrationOk(c, consumers[c], Now());
      var e := consumers[c].entry;
      if c !in entries[e].sinks {
        ExtendsRefl(Now());
        return;
      }
      RemoveKeeps(Now(), c);
      entries := entries[e := entries[e].(sinks := entries[e].sinks - {c}, log := entries[e].log + [Removed(c)])];
      if entries[e].sinks != {} {
        assert Now() == Remove(old(Now()), c);
        return;
      }
      var key := entries[e].key;
      if key in sharedSubscriptions && sharedSubscriptions[key] == e {
        sharedSubscriptions := sharedSubscriptions - {key};
      }
      // `entry.dispose` does nothing until `resilientSubscribe` has returned the real one.
      if entries[e].disposable {
        entries := entries[e := entries[e].(upstreamOpen := false)];
      }
      assert entries == Remove(old(Now()), c).entries;
      assert EntryOk(e, entries[e], Now());
    }

    method SharedSubscribe(call: Call) returns (c: Consumer)
      requires Valid() && call.Subscribe?
      modifies this
      ensures Valid() && Extends(old(Now()), Now(), {})
      ensures c == |old(consumers)| && Subscribed(old(Now()), Now(), call)
      // It joins what is listed under its key from now on, or an entry of its own with a new upstream.
      ensures c < |consumers| && consumers[c].handle && |old(entries)| <= |entries|
      ensures call.key in old(sharedSubscriptions) ==>
        var e := old(sharedSubscriptions)[call.key];
        e < |old(entries)| && consumers[c].entry == e && entries[e].log == old(entries)[e].log + [Joined(c)]
      ensures call.key !in old(sharedSubscriptions) ==>
        var e := |old(entries)|;
        && consumers[c].entry == e < |entries| && entries[e].key == call.key && entries[e].disposable
        && entries[e].log != [] && entries[e].log[0] == Joined(c)
        && SentIn(entries[e].log) == Messages(call.during)
      decreases call, 0
    {
      c := |consumers|;
      if call.key in sharedSubscriptions {
        JoinKeeps(Now(), call.key);
        var e := sharedSubscriptions[call.key];
        entries := entries[e := entries[e].(sinks := entries[e].sinks + {c}, log := entries[e].log + [Joined(c)])];
        consumers := consumers + [Registration(e, [], [], false)];
      } else {
        CreateKeeps(Now(), call.key);
        var e := |entries|;
        entries := entries + [Shared(call.key, {c}, c, false, true, [Joined(c)])];
        consumers := consumers + [Registration(e, [], [], false)];
        sharedSubscriptions := sharedSubscriptions[call.key := e];
        ghost var created := Now();
        DeliverAll(e, call.during);
        ghost var delivered := Now();
        entries := entries[e := entries[e].(disposable := true)];
        CreatedKeeps(old(Now()), call.key, created, delivered, Now(), e);
      }
      ghost var before := Now();
      consumers := consumers[c := consumers[c].(handle := true)];
      HandleKeeps(old(Now()), before, c);
    }

    /** What one upstream reports, message after message. */
    method DeliverAll(e: Entry, deliveries: seq<Delivery>)
      requires Valid() && e < |entries| && Idle(Now(), e)
      modifies this
      ensures Valid() && Extends(old(Now()), Now(), {e}) && Idle(Now(), e)
      ensures SentIn(entries[e].log) == SentIn(old(entries)[e].log) + Messages(deliveries)
      decreases deliveries, 0
    {
      if deliveries == [] {
        IdleExtends(Now(), e);
      } else {
        Deliver(e, deliveries[0]);
        ghost var middle := Now();
        DeliverAll(e, deliveries[1..]);
        assert Messages(deliveries) == [deliveries[0].message] + Messages(deliveries[1..]);
        ExtendsTrans(old(Now()), middle, Now(), {e});
      }
    }

    /** The sink that the entry gave to its upstream: `next`, `error` or `complete`. */
    method Deliver(e: Entry, delivery: Delivery)
      requires Valid() && e < |entries| && Idle(Now(), e)
      modifies this
      ensures Valid() && Extends(old(Now()), Now(), {e}) && Idle(Now(), e)
      ensures old(entries)[e].log + [Sent(delivery.message)] <= entries[e].log
      ensures SentIn(entries[e].log) == SentIn(old(entries)[e].log) + [delivery.message]
      ensures !delivery.message.Value? ==> entries[e].sinks == {}
      decreases delivery, 1
    {
      ghost var s := Now();
      var snapshot, count := TakeSnapshot(e, delivery.message);
      ghost var b := Now();
      ProgressStarts(b, snapshot);
      var k := 0;
      for i := 0 to count
        invariant Valid() && Progress(b, Now(), snapshot, i) && count == |b.consumers|
      {
        ghost var t := Now();
        if i in snapshot {
          StillOwed(s, b, t, e, snapshot, i, delivery.message);
          HandTo(i, delivery, k);
          ProgressHands(b, t, Now(), snapshot, i, delivery.message);
          k := k + 1;
        } else {
          ProgressSkips(b, t, snapshot, i);
        }
      }
      ProgressEnds(s, e, delivery.message, Now());
      IdleAfter(s, Now(), e);
    }

    /** `[...entry.sinks]`, or `finish()` for an error or a completion. */
    method TakeSnapshot(e: Entry, message: Message) returns (snapshot: set<Consumer>, count: nat)
      requires Valid() && e < |entries| && Idle(Now(), e)
      modifies this`sharedSubscriptions, this`entries, this`consumers
      ensures Valid() && Now() == Begin(old(Now()), e, message)
      ensures snapshot == old(entries)[e].sinks && count == |old(consumers)|
    {
      BeginKeeps(Now(), e, message);
      snapshot, count := entries[e].sinks, |consumers|;
      if !message.Value? { Finish(e); }
      entries := entries[e := entries[e].(log := entries[e].log + [Sent(message)])];
      consumers := Owing(consumers, snapshot, message);
      assert Now().entries == Begin(old(Now()), e, message).entries;
    }

    /** One call of the snapshot: the sink receives the message, calls back, and perhaps throws. */
    method HandTo(c: Consumer, delivery: Delivery, k: nat)
      requires Valid() && c < |consumers| && consumers[c].owed == [delivery.message]
      modifies this
      ensures Valid() && Extends(Hand(old(Now()), c, delivery.message), Now(), {})
      decreases delivery, 0
    {
      HandKeeps(Now(), c, delivery.message);
      consumers := consumers[c := consumers[c].(received := consumers[c].received + [delivery.message], owed := [])];
      if k < |delivery.reactions| {
        PerformAll(delivery.reactions[k].calls);
        // A sink that throws is reported, and the next one is served all the same.
        if delivery.reactions[k].throws { reported := reported + 1; }
      } else {
        ExtendsRefl(Now());
      }
    }

    /** `finish`: out of the table, and no sink is left in the entry. */
    method Finish(e: Entry)
      requires e < |entries|
      modifies this`sharedSubscriptions, this`entries
      ensures entries == old(entries)[e := old(entries)[e].(sinks := {}, upstreamOpen := false)]
      ensures sharedSubscriptions ==
        if entries[e].key in old(sharedSubscriptions) && old(sharedSubscriptions)[entries[e].key] == e
        then old(sharedSubscriptions) - {entries[e].key} else old(sharedSubscriptions)
    {
      var key := entries[e].key;
      if key in sharedSubscriptions && sharedSubscriptions[key] == e {
        sharedSubscriptions := sharedSubscriptions - {key};
      }
      entries := entries[e := entries[e].(sinks := {}, upstreamOpen := false)];
    }
  }

  lemma ExtendsRefl(s: State)
    ensures Extends(s, s, {})
  {
    forall e | 0 <= e < |s.entries| ensures EntryKept(e, s, s, {}) {}
    forall c | 0 <= c < |s.consumers| ensures RegistrationKept(c, s, s, {}) {}
  }

  lemma IdleExtends(s: State, e: Entry)
    requires Idle(s, e)
    ensures Extends(s, s, {e})
  {
    forall d | 0 <= d < |s.entries| ensures EntryKept(d, s, s, {e}) {}
    forall c | 0 <= c < |s.consumers| ensures RegistrationKept(c, s, s, {e}) { assert IdleAt(c, s, e); }
  }

  lemma IdleAfter(s: State, t: State, e: Entry)
    requires Extends(s, t, {e}) && e < |s.entries|
    ensures Idle(t, e)
  {
    forall c | 0 <= c < |t.consumers| ensures IdleAt(c, t, e) { assert RegistrationKept(c, s, t, {e}); }
  }

  /** The upstream of a fresh entry is known to be disposable from now on. */
  lemma CreatedKeeps(s: State, key: Key, created: State, delivered: State, t: State, e: Entry)
    requires Consistent(s) && key !in s.table && created == Create(s, key) && Extends(created, delivered, {e})
    requires e == |s.entries| && Consistent(delivered)
    requires t == delivered.(entries := delivered.entries[e := delivered.entries[e].(disposable := true)])
    ensures Consistent(t) && Extends(s, t, {})
    ensures |s.consumers| < |t.consumers| && t.consumers[|s.consumers|].entry == e && t.entries[e].disposable
    ensures t.entries[e].key == key && t.entries[e].log == delivered.entries[e].log
    ensures t.entries[e].log != [] && t.entries[e].log[0] == Joined(|s.consumers|)
  {
    CreateKeeps(s, key);
    assert RegistrationKept(|s.consumers|, created, delivered, {e}) && EntryKept(e, created, delivered, {e});
    forall k | k in t.table ensures KeyOk(k, t.table[k], t) { assert KeyOk(k, delivered.table[k], delivered); }
    forall d | 0 <= d < |t.entries| ensures EntryOk(d, t.entries[d], t) {
      assert EntryOk(d, delivered.entries[d], delivered);
      SinksStay(delivered, t, d);
    }
    forall c | 0 <= c < |t.consumers| ensures RegistrationOk(c, t.consumers[c], t) {
      assert RegistrationOk(c, delivered.consumers[c], delivered);
    }
    forall d | 0 <= d < |s.entries| ensures EntryKept(d, s, t, {}) {
      assert EntryKept(d, s, created, {}) && EntryKept(d, created, delivered, {e});
      KeptTrans(s.entries[d], created.entries[d], delivered.entries[d], true, |s.consumers|, |created.consumers|);
    }
    forall c | 0 <= c < |t.consumers| ensures RegistrationKept(c, s, t, {}) {
      assert RegistrationKept(c, created, delivered, {e});
      if c < |created.consumers| {
        assert RegistrationKept(c, s, created, {});
        if c < |s.consumers| { assert RegistrationOk(c, s.consumers[c], s); }
      }
    }
  }

  /** A subscriber gets its leave function. */
  lemma HandleKeeps(s: State, before: State, c: Consumer)
    requires Consistent(before) && Extends(s, before, {}) && c == |s.consumers| < |before.consumers|
    requires before.consumers[c].entry < |before.entries|
    requires before.entries[before.consumers[c].entry].first == c ==>
      before.entries[before.consumers[c].entry].disposable
    ensures var t := before.(consumers := before.consumers[c := before.consumers[c].(handle := true)]);
      Consistent(t) && Extends(s, t, {})
  {
    var t := before.(consumers := before.consumers[c := before.consumers[c].(handle := true)]);
    forall k | k in t.table ensures KeyOk(k, t.table[k], t) { assert KeyOk(k, before.table[k], before); }
    forall d | 0 <= d < |t.entries| ensures EntryOk(d, t.entries[d], t) {
      assert EntryOk(d, before.entries[d], before);
      if c in before.entries[d].sinks { assert SinkOk(c, d, before); }
      SinksStay(before, t, d);
    }
    forall d | 0 <= d < |t.consumers| ensures RegistrationOk(d, t.consumers[d], t) {
      assert RegistrationOk(d, before.consumers[d], before);
    }
    forall d | 0 <= d < |s.entries| ensures EntryKept(d, s, t, {}) { assert EntryKept(d, s, before, {}); }
    forall d | 0 <= d < |t.consumers| ensures RegistrationKept(d, s, t, {}) {
      assert RegistrationKept(d, s, before, {});
    }
  }

  /** Each consumer has exactly the messages whose delivery began while it was registered, in order. */
  ghost predicate Served(s: State) {
    && (forall e :: 0 <= e < |s.entries| ==>
          s.entries[e].sinks == Members(s.entries[e].log) && s.entries[e].log != []
          && s.entries[e].log[0] == Joined(s.entries[e].first))
    && (forall c :: 0 <= c < |s.consumers| ==>
          && s.consumers[c].entry < |s.entries| && Joined(c) in s.entries[s.consumers[c].entry].log
          && s.consumers[c].received == Due(s.entries[s.consumers[c].entry].log, c))
  }

  /** Entries with a sink, entries with an open upstream, and the table's entries are the same. */
  ghost predicate OneUpstreamPerKey(s: State) {
    && (forall e :: 0 <= e < |s.entries| ==>
          && (s.entries[e].upstreamOpen <==> s.entries[e].sinks != {})
          && (s.entries[e].upstreamOpen <==> s.entries[e].key in s.table && s.table[s.entries[e].key] == e))
    && (forall d, e ::
          (0 <= d < |s.entries| && 0 <= e < |s.entries| && s.entries[d].key == s.entries[e].key
           && s.entries[d].upstreamOpen && s.entries[e].upstreamOpen) ==> d == e)
  }

  /** Between calls nobody is owed anything, so everybody is served. */
  lemma QuietStateIsServed(s: State)
    requires Consistent(s) && forall e :: 0 <= e < |s.entries| ==> Idle(s, e)
    ensures Served(s) && OneUpstreamPerKey(s)
  {
    forall c | 0 <= c < |s.consumers|
      ensures s.consumers[c].entry < |s.entries| && Joined(c) in s.entries[s.consumers[c].entry].log
      ensures s.consumers[c].received == Due(s.entries[s.consumers[c].entry].log, c)
    {
      assert RegistrationOk(c, s.consumers[c], s);
      assert Idle(s, s.consumers[c].entry) && IdleAt(c, s, s.consumers[c].entry);
      assert s.consumers[c].received + [] == s.consumers[c].received;
    }
    forall e | 0 <= e < |s.entries|
      ensures s.entries[e].upstreamOpen <==> s.entries[e].sinks != {}
      ensures s.entries[e].upstreamOpen <==> s.entries[e].key in s.table && s.table[s.entries[e].key] == e
      ensures s.entries[e].sinks == Members(s.entries[e].log) && s.entries[e].log != []
      ensures s.entries[e].log[0] == Joined(s.entries[e].first)
    {
      assert EntryOk(e, s.entries[e], s);
    }
  }

  /**
   Whenever a leave function is called, also after its entry has ended or its sink has been removed,
   every other entry keeps its sinks, its upstream and its place in the table.
   */
  lemma StaleLeave(s: State, c: Consumer, other: Entry)
    requires Consistent(s) && c < |s.consumers| && other < |s.entries| && other != s.consumers[c].entry
    ensures Left(s, c).entries[other] == s.entries[other]
    ensures forall k ::
      (k in s.table && s.table[k] == other) <==> (k in Left(s, c).table && Left(s, c).table[k] == other)
    // After its entry has ended, or once it has been called, it changes nothing at all.
    ensures s.consumers[c].entry < |s.entries|
    ensures s.entries[s.consumers[c].entry].sinks == {} ==> Left(s, c) == s
    ensures Left(Left(s, c), c) == Left(s, c)
  {
    assert RegistrationOk(c, s.consumers[c], s);
    assert EntryOk(s.consumers[c].entry, s.entries[s.consumers[c].entry], s);
  }

  lemma IdleEverywhere(s: State, t: State, but: set<Entry>)
    requires Consistent(s) && Extends(s, t, but) && Consistent(t)
    requires forall e :: 0 <= e < |s.entries| ==> Idle(s, e)
    ensures forall e :: 0 <= e < |t.entries| ==> Idle(t, e)
  {
    forall e | 0 <= e < |t.entries| ensures Idle(t, e) {
      forall c | 0 <= c < |t.consumers| ensures IdleAt(c, t, e) {
        assert RegistrationKept(c, s, t, but);
        if c < |s.consumers| {
          assert RegistrationOk(c, s.consumers[c], s);
          assert Idle(s, s.consumers[c].entry) && IdleAt(c, s, s.consumers[c].entry);
        }
      }
    }
  }

  ghost predicate Quiet(s: State) {
    forall e :: 0 <= e < |s.entries| ==> Idle(s, e)
  }

  /** Logs only grow, and registrations stay with their entries. */
  ghost predicate Grown(s: State, t: State) {
    && |s.entries| <= |t.entries| && |s.consumers| <= |t.consumers|
    && (forall e :: 0 <= e < |s.entries| ==> s.entries[e].log <= t.entries[e].log)
    && (forall c :: 0 <= c < |s.consumers| ==> t.consumers[c].entry == s.consumers[c].entry)
  }

  lemma ExtendsGrows(r: State, s: State, t: State, but: set<Entry>)
    requires Grown(r, s) && Extends(s, t, but)
    ensures Grown(r, t)
  {
    forall e | 0 <= e < |r.entries| ensures r.entries[e].log <= t.entries[e].log { assert EntryKept(e, s, t, but); }
    forall c | 0 <= c < |r.consumers| ensures t.consumers[c].entry == r.consumers[c].entry {
      assert RegistrationKept(c, s, t, but);
    }
  }

  /** Between deliveries, who had left by then has received nothing since. */
  lemma NothingAfterLeaving(s: State, t: State, c: Consumer)
    requires Consistent(s) && Quiet(s) && Consistent(t) && Quiet(t) && Grown(s, t) && c < |s.consumers|
    requires forall e :: 0 <= e < |s.entries| ==> c !in s.entries[e].sinks
    ensures t.consumers[c].received == s.consumers[c].received
  {
    var e := s.consumers[c].entry;
    assert RegistrationOk(c, s.consumers[c], s) && RegistrationOk(c, t.consumers[c], t);
    assert EntryOk(e, s.entries[e], s) && EntryOk(e, t.entries[e], t);
    assert Idle(s, e) && IdleAt(c, s, e) && Idle(t, e) && IdleAt(c, t, e);
    GoneForGood(s.entries[e].log, t.entries[e].log, c);
    assert s.consumers[c].received + [] == s.consumers[c].received;
    assert t.consumers[c].received + [] == t.consumers[c].received;
  }

  /** One event; one that nothing can report or nobody can call changes nothing. */
  method Step(s: SubscriptionTable, event: Event)
    requires s.Valid() && Quiet(s.Now())
    modifies s
    ensures s.Valid() && Quiet(s.Now()) && Grown(old(s.Now()), s.Now())
  {
    ghost var before := s.Now();
    match event
    case Do(call) =>
      s.Perform(call);
      IdleEverywhere(before, s.Now(), {});
      ExtendsGrows(before, before, s.Now(), {});
    case Reports(e, delivery) =>
      if e < |s.entries| {
        s.Deliver(e, delivery);
        IdleEverywhere(before, s.Now(), {e});
        ExtendsGrows(before, before, s.Now(), {e});
      }
  }

  /** Events one after another. */
  method RunOn(s: SubscriptionTable, events: seq<Event>)
    requires s.Valid() && Quiet(s.Now())
    modifies s
    ensures s.Valid() && Quiet(s.Now()) && Grown(old(s.Now()), s.Now())
  {
    ghost var before := s.Now();
    for n := 0 to |events|
      invariant s.Valid() && Quiet(s.Now()) && Grown(before, s.Now())
    {
      Step(s, events[n]);
    }
  }

  /** After its leave function has been called, a consumer receives nothing more, whatever happens. */
  method LeaveIsForGood(s: SubscriptionTable, c: Consumer, events: seq<Event>)
    requires s.Valid() && Quiet(s.Now()) && c < |s.consumers| && s.consumers[c].handle
    modifies s
    ensures s.Valid() && Quiet(s.Now()) && c < |s.consumers|
    ensures s.consumers[c].received == old(s.consumers)[c].received
  {
    ghost var before := s.Now();
    s.LeaveNow(c);
    IdleEverywhere(before, s.Now(), {});
    ghost var left := s.Now();
    RunOn(s, events);
    NothingAfterLeaving(left, s.Now(), c);
  }

  /** Every run, with everything that sinks do while they are being served. */
  method RunEvents(events: seq<Event>)
      returns (table: map<Key, Entry>, entries: seq<Shared>, consumers: seq<Registration>)
    ensures Served(State(table, entries, consumers)) && OneUpstreamPerKey(State(table, entries, consumers))
  {
    var s := new SubscriptionTable();
    RunOn(s, events);
    QuietStateIsServed(s.Now());
    return s.sharedSubscriptions, s.entries, s.consumers;
  }
}

/** The listeners of successful mutations (src/lib/control-plane-client.ts:191-223). */
module MutationListeners {
  type Listener = nat
  type Mutation = nat   // a mutation is named by its job
  type Call = (Listener, Mutation)

  /** What a listener does while it is being called; a throw cuts off what it would have removed. */
  datatype Reaction = Reaction(adds: seq<Listener>, removes: seq<Listener>, throws: bool)

  ghost predicate Differ(listeners: seq<Listener>, i: int, j: int) {
    0 <= i < j < |listeners| ==> listeners[i] != listeners[j]
  }

  ghost predicate Distinct(listeners: seq<Listener>) {
    forall i: int, j: int {:trigger Differ(listeners, i, j)} :: Differ(listeners, i, j)
  }

  lemma DistinctWith(listeners: seq<Listener>, listener: Listener)
    requires Distinct(listeners) && listener !in listeners
    ensures Distinct(listeners + [listener])
  {
    forall i: int, j: int ensures Differ(listeners + [listener], i, j) {
      assert Differ(listeners, i, j);
      if 0 <= i < |listeners| { assert listeners[i] in listeners; }
    }
  }

  lemma DistinctFront(listeners: seq<Listener>, k: nat)
    requires Distinct(listeners) && k <= |listeners|
    ensures Distinct(listeners[..k])
    ensures k < |listeners| ==> listeners[k] !in listeners[..k]
  {
    forall i: int, j: int ensures Differ(listeners[..k], i, j) { assert Differ(listeners, i, j); }
    if k < |listeners| {
      forall i | 0 <= i < k ensures listeners[..k][i] != listeners[k] { assert Differ(listeners, i, k); }
    }
  }

  /** All but one listener, in their order. */
  function Without(listeners: seq<Listener>, listener: Listener): (r: seq<Listener>)
    ensures forall l :: l in r <==> l in listeners && l != listener
  {
    if listeners == [] then []
    else
      var last := |listeners| - 1;
      Without(listeners[..last], listener) + if listeners[last] == listener then [] else [listeners[last]]
  }

  lemma {:induction false} WithoutDistinct(listeners: seq<Listener>, listener: Listener)
    requires Distinct(listeners)
    ensures Distinct(Without(listeners, listener))
  {
    if listeners == [] {
    } else {
      var last := |listeners| - 1;
      var rest := Without(listeners[..last], listener);
      DistinctFront(listeners, last);
      WithoutDistinct(listeners[..last], listener);
      if listeners[last] == listener {
        assert Without(listeners, listener) == rest;
      } else {
        DistinctWith(rest, listeners[last]);
      }
    }
  }

  /** Whoever stands before another in `some` does so in `all`. */
  ghost predicate InOrderOf(some: seq<Listener>, all: seq<Listener>) {
    forall i, j :: 0 <= i < j < |some| ==> StandsBefore(all, some[i], some[j])
  }

  ghost predicate StandsBefore(listeners: seq<Listener>, a: Listener, b: Listener) {
    exists i, j :: 0 <= i < j < |listeners| && listeners[i] == a && listeners[j] == b
  }

  lemma {:induction false} WithoutInOrder(listeners: seq<Listener>, listener: Listener)
    ensures InOrderOf(Without(listeners, listener), listeners)
  {
    if listeners == [] {
    } else {
      var last := |listeners| - 1;
      var rest, all := Without(listeners[..last], listener), Without(listeners, listener);
      WithoutInOrder(listeners[..last], listener);
      forall i, j | 0 <= i < j < |all| ensures StandsBefore(listeners, all[i], all[j]) {
        if j < |rest| {
          assert StandsBefore(listeners[..last], rest[i], rest[j]);
          var p, q :| 0 <= p < q < last && listeners[..last][p] == rest[i] && listeners[..last][q] == rest[j];
          assert listeners[p] == all[i] && listeners[q] == all[j];
        } else {
          assert rest[i] in listeners[..last];
          var p :| 0 <= p < last && listeners[..last][p] == rest[i];
          assert listeners[p] == all[i] && listeners[last] == all[j];
        }
      }
    }
  }

  /** Whom the calls for one mutation went to, in order. */
  function Told(calls: seq<Call>, m: Mutation): seq<Listener> {
    if calls == [] then []
    else
      var last := |calls| - 1;
      Told(calls[..last], m) + if calls[last].1 == m then [calls[last].0] else []
  }

  /** How often a listener has been called for a mutation. */
  function Times(calls: seq<Call>, listener: Listener, m: Mutation): nat {
    if calls == [] then 0
    else
      var last := |calls| - 1;
      Times(calls[..last], listener, m) + if calls[last] == (listener, m) then 1 else 0
  }

  lemma ToldAppends(calls: seq<Call>, call: Call, m: Mutation)
    ensures Told(calls + [call], m) == Told(calls, m) + if call.1 == m then [call.0] else []
  {
    assert (calls + [call])[..|calls|] == calls;
  }

  lemma {:induction false} TimesInTold(calls: seq<Call>, listener: Listener, m: Mutation)
    requires Distinct(Told(calls, m))
    ensures Times(calls, listener, m) == if listener in Told(calls, m) then 1 else 0
  {
    if calls == [] {
    } else {
      var last := |calls| - 1;
      var before := Told(calls[..last], m);
      if calls[last].1 == m {
        DistinctFront(Told(calls, m), |before|);
        assert Told(calls, m)[..|before|] == before;
      } else {
        assert Told(calls, m) == before;
      }
      TimesInTold(calls[..last], listener, m);
    }
  }

  /** Who was registered when a mutation succeeded; nobody while it has not. */
  function Audience(audiences: map<Mutation, seq<Listener>>, m: Mutation): seq<Listener> {
    if m in audiences then audiences[m] else []
  }

  /** The calls made are those of the audiences. */
  ghost predicate AudienceOk(calls: seq<Call>, audiences: map<Mutation, seq<Listener>>, m: Mutation) {
    Told(calls, m) == Audience(audiences, m) && Distinct(Audience(audiences, m))
  }

  ghost predicate Accurate(calls: seq<Call>, audiences: map<Mutation, seq<Listener>>) {
    forall m: Mutation {:trigger AudienceOk(calls, audiences, m)} :: AudienceOk(calls, audiences, m)
  }

  /** A listener has been called exactly once for each success at which it was registered, and for nothing else. */
  lemma ExactlyOnce(calls: seq<Call>, audiences: map<Mutation, seq<Listener>>, listener: Listener, m: Mutation)
    requires Accurate(calls, audiences)
    ensures Times(calls, listener, m) == if m in audiences && listener in audiences[m] then 1 else 0
  {
    assert AudienceOk(calls, audiences, m);
    TimesInTold(calls, listener, m);
  }

  /** For one mutation exactly these listeners have been called, each once. */
  ghost predicate EachOnce(calls: seq<Call>, m: Mutation, listeners: seq<Listener>) {
    forall l: Listener {:trigger Times(calls, l, m)} :: Times(calls, l, m) == if l in listeners then 1 else 0
  }

  lemma AudienceOnce(calls: seq<Call>, audiences: map<Mutation, seq<Listener>>, m: Mutation)
    requires Accurate(calls, audiences)
    ensures EachOnce(calls, m, Audience(audiences, m))
  {
    forall l: Listener ensures Times(calls, l, m) == if l in Audience(audiences, m) then 1 else 0 {
      ExactlyOnce(calls, audiences, l, m);
    }
  }

  /** The snapshot has been told up to `k`. */
  ghost predicate ToldSoFar(before: seq<Call>, calls: seq<Call>, m: Mutation, snapshot: seq<Listener>, k: nat)
    requires k <= |snapshot|
  {
    forall n: Mutation {:trigger Told(calls, n)} ::
      Told(calls, n) == Told(before, n) + if n == m then snapshot[..k] else []
  }

  lemma ToldOneMore(before: seq<Call>, calls: seq<Call>, m: Mutation, snapshot: seq<Listener>, k: nat)
    requires k < |snapshot| && ToldSoFar(before, calls, m, snapshot, k)
    ensures ToldSoFar(before, calls + [(snapshot[k], m)], m, snapshot, k + 1)
  {
    var after, next := calls + [(snapshot[k], m)], k + 1;
    forall n: Mutation ensures Told(after, n) == Told(before, n) + if n == m then snapshot[..next] else [] {
      ToldAppends(calls, (snapshot[k], m), n);
      assert Told(calls, n) == Told(before, n) + if n == m then snapshot[..k] else [];
      assert snapshot[..next] == snapshot[..k] + [snapshot[k]];
    }
  }

  lemma ToldAll(before: seq<Call>, calls: seq<Call>, m: Mutation, snapshot: seq<Listener>,
          audiences: map<Mutation, seq<Listener>>)
    requires Accurate(before, audiences) && m !in audiences && Distinct(snapshot)
    requires ToldSoFar(before, calls, m, snapshot, |snapshot|)
    ensures Accurate(calls, audiences[m := snapshot])
  {
    var after := audiences[m := snapshot];
    forall n: Mutation ensures AudienceOk(calls, after, n) {
      assert AudienceOk(before, audiences, n);
      assert Told(calls, n) == Told(before, n) + if n == m then snapshot[..|snapshot|] else [];
    }
  }

  /** How many of the first `k` reactions throw. */
  function Throws(reactions: seq<Reaction>, k: nat): nat {
    if k == 0 then 0 else Throws(reactions, k - 1) + if k <= |reactions| && reactions[k - 1].throws then 1 else 0
  }

  class ListenerSet {
    var listeners: seq<Listener>   // `mutationListeners`, in registration order
    var calls: seq<Call>           // every call of a listener
    var swallowed: nat             // errors that listeners threw
    var audiences: map<Mutation, seq<Listener>>   // who was registered at each success

    ghost predicate Valid()
      reads this
    {
      Distinct(listeners) && Accurate(calls, audiences)
    }

    constructor ()
      ensures Valid() && listeners == [] && calls == [] && audiences == map[]
    {
      listeners, calls, swallowed, audiences := [], [], 0, map[];
    }

    /** `onControlPlaneMutation` */
    method Add(listener: Listener)
      requires Distinct(listeners)
      modifies this`listeners
      ensures Distinct(listeners)
      ensures listeners == if listener in old(listeners) then old(listeners) else old(listeners) + [listener]
    {
      if listener !in listeners {
        DistinctWith(listeners, listener);
        listeners := listeners + [listener];
      }
    }

    /** The function that `onControlPlaneMutation` returns. */
    method Remove(listener: Listener)
      requires Distinct(listeners)
      modifies this`listeners
      ensures Distinct(listeners) && listener !in listeners && listeners == Without(old(listeners), listener)
      ensures forall l :: l != listener ==> (l in listeners <==> l in old(listeners))
      ensures InOrderOf(listeners, old(listeners))
    {
      WithoutDistinct(listeners, listener);
      WithoutInOrder(listeners, listener);
      listeners := Without(listeners, listener);
    }

    /** One listener's call, up to its end or its throw. */
    method React(reaction: Reaction) returns (thrown: bool)
      requires Distinct(listeners)
      modifies this`listeners
      ensures Distinct(listeners) && thrown == reaction.throws
    {
      for k := 0 to |reaction.adds|
        invariant Distinct(listeners)
      {
        Add(reaction.adds[k]);
      }
      if reaction.throws { return true; }
      for k := 0 to |reaction.removes|
        invariant Distinct(listeners)
      {
        Remove(reaction.removes[k]);
      }
      return false;
    }

    /** The listeners of this moment are called in order, whatever they register, remove or throw meanwhile. */
    method TellAll(m: Mutation, reactions: seq<Reaction>)
      requires Valid() && m !in audiences
      modifies this
      ensures Valid() && audiences == old(audiences)[m := old(listeners)]
      ensures old(calls) <= calls && |calls| == |old(calls)| + |old(listeners)|
      ensures forall i :: 0 <= i < |old(listeners)| ==> calls[|old(calls)| + i] == (old(listeners)[i], m)
      ensures swallowed == old(swallowed) + Throws(reactions, |old(listeners)|)
    {
      var snapshot := listeners;
      ghost var before := calls;
      for i := 0 to |snapshot|
        invariant Distinct(listeners) && audiences == old(audiences)
        invariant swallowed == old(swallowed) + Throws(reactions, i)
        invariant before <= calls && |calls| == |before| + i && ToldSoFar(before, calls, m, snapshot, i)
        invariant forall k :: 0 <= k < i ==> calls[|before| + k] == (snapshot[k], m)
      {
        ToldOneMore(before, calls, m, snapshot, i);
        calls := calls + [(snapshot[i], m)];
        if i < |reactions| {
          var thrown := React(reactions[i]);
          // A failed listener must not make the write look failed: the loop goes on.
          if thrown { swallowed := swallowed + 1; }
        }
      }
      ToldAll(before, calls, m, snapshot, audiences);
      audiences := audiences[m := snapshot];
    }
  }
}

/** Acknowledging received log chunks scope by scope (src/lib/build-log-ranges.ts:1-44). */
module BuildLogRanges {
  import opened SequenceRanges
  import OperationKeys

  datatype Chunk = Chunk(scope: string, scopeId: string, sequence: int)
  datatype Group = Group(scope: string, scopeId: string, sequences: seq<int>)
  datatype LogRange = LogRange(scope: string, scopeId: string, fromSequence: int, throughSequence: int)

  predicate Of(c: Chunk, scope: string, scopeId: string) {
    c.scope == scope && c.scopeId == scopeId
  }

  /** The first chunk of a scope at `from` or later, or the number of chunks. */
  function FirstFrom(chunks: seq<Chunk>, from: nat, scope: string, scopeId: string): (first: nat)
    requires from <= |chunks|
    ensures from <= first <= |chunks|
    ensures first < |chunks| ==> Of(chunks[first], scope, scopeId)
    ensures forall i :: from <= i < first ==> !Of(chunks[i], scope, scopeId)
    decreases |chunks| - from
  {
    if from == |chunks| || Of(chunks[from], scope, scopeId) then from else FirstFrom(chunks, from + 1, scope, scopeId)
  }

  function FirstAt(chunks: seq<Chunk>, scope: string, scopeId: string): nat {
    FirstFrom(chunks, 0, scope, scopeId)
  }

  /** The ranges of one scope, in their order. */
  function Restrict(ranges: seq<LogRange>, scope: string, scopeId: string): seq<Range> {
    if ranges == [] then []
    else
      var n := |ranges| - 1;
      var r := ranges[n];
      Restrict(ranges[..n], scope, scopeId)
      + if r.scope == scope && r.scopeId == scopeId then [Range(r.fromSequence, r.throughSequence)] else []
  }

  /** Scopes follow one another in the order in which chunks first name them. */
  ghost predicate InOrderOfAppearance(chunks: seq<Chunk>, ranges: seq<LogRange>) {
    && (forall i :: 0 <= i < |ranges| ==> FirstAt(chunks, ranges[i].scope, ranges[i].scopeId) < |chunks|)
    && (forall i, j :: 0 <= i < j < |ranges| ==>
          FirstAt(chunks, ranges[i].scope, ranges[i].scopeId) <= FirstAt(chunks, ranges[j].scope, ranges[j].scopeId))
  }

  /** A scope's ranges are canonical and cover exactly its received numbers. */
  ghost predicate ScopeOk(chunks: seq<Chunk>, ranges: seq<LogRange>, scope: string, scopeId: string) {
    && Canonical(Restrict(ranges, scope, scopeId))
    && forall x :: Covers(Restrict(ranges, scope, scopeId), x) <==> Chunk(scope, scopeId, x) in chunks
  }

  ghost predicate Acknowledges(chunks: seq<Chunk>, ranges: seq<LogRange>) {
    && InOrderOfAppearance(chunks, ranges)
    && forall scope: string, scopeId: string {:trigger ScopeOk(chunks, ranges, scope, scopeId)} ::
       ScopeOk(chunks, ranges, scope, scopeId)
  }

  // Grouping

  /** What a group holds after the first `k` chunks. */
  ghost predicate GroupOk(chunks: seq<Chunk>, k: nat, key: string, g: Group)
    requires k <= |chunks|
  {
    && key == OperationKeys.PairKey(g.scope, g.scopeId)
    && FirstAt(chunks, g.scope, g.scopeId) < k
    && (forall x :: x in g.sequences <==> Chunk(g.scope, g.scopeId, x) in chunks[..k])
  }

  function KeyOf(c: Chunk): string {
    OperationKeys.PairKey(c.scope, c.scopeId)
  }

  function RankOf(chunks: seq<Chunk>, g: Group): nat {
    FirstAt(chunks, g.scope, g.scopeId)
  }

  ghost predicate EntryOk(chunks: seq<Chunk>, k: nat, key: string, groups: map<string, Group>)
    requires k <= |chunks|
  {
    key in groups ==> GroupOk(chunks, k, key, groups[key])
  }

  ghost predicate EntriesInOrder(chunks: seq<Chunk>, order: seq<string>, groups: map<string, Group>, i: int, j: int) {
    0 <= i < j < |order| && order[i] in groups && order[j] in groups ==>
      RankOf(chunks, groups[order[i]]) < RankOf(chunks, groups[order[j]])
  }

  ghost predicate Lists(order: seq<string>, groups: map<string, Group>) {
    && (forall i :: 0 <= i < |order| ==> order[i] in groups)
    && (forall key :: key in groups ==> key in order)
  }

  ghost predicate IsGrouped(c: Chunk, groups: map<string, Group>) {
    KeyOf(c) in groups
  }

  ghost predicate Grouped(chunks: seq<Chunk>, k: nat, order: seq<string>, groups: map<string, Group>) {
    && k <= |chunks|
    && Lists(order, groups)
    && (forall key: string {:trigger EntryOk(chunks, k, key, groups)} :: EntryOk(chunks, k, key, groups))
    && (forall i: int, j: int {:trigger EntriesInOrder(chunks, order, groups, i, j)} ::
          EntriesInOrder(chunks, order, groups, i, j))
    && (forall i: int {:trigger IsGrouped(chunks[i], groups)} :: 0 <= i < k ==> IsGrouped(chunks[i], groups))
  }

  /** `Set.add` */
  function Added(sequences: seq<int>, x: int): seq<int> {
    if x in sequences then sequences else sequences + [x]
  }

  lemma GroupAdds(chunks: seq<Chunk>, k: nat, key: string, g: Group)
    requires k < |chunks| && Of(chunks[k], g.scope, g.scopeId) && key == OperationKeys.PairKey(g.scope, g.scopeId)
    requires
      || GroupOk(chunks, k, key, g)
      || (g.sequences == [] && forall i :: 0 <= i < k ==> !Of(chunks[i], g.scope, g.scopeId))
    ensures GroupOk(chunks, k + 1, key, g.(sequences := Added(g.sequences, chunks[k].sequence)))
    ensures !GroupOk(chunks, k, key, g) ==> FirstAt(chunks, g.scope, g.scopeId) == k
  {
    assert chunks[..k + 1] == chunks[..k] + [chunks[k]];
  }

  lemma OtherGroupStays(chunks: seq<Chunk>, k: nat, key: string, g: Group)
    requires k < |chunks| && GroupOk(chunks, k, key, g)
    requires key != OperationKeys.PairKey(chunks[k].scope, chunks[k].scopeId)
    ensures GroupOk(chunks, k + 1, key, g)
  {
    assert chunks[..k + 1] == chunks[..k] + [chunks[k]];
  }

  /** The group a chunk joins, or the new one it opens. */
  function GroupFor(groups: map<string, Group>, c: Chunk): Group {
    if KeyOf(c) in groups then groups[KeyOf(c)] else Group(c.scope, c.scopeId, [])
  }

  function OrderWith(order: seq<string>, groups: map<string, Group>, c: Chunk): seq<string> {
    if KeyOf(c) in groups then order else order + [KeyOf(c)]
  }

  function GroupsWith(groups: map<string, Group>, c: Chunk): map<string, Group> {
    var g := GroupFor(groups, c);
    groups[KeyOf(c) := g.(sequences := Added(g.sequences, c.sequence))]
  }

  /** The chunk's own entry, which keeps its rank or gets the chunk's position for one. */
  lemma OwnEntry(chunks: seq<Chunk>, k: nat, order: seq<string>, groups: map<string, Group>)
    requires k < |chunks| && Grouped(chunks, k, order, groups)
    ensures
      var c := chunks[k];
      && EntryOk(chunks, k + 1, KeyOf(c), GroupsWith(groups, c))
      && (if KeyOf(c) in groups then RankOf(chunks, groups[KeyOf(c)]) == RankOf(chunks, GroupsWith(groups, c)[KeyOf(c)])
          else RankOf(chunks, GroupsWith(groups, c)[KeyOf(c)]) == k)
  {
    var c := chunks[k];
    var g := GroupFor(groups, c);
    assert EntryOk(chunks, k, KeyOf(c), groups);
    OperationKeys.PairKeyInjective(g.scope, g.scopeId, c.scope, c.scopeId);
    if KeyOf(c) !in groups {
      forall i | 0 <= i < k ensures !Of(chunks[i], c.scope, c.scopeId) {
        assert IsGrouped(chunks[i], groups);
      }
    }
    GroupAdds(chunks, k, KeyOf(c), g);
  }

  lemma OrderKeeps(chunks: seq<Chunk>, k: nat, order: seq<string>, groups: map<string, Group>, i: int, j: int)
    requires k < |chunks| && Grouped(chunks, k, order, groups)
    ensures EntriesInOrder(chunks, OrderWith(order, groups, chunks[k]), GroupsWith(groups, chunks[k]), i, j)
  {
    OwnEntry(chunks, k, order, groups);
    if 0 <= i < |order| {
      assert EntriesInOrder(chunks, order, groups, i, j);
      assert EntryOk(chunks, k, order[i], groups);
    }
  }

  lemma GroupedKeeps(chunks: seq<Chunk>, k: nat, order: seq<string>, groups: map<string, Group>)
    requires k < |chunks| && Grouped(chunks, k, order, groups)
    ensures Grouped(chunks, k + 1, OrderWith(order, groups, chunks[k]), GroupsWith(groups, chunks[k]))
  {
    var c := chunks[k];
    var listed, after, next := OrderWith(order, groups, c), GroupsWith(groups, c), k + 1;
    assert Lists(listed, after) by {
      assert KeyOf(c) !in groups ==> listed[|order|] == KeyOf(c);
      forall key | key in after ensures key in listed {
        if key in groups { assert key in order; }
      }
    }
    forall key: string ensures EntryOk(chunks, next, key, after) {
      if key == KeyOf(c) {
        OwnEntry(chunks, k, order, groups);
      } else if key in groups {
        assert EntryOk(chunks, k, key, groups);
        OtherGroupStays(chunks, k, key, groups[key]);
      }
    }
    forall i: int, j: int ensures EntriesInOrder(chunks, listed, after, i, j) {
      OrderKeeps(chunks, k, order, groups, i, j);
    }
    forall i: int | 0 <= i < k + 1 ensures IsGrouped(chunks[i], after) {
      if i < k { assert IsGrouped(chunks[i], groups); }
    }
  }

  method GroupByScope(chunks: seq<Chunk>) returns (order: seq<string>, groups: map<string, Group>)
    ensures Grouped(chunks, |chunks|, order, groups)
  {
    order, groups := [], map[];
    for k := 0 to |chunks|
      invariant Grouped(chunks, k, order, groups)
    {
      GroupedKeeps(chunks, k, order, groups);
      var chunk := chunks[k];
      var key := OperationKeys.PairKey(chunk.scope, chunk.scopeId);
      var group := if key in groups then groups[key] else Group(chunk.scope, chunk.scopeId, []);
      group := group.(sequences := Added(group.sequences, chunk.sequence));
      if key !in groups { order := order + [key]; }
      groups := groups[key := group];
    }
  }

  // Compressing, group after group

  function Tagged(g: Group, ranges: seq<Range>): (tagged: seq<LogRange>) {
    seq(|ranges|, i requires 0 <= i < |ranges| =>
      LogRange(g.scope, g.scopeId, ranges[i].fromSequence, ranges[i].throughSequence))
  }

  function GroupRanges(g: Group): seq<Range> {
    var sorted := Sorted(g.sequences);
    Compressed(sorted, |sorted|)
  }

  /** The ranges of the first `k` groups. */
  function AllRanges(order: seq<string>, groups: map<string, Group>, k: nat): seq<LogRange>
    requires k <= |order| && forall i :: 0 <= i < |order| ==> order[i] in groups
  {
    if k == 0 then []
    else
      var g := groups[order[k - 1]];
      AllRanges(order, groups, k - 1) + Tagged(g, GroupRanges(g))
  }

  lemma {:induction false} RestrictAppends(a: seq<LogRange>, b: seq<LogRange>, scope: string, scopeId: string)
    ensures Restrict(a + b, scope, scopeId) == Restrict(a, scope, scopeId) + Restrict(b, scope, scopeId)
  {
    if b == [] {
      assert a + b == a;
    } else {
      var last := |b| - 1;
      RestrictAppends(a, b[..last], scope, scopeId);
      assert (a + b)[..|a + b| - 1] == a + b[..last];
    }
  }

  lemma {:induction false} RestrictTagged(g: Group, ranges: seq<Range>, scope: string, scopeId: string)
    ensures Restrict(Tagged(g, ranges), scope, scopeId) ==
      if g.scope == scope && g.scopeId == scopeId then ranges else []
  {
    if ranges == [] {
    } else {
      var last := |ranges| - 1;
      RestrictTagged(g, ranges[..last], scope, scopeId);
      assert Tagged(g, ranges)[..last] == Tagged(g, ranges[..last]);
      assert ranges == ranges[..last] + [ranges[last]];
    }
  }

  /** The ranges of those of the first `k` groups that have this key. */
  function RangesUnder(order: seq<string>, groups: map<string, Group>, k: nat, key: string): seq<Range>
    requires k <= |order| && Lists(order, groups)
  {
    if k == 0 then []
    else RangesUnder(order, groups, k - 1, key) + if order[k - 1] == key then GroupRanges(groups[order[k - 1]]) else []
  }

  lemma RestrictGroup(before: seq<LogRange>, key: string, g: Group, scope: string, scopeId: string)
    requires key == OperationKeys.PairKey(g.scope, g.scopeId)
    ensures Restrict(before + Tagged(g, GroupRanges(g)), scope, scopeId) ==
      Restrict(before, scope, scopeId) + if key == OperationKeys.PairKey(scope, scopeId) then GroupRanges(g) else []
  {
    OperationKeys.PairKeyInjective(g.scope, g.scopeId, scope, scopeId);
    RestrictAppends(before, Tagged(g, GroupRanges(g)), scope, scopeId);
    RestrictTagged(g, GroupRanges(g), scope, scopeId);
  }

  lemma {:induction false} RestrictIsUnder(chunks: seq<Chunk>, order: seq<string>, groups: map<string, Group>, k: nat,
          scope: string, scopeId: string)
    requires Grouped(chunks, |chunks|, order, groups) && k <= |order|
    ensures Restrict(AllRanges(order, groups, k), scope, scopeId) ==
      RangesUnder(order, groups, k, OperationKeys.PairKey(scope, scopeId))
  {
    if k == 0 {
    } else {
      RestrictIsUnder(chunks, order, groups, k - 1, scope, scopeId);
      assert EntryOk(chunks, |chunks|, order[k - 1], groups);
      RestrictGroup(AllRanges(order, groups, k - 1), order[k - 1], groups[order[k - 1]], scope, scopeId);
    }
  }

  lemma {:induction false} NoGroupUnder(order: seq<string>, groups: map<string, Group>, k: nat, key: string)
    requires k <= |order| && Lists(order, groups) && key !in order[..k]
    ensures RangesUnder(order, groups, k, key) == []
  {
    if k == 0 {
    } else {
      assert order[..k] == order[..k - 1] + [order[k - 1]];
      NoGroupUnder(order, groups, k - 1, key);
    }
  }

  /** With distinct keys, only one group has a key. */
  lemma {:induction false} OneGroupUnder(order: seq<string>, groups: map<string, Group>, k: nat, j: nat)
    requires j < k <= |order| && Lists(order, groups) && order[j] !in order[..j] && order[j] !in order[j + 1..]
    ensures RangesUnder(order, groups, k, order[j]) == GroupRanges(groups[order[j]])
  {
    if j == k - 1 {
      NoGroupUnder(order, groups, j, order[j]);
    } else {
      assert order[k - 1] == order[j + 1..][k - 2 - j];
      OneGroupUnder(order, groups, k - 1, j);
    }
  }

  lemma KeyIsAlone(chunks: seq<Chunk>, order: seq<string>, groups: map<string, Group>, j: nat)
    requires Grouped(chunks, |chunks|, order, groups) && j < |order|
    ensures order[j] !in order[..j] && order[j] !in order[j + 1..]
  {
    forall i | 0 <= i < j ensures order[..j][i] != order[j] {
      assert EntriesInOrder(chunks, order, groups, i, j);
    }
    var later := order[j + 1..];
    forall i | 0 <= i < |later| ensures later[i] != order[j] {
      assert EntriesInOrder(chunks, order, groups, j, j + 1 + i);
    }
  }

  ghost predicate RanksUpTo(chunks: seq<Chunk>, ranges: seq<LogRange>, rank: nat) {
    forall i :: 0 <= i < |ranges| ==> FirstAt(chunks, ranges[i].scope, ranges[i].scopeId) <= rank
  }

  lemma GroupFollows(chunks: seq<Chunk>, before: seq<LogRange>, g: Group, ranges: seq<Range>)
    requires InOrderOfAppearance(chunks, before)
    requires RanksUpTo(chunks, before, RankOf(chunks, g)) && RankOf(chunks, g) < |chunks|
    ensures InOrderOfAppearance(chunks, before + Tagged(g, ranges))
    ensures RanksUpTo(chunks, before + Tagged(g, ranges), RankOf(chunks, g))
  {
    var all := before + Tagged(g, ranges);
    forall i | |before| <= i < |all| ensures FirstAt(chunks, all[i].scope, all[i].scopeId) == RankOf(chunks, g) {
      assert all[i] == Tagged(g, ranges)[i - |before|];
    }
    assert forall i :: 0 <= i < |before| ==> all[i] == before[i];
  }

  lemma {:induction false} AllInOrder(chunks: seq<Chunk>, order: seq<string>, groups: map<string, Group>, k: nat)
    requires Grouped(chunks, |chunks|, order, groups) && k <= |order|
    ensures InOrderOfAppearance(chunks, AllRanges(order, groups, k))
    ensures k > 0 ==> RanksUpTo(chunks, AllRanges(order, groups, k), RankOf(chunks, groups[order[k - 1]]))
  {
    if k == 0 {
    } else {
      AllInOrder(chunks, order, groups, k - 1);
      assert EntryOk(chunks, |chunks|, order[k - 1], groups);
      assert EntriesInOrder(chunks, order, groups, k - 2, k - 1);
      GroupFollows(chunks, AllRanges(order, groups, k - 1), groups[order[k - 1]], GroupRanges(groups[order[k - 1]]));
    }
  }

  lemma GroupRangesCover(g: Group)
    ensures Canonical(GroupRanges(g)) && forall x :: Covers(GroupRanges(g), x) <==> x in g.sequences
  {
    var sorted := Sorted(g.sequences);
    CompressedCovers(sorted, |sorted|);
    assert sorted[..|sorted|] == sorted;
  }

  lemma ScopeIsAcknowledged(chunks: seq<Chunk>, order: seq<string>, groups: map<string, Group>, scope: string,
          scopeId: string)
    requires Grouped(chunks, |chunks|, order, groups)
    ensures ScopeOk(chunks, AllRanges(order, groups, |order|), scope, scopeId)
  {
    var key := OperationKeys.PairKey(scope, scopeId);
    RestrictIsUnder(chunks, order, groups, |order|, scope, scopeId);
    if key in groups {
      assert key in order;
      var j: nat :| j < |order| && order[j] == key;
      KeyIsAlone(chunks, order, groups, j);
      OneGroupUnder(order, groups, |order|, j);
      GroupRangesCover(groups[key]);
      assert EntryOk(chunks, |chunks|, key, groups);
      OperationKeys.PairKeyInjective(groups[key].scope, groups[key].scopeId, scope, scopeId);
      assert chunks[..|chunks|] == chunks;
    } else {
      assert order[..|order|] == order;
      NoGroupUnder(order, groups, |order|, key);
      forall i | 0 <= i < |chunks| ensures !Of(chunks[i], scope, scopeId) {
        assert IsGrouped(chunks[i], groups);
      }
    }
  }

  lemma AllAcknowledged(chunks: seq<Chunk>, order: seq<string>, groups: map<string, Group>)
    requires Grouped(chunks, |chunks|, order, groups)
    ensures Acknowledges(chunks, AllRanges(order, groups, |order|))
  {
    AllInOrder(chunks, order, groups, |order|);
    var ranges := AllRanges(order, groups, |order|);
    forall scope: string, scopeId: string ensures ScopeOk(chunks, ranges, scope, scopeId) {
      ScopeIsAcknowledged(chunks, order, groups, scope, scopeId);
    }
  }

  /** The inner loop of `buildLogRanges`: the group's numbers, each extending `range` or opening one. */
  method AppendGroup(ranges: seq<LogRange>, group: Group) returns (all: seq<LogRange>)
    ensures all == ranges + Tagged(group, GroupRanges(group))
  {
    var sorted := Sorted(group.sequences);
    all := ranges;
    var started := false;
    for k := 0 to |sorted|
      invariant all == ranges + Tagged(group, Compressed(sorted, k))
      invariant started <==> Compressed(sorted, k) != []
    {
      var sequence, last := sorted[k], |all| - 1;
      if started && sequence == all[last].throughSequence + 1 {
        all := all[last := all[last].(throughSequence := sequence)];
      } else {
        all := all + [LogRange(group.scope, group.scopeId, sequence, sequence)];
        started := true;
      }
    }
  }

  /** Exactly the received numbers of every scope, never a missing one. */
  method BuildLogRanges(chunks: seq<Chunk>) returns (ranges: seq<LogRange>)
    ensures Acknowledges(chunks, ranges)
  {
    var order, groups := GroupByScope(chunks);
    ranges := [];
    for k := 0 to |order|
      invariant ranges == AllRanges(order, groups, k)
    {
      ranges := AppendGroup(ranges, groups[order[k]]);
    }
    AllAcknowledged(chunks, order, groups);
  }

  /** The numbers received for one scope. */
  function NumbersOf(chunks: seq<Chunk>, scope: string, scopeId: string): seq<int> {
    if chunks == [] then []
    else
      var last := |chunks| - 1;
      NumbersOf(chunks[..last], scope, scopeId)
      + if Of(chunks[last], scope, scopeId) then [chunks[last].sequence] else []
  }

  lemma {:induction false} NumbersAreReceived(chunks: seq<Chunk>, scope: string, scopeId: string, x: int)
    ensures x in NumbersOf(chunks, scope, scopeId) <==> Chunk(scope, scopeId, x) in chunks
  {
    if chunks == [] {
    } else {
      var last := |chunks| - 1;
      NumbersAreReceived(chunks[..last], scope, scopeId, x);
      assert chunks == chunks[..last] + [chunks[last]];
    }
  }

  /** Restricted to one scope, the result is what `sequenceRanges` makes of that scope's numbers. */
  lemma AgreesWithSequenceRanges(chunks: seq<Chunk>, ranges: seq<LogRange>, scope: string, scopeId: string,
          alone: seq<Range>)
    requires Acknowledges(chunks, ranges)
    requires Canonical(alone) && forall x :: Covers(alone, x) <==> x in NumbersOf(chunks, scope, scopeId)
    ensures Restrict(ranges, scope, scopeId) == alone
  {
    assert ScopeOk(chunks, ranges, scope, scopeId);
    forall x: int ensures Covers(Restrict(ranges, scope, scopeId), x) <==> Covers(alone, x) {
      NumbersAreReceived(chunks, scope, scopeId, x);
    }
    Determined(Restrict(ranges, scope, scopeId), alone);
  }

  lemma {:induction false} InRestriction(ranges: seq<LogRange>, scope: string, scopeId: string) returns (i: nat)
    requires Restrict(ranges, scope, scopeId) != []
    ensures i < |ranges| && ranges[i].scope == scope && ranges[i].scopeId == scopeId
  {
    i := |ranges| - 1;
    if ranges[i].scope == scope && ranges[i].scopeId == scopeId {
    } else {
      i := InRestriction(ranges[..i], scope, scopeId);
    }
  }

  ghost predicate SameIn(a: seq<LogRange>, b: seq<LogRange>, scope: string, scopeId: string) {
    Restrict(a, scope, scopeId) == Restrict(b, scope, scopeId)
  }

  ghost predicate SameEverywhere(a: seq<LogRange>, b: seq<LogRange>) {
    forall scope: string, scopeId: string {:trigger SameIn(a, b, scope, scopeId)} :: SameIn(a, b, scope, scopeId)
  }

  lemma LastRanksHighest(chunks: seq<Chunk>, a: seq<LogRange>, b: seq<LogRange>)
    requires InOrderOfAppearance(chunks, b) && a != [] && SameIn(a, b, a[|a| - 1].scope, a[|a| - 1].scopeId)
    ensures b != []
    ensures
      var r, s := a[|a| - 1], b[|b| - 1];
      FirstAt(chunks, r.scope, r.scopeId) <= FirstAt(chunks, s.scope, s.scopeId)
  {
    var r := a[|a| - 1];
    var i := InRestriction(b, r.scope, r.scopeId);
  }

  lemma RestrictLast(a: seq<LogRange>, r: LogRange)
    ensures Restrict(a + [r], r.scope, r.scopeId) ==
      Restrict(a, r.scope, r.scopeId) + [Range(r.fromSequence, r.throughSequence)]
  {
    assert (a + [r])[..|a|] == a;
  }

  lemma LastIsSame(a: seq<LogRange>, b: seq<LogRange>, r: LogRange, s: LogRange)
    requires SameIn(a + [r], b + [s], r.scope, r.scopeId) && r.scope == s.scope && r.scopeId == s.scopeId
    ensures r == s
  {
    RestrictLast(a, r);
    RestrictLast(b, s);
    var x, y := Restrict(a, r.scope, r.scopeId), Restrict(b, r.scope, r.scopeId);
    var p, q := Range(r.fromSequence, r.throughSequence), Range(s.fromSequence, s.throughSequence);
    assert x + [p] == y + [q] && |x| == |y|;
    assert p == (x + [p])[|x|] == (y + [q])[|y|] == q;
  }

  lemma DroppedIsSame(a: seq<LogRange>, b: seq<LogRange>, r: LogRange, scope: string, scopeId: string)
    requires SameIn(a + [r], b + [r], scope, scopeId)
    ensures SameIn(a, b, scope, scopeId)
  {
    assert (a + [r])[..|a|] == a && (b + [r])[..|b|] == b;
    var x, y := Restrict(a, scope, scopeId), Restrict(b, scope, scopeId);
    var last := if r.scope == scope && r.scopeId == scopeId then [Range(r.fromSequence, r.throughSequence)] else [];
    assert x + last == y + last && |x| == |y|;
    assert x == (x + last)[..|x|] == (y + last)[..|y|] == y;
  }

  /** Scopes in the same order and the same ranges scope by scope: the same list. */
  lemma {:induction false} ScopesDetermineAll(chunks: seq<Chunk>, a: seq<LogRange>, b: seq<LogRange>)
    requires InOrderOfAppearance(chunks, a) && InOrderOfAppearance(chunks, b) && SameEverywhere(a, b)
    ensures a == b
    decreases |a|
  {
    if a == [] {
      if b != [] {
        assert SameIn(a, b, b[|b| - 1].scope, b[|b| - 1].scopeId);
        LastRanksHighest(chunks, b, a);
      }
    } else {
      var r := a[|a| - 1];
      assert SameIn(a, b, r.scope, r.scopeId);
      LastRanksHighest(chunks, a, b);
      var s := b[|b| - 1];
      assert SameIn(a, b, s.scope, s.scopeId);
      LastRanksHighest(chunks, b, a);
      assert Of(chunks[FirstAt(chunks, r.scope, r.scopeId)], s.scope, s.scopeId);
      var x, y := a[..|a| - 1], b[..|b| - 1];
      assert a == x + [r] && b == y + [s];
      LastIsSame(x, y, r, s);
      forall scope: string, scopeId: string ensures SameIn(x, y, scope, scopeId) {
        assert SameIn(a, b, scope, scopeId);
        DroppedIsSame(x, y, r, scope, scopeId);
      }
      ScopesDetermineAll(chunks, x, y);
    }
  }

  /** What is promised of the result leaves only one result. */
  lemma OneResult(chunks: seq<Chunk>, a: seq<LogRange>, b: seq<LogRange>)
    requires Acknowledges(chunks, a) && Acknowledges(chunks, b)
    ensures a == b
  {
    forall scope: string, scopeId: string ensures SameIn(a, b, scope, scopeId) {
      assert ScopeOk(chunks, a, scope, scopeId) && ScopeOk(chunks, b, scope, scopeId);
      Determined(Restrict(a, scope, scopeId), Restrict(b, scope, scopeId));
    }
    ScopesDetermineAll(chunks, a, b);
  }
}

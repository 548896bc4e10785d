/** Compressing received sequence numbers into ranges (src/lib/sequence-ranges.ts:1-11). */
module SequenceRanges {
  datatype Range = Range(fromSequence: int, throughSequence: int)

  predicate Within(r: Range, x: int) {
    r.fromSequence <= x <= r.throughSequence
  }

  ghost predicate Covers(ranges: seq<Range>, x: int) {
    exists i :: 0 <= i < |ranges| && Within(ranges[i], x)
  }

  /** Non-empty ranges in increasing order with a missing number between any two. */
  ghost predicate Canonical(ranges: seq<Range>) {
    && (forall i :: 0 <= i < |ranges| ==> ranges[i].fromSequence <= ranges[i].throughSequence)
    && (forall i, j :: 0 <= i < j < |ranges| ==> ranges[i].throughSequence + 1 < ranges[j].fromSequence)
  }

  ghost predicate Increasing(xs: seq<int>) {
    forall i, j :: 0 <= i < j < |xs| ==> xs[i] < xs[j]
  }

  function Inserted(xs: seq<int>, x: int): (r: seq<int>)
    requires Increasing(xs)
    ensures Increasing(r)
    ensures forall y :: y in r <==> y in xs || y == x
  {
    if xs == [] || x < xs[0] then [x] + xs
    else if x == xs[0] then xs
    else
      var rest := Inserted(xs[1..], x);
      assert xs == [xs[0]] + xs[1..];
      assert forall y :: y in rest ==> xs[0] < y by {
        forall y | y in rest ensures xs[0] < y {
          if y != x { var k :| 0 <= k < |xs| - 1 && xs[1..][k] == y; }
        }
      }
      assert forall j :: 0 <= j < |rest| ==> rest[j] in rest;
      [xs[0]] + rest
  }

  /** `[...new Set(received)].sort((a, b) => a - b)` */
  function Sorted(received: seq<int>): (xs: seq<int>)
    ensures Increasing(xs)
    ensures forall x :: x in xs <==> x in received
  {
    if received == [] then []
    else
      var last := |received| - 1;
      assert received == received[..last] + [received[last]];
      Inserted(Sorted(received[..last]), received[last])
  }

  /** The first `k` sorted numbers as ranges: each extends the last range or starts one. */
  function Compressed(xs: seq<int>, k: nat): seq<Range>
    requires k <= |xs|
  {
    if k == 0 then [] else Extended(Compressed(xs, k - 1), xs[k - 1])
  }

  function Extended(ranges: seq<Range>, x: int): seq<Range> {
    var last := |ranges| - 1;
    if ranges != [] && x == ranges[last].throughSequence + 1
    then ranges[last := ranges[last].(throughSequence := x)]
    else ranges + [Range(x, x)]
  }

  lemma ExtendedCovers(ranges: seq<Range>, x: int)
    requires Canonical(ranges) && (ranges != [] ==> ranges[|ranges| - 1].throughSequence < x)
    ensures Canonical(Extended(ranges, x))
    ensures forall y :: Covers(Extended(ranges, x), y) <==> Covers(ranges, y) || y == x
  {
    var after, last := Extended(ranges, x), |ranges| - 1;
    forall y ensures Covers(after, y) <==> Covers(ranges, y) || y == x {
      if Covers(ranges, y) {
        var i :| 0 <= i < |ranges| && Within(ranges[i], y);
        assert Within(after[i], y);
      }
      if y == x { assert Within(after[|after| - 1], y); }
      if Covers(after, y) && y != x {
        var i :| 0 <= i < |after| && Within(after[i], y);
        assert Within(ranges[i], y);
      }
    }
  }

  lemma {:induction false} CompressedCovers(xs: seq<int>, k: nat)
    requires Increasing(xs) && k <= |xs|
    ensures var ranges := Compressed(xs, k);
      && Canonical(ranges)
      && (forall y :: Covers(ranges, y) <==> y in xs[..k])
      && (k > 0 ==> ranges != [] && ranges[|ranges| - 1].throughSequence == xs[k - 1])
  {
    if k == 0 {
    } else {
      CompressedCovers(xs, k - 1);
      var before := Compressed(xs, k - 1);
      assert k == 1 ==> before == [];
      ExtendedCovers(before, xs[k - 1]);
      assert xs[..k] == xs[..k - 1] + [xs[k - 1]];
    }
  }

  /** `sequenceRanges`: exactly the received numbers, in canonical form. */
  method SequenceRanges(sequences: seq<int>) returns (ranges: seq<Range>)
    ensures Canonical(ranges)
    ensures forall x :: Covers(ranges, x) <==> x in sequences
  {
    var sorted := Sorted(sequences);
    ranges := [];
    for k := 0 to |sorted|
      invariant ranges == Compressed(sorted, k)
    {
      var sequence, last := sorted[k], |ranges| - 1;
      if ranges != [] && sequence == ranges[last].throughSequence + 1 {
        ranges := ranges[last := ranges[last].(throughSequence := sequence)];
      } else {
        ranges := ranges + [Range(sequence, sequence)];
      }
    }
    CompressedCovers(sorted, |sorted|);
    assert sorted[..|sorted|] == sorted;
  }

  lemma WithoutLast(ranges: seq<Range>, x: int)
    requires Canonical(ranges) && ranges != []
    ensures var last := |ranges| - 1; Covers(ranges[..last], x) <==> Covers(ranges, x) && x < ranges[last].fromSequence
  {
    var last := |ranges| - 1;
    if Covers(ranges, x) && x < ranges[last].fromSequence {
      var i :| 0 <= i < |ranges| && Within(ranges[i], x);
      assert Within(ranges[..last][i], x);
    }
    if Covers(ranges[..last], x) {
      var i :| 0 <= i < last && Within(ranges[..last][i], x);
      assert Within(ranges[i], x);
    }
  }

  lemma GapBefore(ranges: seq<Range>, i: int)
    requires Canonical(ranges) && 0 <= i < |ranges|
    ensures !Covers(ranges, ranges[i].fromSequence - 1)
  {
  }

  lemma CoversWithin(ranges: seq<Range>, i: int, x: int)
    requires 0 <= i < |ranges| && Within(ranges[i], x)
    ensures Covers(ranges, x)
  {
  }

  /** Of two canonical lists with one union, neither's last range ends later or starts earlier. */
  lemma LastRange(a: seq<Range>, b: seq<Range>)
    requires Canonical(a) && Canonical(b) && a != []
    requires forall x :: Covers(a, x) <==> Covers(b, x)
    ensures b != []
    ensures a[|a| - 1].throughSequence <= b[|b| - 1].throughSequence
    ensures b[|b| - 1].throughSequence <= a[|a| - 1].throughSequence ==>
      b[|b| - 1].fromSequence <= a[|a| - 1].fromSequence
  {
    var last := a[|a| - 1];
    assert Within(last, last.throughSequence);
    assert Covers(b, last.throughSequence);
    var end := b[|b| - 1];
    GapBefore(b, |b| - 1);
    if end.throughSequence <= last.throughSequence && end.fromSequence > last.fromSequence {
      CoversWithin(a, |a| - 1, end.fromSequence - 1);
    }
  }

  /** A canonical list is determined by the set it covers. */
  lemma {:induction false} Determined(a: seq<Range>, b: seq<Range>)
    requires Canonical(a) && Canonical(b)
    requires forall x :: Covers(a, x) <==> Covers(b, x)
    ensures a == b
    decreases |a|
  {
    if a == [] {
      if b != [] { LastRange(b, a); }
    } else {
      LastRange(a, b);
      LastRange(b, a);
      var x, y := a[..|a| - 1], b[..|b| - 1];
      assert a == x + [a[|a| - 1]] && b == y + [b[|b| - 1]];
      forall n: int ensures Covers(x, n) <==> Covers(y, n) {
        WithoutLast(a, n);
        WithoutLast(b, n);
      }
      Determined(x, y);
    }
  }

  /** Distinct numbers that all occur in `ys` are no more than `ys` has. */
  lemma {:induction false} DistinctFit(xs: seq<int>, ys: seq<int>)
    requires Increasing(xs) && forall i :: 0 <= i < |xs| ==> xs[i] in ys
    ensures |xs| <= |ys|
  {
    if xs == [] {
    } else {
      var last := |xs| - 1;
      var j :| 0 <= j < |ys| && ys[j] == xs[last];
      var rest := ys[..j] + ys[j + 1..];
      forall i | 0 <= i < last ensures xs[..last][i] in rest {
        var k :| 0 <= k < |ys| && ys[k] == xs[i];
        assert if k < j then rest[k] == xs[i] else rest[k - 1] == xs[i];
      }
      DistinctFit(xs[..last], rest);
    }
  }

  /** Whoever covers the same numbers has a range that starts where a canonical range starts. */
  lemma StartIsShared(ranges: seq<Range>, other: seq<Range>, i: nat)
    requires Canonical(ranges) && i < |ranges|
    requires forall x :: Covers(ranges, x) <==> Covers(other, x)
    ensures exists j :: 0 <= j < |other| && other[j].fromSequence == ranges[i].fromSequence
  {
    var start := ranges[i].fromSequence;
    assert Within(ranges[i], start);
    assert Covers(other, start);
    var j :| 0 <= j < |other| && Within(other[j], start);
    GapBefore(ranges, i);
    if other[j].fromSequence < start { CoversWithin(other, j, start - 1); }
  }

  /** No list of ranges, ordered or overlapping as it may be, covers the same numbers with fewer. */
  lemma Minimal(ranges: seq<Range>, other: seq<Range>)
    requires Canonical(ranges)
    requires forall x :: Covers(ranges, x) <==> Covers(other, x)
    ensures |ranges| <= |other|
  {
    var starts := seq(|ranges|, i requires 0 <= i < |ranges| => ranges[i].fromSequence);
    var froms := seq(|other|, j requires 0 <= j < |other| => other[j].fromSequence);
    forall i | 0 <= i < |starts| ensures starts[i] in froms {
      StartIsShared(ranges, other, i);
      var j :| 0 <= j < |other| && other[j].fromSequence == ranges[i].fromSequence;
      assert froms[j] == starts[i];
    }
    DistinctFit(starts, froms);
  }
}

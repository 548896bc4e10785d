/** Spreading covered lines over a file by error diffusion (scripts/mock-data/coverage.ts:75-105). */
module Coverage {
  /** The credit left after `i` lines of a file of `n` lines, of which `c` should be covered. */
  function Credit(n: nat, c: int, i: nat): int {
    if i == 0 then 0
    else
      var credit := Credit(n, c, i - 1) + c;
      if credit >= n then credit - n else credit
  }

  predicate IsCovered(n: nat, c: int, i: nat) {
    Credit(n, c, i) + c >= n
  }

  /** How many of the first `i` lines are covered, or uncovered. */
  function Marked(n: nat, c: int, i: nat, covered: bool): nat {
    if i == 0 then 0 else Marked(n, c, i - 1, covered) + if IsCovered(n, c, i - 1) == covered then 1 else 0
  }

  /** The covered, or uncovered, ones among the first `k` lines, in file order. */
  function Picked(lines: seq<int>, c: int, k: nat, covered: bool): (picked: seq<int>)
    requires k <= |lines|
    ensures |picked| == Marked(|lines|, c, k, covered)
  {
    if k == 0 then []
    else Picked(lines, c, k - 1, covered) + if IsCovered(|lines|, c, k - 1) == covered then [lines[k - 1]] else []
  }

  method SplitCoverage(lines: seq<int>, coveredCount: int) returns (covered: seq<int>, uncovered: seq<int>)
    ensures covered == Picked(lines, coveredCount, |lines|, true)
    ensures uncovered == Picked(lines, coveredCount, |lines|, false)
    ensures |covered| == coveredCount <==> 0 <= coveredCount <= |lines|
  {
    covered, uncovered := [], [];
    var credit := 0;
    for i := 0 to |lines|
      invariant credit == Credit(|lines|, coveredCount, i)
      invariant covered == Picked(lines, coveredCount, i, true)
      invariant uncovered == Picked(lines, coveredCount, i, false)
    {
      credit := credit + coveredCount;
      if credit >= |lines| {
        credit := credit - |lines|;
        covered := covered + [lines[i]];
      } else {
        uncovered := uncovered + [lines[i]];
      }
    }
    ExactlyThatMany(|lines|, coveredCount);
  }

  lemma OneMore(n: int, low: int, high: int)
    requires n > 0 && low < high
    ensures n * low + n <= n * high
  {
    var d := high - low - 1;
    Distributes(low + 1, d, n);
    Distributes(low, 1, n);
    assert n * d >= 0;
  }

  lemma OneQuotient(n: int, q: int, r: int, p: int, m: int)
    requires n > 0 && 0 <= r < n && 0 <= m < n && n * q + r == n * p + m
    ensures q == p
  {
    if q < p { OneMore(n, q, p); } else if p < q { OneMore(n, p, q); }
  }

  /** `a` divided by `n` has one quotient and one remainder. */
  lemma QuotientIs(a: int, n: int, q: int, r: int)
    requires n > 0 && a == n * q + r && 0 <= r < n
    ensures a / n == q
  {
    OneQuotient(n, q, r, a / n, a % n);
  }

  lemma Distributes(a: int, b: int, n: int)
    ensures n * (a + b) == n * a + n * b && (a + b) * n == a * n + b * n
  {
  }

  /** After every prefix the number of covered lines is the exact share, rounded down. */
  lemma {:induction false} PrefixShare(n: nat, c: int, i: nat)
    requires 0 <= c <= n && n > 0
    ensures Marked(n, c, i, true) == i * c / n
    ensures Credit(n, c, i) == i * c - n * Marked(n, c, i, true)
    ensures 0 <= Credit(n, c, i) < n
  {
    if i > 0 {
      PrefixShare(n, c, i - 1);
      var before, after := Marked(n, c, i - 1, true), Marked(n, c, i, true);
      Distributes(i - 1, 1, c);
      Distributes(before, 1, n);
      QuotientIs(i * c, n, after, Credit(n, c, i));
    } else {
      QuotientIs(0, n, 0, 0);
    }
  }

  /** A line is covered exactly when the rounded share grows there. */
  lemma CoveredWhereTheShareGrows(n: nat, c: int, i: nat)
    requires 0 <= c <= n && n > 0
    ensures IsCovered(n, c, i) <==> (i + 1) * c / n > i * c / n
  {
    PrefixShare(n, c, i);
    PrefixShare(n, c, i + 1);
  }

  lemma {:induction false} MarksAddUp(n: nat, c: int, i: nat)
    ensures Marked(n, c, i, true) + Marked(n, c, i, false) == i
  {
    if i == 0 {
    } else {
      MarksAddUp(n, c, i - 1);
    }
  }

  lemma ExactlyThatMany(n: nat, c: int)
    ensures Marked(n, c, n, true) == c <==> 0 <= c <= n
  {
    MarksAddUp(n, c, n);
    if 0 <= c <= n && n > 0 {
      PrefixShare(n, c, n);
      QuotientIs(n * c, n, c, 0);
    }
  }

  /** Every window of `w` lines holds its exact share, rounded down or up. */
  lemma EveryWindowIsEven(n: nat, c: int, i: nat, w: nat)
    requires 0 <= c <= n && n > 0
    ensures var inside := Marked(n, c, i + w, true) - Marked(n, c, i, true);
      inside == w * c / n || inside == (w * c + n - 1) / n
  {
    PrefixShare(n, c, i);
    PrefixShare(n, c, i + w);
    var inside := Marked(n, c, i + w, true) - Marked(n, c, i, true);
    var rest := Credit(n, c, i + w) - Credit(n, c, i);
    Distributes(i, w, c);
    Distributes(Marked(n, c, i, true), inside, n);
    if rest >= 0 {
      QuotientIs(w * c, n, inside, rest);
    } else {
      QuotientIs(w * c + n - 1, n, inside, rest + n - 1);
    }
  }

  lemma {:induction false} PickedKeeps(lines: seq<int>, c: int, k: nat, m: nat, covered: bool)
    requires k <= m <= |lines|
    ensures Picked(lines, c, k, covered) <= Picked(lines, c, m, covered)
  {
    if k == m {
    } else {
      PickedKeeps(lines, c, k, m - 1, covered);
    }
  }

  /** The two lists partition the file in its order: each line has exactly one place. */
  lemma LineIsPicked(lines: seq<int>, c: int, i: nat)
    requires i < |lines|
    ensures var covered := IsCovered(|lines|, c, i);
      var place := Marked(|lines|, c, i, covered);
      && place < |Picked(lines, c, |lines|, covered)|
      && Picked(lines, c, |lines|, covered)[place] == lines[i]
    ensures |Picked(lines, c, |lines|, true)| + |Picked(lines, c, |lines|, false)| == |lines|
  {
    MarksAddUp(|lines|, c, |lines|);
    PickedKeeps(lines, c, i + 1, |lines|, IsCovered(|lines|, c, i));
  }

  /** `executableLineNumbers`: statements step by one, with a gap after every fourth. */
  method ExecutableLineNumbers(executableLines: int) returns (lines: seq<int>)
    ensures |lines| == if executableLines < 0 then 0 else executableLines
    ensures forall i :: 0 <= i < |lines| ==> lines[i] == 12 + i + i / 4
    ensures forall i, j :: 0 <= i < j < |lines| ==> lines[i] < lines[j]
  {
    lines := [];
    var line, index := 12, 0;
    while index < executableLines
      invariant 0 <= index && (index <= executableLines || index == 0)
      invariant |lines| == index && line == 12 + index + index / 4
      invariant forall i :: 0 <= i < index ==> lines[i] == 12 + i + i / 4
    {
      lines := lines + [line];
      line := line + if index % 4 == 3 then 2 else 1;
      index := index + 1;
    }
  }
}

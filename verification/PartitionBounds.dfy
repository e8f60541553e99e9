/**
 * Load bounds of longest-processing-time assignment (`assignWeightedPartitions`).
 *
 * An assignment is a sequence `a`: file number i goes to bucket a[i]. Files are numbered in the
 * order the code takes them. `Greedy` says what the heap gives the code at each step; the lemmas
 * compare any greedy assignment with every other assignment of the same files.
 */
module PartitionBounds {

  /** Weight put into bucket j by the files that `a` has placed. */
  function Load(w: seq<real>, a: seq<nat>, j: nat): real
    requires |a| <= |w|
  {
    if |a| == 0 then 0.0
    else Load(w, a[..|a| - 1], j) + (if a[|a| - 1] == j then w[|a| - 1] else 0.0)
  }

  /** Number of files `a` puts into bucket j. */
  function Count(a: seq<nat>, j: nat): nat {
    if |a| == 0 then 0 else Count(a[..|a| - 1], j) + (if a[|a| - 1] == j then 1 else 0)
  }

  function Total(w: seq<real>): real {
    if |w| == 0 then 0.0 else Total(w[..|w| - 1]) + w[|w| - 1]
  }

  /** Sum of the loads of buckets 0..m-1. */
  function AllLoads(w: seq<real>, a: seq<nat>, m: nat): real
    requires |a| <= |w|
  {
    if m == 0 then 0.0 else AllLoads(w, a, m - 1) + Load(w, a, m - 1)
  }

  predicate Into(a: seq<nat>, m: nat) {
    forall i :: 0 <= i < |a| ==> a[i] < m
  }

  predicate NonNegative(w: seq<real>) {
    forall i :: 0 <= i < |w| ==> w[i] >= 0.0
  }

  predicate HeaviestFirst(w: seq<real>) {
    forall i, j :: 0 <= i <= j < |w| ==> w[i] >= w[j]
  }

  /** Bucket order of `bucketLess`, read as "not greater": by weight, then by number of files. */
  predicate BucketLeq(sum1: real, count1: nat, sum2: real, count2: nat) {
    sum1 < sum2 || (sum1 == sum2 && count1 <= count2)
  }

  /** When file i is placed, the bucket chosen is a minimum of all m buckets. */
  ghost predicate PicksMinimum(w: seq<real>, a: seq<nat>, m: nat, i: nat)
    requires i < |a| <= |w|
  {
    forall j: nat :: j < m ==>
      BucketLeq(Load(w, a[..i], a[i]), Count(a[..i], a[i]), Load(w, a[..i], j), Count(a[..i], j))
  }

  ghost predicate Greedy(w: seq<real>, a: seq<nat>, m: nat)
    requires |a| <= |w|
  {
    Into(a, m) && forall i :: 0 <= i < |a| ==> PicksMinimum(w, a, m, i)
  }

  /** Every bucket of assignment b carries at most t: t is an upper bound on b's makespan. */
  ghost predicate Within(w: seq<real>, b: seq<nat>, m: nat, t: real)
    requires |b| <= |w|
  {
    Into(b, m) && forall j: nat :: j < m ==> Load(w, b, j) <= t
  }

  // ---------- sums over buckets ----------

  lemma {:induction false} AllLoadsStep(w: seq<real>, a: seq<nat>, m: nat)
    requires 0 < |a| <= |w|
    ensures AllLoads(w, a, m) ==
            AllLoads(w, a[..|a| - 1], m) + (if a[|a| - 1] < m then w[|a| - 1] else 0.0)
  {
    if m > 0 { AllLoadsStep(w, a, m - 1); }
  }

  lemma {:induction false} AllLoadsEmpty(w: seq<real>, m: nat)
    ensures AllLoads(w, [], m) == 0.0
  {
    if m > 0 { AllLoadsEmpty(w, m - 1); }
  }

  /** The buckets together carry exactly the files' weight. */
  lemma {:induction false} LoadsSumToTotal(w: seq<real>, a: seq<nat>, m: nat)
    requires |a| <= |w| && Into(a, m)
    ensures AllLoads(w, a, m) == Total(w[..|a|])
  {
    if |a| == 0 {
      AllLoadsEmpty(w, m);
      assert a == [];
    } else {
      LoadsSumToTotal(w, a[..|a| - 1], m);
      AllLoadsStep(w, a, m);
      assert w[..|a|][..|a| - 1] == w[..|a| - 1];
    }
  }

  lemma {:induction false} AllLoadsAtMost(w: seq<real>, a: seq<nat>, m: nat, t: real)
    requires |a| <= |w|
    requires forall j: nat :: j < m ==> Load(w, a, j) <= t
    ensures AllLoads(w, a, m) <= m as real * t
  {
    if m > 0 { AllLoadsAtMost(w, a, m - 1, t); }
  }

  lemma {:induction false} AllLoadsAtLeast(w: seq<real>, a: seq<nat>, m: nat, t: real)
    requires |a| <= |w|
    requires forall j: nat :: j < m ==> t <= Load(w, a, j)
    ensures m as real * t <= AllLoads(w, a, m)
  {
    if m > 0 { AllLoadsAtLeast(w, a, m - 1, t); }
  }

  lemma {:induction false} TotalMonotone(w: seq<real>, k: nat)
    requires k <= |w| && NonNegative(w)
    ensures 0.0 <= Total(w[..k]) <= Total(w)
    decreases |w| - k, k
  {
    if k == |w| {
      assert w[..k] == w;
      if k > 0 {
        var v := w[..k - 1];
        TotalMonotone(v, k - 1);
        assert v[..k - 1] == v;
      }
    } else {
      TotalMonotone(w[..|w| - 1], k);
      assert w[..|w| - 1][..k] == w[..k];
    }
  }

  // ---------- one bucket ----------

  /** The last file put into bucket j, if there is one: before it the bucket was lighter by its weight. */
  lemma {:induction false} LastFile(w: seq<real>, a: seq<nat>, j: nat) returns (k: int)
    requires |a| <= |w|
    ensures -1 <= k < |a|
    ensures k == -1 ==> Load(w, a, j) == 0.0 && Count(a, j) == 0
    ensures k >= 0 ==> a[k] == j && Load(w, a, j) == Load(w, a[..k], j) + w[k]
  {
    if |a| == 0 {
      k := -1;
    } else if a[|a| - 1] == j {
      k := |a| - 1;
    } else {
      k := LastFile(w, a[..|a| - 1], j);
      if k >= 0 { assert a[..|a| - 1][..k] == a[..k]; }
    }
  }

  lemma {:induction false} LoadGrows(w: seq<real>, a: seq<nat>, k: nat, j: nat)
    requires k <= |a| <= |w| && NonNegative(w)
    ensures 0.0 <= Load(w, a[..k], j) <= Load(w, a, j)
    decreases |a| - k, k
  {
    if k == |a| {
      assert a[..k] == a;
      if k > 0 {
        LoadGrows(w, a[..k - 1], k - 1, j);
        assert a[..k - 1][..k - 1] == a[..k - 1];
      }
    } else {
      LoadGrows(w, a[..|a| - 1], k, j);
      assert a[..|a| - 1][..k] == a[..k];
    }
  }

  /** A bucket that holds file i among c files, none lighter than x, carries at least w[i] + (c-1)x. */
  lemma {:induction false} LoadCoversCount(w: seq<real>, a: seq<nat>, j: nat, x: real, i: int)
    requires |a| <= |w|
    requires forall p :: 0 <= p < |a| ==> w[p] >= x
    requires -1 <= i < |a| && (i >= 0 ==> a[i] == j)
    ensures Load(w, a, j) >= Count(a, j) as real * x
    ensures i >= 0 ==> Count(a, j) >= 1 && Load(w, a, j) >= w[i] + (Count(a, j) as real - 1.0) * x
  {
    if |a| > 0 {
      LoadCoversCount(w, a[..|a| - 1], j, x, if i < |a| - 1 then i else -1);
    }
  }

  // ---------- Graham's bounds ----------

  /** m times a load is at most what was placed before its last file k, plus m times that file. */
  lemma GreedyBound(w: seq<real>, a: seq<nat>, m: nat, j: nat, k: nat)
    requires k < |a| == |w| && Greedy(w, a, m) && NonNegative(w) && j < m
    requires a[k] == j && Load(w, a, j) == Load(w, a[..k], j) + w[k]
    ensures m as real * Load(w, a, j) <= Total(w[..k]) + m as real * w[k]
  {
    var p := a[..k];
    var l := Load(w, p, j);
    assert PicksMinimum(w, a, m, k);
    AllLoadsAtLeast(w, p, m, l);
    LoadsSumToTotal(w, p, m);
    assert m as real * (l + w[k]) == m as real * l + m as real * w[k];
  }

  lemma TotalStep(w: seq<real>, k: nat)
    requires k < |w| && NonNegative(w)
    ensures Total(w[..k]) + w[k] <= Total(w)
  {
    TotalMonotone(w, k + 1);
    assert w[..k + 1][..k] == w[..k];
  }

  lemma GrahamArithmetic(m: nat, l: real, before: real, total: real, x: real, wmax: real)
    requires 1 <= m && x <= wmax
    requires m as real * l <= before + m as real * x && before + x <= total
    ensures m as real * l <= total + (m as real - 1.0) * wmax
  {
    assert (m as real - 1.0) * (wmax - x) >= 0.0;
  }

  /** Greedy list scheduling: m * max <= total + (m-1) * wmax, whatever the order of the files. */
  lemma GrahamByTotal(w: seq<real>, a: seq<nat>, m: nat, j: nat, wmax: real)
    requires |a| == |w| && Greedy(w, a, m) && NonNegative(w) && j < m
    requires 0.0 <= wmax && forall i :: 0 <= i < |w| ==> w[i] <= wmax
    ensures m as real * Load(w, a, j) <= Total(w) + (m as real - 1.0) * wmax
  {
    var k := LastFile(w, a, j);
    TotalMonotone(w, 0);
    if k >= 0 {
      GreedyBound(w, a, m, j, k);
      TotalStep(w, k);
      GrahamArithmetic(m, Load(w, a, j), Total(w[..k]), Total(w), w[k], wmax);
    } else {
      GrahamArithmetic(m, Load(w, a, j), 0.0, Total(w), 0.0, wmax);
    }
  }

  /** A single file fits into whatever the other assignment needs. */
  lemma FileWithin(w: seq<real>, b: seq<nat>, m: nat, t: real, i: nat)
    requires |b| == |w| && NonNegative(w) && Within(w, b, m, t) && i < |w|
    ensures w[i] <= t
  {
    LoadCoversCount(w, b, b[i], 0.0, i);
  }

  lemma TotalWithin(w: seq<real>, b: seq<nat>, m: nat, t: real)
    requires |b| == |w| && Within(w, b, m, t)
    ensures Total(w) <= m as real * t
  {
    LoadsSumToTotal(w, b, m);
    AllLoadsAtMost(w, b, m, t);
    assert w[..|b|] == w;
  }

  lemma WithinNonNegative(w: seq<real>, b: seq<nat>, m: nat, t: real)
    requires |b| == |w| && NonNegative(w) && Within(w, b, m, t) && m > 0
    ensures t >= 0.0
  {
    LoadGrows(w, b, |b|, 0);
    assert b[..|b|] == b;
  }

  /** Graham: m * max <= (2m - 1) * t for every assignment b of the same files with makespan at most t. */
  lemma GrahamByOptimum(w: seq<real>, a: seq<nat>, b: seq<nat>, m: nat, j: nat, t: real)
    requires |a| == |b| == |w| && Greedy(w, a, m) && NonNegative(w) && j < m
    requires Within(w, b, m, t)
    ensures m as real * Load(w, a, j) <= (2.0 * m as real - 1.0) * t
  {
    WithinNonNegative(w, b, m, t);
    forall i | 0 <= i < |w| ensures w[i] <= t { FileWithin(w, b, m, t, i); }
    GrahamByTotal(w, a, m, j, t);
    TotalWithin(w, b, m, t);
  }

  // ---------- the heaviest-first bound ----------

  /**
   * Charges for the two-jobs-per-bucket argument: a file that sits alone in its bucket of `a`
   * charges 2, every other file 1.
   */
  function Charge(a: seq<nat>, i: nat): real
    requires i < |a|
  {
    if Count(a, a[i]) == 1 then 2.0 else 1.0
  }

  function Charges(a: seq<nat>, extra: nat): (c: seq<real>)
    ensures |c| == |a| + extra
  {
    seq(|a| + extra, i requires 0 <= i < |a| + extra => if i < |a| then Charge(a, i) else 1.0)
  }

  /** With charges at least 1, a bucket's charge is at least its count, and 2 if it holds a charge-2 file alone. */
  lemma {:induction false} ChargeAtLeastCount(c: seq<real>, a: seq<nat>, j: nat, x: real)
    requires |a| <= |c|
    requires forall i :: 0 <= i < |a| && a[i] == j ==> c[i] >= x
    ensures Load(c, a, j) >= Count(a, j) as real * x
  {
    if |a| > 0 {
      ChargeAtLeastCount(c, a[..|a| - 1], j, x);
    }
  }

  lemma {:induction false} ChargeAtMostCount(c: seq<real>, a: seq<nat>, j: nat, x: real)
    requires |a| <= |c|
    requires forall i :: 0 <= i < |a| && a[i] == j ==> c[i] <= x
    ensures Load(c, a, j) <= Count(a, j) as real * x
  {
    if |a| > 0 {
      ChargeAtMostCount(c, a[..|a| - 1], j, x);
    }
  }

  /** Every non-empty bucket of `a` is charged at least 2. */
  lemma BucketChargedTwice(a: seq<nat>, extra: nat, j: nat)
    requires Count(a, j) >= 1
    ensures Load(Charges(a, extra), a, j) >= 2.0
  {
    var c := Charges(a, extra);
    ChargeAtLeastCount(c, a, j, if Count(a, j) == 1 then 2.0 else 1.0);
  }

  lemma ThreeOrMore(n: nat, x: real)
    ensures 3 <= n && 0.0 <= x ==> 3.0 * x <= n as real * x
  {
    if 3 <= n && 0.0 <= x {
      var d := n as real - 3.0;
      assert d * x >= 0.0;
    }
  }

  lemma AtMostTwo(n: nat, x: real, t: real)
    requires n as real * x <= t < 3.0 * x && 0.0 <= t
    ensures n <= 2
  {
    ThreeOrMore(n, x);
  }

  /**
   * Files so heavy that a bucket of b takes at most two of them, and a file alone in its bucket of
   * the greedy prefix takes none beside it: each bucket of b is charged at most 2.
   */
  lemma BucketOfOtherCharged(w: seq<real>, p: seq<nat>, b: seq<nat>, j: nat, x: real, t: real)
    requires |p| < |b| == |w|
    requires forall i :: 0 <= i < |w| ==> w[i] >= x
    requires 0.0 <= t < 3.0 * x && Load(w, b, j) <= t
    requires forall i :: 0 <= i < |p| && Count(p, p[i]) == 1 ==> w[i] + x > t
    ensures Load(Charges(p, |b| - |p|), b, j) <= 2.0
  {
    var c := Charges(p, |b| - |p|);
    LoadCoversCount(w, b, j, x, -1);
    var n := Count(b, j);
    AtMostTwo(n, x, t);
    if i :| 0 <= i < |b| && b[i] == j && c[i] > 1.0 {
      LoadCoversCount(w, b, j, x, i);
      assert n == 1;
      ChargeAtMostCount(c, b, j, 2.0);
    } else {
      ChargeAtMostCount(c, b, j, 1.0);
    }
  }

  lemma {:induction false} LoadAgrees(c: seq<real>, d: seq<real>, a: seq<nat>, j: nat)
    requires |a| <= |c| && |a| <= |d|
    requires forall i :: 0 <= i < |a| ==> c[i] == d[i]
    ensures Load(c, a, j) == Load(d, a, j)
  {
    if |a| > 0 { LoadAgrees(c, d, a[..|a| - 1], j); }
  }

  /**
   * When every file is heavier than t/3, greedy never exceeds t: the counting argument. If placing
   * the last file overflowed t, the prefix would already charge 2 per bucket, so all files together
   * charge more than 2m, but b's m buckets can only be charged 2 each.
   */
  lemma LastFileFits(w: seq<real>, a: seq<nat>, b: seq<nat>, m: nat, t: real)
    requires 0 < |a| == |b| == |w| && Greedy(w, a, m) && NonNegative(w) && HeaviestFirst(w)
    requires Within(w, b, m, t) && t < 3.0 * w[|w| - 1]
    ensures Load(w, a[..|a| - 1], a[|a| - 1]) + w[|w| - 1] <= t
  {
    var n := |w| - 1;
    var x := w[n];
    var p := a[..n];
    if Load(w, p, a[n]) + x > t {
      assert PicksMinimum(w, a, m, n);
      WithinNonNegative(w, b, m, t);
      FileWithin(w, b, m, t, n);
      var c := Charges(p, 1);
      assert c[..|b|] == c && c[..n + 1][..n] == c[..n];
      LoadsSumToTotal(c, p, m);
      LoadsSumToTotal(c, b, m);
      forall j: nat | j < m
        ensures Load(c, p, j) >= 2.0 && Load(c, b, j) <= 2.0
      {
        var k := LastFile(w, p, j);
        BucketChargedTwice(p, 1, j) by {
          if k >= 0 { LoadCoversCount(w, p, j, x, k); }
        }
        forall i | 0 <= i < |p| && Count(p, p[i]) == 1
          ensures w[i] + x > t
        {
          AloneIsHeavy(w, p, i);
        }
        BucketOfOtherCharged(w, p, b, j, x, t);
      }
      AllLoadsAtLeast(c, p, m, 2.0);
      AllLoadsAtMost(c, b, m, 2.0);
    }
  }

  /** A bucket with one file carries that file's weight. */
  lemma {:induction false} AloneIsHeavy(w: seq<real>, p: seq<nat>, i: nat)
    requires i < |p| <= |w| && Count(p, p[i]) == 1
    ensures Load(w, p, p[i]) == w[i]
  {
    var n := |p| - 1;
    if i < n {
      if p[n] == p[i] {
        CountPositive(p[..n], i);
        assert false;
      }
      AloneIsHeavy(w, p[..n], i);
    } else {
      var k := LastFile(w, p[..n], p[n]);
      if k >= 0 { CountPositive(p[..n], k); assert false; }
    }
  }

  lemma {:induction false} CountPositive(p: seq<nat>, i: nat)
    requires i < |p|
    ensures Count(p, p[i]) >= 1
  {
    if i < |p| - 1 { CountPositive(p[..|p| - 1], i); }
  }

  /** Restricting both assignments to the first n files keeps greediness and the other's bound. */
  lemma PrefixKeeps(w: seq<real>, a: seq<nat>, b: seq<nat>, m: nat, t: real, n: nat)
    requires n <= |a| == |b| == |w| && NonNegative(w)
    requires Greedy(w, a, m) && Within(w, b, m, t)
    ensures Greedy(w[..n], a[..n], m) && Within(w[..n], b[..n], m, t)
  {
    forall i | 0 <= i < n
      ensures PicksMinimum(w[..n], a[..n], m, i)
    {
      assert PicksMinimum(w, a, m, i) && a[..n][..i] == a[..i];
      forall j: nat ensures Load(w[..n], a[..i], j) == Load(w, a[..i], j) {
        LoadAgrees(w[..n], w, a[..i], j);
      }
    }
    forall j: nat | j < m
      ensures Load(w[..n], b[..n], j) <= t
    {
      LoadAgrees(w[..n], w, b[..n], j);
      LoadGrows(w, b, n, j);
    }
  }

  lemma LptArithmetic(m: nat, l: real, x: real, t: real)
    requires 1 <= m && 0.0 <= t
    requires l <= t || (3.0 * x <= t && m as real * l <= (m as real * t - x) + m as real * x)
    ensures 3.0 * m as real * l <= (4.0 * m as real - 1.0) * t
  {
    var d := m as real - 1.0;
    if l <= t {
      assert m as real * (t - l) >= 0.0;
      assert d * t >= 0.0;
    } else {
      assert d * (t - 3.0 * x) >= 0.0;
    }
  }

  /**
   * The longest-processing-time bound: files taken heaviest first give
   * 3m * max <= (4m - 1) * t against every assignment b with makespan at most t.
   */
  lemma HeaviestFirstBound(w: seq<real>, a: seq<nat>, b: seq<nat>, m: nat, j: nat, t: real)
    requires |a| == |b| == |w| && Greedy(w, a, m) && NonNegative(w) && HeaviestFirst(w) && j < m
    requires Within(w, b, m, t)
    ensures 3.0 * m as real * Load(w, a, j) <= (4.0 * m as real - 1.0) * t
  {
    var x := HeaviestFirstCases(w, a, b, m, j, t);
    LptArithmetic(m, Load(w, a, j), x, t);
  }

  /** Either the load fits under t, or the file x that finished it is at most a third of t. */
  lemma HeaviestFirstCases(w: seq<real>, a: seq<nat>, b: seq<nat>, m: nat, j: nat, t: real)
      returns (x: real)
    requires |a| == |b| == |w| && Greedy(w, a, m) && NonNegative(w) && HeaviestFirst(w) && j < m
    requires Within(w, b, m, t)
    ensures 0.0 <= t
    ensures Load(w, a, j) <= t ||
            (3.0 * x <= t && m as real * Load(w, a, j) <= (m as real * t - x) + m as real * x)
  {
    WithinNonNegative(w, b, m, t);
    x := 0.0;
    var k := LastFile(w, a, j);
    if k >= 0 {
      PrefixKeeps(w, a, b, m, t, k + 1);
      x := w[k];
      if t < 3.0 * x {
        HeavyFilesFit(w, a, b, m, j, k, t);
      } else {
        LightFileBound(w, a, b, m, j, k, t);
      }
    }
  }

  lemma HeavyFilesFit(w: seq<real>, a: seq<nat>, b: seq<nat>, m: nat, j: nat, k: nat, t: real)
    requires k < |a| == |b| == |w| && NonNegative(w) && HeaviestFirst(w)
    requires Greedy(w[..k + 1], a[..k + 1], m) && Within(w[..k + 1], b[..k + 1], m, t)
    requires a[k] == j && Load(w, a, j) == Load(w, a[..k], j) + w[k] && t < 3.0 * w[k]
    ensures Load(w, a, j) <= t
  {
    var v := w[..k + 1];
    LastFileFits(v, a[..k + 1], b[..k + 1], m, t);
    assert a[..k + 1][..k] == a[..k];
    LoadAgrees(v, w, a[..k], j);
  }

  lemma LightFileBound(w: seq<real>, a: seq<nat>, b: seq<nat>, m: nat, j: nat, k: nat, t: real)
    requires k < |a| == |b| == |w| && NonNegative(w) && Greedy(w, a, m) && j < m
    requires Within(w[..k + 1], b[..k + 1], m, t)
    requires a[k] == j && Load(w, a, j) == Load(w, a[..k], j) + w[k]
    ensures m as real * Load(w, a, j) <= (m as real * t - w[k]) + m as real * w[k]
  {
    var v := w[..k + 1];
    GreedyBound(w, a, m, j, k);
    TotalWithin(v, b[..k + 1], m, t);
    assert v[..k] == w[..k];
  }

  // ---------- balance and non-emptiness ----------

  /** Any two loads differ by at most the heaviest file. */
  lemma LoadsDifferByOneFile(w: seq<real>, a: seq<nat>, m: nat, j: nat, j': nat, wmax: real)
    requires |a| == |w| && Greedy(w, a, m) && NonNegative(w) && j < m && j' < m
    requires 0.0 <= wmax && forall i :: 0 <= i < |w| ==> w[i] <= wmax
    ensures Load(w, a, j) - Load(w, a, j') <= wmax
  {
    var k := LastFile(w, a, j);
    LoadGrows(w, a, |a|, j');
    assert a[..|a|] == a;
    if k >= 0 {
      assert PicksMinimum(w, a, m, k);
      LoadGrows(w, a, k, j');
    }
  }

  /** While some bucket is empty, only empty buckets are filled: no bucket ever gets a second file. */
  lemma {:induction false} EmptyBucketsFirst(w: seq<real>, a: seq<nat>, m: nat, j: nat, j': nat)
    requires |a| <= |w| && Greedy(w, a, m) && NonNegative(w) && j < m && j' < m
    requires Count(a, j) == 0
    ensures Load(w, a, j) == 0.0 && Count(a, j') <= 1
  {
    if |a| > 0 {
      var n := |a| - 1;
      var p := a[..n];
      forall i | 0 <= i < n ensures PicksMinimum(w, p, m, i) {
        assert PicksMinimum(w, a, m, i) && p[..i] == a[..i];
      }
      EmptyBucketsFirst(w, p, m, j, j');
      assert PicksMinimum(w, a, m, n);
      LoadGrows(w, p, n, a[n]);
      assert p[..n] == p;
    }
  }

  lemma {:induction false} OnesCount(a: seq<nat>, ones: seq<real>, j: nat)
    requires |a| <= |ones| && forall i :: 0 <= i < |ones| ==> ones[i] == 1.0
    ensures Load(ones, a, j) == Count(a, j) as real
  {
    if |a| > 0 { OnesCount(a[..|a| - 1], ones, j); }
  }

  lemma {:induction false} TotalOfOnes(ones: seq<real>)
    requires forall i :: 0 <= i < |ones| ==> ones[i] == 1.0
    ensures Total(ones) == |ones| as real
  {
    if |ones| > 0 { TotalOfOnes(ones[..|ones| - 1]); }
  }

  /** AllLoads when one of the buckets is empty. */
  lemma {:induction false} AllLoadsWithGap(w: seq<real>, a: seq<nat>, m: nat, j: nat)
    requires |a| <= |w| && j < m && Load(w, a, j) == 0.0
    requires forall i: nat :: i < m ==> Load(w, a, i) <= 1.0
    ensures AllLoads(w, a, m) <= (m - 1) as real
  {
    if m - 1 == j {
      AllLoadsAtMost(w, a, m - 1, 1.0);
    } else {
      AllLoadsWithGap(w, a, m - 1, j);
    }
  }

  /** With at least m files no bucket is empty, even when every weight is zero. */
  lemma NoBucketEmpty(w: seq<real>, a: seq<nat>, m: nat, j: nat)
    requires |a| == |w| && Greedy(w, a, m) && NonNegative(w) && j < m <= |a|
    ensures Count(a, j) >= 1
  {
    if Count(a, j) == 0 {
      var ones := seq(|a|, _ => 1.0);
      forall j': nat | j' < m
        ensures Load(ones, a, j') == Count(a, j') as real <= 1.0
      {
        EmptyBucketsFirst(w, a, m, j, j');
        OnesCount(a, ones, j');
      }
      AllLoadsWithGap(ones, a, m, j);
      LoadsSumToTotal(ones, a, m);
      assert ones[..|a|] == ones;
      TotalOfOnes(ones);
      assert false;
    }
  }
}

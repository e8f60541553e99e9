/**
 * The weighted partitioner of `coverage-partitions.ts`: a min-heap of bucket indices kept in an
 * array, the loop that drops each file into the root bucket, and the split of a partition into
 * the two Vitest projects.
 */
module CoveragePartitions {
  import opened PartitionBounds
  import Sorting

  const UNKNOWN_FILE_WEIGHT := 1.0

  /** One partition under construction; the buckets array is updated in place. */
  datatype Bucket = Bucket(sum: real, files: seq<string>)

  datatype Outcome<+T> = Ok(value: T) | HeapEmpty

  predicate BucketLess(left: Bucket, right: Bucket) {
    if left.sum != right.sum then left.sum < right.sum else |left.files| < |right.files|
  }

  predicate Leq(left: Bucket, right: Bucket) {
    BucketLeq(left.sum, |left.files|, right.sum, |right.files|)
  }

  // ---------- the heap ----------

  function Identity(m: nat): (r: seq<nat>)
    ensures |r| == m && forall i :: 0 <= i < m ==> r[i] == i
  {
    seq(m, i => i)
  }

  /** h lists every bucket index 0..m-1 exactly once. */
  ghost predicate Permutation(h: seq<nat>, m: nat) {
    multiset(h) == multiset(Identity(m))
  }

  lemma PermutationFacts(h: seq<nat>, m: nat)
    requires Permutation(h, m)
    ensures |h| == m && (forall p :: 0 <= p < m ==> h[p] < m) && (forall j: nat :: j < m ==> j in h)
  {
    assert |h| == |multiset(h)| == |multiset(Identity(m))| == m;
    forall p | 0 <= p < m ensures h[p] < m {
      assert h[p] in multiset(h);
      assert h[p] in Identity(m);
    }
    forall j: nat | j < m ensures j in h {
      assert Identity(m)[j] == j;
      assert j in multiset(Identity(m));
    }
  }

  ghost predicate InRange(b: seq<Bucket>, h: seq<nat>) {
    forall p :: 0 <= p < |h| ==> h[p] < |b|
  }

  /** Heap position above position q. */
  function Parent(q: int): int
    requires q >= 1
    ensures 0 <= Parent(q) < q
  {
    (q - 1) / 2
  }

  /** The bucket at heap position p is not greater than the one at position q. */
  ghost predicate Below(b: seq<Bucket>, h: seq<nat>, p: int, q: int)
    requires 0 <= p < |h| && 0 <= q < |h| && InRange(b, h)
  {
    Leq(b[h[p]], b[h[q]])
  }

  /** Heap order on every edge except those leaving position `hole`, which may be bridged over. */
  ghost predicate OrderedExcept(b: seq<Bucket>, h: seq<nat>, hole: int)
    requires InRange(b, h)
  {
    && (forall q :: 1 <= q < |h| && Parent(q) != hole ==> Below(b, h, Parent(q), q))
    && (forall q :: 1 <= q < |h| && Parent(q) == hole && 1 <= hole ==> Below(b, h, Parent(hole), q))
  }

  ghost predicate Ordered(b: seq<Bucket>, h: seq<nat>)
    requires InRange(b, h)
  {
    forall q :: 1 <= q < |h| ==> Below(b, h, Parent(q), q)
  }

  /** In an ordered heap the root is a minimum of all positions. */
  lemma {:induction false} RootIsMinimum(b: seq<Bucket>, h: seq<nat>, p: nat)
    requires InRange(b, h) && Ordered(b, h) && p < |h|
    ensures Below(b, h, 0, p)
  {
    if p > 0 {
      RootIsMinimum(b, h, Parent(p));
    }
  }

  /** The least of a position and its children, the left child before the right on ties. */
  method SmallestAround(buckets: array<Bucket>, heap: array<nat>, index: nat) returns (smallest: nat)
    requires index < heap.Length && InRange(buckets[..], heap[..])
    ensures smallest < heap.Length
    ensures smallest == index || (index < smallest && Parent(smallest) == index)
    ensures Below(buckets[..], heap[..], smallest, index)
    ensures forall q :: 1 <= q < heap.Length && Parent(q) == index ==> Below(buckets[..], heap[..], smallest, q)
  {
    var size := heap.Length;
    var left := 2 * index + 1;
    var right := 2 * index + 2;
    smallest := index;
    if left < size && BucketLess(buckets[heap[left]], buckets[heap[smallest]]) {
      smallest := left;
    }
    if right < size && BucketLess(buckets[heap[right]], buckets[heap[smallest]]) {
      smallest := right;
    }
    assert forall q :: 1 <= q < size && Parent(q) == index ==> q == left || q == right;
  }

  method SiftDown(buckets: array<Bucket>, heap: array<nat>, start: nat)
    requires start < heap.Length && InRange(buckets[..], heap[..])
    requires OrderedExcept(buckets[..], heap[..], start)
    modifies heap
    ensures InRange(buckets[..], heap[..]) && Ordered(buckets[..], heap[..])
    ensures multiset(heap[..]) == old(multiset(heap[..]))
  {
    var index := start;
    ghost var b := buckets[..];
    while true
      invariant index < heap.Length && InRange(b, heap[..])
      invariant OrderedExcept(b, heap[..], index)
      invariant multiset(heap[..]) == old(multiset(heap[..]))
      decreases heap.Length - index
    {
      var smallest := SmallestAround(buckets, heap, index);
      if smallest == index {
        ClosedHole(b, heap[..], index);
        return;
      }
      ghost var before := heap[..];
      heap[index], heap[smallest] := heap[smallest], heap[index];
      SwapKeepsOrder(b, before, heap[..], index, smallest);
      index := smallest;
    }
  }

  lemma ClosedHole(b: seq<Bucket>, h: seq<nat>, index: nat)
    requires index < |h| && InRange(b, h) && OrderedExcept(b, h, index)
    requires forall q :: 1 <= q < |h| && Parent(q) == index ==> Below(b, h, index, q)
    ensures Ordered(b, h)
  {
  }

  /** Swapping the hole with its smallest child moves the hole down one level. */
  lemma SwapKeepsOrder(b: seq<Bucket>, h: seq<nat>, h': seq<nat>, index: nat, child: nat)
    requires InRange(b, h) && index < child < |h| && Parent(child) == index
    requires OrderedExcept(b, h, index)
    requires h' == h[index := h[child]][child := h[index]]
    requires forall q :: 1 <= q < |h| && Parent(q) == index ==> Below(b, h, child, q)
    requires Below(b, h, child, index)
    ensures InRange(b, h') && OrderedExcept(b, h', child)
  {
    forall q | 1 <= q < |h'| && Parent(q) != child
      ensures Below(b, h', Parent(q), q)
    {
      if q == index {
        assert Below(b, h, Parent(index), child);
      } else if Parent(q) == index {
        assert Below(b, h, child, q);
      } else {
        assert Below(b, h, Parent(q), q);
      }
    }
    forall q | 1 <= q < |h'| && Parent(q) == child
      ensures Below(b, h', Parent(child), q)
    {
      assert Below(b, h, child, q);
    }
  }

  // ---------- the assignment loop ----------

  function WeightOf(weights: map<string, real>, file: string): real {
    if file in weights then weights[file] else UNKNOWN_FILE_WEIGHT
  }

  function WeightsOf(weights: map<string, real>, files: seq<string>): (w: seq<real>)
    ensures |w| == |files|
  {
    seq(|files|, i requires 0 <= i < |files| => WeightOf(weights, files[i]))
  }

  /** Sort order of the loop: heavier first, equal weights by the locale's collation key. */
  function TakenBefore(weights: map<string, real>, collate: string -> int): (string, string) -> bool {
    (x, y) =>
      WeightOf(weights, x) > WeightOf(weights, y) ||
      (WeightOf(weights, x) == WeightOf(weights, y) && collate(x) <= collate(y))
  }

  /** The files `a` puts into bucket j, in the order they were taken. */
  function Placed(order: seq<string>, a: seq<nat>, j: nat): seq<string>
    requires |a| <= |order|
  {
    if |a| == 0 then []
    else Placed(order, a[..|a| - 1], j) + (if a[|a| - 1] == j then [order[|a| - 1]] else [])
  }

  function PlacedParts(order: seq<string>, a: seq<nat>, m: nat): (r: seq<seq<string>>)
    requires |a| <= |order|
    ensures |r| == m
  {
    seq(m, j requires 0 <= j => Placed(order, a, j))
  }

  /** `partitionWeight`: the sum of a partition's file weights. */
  function PartitionWeight(files: seq<string>, weights: map<string, real>): real {
    if files == [] then 0.0
    else PartitionWeight(files[..|files| - 1], weights) + WeightOf(weights, files[|files| - 1])
  }

  /** The recorded milliseconds of some files; a file without a record counts as one. */
  function Milliseconds(files: seq<string>, weights: map<string, real>): real {
    if files == [] then 0.0
    else (if files[0] in weights then weights[files[0]] else 1.0) + Milliseconds(files[1..], weights)
  }

  /** Both ways of adding up agree. */
  lemma {:induction false} WeightIsMilliseconds(files: seq<string>, weights: map<string, real>)
    ensures PartitionWeight(files, weights) == Milliseconds(files, weights)
  {
    if files != [] {
      var last := |files| - 1;
      WeightIsMilliseconds(files[..last], weights);
      MillisecondsSnoc(files[..last], weights, files[last]);
      assert files == files[..last] + [files[last]];
    }
  }

  lemma {:induction false} MillisecondsSnoc(files: seq<string>, weights: map<string, real>, f: string)
    ensures Milliseconds(files + [f], weights) ==
            Milliseconds(files, weights) + if f in weights then weights[f] else 1.0
  {
    if files != [] {
      MillisecondsSnoc(files[1..], weights, f);
      assert (files + [f])[1..] == files[1..] + [f];
    }
  }

  /** Buckets, heap and assignment agree after |a| files. */
  ghost predicate Tracks(b: seq<Bucket>, order: seq<string>, w: seq<real>, a: seq<nat>)
    requires |a| <= |order| == |w|
  {
    forall j: nat :: j < |b| ==> b[j] == Bucket(Load(w, a, j), Placed(order, a, j))
  }

  lemma {:induction false} PlacedCount(order: seq<string>, a: seq<nat>, j: nat)
    requires |a| <= |order|
    ensures |Placed(order, a, j)| == Count(a, j)
  {
    if |a| > 0 { PlacedCount(order, a[..|a| - 1], j); }
  }

  /** Taking the root of an ordered heap is a greedy step. */
  lemma GreedyStep(b: seq<Bucket>, h: seq<nat>, order: seq<string>, w: seq<real>, a: seq<nat>)
    requires |a| < |order| == |w| && |b| == |h| > 0
    requires Permutation(h, |b|) && InRange(b, h) && Ordered(b, h)
    requires Tracks(b, order, w, a) && Greedy(w, a, |b|)
    ensures h[0] < |b| && Greedy(w, a + [h[0]], |b|)
    ensures Tracks(b[h[0] := Bucket(b[h[0]].sum + w[|a|], b[h[0]].files + [order[|a|]])],
                   order, w, a + [h[0]])
  {
    var a' := a + [h[0]];
    assert a'[..|a|] == a;
    PermutationFacts(h, |b|);
    forall i | 0 <= i < |a'|
      ensures PicksMinimum(w, a', |b|, i)
    {
      if i < |a| {
        assert PicksMinimum(w, a, |b|, i) && a'[..i] == a[..i];
      } else {
        forall j: nat | j < |b|
          ensures BucketLeq(Load(w, a, h[0]), Count(a, h[0]), Load(w, a, j), Count(a, j))
        {
          assert j in h;
          var p :| 0 <= p < |h| && h[p] == j;
          RootIsMinimum(b, h, p);
          PlacedCount(order, a, j);
          PlacedCount(order, a, h[0]);
        }
      }
    }
  }

  /** Making the root bucket heavier can only break the order at the root. */
  lemma RootMayBreak(b: seq<Bucket>, h: seq<nat>, b': seq<Bucket>)
    requires |h| > 0 && InRange(b, h) && Ordered(b, h) && Permutation(h, |b|)
    requires |b'| == |b| && b' == b[h[0] := b'[h[0]]]
    ensures InRange(b', h) && OrderedExcept(b', h, 0)
  {
    PermutationFacts(h, |b|);
    forall q | 1 <= q < |h| && Parent(q) != 0
      ensures Below(b', h, Parent(q), q)
    {
      assert Below(b, h, Parent(q), q);
      DistinctRoot(h, |b|, q);
      DistinctRoot(h, |b|, Parent(q));
    }
  }

  lemma DistinctRoot(h: seq<nat>, m: nat, p: nat)
    requires Permutation(h, m) && 0 < p < |h|
    ensures h[p] != h[0]
  {
    if h[p] == h[0] {
      PermutationFacts(h, m);
      assert h == [h[0]] + h[1..p] + [h[p]] + h[p + 1..];
      assert multiset(h)[h[0]] >= 2;
      IdentityOnce(m, h[0]);
    }
  }

  lemma {:induction false} IdentityOnce(m: nat, x: nat)
    ensures multiset(Identity(m))[x] <= 1
  {
    if m > 0 {
      IdentityOnce(m - 1, x);
      assert Identity(m) == Identity(m - 1) + [m - 1];
      if x == m - 1 { assert x !in Identity(m - 1); }
    }
  }

  /** State of the loop after |a| files. */
  ghost predicate LoopState(b: seq<Bucket>, h: seq<nat>, order: seq<string>, w: seq<real>, a: seq<nat>) {
    && |a| <= |order| == |w| && |b| == |h| > 0
    && Permutation(h, |b|) && InRange(b, h) && Ordered(b, h)
    && Tracks(b, order, w, a) && Greedy(w, a, |b|)
  }

  lemma InitialState(b: seq<Bucket>, h: seq<nat>, order: seq<string>, w: seq<real>)
    requires |order| == |w| && |b| == |h| > 0
    requires h == Identity(|b|) && forall j :: 0 <= j < |b| ==> b[j] == Bucket(0.0, [])
    ensures LoopState(b, h, order, w, [])
  {
    forall q | 1 <= q < |h| ensures Below(b, h, Parent(q), q) {}
  }

  method PlaceFile(buckets: array<Bucket>, heap: array<nat>, file: string, weight: real,
    ghost order: seq<string>, ghost w: seq<real>, ghost a: seq<nat>) returns (ghost a': seq<nat>)
    requires LoopState(buckets[..], heap[..], order, w, a)
    requires |a| < |order| && order[|a|] == file && w[|a|] == weight
    modifies buckets, heap
    ensures |a'| == |a| + 1 && LoopState(buckets[..], heap[..], order, w, a')
  {
    ghost var b, h := buckets[..], heap[..];
    GreedyStep(b, h, order, w, a);
    a' := a + [h[0]];
    var top := heap[0];
    buckets[top] := Bucket(buckets[top].sum + weight, buckets[top].files + [file]);
    ghost var b' := buckets[..];
    assert b' == b[h[0] := b'[h[0]]];
    RootMayBreak(b, h, b');
    SiftDown(buckets, heap, 0);
  }

  method AssignWeightedPartitions(
    files: seq<string>, weights: map<string, real>, partitions: nat, collate: string -> int)
    returns (r: Outcome<seq<seq<string>>>, ghost a: seq<nat>)
    ensures files == [] ==> r == Ok(seq(partitions, _ => []))
    ensures r.HeapEmpty? <==> files != [] && partitions == 0
    ensures r.Ok? ==>
      var order := Sorting.Sort(TakenBefore(weights, collate), files);
      && |a| == |files| && Greedy(WeightsOf(weights, order), a, partitions)
      && r.value == PlacedParts(order, a, partitions)
  {
    a := [];
    var order := Sorting.Sort(TakenBefore(weights, collate), files);
    if files == [] {
      r := Ok(seq(partitions, _ => []));
      assert r.value == PlacedParts(order, a, partitions);
      return;
    }
    if partitions == 0 {
      r := HeapEmpty;
      return;
    }
    ghost var w := WeightsOf(weights, order);
    var buckets := new Bucket[partitions](_ => Bucket(0.0, []));
    var heap := new nat[partitions](i => i);
    InitialState(buckets[..], heap[..], order, w);
    var i := 0;
    while i < |order|
      invariant 0 <= i == |a| <= |order|
      invariant LoopState(buckets[..], heap[..], order, w, a)
    {
      a := PlaceFile(buckets, heap, order[i], WeightOf(weights, order[i]), order, w, a);
      i := i + 1;
    }
    var parts := FileLists(buckets);
    assert parts == PlacedParts(order, a, partitions);
    r := Ok(parts);
  }

  method FileLists(buckets: array<Bucket>) returns (parts: seq<seq<string>>)
    ensures |parts| == buckets.Length
    ensures forall j :: 0 <= j < buckets.Length ==> parts[j] == buckets[j].files
  {
    parts := [];
    while |parts| < buckets.Length
      invariant |parts| <= buckets.Length
      invariant forall j :: 0 <= j < |parts| ==> parts[j] == buckets[j].files
    {
      parts := parts + [buckets[|parts|].files];
    }
  }

  // ---------- what the partitions carry ----------

  lemma {:induction false} PlacedWeight(order: seq<string>, weights: map<string, real>, a: seq<nat>, j: nat)
    requires |a| <= |order|
    ensures PartitionWeight(Placed(order, a, j), weights) == Load(WeightsOf(weights, order), a, j)
  {
    if |a| > 0 {
      PlacedWeight(order, weights, a[..|a| - 1], j);
      var p := Placed(order, a[..|a| - 1], j);
      if a[|a| - 1] == j {
        assert (p + [order[|a| - 1]])[..|p|] == p;
      } else {
        assert p + [] == p;
      }
    }
  }

  /** Of two files the longer-running comes first, a file without a record counting as one millisecond; ties collate. */
  predicate ComesFirst(weights: map<string, real>, collate: string -> int, f: string, g: string) {
    var x := if f in weights then weights[f] else 1.0;
    var y := if g in weights then weights[g] else 1.0;
    x > y || (x == y && collate(f) <= collate(g))
  }

  lemma OrderIs(files: seq<string>, weights: map<string, real>, collate: string -> int)
    ensures InTakingOrder(Sorting.Sort(TakenBefore(weights, collate), files), weights, collate)
  {
    var leq := TakenBefore(weights, collate);
    Sorting.SortSorted(leq, files);
    var order := Sorting.Sort(leq, files);
    forall i, j | 0 <= i < j < |order| ensures ComesFirst(weights, collate, order[i], order[j]) {
      assert leq(order[i], order[j]);
    }
  }

  ghost predicate InTakingOrder(order: seq<string>, weights: map<string, real>, collate: string -> int) {
    forall i, j :: 0 <= i < j < |order| ==> ComesFirst(weights, collate, order[i], order[j])
  }

  /** The code's sort takes files heaviest first. */
  lemma OrderIsHeaviestFirst(files: seq<string>, weights: map<string, real>, collate: string -> int)
    ensures HeaviestFirst(WeightsOf(weights, Sorting.Sort(TakenBefore(weights, collate), files)))
  {
    OrderIs(files, weights, collate);
    HeaviestFirstFrom(Sorting.Sort(TakenBefore(weights, collate), files), weights, collate);
  }

  lemma HeaviestFirstFrom(order: seq<string>, weights: map<string, real>, collate: string -> int)
    requires InTakingOrder(order, weights, collate)
    ensures HeaviestFirst(WeightsOf(weights, order))
  {
    var w := WeightsOf(weights, order);
    forall i, j | 0 <= i <= j < |order| ensures w[i] >= w[j] {
      if i < j { assert ComesFirst(weights, collate, order[i], order[j]); }
    }
  }

  /** All files of a list of partitions. */
  function AllFiles(parts: seq<seq<string>>): multiset<string> {
    if parts == [] then multiset{} else AllFiles(parts[..|parts| - 1]) + multiset(parts[|parts| - 1])
  }

  /** The files of buckets 0..m-1 of an assignment. */
  function AllPlaced(order: seq<string>, a: seq<nat>, m: nat): multiset<string>
    requires |a| <= |order|
  {
    if m == 0 then multiset{} else AllPlaced(order, a, m - 1) + multiset(Placed(order, a, m - 1))
  }

  /** The file added to bucket j by the last step, if any. */
  function Added(order: seq<string>, a: seq<nat>, here: bool): multiset<string>
    requires 0 < |a| <= |order|
  {
    if here then multiset{order[|a| - 1]} else multiset{}
  }

  lemma {:induction false} AllPlacedStep(order: seq<string>, a: seq<nat>, m: nat)
    requires 0 < |a| <= |order|
    ensures AllPlaced(order, a, m) == AllPlaced(order, a[..|a| - 1], m) + Added(order, a, a[|a| - 1] < m)
  {
    if m > 0 {
      AllPlacedStep(order, a, m - 1);
      PlacedStep(order, a, m - 1);
      var earlier := a[..|a| - 1];
      var x, y := AllPlaced(order, earlier, m - 1), multiset(Placed(order, earlier, m - 1));
      var dx, dy := Added(order, a, a[|a| - 1] < m - 1), Added(order, a, a[|a| - 1] == m - 1);
      assert AllPlaced(order, a, m) == (x + dx) + (y + dy);
      assert AllPlaced(order, earlier, m) == x + y;
      AddedSplit(order, a, m);
      Interchange(x, dx, y, dy);
    }
  }

  lemma AddedSplit(order: seq<string>, a: seq<nat>, m: nat)
    requires 0 < |a| <= |order| && m > 0
    ensures Added(order, a, a[|a| - 1] < m - 1) + Added(order, a, a[|a| - 1] == m - 1) ==
            Added(order, a, a[|a| - 1] < m)
  {
  }

  lemma Interchange(x: multiset<string>, dx: multiset<string>, y: multiset<string>, dy: multiset<string>)
    ensures (x + dx) + (y + dy) == (x + y) + (dx + dy)
  {
  }

  lemma PlacedStep(order: seq<string>, a: seq<nat>, j: nat)
    requires 0 < |a| <= |order|
    ensures multiset(Placed(order, a, j)) ==
            multiset(Placed(order, a[..|a| - 1], j)) + Added(order, a, a[|a| - 1] == j)
  {
  }

  lemma {:induction false} AllPlacedEmpty(order: seq<string>, m: nat)
    ensures AllPlaced(order, [], m) == multiset{}
  {
    if m > 0 { AllPlacedEmpty(order, m - 1); }
  }

  lemma {:induction false} AllFilesArePlaced(order: seq<string>, a: seq<nat>, m: nat)
    requires |a| <= |order|
    ensures AllFiles(PlacedParts(order, a, m)) == AllPlaced(order, a, m)
  {
    if m > 0 {
      AllFilesArePlaced(order, a, m - 1);
      assert PlacedParts(order, a, m)[..m - 1] == PlacedParts(order, a, m - 1);
    }
  }

  lemma TakeStep(order: seq<string>, n: nat)
    requires n < |order|
    ensures multiset(order[..n + 1]) == multiset(order[..n]) + multiset{order[n]}
  {
    assert order[..n + 1] == order[..n] + [order[n]];
  }

  lemma {:induction false} AllPlacedConserves(order: seq<string>, a: seq<nat>, n: nat, m: nat)
    requires n <= |a| <= |order| && Into(a, m)
    ensures AllPlaced(order, a[..n], m) == multiset(order[..n])
  {
    if n == 0 {
      assert a[..n] == [];
      AllPlacedEmpty(order, m);
    } else {
      AllPlacedConserves(order, a, n - 1, m);
      assert a[..n][..n - 1] == a[..n - 1];
      AllPlacedStep(order, a[..n], m);
      TakeStep(order, n - 1);
    }
  }

  /** The buckets together are a permutation of the files. */
  lemma PartitionsConserveFiles(order: seq<string>, a: seq<nat>, m: nat)
    requires |a| == |order| && Into(a, m)
    ensures AllFiles(PlacedParts(order, a, m)) == multiset(order)
  {
    AllFilesArePlaced(order, a, m);
    AllPlacedConserves(order, a, |a|, m);
    assert a[..|a|] == a && order[..|a|] == order;
  }

  ghost predicate NonNegativeWeights(weights: map<string, real>) {
    forall f :: f in weights ==> weights[f] >= 0.0
  }

  /** The LPT bound of a load against the cost t of another distribution. */
  predicate WithinLpt(m: nat, load: real, t: real) {
    3.0 * m as real * load <= (4.0 * m as real - 1.0) * t
  }

  /** The bound in the usual form: the load is at most 4/3 - 1/(3m) times the cost. */
  lemma LptBoundIs(m: nat, load: real, t: real)
    requires m > 0
    ensures WithinLpt(m, load, t) <==> load <= (4.0 / 3.0 - 1.0 / (3.0 * m as real)) * t
  {
    var n := 3.0 * m as real;
    var factor := 4.0 / 3.0 - 1.0 / n;
    assert n * factor == n * (4.0 / 3.0) - n * (1.0 / n) == 4.0 * m as real - 1.0;
    assert n * (factor * t) == (n * factor) * t;
    MultiplyBoth(n, load, factor * t);
  }

  lemma MultiplyBoth(n: real, x: real, y: real)
    requires n > 0.0
    ensures n * x <= n * y <==> x <= y
  {
  }

  /**
   * The LPT bound against every assignment b of the same files that needs at most t:
   * 3m times the heaviest partition is at most (4m - 1)t.
   */
  lemma PartitionsWithinLptBound(
    order: seq<string>, weights: map<string, real>, m: nat, a: seq<nat>, b: seq<nat>, t: real, j: nat)
    requires NonNegativeWeights(weights) && |a| == |b| == |order| && j < m
    requires HeaviestFirst(WeightsOf(weights, order)) && Greedy(WeightsOf(weights, order), a, m)
    requires Within(WeightsOf(weights, order), b, m, t)
    ensures WithinLpt(m, PartitionWeight(Placed(order, a, j), weights), t)
  {
    PlacedWeight(order, weights, a, j);
    HeaviestFirstBound(WeightsOf(weights, order), a, b, m, j, t);
  }

  /** Any two partitions differ by at most the heaviest file. */
  lemma PartitionsBalanced(
    order: seq<string>, weights: map<string, real>, m: nat, a: seq<nat>, i: nat, j: nat, f: string)
    requires NonNegativeWeights(weights) && |a| == |order| && i < m && j < m
    requires Greedy(WeightsOf(weights, order), a, m) && IsHeaviest(order, weights, f)
    ensures PartitionWeight(Placed(order, a, i), weights) - PartitionWeight(Placed(order, a, j), weights)
      <= WeightOf(weights, f)
  {
    PlacedWeight(order, weights, a, i);
    PlacedWeight(order, weights, a, j);
    LoadsDifferByOneFile(WeightsOf(weights, order), a, m, i, j, WeightOf(weights, f));
  }

  /** With at least m files, no partition is starved. */
  lemma PartitionsFilled(order: seq<string>, weights: map<string, real>, m: nat, a: seq<nat>, j: nat)
    requires NonNegativeWeights(weights) && |a| == |order| && j < m <= |order|
    requires Greedy(WeightsOf(weights, order), a, m)
    ensures Placed(order, a, j) != []
  {
    NoBucketEmpty(WeightsOf(weights, order), a, m, j);
    PlacedCount(order, a, j);
  }

  ghost predicate IsHeaviest(files: seq<string>, weights: map<string, real>, f: string) {
    forall g :: g in files ==> WeightOf(weights, g) <= WeightOf(weights, f)
  }

  // ---------- projects and the empty-partition guard ----------

  const PROCESS_BOUND := "process-bound"

  function Select(files: seq<string>, projectOf: map<string, string>, bound: bool): seq<string> {
    if files == [] then []
    else
      var rest := Select(files[..|files| - 1], projectOf, bound);
      var f := files[|files| - 1];
      if (f in projectOf && projectOf[f] == PROCESS_BOUND) == bound then rest + [f] else rest
  }

  /** The include lists `partitionConfigSource` writes: one per project of one partition. */
  function ProjectLists(parts: seq<seq<string>>, projectOf: map<string, string>): seq<seq<string>> {
    if parts == [] then []
    else
      var last := parts[|parts| - 1];
      ProjectLists(parts[..|parts| - 1], projectOf) +
      [Select(last, projectOf, false)] + [Select(last, projectOf, true)]
  }

  lemma {:induction false} SelectSplits(files: seq<string>, projectOf: map<string, string>)
    ensures multiset(Select(files, projectOf, false)) + multiset(Select(files, projectOf, true)) == multiset(files)
    ensures forall f :: f in Select(files, projectOf, true) ==> f in projectOf && projectOf[f] == PROCESS_BOUND
    ensures forall f :: f in Select(files, projectOf, false) ==> !(f in projectOf && projectOf[f] == PROCESS_BOUND)
  {
    if files != [] {
      SelectSplits(files[..|files| - 1], projectOf);
      assert files == files[..|files| - 1] + [files[|files| - 1]];
    }
  }

  /** Every file lands in exactly one project list of exactly one partition. */
  lemma {:induction false} ProjectListsConserveFiles(parts: seq<seq<string>>, projectOf: map<string, string>)
    ensures AllFiles(ProjectLists(parts, projectOf)) == AllFiles(parts)
  {
    if parts != [] {
      var last := parts[|parts| - 1];
      var rest := ProjectLists(parts[..|parts| - 1], projectOf);
      ProjectListsConserveFiles(parts[..|parts| - 1], projectOf);
      SelectSplits(last, projectOf);
      var one := rest + [Select(last, projectOf, false)];
      assert one[..|rest|] == rest;
      assert ProjectLists(parts, projectOf)[..|one|] == one;
    }
  }

  /**
   * Partition k writes two lists: its process-bound files, and all its others; each file as often as
   * the partition holds it.
   */
  lemma {:induction false} ProjectListsAt(parts: seq<seq<string>>, projectOf: map<string, string>, k: nat)
    requires k < |parts|
    ensures var lists := ProjectLists(parts, projectOf);
      && |lists| == 2 * |parts|
      && forall f ::
           var bound := f in projectOf && projectOf[f] == "process-bound";
           && multiset(lists[2 * k])[f] == (if bound then 0 else multiset(parts[k])[f])
           && multiset(lists[2 * k + 1])[f] == (if bound then multiset(parts[k])[f] else 0)
  {
    var last := |parts| - 1;
    if last > 0 { ProjectListsAt(parts[..last], projectOf, if k < last then k else 0); }
    assert |ProjectLists(parts[..last], projectOf)| == 2 * last;
    if k == last { SelectCounts(parts[k], projectOf); }
  }

  lemma SelectCounts(files: seq<string>, projectOf: map<string, string>)
    ensures forall f ::
      var bound := f in projectOf && projectOf[f] == "process-bound";
      && multiset(Select(files, projectOf, false))[f] == (if bound then 0 else multiset(files)[f])
      && multiset(Select(files, projectOf, true))[f] == (if bound then multiset(files)[f] else 0)
  {
    SelectSplits(files, projectOf);
    forall f
      ensures
        var bound := f in projectOf && projectOf[f] == "process-bound";
        && multiset(Select(files, projectOf, false))[f] == (if bound then 0 else multiset(files)[f])
        && multiset(Select(files, projectOf, true))[f] == (if bound then multiset(files)[f] else 0)
    {
      var free, held := Select(files, projectOf, false), Select(files, projectOf, true);
      assert multiset(free)[f] + multiset(held)[f] == multiset(files)[f];
      assert (f in multiset(free) <==> f in free) && (f in multiset(held) <==> f in held);
    }
  }

  /** `assertNonEmptyAssignments`: the first empty partition, or -1 when the guard lets the run go on. */
  method FirstEmpty(assignments: seq<seq<string>>) returns (empty: int)
    ensures -1 <= empty < |assignments|
    ensures empty == -1 <==> forall j :: 0 <= j < |assignments| ==> assignments[j] != []
    ensures empty >= 0 ==> assignments[empty] == [] && forall j :: 0 <= j < empty ==> assignments[j] != []
  {
    empty := 0;
    while empty < |assignments|
      invariant 0 <= empty <= |assignments|
      invariant forall j :: 0 <= j < empty ==> assignments[j] != []
    {
      if assignments[empty] == [] { return; }
      empty := empty + 1;
    }
    empty := -1;
  }

  function HeavierPartition(weights: map<string, real>): (seq<string>, seq<string>) -> bool {
    (x, y) => PartitionWeight(x, weights) >= PartitionWeight(y, weights)
  }

  /**
   * `assignFiles` then the guard: the run proceeds if and only if there are at least as many files
   * as partitions.
   */
  method AssignFiles(
    files: seq<string>, weights: map<string, real>, partitions: nat, collate: string -> int)
    returns (parts: seq<seq<string>>, proceeds: bool)
    requires partitions >= 2 && NonNegativeWeights(weights)
    ensures |parts| == partitions && AllFiles(parts) == multiset(files)
    ensures forall i, j :: 0 <= i < j < partitions ==>
      Milliseconds(parts[i], weights) >= Milliseconds(parts[j], weights)
    ensures proceeds <==> |files| >= partitions
    ensures proceeds <==> forall j :: 0 <= j < partitions ==> parts[j] != []
    ensures forall other, t :: Alternative(files, weights, partitions, other, t) ==>
      WithinLpt(partitions, Milliseconds(parts[0], weights), t)
  {
    var r, a := AssignWeightedPartitions(files, weights, partitions, collate);
    parts := Sorting.Sort(HeavierPartition(weights), r.value);
    Sorting.SortSorted(HeavierPartition(weights), r.value);
    GuardDecides(Sorting.Sort(TakenBefore(weights, collate), files), weights, partitions, a, r.value, parts);
    OrderIsHeaviestFirst(files, weights, collate);
    HeaviestWithinLptBound(files, Sorting.Sort(TakenBefore(weights, collate), files), weights, partitions, a, parts);
    HeaviestComeFirst(parts, weights);
    var empty := FirstEmpty(parts);
    proceeds := empty == -1;
  }

  lemma HeaviestComeFirst(parts: seq<seq<string>>, weights: map<string, real>)
    requires Sorting.SortedBy(HeavierPartition(weights), parts)
    ensures forall i, j :: 0 <= i < j < |parts| ==> Milliseconds(parts[i], weights) >= Milliseconds(parts[j], weights)
  {
    forall i, j | 0 <= i < j < |parts| ensures Milliseconds(parts[i], weights) >= Milliseconds(parts[j], weights) {
      WeightIsMilliseconds(parts[i], weights);
      WeightIsMilliseconds(parts[j], weights);
      assert HeavierPartition(weights)(parts[i], parts[j]);
    }
  }

  /** Another distribution of the same files over as many lists, none of them heavier than t. */
  ghost predicate Alternative(
    files: seq<string>, weights: map<string, real>, m: nat, other: seq<seq<string>>, t: real)
  {
    && |other| == m && AllFiles(other) == multiset(files)
    && forall j :: 0 <= j < m ==> Milliseconds(other[j], weights) <= t
  }

  /** Every partition is within the LPT bound of every other distribution of the files. */
  lemma HeaviestWithinLptBound(
    files: seq<string>, order: seq<string>, weights: map<string, real>, m: nat, a: seq<nat>, parts: seq<seq<string>>)
    requires NonNegativeWeights(weights) && multiset(order) == multiset(files) && |a| == |order| && parts != []
    requires HeaviestFirst(WeightsOf(weights, order)) && Greedy(WeightsOf(weights, order), a, m)
    requires multiset(parts) == multiset(PlacedParts(order, a, m))
    ensures forall other, t :: Alternative(files, weights, m, other, t) ==>
      WithinLpt(m, Milliseconds(parts[0], weights), t)
  {
    var k := PartIsPlaced(order, a, m, parts);
    WeightIsMilliseconds(parts[0], weights);
    forall other, t | Alternative(files, weights, m, other, t)
      ensures WithinLpt(m, Milliseconds(parts[0], weights), t)
    {
      BoundedByAlternative(files, order, weights, m, a, k, other, t);
    }
  }

  lemma PartIsPlaced(order: seq<string>, a: seq<nat>, m: nat, parts: seq<seq<string>>) returns (k: nat)
    requires |a| <= |order| && parts != [] && multiset(parts) == multiset(PlacedParts(order, a, m))
    ensures k < m && parts[0] == Placed(order, a, k)
  {
    var placed := PlacedParts(order, a, m);
    assert parts[0] in multiset(placed);
    k :| 0 <= k < m && placed[k] == parts[0];
  }

  lemma BoundedByAlternative(
    files: seq<string>, order: seq<string>, weights: map<string, real>, m: nat, a: seq<nat>, k: nat,
    other: seq<seq<string>>, t: real)
    requires NonNegativeWeights(weights) && |a| == |order| && k < m && multiset(order) == multiset(files)
    requires HeaviestFirst(WeightsOf(weights, order)) && Greedy(WeightsOf(weights, order), a, m)
    requires Alternative(files, weights, m, other, t)
    ensures WithinLpt(m, PartitionWeight(Placed(order, a, k), weights), t)
  {
    var b := AlternativeAssignment(files, order, weights, m, other, t);
    PartitionsWithinLptBound(order, weights, m, a, b, t, k);
  }

  lemma AlternativeAssignment(
    files: seq<string>, order: seq<string>, weights: map<string, real>, m: nat, other: seq<seq<string>>, t: real)
    returns (b: seq<nat>)
    requires Alternative(files, weights, m, other, t) && multiset(order) == multiset(files)
    ensures |b| == |order| && Within(WeightsOf(weights, order), b, m, t)
  {
    b := AssignmentOf(order, weights, other);
    forall j | 0 <= j < m ensures PartitionWeight(other[j], weights) <= t { WeightIsMilliseconds(other[j], weights); }
  }

  /** Every distribution of the files into lists is an assignment with the same loads. */
  lemma {:induction false} AssignmentOf(order: seq<string>, weights: map<string, real>, other: seq<seq<string>>)
    returns (b: seq<nat>)
    requires AllFiles(other) == multiset(order)
    ensures |b| == |order| && Into(b, |other|)
    ensures forall j :: 0 <= j < |other| ==> Load(WeightsOf(weights, order), b, j) == PartitionWeight(other[j], weights)
  {
    if order == [] {
      b := [];
      NoFiles(other);
    } else {
      var n := |order| - 1;
      var before, f := order[..n], order[n];
      TakeStep(order, n);
      assert order[..n + 1] == order;
      var j, k := FileIn(other, f);
      var less := other[j := Without(other[j], k)];
      FileOut(other, j, k);
      Cancel(AllFiles(less), multiset(before), multiset{f});
      var c := AssignmentOf(before, weights, less);
      b := c + [j];
      WeightOut(other[j], k, weights);
      forall x | 0 <= x < |other|
        ensures Load(WeightsOf(weights, order), b, x) == PartitionWeight(other[x], weights)
      {
        LoadSnoc(order, weights, c, j, x);
      }
    }
  }

  /** Putting the last file into list j adds its weight there and nowhere else. */
  lemma LoadSnoc(order: seq<string>, weights: map<string, real>, c: seq<nat>, j: nat, x: nat)
    requires order != [] && |c| == |order| - 1
    ensures Load(WeightsOf(weights, order), c + [j], x) ==
            Load(WeightsOf(weights, order[..|order| - 1]), c, x)
            + if j == x then WeightOf(weights, order[|order| - 1]) else 0.0
  {
    assert (c + [j])[..|c|] == c;
    LoadAgrees(WeightsOf(weights, order), WeightsOf(weights, order[..|order| - 1]), c, x);
  }

  function Without(files: seq<string>, k: nat): seq<string>
    requires k < |files|
  {
    files[..k] + files[k + 1..]
  }

  lemma {:induction false} NoFiles(parts: seq<seq<string>>)
    requires AllFiles(parts) == multiset{}
    ensures forall j :: 0 <= j < |parts| ==> parts[j] == []
  {
    if parts != [] {
      var last := |parts| - 1;
      EmptyList(parts[last]);
      NoFiles(parts[..last]);
      assert forall j :: 0 <= j < last ==> parts[..last][j] == parts[j];
    }
  }

  lemma EmptyList(files: seq<string>)
    ensures multiset(files) == multiset{} ==> files == []
  {
    if files != [] { assert files[0] in multiset(files); }
  }

  lemma {:induction false} FileIn(parts: seq<seq<string>>, f: string) returns (j: nat, k: nat)
    requires f in AllFiles(parts)
    ensures j < |parts| && k < |parts[j]| && parts[j][k] == f
  {
    var last := |parts| - 1;
    if f in parts[last] {
      j := last;
      k :| 0 <= k < |parts[last]| && parts[last][k] == f;
    } else {
      j, k := FileIn(parts[..last], f);
    }
  }

  lemma FileOut(parts: seq<seq<string>>, j: nat, k: nat)
    requires j < |parts| && k < |parts[j]|
    ensures AllFiles(parts) == AllFiles(parts[j := Without(parts[j], k)]) + multiset{parts[j][k]}
  {
    var less := parts[j := Without(parts[j], k)];
    AllFilesOut(parts, j);
    AllFilesOut(less, j);
    assert parts[..j] + parts[j + 1..] == less[..j] + less[j + 1..];
    WithoutOne(parts[j], k);
  }

  lemma WithoutOne(files: seq<string>, k: nat)
    requires k < |files|
    ensures multiset(files) == multiset(Without(files, k)) + multiset{files[k]}
  {
    assert files == files[..k] + [files[k]] + files[k + 1..];
  }

  lemma Cancel(x: multiset<string>, y: multiset<string>, z: multiset<string>)
    requires x + z == y + z
    ensures x == y
  {
    assert x == (x + z) - z && y == (y + z) - z;
  }

  lemma WithoutEarlier(files: seq<string>, k: nat)
    requires k < |files| - 1
    ensures Without(files, k) == Without(files[..|files| - 1], k) + [files[|files| - 1]]
  {
  }

  lemma {:induction false} WeightOut(files: seq<string>, k: nat, weights: map<string, real>)
    requires k < |files|
    ensures PartitionWeight(files, weights) == PartitionWeight(Without(files, k), weights) + WeightOf(weights, files[k])
  {
    var n := |files| - 1;
    if k == n {
      assert Without(files, k) == files[..n];
    } else {
      WeightOut(files[..n], k, weights);
      var less := Without(files, k);
      WithoutEarlier(files, k);
      assert less[..|less| - 1] == Without(files[..n], k);
    }
  }

  lemma GuardDecides(order: seq<string>, weights: map<string, real>, m: nat, a: seq<nat>,
    buckets: seq<seq<string>>, parts: seq<seq<string>>)
    requires NonNegativeWeights(weights) && |a| == |order|
    requires Greedy(WeightsOf(weights, order), a, m)
    requires buckets == PlacedParts(order, a, m) && multiset(parts) == multiset(buckets)
    ensures |parts| == m && AllFiles(parts) == multiset(order)
    ensures |order| >= m <==> forall j :: 0 <= j < m ==> parts[j] != []
  {
    assert |parts| == |multiset(parts)| == |multiset(buckets)| == m;
    SamePartitions(parts, buckets);
    PartitionsConserveFiles(order, a, m);
    if forall j :: 0 <= j < m ==> parts[j] != [] {
      NonEmptyNeedsFiles(parts);
    }
    if |order| >= m {
      forall j | 0 <= j < m ensures parts[j] != [] {
        assert parts[j] in multiset(buckets);
        var k :| 0 <= k < m && buckets[k] == parts[j];
        PartitionsFilled(order, weights, m, a, k);
      }
    }
  }

  lemma {:induction false} NonEmptyNeedsFiles(parts: seq<seq<string>>)
    requires forall j :: 0 <= j < |parts| ==> parts[j] != []
    ensures |AllFiles(parts)| >= |parts|
  {
    if parts != [] { NonEmptyNeedsFiles(parts[..|parts| - 1]); }
  }

  lemma {:induction false} AllFilesOut(parts: seq<seq<string>>, i: nat)
    requires i < |parts|
    ensures AllFiles(parts) == AllFiles(parts[..i] + parts[i + 1..]) + multiset(parts[i])
  {
    var n := |parts| - 1;
    if i == n {
      assert parts[..i] + parts[i + 1..] == parts[..n];
    } else {
      AllFilesOut(parts[..n], i);
      var rest := parts[..i] + parts[i + 1..];
      assert rest[..|rest| - 1] == parts[..n][..i] + parts[..n][i + 1..];
      assert rest[|rest| - 1] == parts[n];
    }
  }

  /** The order of the partitions does not matter for what they hold together. */
  lemma {:induction false} SamePartitions(p: seq<seq<string>>, q: seq<seq<string>>)
    requires multiset(p) == multiset(q)
    ensures AllFiles(p) == AllFiles(q)
    decreases |p|
  {
    assert |p| == |multiset(p)| == |multiset(q)| == |q|;
    if p == [] {
    } else {
      var n := |p| - 1;
      assert p[n] in multiset(q);
      assert p[n] in q;
      var i :| 0 <= i < |q| && q[i] == p[n];
      assert p == p[..n] + [p[n]];
      assert q == q[..i] + [q[i]] + q[i + 1..];
      assert multiset(p[..n]) == multiset(p) - multiset{p[n]};
      assert multiset(q[..i] + q[i + 1..]) == multiset(q) - multiset{q[i]};
      SamePartitions(p[..n], q[..i] + q[i + 1..]);
      AllFilesOut(q, i);
    }
  }
}

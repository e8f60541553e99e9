/**
 * The parent forest of evidence blocks: roots and children in location order, the recursive
 * `descendants` walk, and which blocks it reaches when parent links may form cycles.
 */
module EvidenceForest {
  import opened Options
  import Sorting

  /** Evidence ids; only their identity and order matter. */
  type Id = nat

  /** `content` is the stripped text, None for a block that only has an artifact; an empty parent id is no parent. */
  datatype Block = Block(
    id: Id, document: string, source: string, parent: Option<Id>, related: seq<Id>,
    modality: string, content: Option<string>, page: Option<int>, slide: Option<int>, start: Option<real>)

  function PageOrSlide(b: Block): int {
    if b.page.Some? && b.page.value != 0 then b.page.value
    else if b.slide.Some? then b.slide.value else 0
  }

  function Timestamp(b: Block): real {
    if b.start.Some? then b.start.value else 0.0
  }

  /** Order of `_location_key`. */
  predicate LocationLeq(a: Block, b: Block) {
    if PageOrSlide(a) != PageOrSlide(b) then PageOrSlide(a) < PageOrSlide(b)
    else if Timestamp(a) != Timestamp(b) then Timestamp(a) < Timestamp(b)
    else a.id <= b.id
  }

  lemma LocationOrder()
    ensures Sorting.TotalPreorder(LocationLeq)
    ensures forall a, b :: LocationLeq(a, b) && LocationLeq(b, a) ==> a.id == b.id
  {
  }

  /** Ascending by page, else slide, where 0 and a missing number are the same; then by start; then by id. */
  lemma LocationLeqIs(a: Block, b: Block)
    ensures LocationLeq(a, b) <==>
      var page := (x: Block) => if x.page.Some? && x.page.value != 0 then x.page.value
                                else if x.slide.Some? then x.slide.value else 0;
      var start := (x: Block) => if x.start.Some? then x.start.value else 0.0;
      || page(a) < page(b)
      || (page(a) == page(b) && start(a) < start(b))
      || (page(a) == page(b) && start(a) == start(b) && a.id <= b.id)
  {
  }

  type Index = map<Id, Block>

  /** The blocks, listed once each, under their ids. */
  ghost predicate Forest(byId: Index, blocks: seq<Block>) {
    && (forall b :: b in blocks ==> b.id in byId && byId[b.id] == b)
    && (forall id :: id in byId ==> byId[id] in blocks && byId[id].id == id)
    && (forall b :: multiset(blocks)[b] <= 1)
  }

  // ---------- depth ----------

  /** The parent chain of `id` reaches a root after exactly n steps. */
  predicate AtDepth(byId: Index, id: Id, n: nat)
    decreases n
  {
    && id in byId
    && if n == 0 then byId[id].parent.None?
       else byId[id].parent.Some? && AtDepth(byId, byId[id].parent.value, n - 1)
  }

  ghost predicate Rooted(byId: Index, id: Id) {
    exists n: nat :: AtDepth(byId, id, n)
  }

  lemma {:induction false} DepthUnique(byId: Index, id: Id, n: nat, m: nat)
    requires AtDepth(byId, id, n) && AtDepth(byId, id, m)
    ensures n == m
    decreases n
  {
    if n > 0 && m > 0 {
      DepthUnique(byId, byId[id].parent.value, n - 1, m - 1);
    }
  }

  /** The ids on the chain from `id` to its root. */
  ghost function Chain(byId: Index, id: Id, n: nat): set<Id>
    requires AtDepth(byId, id, n)
    decreases n
  {
    if n == 0 then {id} else Chain(byId, byId[id].parent.value, n - 1) + {id}
  }

  lemma {:induction false} ChainMember(byId: Index, id: Id, n: nat, x: Id) returns (m: nat)
    requires AtDepth(byId, id, n) && x in Chain(byId, id, n)
    ensures m <= n && AtDepth(byId, x, m)
    decreases n
  {
    if x == id {
      m := n;
    } else {
      m := ChainMember(byId, byId[id].parent.value, n - 1, x);
    }
  }

  /** A chain never visits a block twice, so it is shorter than the number of blocks. */
  lemma {:induction false} ChainLength(byId: Index, id: Id, n: nat)
    requires AtDepth(byId, id, n)
    ensures |Chain(byId, id, n)| == n + 1
    decreases n
  {
    if n > 0 {
      var p := byId[id].parent.value;
      ChainLength(byId, p, n - 1);
      if id in Chain(byId, p, n - 1) {
        var m := ChainMember(byId, p, n - 1, id);
        DepthUnique(byId, id, n, m);
      }
    }
  }

  lemma SubsetSize<T>(a: set<T>, b: set<T>)
    requires a <= b
    ensures |a| <= |b|
  {
    assert |b| == |a| + |b - a| by { assert b == a + (b - a); }
  }

  lemma DepthBound(byId: Index, id: Id, n: nat)
    requires AtDepth(byId, id, n)
    ensures n < |byId|
  {
    ChainLength(byId, id, n);
    forall x | x in Chain(byId, id, n) ensures x in byId.Keys { var m := ChainMember(byId, id, n, x); }
    SubsetSize(Chain(byId, id, n), byId.Keys);
    assert |byId.Keys| == |byId|;
  }

  /** The ancestor k steps up. */
  function Ancestor(byId: Index, id: Id, n: nat, k: nat): (a: Id)
    requires AtDepth(byId, id, n) && k <= n
    ensures AtDepth(byId, a, n - k)
    decreases k
  {
    if k == 0 then id else Ancestor(byId, byId[id].parent.value, n - 1, k - 1)
  }

  lemma {:induction false} AncestorParent(byId: Index, id: Id, n: nat, k: nat)
    requires AtDepth(byId, id, n) && k < n
    ensures byId[Ancestor(byId, id, n, k)].parent == Some(Ancestor(byId, id, n, k + 1))
    decreases k
  {
    if k > 0 {
      AncestorParent(byId, byId[id].parent.value, n - 1, k - 1);
    }
  }

  // ---------- cycles ----------

  /** Every parent is among the blocks. */
  predicate Linked(byId: Index) {
    forall id :: id in byId && byId[id].parent.Some? ==> byId[id].parent.value in byId
  }

  /** The block n steps up the parent chain. */
  function Up(byId: Index, id: Id, n: nat): Option<Id>
    decreases n
  {
    if id !in byId then None
    else if n == 0 then Some(id)
    else if byId[id].parent.None? then None
    else Up(byId, byId[id].parent.value, n - 1)
  }

  /** The parent chain comes back to a block it has been at: `id` is on or below a cycle. */
  ghost predicate Loops(byId: Index, id: Id) {
    exists i: nat, j: nat :: i < j && Up(byId, id, i).Some? && Up(byId, id, i) == Up(byId, id, j)
  }

  lemma {:induction false} UpFromDepth(byId: Index, id: Id, d: nat, n: nat)
    requires AtDepth(byId, id, d)
    ensures Up(byId, id, n).Some? <==> n <= d
    ensures n <= d ==> AtDepth(byId, Up(byId, id, n).value, d - n)
    decreases n
  {
    if n > 0 && d > 0 {
      UpFromDepth(byId, byId[id].parent.value, d - 1, n - 1);
    }
  }

  /** Without a root above, the chain never ends. */
  lemma {:induction false} UpForever(byId: Index, id: Id, n: nat)
    requires id in byId && Linked(byId) && !Rooted(byId, id)
    ensures Up(byId, id, n).Some? && Up(byId, id, n).value in byId
    decreases n
  {
    assert byId[id].parent.None? <==> AtDepth(byId, id, 0);
    var p := byId[id].parent.value;
    if k: nat :| AtDepth(byId, p, k) { assert AtDepth(byId, id, k + 1); }
    if n > 0 { UpForever(byId, p, n - 1); }
  }

  /** The first k blocks of an endless chain. */
  ghost function Ups(byId: Index, id: Id, k: nat): set<Id>
    requires forall i: nat :: Up(byId, id, i).Some?
  {
    if k == 0 then {} else Ups(byId, id, k - 1) + {Up(byId, id, k - 1).value}
  }

  lemma {:induction false} UpsMember(byId: Index, id: Id, k: nat, x: Id) returns (i: nat)
    requires forall i: nat :: Up(byId, id, i).Some?
    requires x in Ups(byId, id, k)
    ensures i < k && Up(byId, id, i) == Some(x)
  {
    if x == Up(byId, id, k - 1).value {
      i := k - 1;
    } else {
      i := UpsMember(byId, id, k - 1, x);
    }
  }

  lemma {:induction false} UpsSize(byId: Index, id: Id, k: nat)
    requires forall i: nat :: Up(byId, id, i).Some?
    requires !Loops(byId, id)
    ensures |Ups(byId, id, k)| == k
  {
    if k > 0 {
      UpsSize(byId, id, k - 1);
      if Up(byId, id, k - 1).value in Ups(byId, id, k - 1) {
        var i := UpsMember(byId, id, k - 1, Up(byId, id, k - 1).value);
      }
    }
  }

  /** A parent chain reaches a root if and only if it does not run into a cycle. */
  lemma RootedIffNoLoop(byId: Index, id: Id)
    requires id in byId && Linked(byId)
    ensures Rooted(byId, id) <==> !Loops(byId, id)
  {
    if Rooted(byId, id) {
      RootedNoLoop(byId, id);
    } else {
      forall i: nat ensures Up(byId, id, i).Some? && Up(byId, id, i).value in byId { UpForever(byId, id, i); }
      var ups := Ups(byId, id, |byId| + 1);
      forall x | x in ups ensures x in byId.Keys { var i := UpsMember(byId, id, |byId| + 1, x); }
      SubsetSize(ups, byId.Keys);
      assert |byId.Keys| == |byId|;
      if !Loops(byId, id) { UpsSize(byId, id, |byId| + 1); }
    }
  }

  lemma RootedNoLoop(byId: Index, id: Id)
    requires Rooted(byId, id)
    ensures !Loops(byId, id)
  {
    var d: nat :| AtDepth(byId, id, d);
    forall i: nat, j: nat | i < j && Up(byId, id, i).Some? ensures Up(byId, id, i) != Up(byId, id, j) {
      UpFromDepth(byId, id, d, i);
      UpFromDepth(byId, id, d, j);
      if Up(byId, id, i) == Up(byId, id, j) {
        DepthUnique(byId, Up(byId, id, i).value, d - i, d - j);
      }
    }
  }

  // ---------- the walk ----------

  /** Blocks with the given parent, in the order of the list. */
  function WithParent(blocks: seq<Block>, parent: Option<Id>): seq<Block> {
    if blocks == [] then []
    else Own(blocks[0], parent) + WithParent(blocks[1..], parent)
  }

  function Own(b: Block, parent: Option<Id>): seq<Block> {
    if b.parent == parent then [b] else []
  }

  lemma {:induction false} WithParentMembers(blocks: seq<Block>, parent: Option<Id>)
    ensures forall b :: b in WithParent(blocks, parent) <==> b in blocks && b.parent == parent
  {
    if blocks != [] {
      WithParentMembers(blocks[1..], parent);
    }
  }

  lemma {:induction false} WithParentOnce(blocks: seq<Block>, parent: Option<Id>)
    ensures forall b :: multiset(WithParent(blocks, parent))[b] ==
                        if b.parent == parent then multiset(blocks)[b] else 0
  {
    if blocks != [] {
      WithParentOnce(blocks[1..], parent);
      assert blocks == [blocks[0]] + blocks[1..];
    }
  }

  lemma {:induction false} WithParentAppend(blocks: seq<Block>, b: Block, parent: Option<Id>)
    ensures WithParent(blocks + [b], parent) ==
            WithParent(blocks, parent) + Own(b, parent)
  {
    if blocks != [] {
      WithParentAppend(blocks[1..], b, parent);
      assert (blocks + [b])[1..] == blocks[1..] + [b];
    }
  }

  lemma {:induction false} WithParentSorted(blocks: seq<Block>, parent: Option<Id>)
    requires Sorting.SortedBy(LocationLeq, blocks)
    ensures Sorting.SortedBy(LocationLeq, WithParent(blocks, parent))
  {
    if blocks != [] {
      WithParentSorted(blocks[1..], parent);
      WithParentMembers(blocks[1..], parent);
      forall b | b in WithParent(blocks[1..], parent) ensures LocationLeq(blocks[0], b) {
        assert b in blocks[1..];
      }
    }
  }

  /** All of `kids` sit at one depth. */
  ghost predicate Level(byId: Index, blocks: seq<Block>, kids: seq<Block>, depth: nat) {
    forall k :: k in kids ==> k in blocks && AtDepth(byId, k.id, depth)
  }

  lemma ChildLevel(byId: Index, blocks: seq<Block>, b: Block, depth: nat)
    requires Forest(byId, blocks) && b in blocks && AtDepth(byId, b.id, depth)
    ensures depth < |byId| && Level(byId, blocks, WithParent(blocks, Some(b.id)), depth + 1)
  {
    DepthBound(byId, b.id, depth);
    WithParentMembers(blocks, Some(b.id));
  }

  lemma RootLevel(byId: Index, blocks: seq<Block>)
    requires Forest(byId, blocks)
    ensures Level(byId, blocks, WithParent(blocks, None), 0)
  {
    WithParentMembers(blocks, None);
  }

  /** A block followed by the walks of its children in location order, down to a number of levels. */
  ghost function Preorder(blocks: seq<Block>, b: Block, levels: nat): seq<Block>
    decreases levels, 0, 0
  {
    if levels == 0 then [] else [b] + Walk(blocks, WithParent(blocks, Some(b.id)), levels - 1)
  }

  /** The walks of several blocks, one after the other. */
  ghost function Walk(blocks: seq<Block>, kids: seq<Block>, levels: nat): seq<Block>
    decreases levels, 1, |kids|
  {
    if kids == [] then [] else Preorder(blocks, kids[0], levels) + Walk(blocks, kids[1..], levels)
  }

  /** The walks of all roots; no block that reaches a root is deeper than the number of blocks. */
  ghost function Visited(byId: Index, blocks: seq<Block>): seq<Block> {
    Walk(blocks, WithParent(blocks, None), |byId|)
  }

  /** How often a block at depth n occurs in a walk of blocks at depth d. */
  function Expected(byId: Index, kids: seq<Block>, d: nat, b: Block, n: nat): nat
    requires AtDepth(byId, b.id, n)
  {
    if n < d then 0 else multiset(kids)[byId[Ancestor(byId, b.id, n, n - d)]]
  }

  /** The parent of the ancestor below is the ancestor above. */
  lemma ChildOfTop(byId: Index, blocks: seq<Block>, top: Block, d: nat, b: Block, n: nat)
    requires Forest(byId, blocks) && top in blocks && AtDepth(byId, b.id, n) && d < n
    ensures multiset(WithParent(blocks, Some(top.id)))[byId[Ancestor(byId, b.id, n, n - d - 1)]] ==
            if byId[Ancestor(byId, b.id, n, n - d)] == top then 1 else 0
  {
    var a := byId[Ancestor(byId, b.id, n, n - d - 1)];
    AncestorParent(byId, b.id, n, n - d - 1);
    ForestOnce(byId, blocks, a);
    WithParentOnce(blocks, Some(top.id));
  }

  lemma ExpectedStep(byId: Index, blocks: seq<Block>, top: Block, d: nat, b: Block, n: nat)
    requires Forest(byId, blocks) && top in blocks && AtDepth(byId, top.id, d)
    requires b in blocks && AtDepth(byId, b.id, n)
    ensures Expected(byId, [top], d, b, n) ==
            (if b == top then 1 else 0) + Expected(byId, WithParent(blocks, Some(top.id)), d + 1, b, n)
  {
    if b == top { DepthUnique(byId, b.id, n, d); }
    if n > d { ChildOfTop(byId, blocks, top, d, b, n); }
  }

  lemma WalkTop(blocks: seq<Block>, kids: seq<Block>, levels: nat, b: Block)
    requires kids != [] && levels > 0
    ensures multiset(Walk(blocks, kids, levels))[b] ==
            (if b == kids[0] then 1 else 0)
            + multiset(Walk(blocks, WithParent(blocks, Some(kids[0].id)), levels - 1))[b]
            + multiset(Walk(blocks, kids[1..], levels))[b]
  {
  }

  lemma {:induction false} WalkCount(byId: Index, blocks: seq<Block>, kids: seq<Block>, d: nat, b: Block, n: nat)
    requires Forest(byId, blocks) && d <= |byId| && Level(byId, blocks, kids, d)
    requires b in blocks && AtDepth(byId, b.id, n)
    ensures multiset(Walk(blocks, kids, |byId| - d))[b] == Expected(byId, kids, d, b, n)
    decreases |byId| - d, |kids|
  {
    if kids != [] {
      var top := kids[0];
      ChildLevel(byId, blocks, top, d);
      WalkCount(byId, blocks, WithParent(blocks, Some(top.id)), d + 1, b, n);
      WalkCount(byId, blocks, kids[1..], d, b, n);
      WalkTop(blocks, kids, |byId| - d, b);
      ExpectedStep(byId, blocks, top, d, b, n);
      ExpectedSplit(byId, kids, d, b, n);
    }
  }

  lemma ExpectedSplit(byId: Index, kids: seq<Block>, d: nat, b: Block, n: nat)
    requires AtDepth(byId, b.id, n) && kids != []
    ensures Expected(byId, kids, d, b, n) == Expected(byId, [kids[0]], d, b, n) + Expected(byId, kids[1..], d, b, n)
  {
    assert kids == [kids[0]] + kids[1..];
  }

  lemma ForestOnce(byId: Index, blocks: seq<Block>, b: Block)
    requires Forest(byId, blocks) && b in blocks
    ensures multiset(blocks)[b] == 1
  {
  }

  lemma {:induction false} PreorderRooted(byId: Index, blocks: seq<Block>, top: Block, d: nat, b: Block)
    requires Forest(byId, blocks) && d <= |byId| && top in blocks && AtDepth(byId, top.id, d)
    requires b in Preorder(blocks, top, |byId| - d)
    ensures b in blocks && Rooted(byId, b.id)
    decreases |byId| - d, 0, 0
  {
    ChildLevel(byId, blocks, top, d);
    if b != top {
      WalkRooted(byId, blocks, WithParent(blocks, Some(top.id)), d + 1, b);
    }
  }

  lemma {:induction false} WalkRooted(byId: Index, blocks: seq<Block>, kids: seq<Block>, d: nat, b: Block)
    requires Forest(byId, blocks) && d <= |byId|
    requires Level(byId, blocks, kids, d)
    requires b in Walk(blocks, kids, |byId| - d)
    ensures b in blocks && Rooted(byId, b.id)
    decreases |byId| - d, 1, |kids|
  {
    if b in Preorder(blocks, kids[0], |byId| - d) {
      PreorderRooted(byId, blocks, kids[0], d, b);
    } else {
      WalkRooted(byId, blocks, kids[1..], d, b);
    }
  }

  /**
   * The walk visits every block whose parent chain reaches a root exactly once, and no block on or
   * below a cycle of parent links.
   */
  lemma VisitedOnceIffRooted(byId: Index, blocks: seq<Block>, b: Block)
    requires Forest(byId, blocks)
    ensures multiset(Visited(byId, blocks))[b] == if b in blocks && Rooted(byId, b.id) then 1 else 0
  {
    var roots := WithParent(blocks, None);
    RootLevel(byId, blocks);
    if b in blocks && Rooted(byId, b.id) {
      var n: nat :| AtDepth(byId, b.id, n);
      WalkCount(byId, blocks, roots, 0, b, n);
      var top := byId[Ancestor(byId, b.id, n, n)];
      ForestOnce(byId, blocks, top);
      WithParentOnce(blocks, None);
    } else if b in Visited(byId, blocks) {
      WalkRooted(byId, blocks, roots, 0, b);
    }
  }

  /** The walk covers all blocks, each once, if and only if every parent chain reaches a root. */
  lemma VisitsAllIffRooted(byId: Index, blocks: seq<Block>)
    requires Forest(byId, blocks)
    ensures multiset(Visited(byId, blocks)) == multiset(blocks) <==> forall b :: b in blocks ==> Rooted(byId, b.id)
  {
    forall b
      ensures multiset(Visited(byId, blocks))[b] == if b in blocks && Rooted(byId, b.id) then 1 else 0
      ensures multiset(blocks)[b] == if b in blocks then 1 else 0
    {
      VisitedOnceIffRooted(byId, blocks, b);
      if b in blocks { ForestOnce(byId, blocks, b); }
    }
  }

  /** Every block is a child of a block listed before it, or of one already known. */
  predicate ParentsFirst(s: seq<Block>, known: set<Id>) {
    s == [] || ((s[0].parent.Some? ==> s[0].parent.value in known) && ParentsFirst(s[1..], known + {s[0].id}))
  }

  lemma {:induction false} ParentsFirstConcat(a: seq<Block>, b: seq<Block>, known: set<Id>, more: set<Id>)
    requires ParentsFirst(a, known) && ParentsFirst(b, known) && known <= more
    ensures ParentsFirst(a + b, more)
    decreases |a| + |b|
  {
    if a != [] {
      ParentsFirstMore(b, known, known + {a[0].id});
      ParentsFirstConcat(a[1..], b, known + {a[0].id}, more + {a[0].id});
      assert (a + b)[1..] == a[1..] + b;
    } else {
      assert a + b == b;
      ParentsFirstMore(b, known, more);
    }
  }

  lemma {:induction false} ParentsFirstMore(s: seq<Block>, known: set<Id>, more: set<Id>)
    requires ParentsFirst(s, known) && known <= more
    ensures ParentsFirst(s, more)
  {
    if s != [] {
      ParentsFirstMore(s[1..], known + {s[0].id}, more + {s[0].id});
    }
  }

  /** A walk lists a block only after its parent. */
  lemma {:induction false} WalkParentsFirst(blocks: seq<Block>, kids: seq<Block>, levels: nat, known: set<Id>)
    requires forall k :: k in kids && k.parent.Some? ==> k.parent.value in known
    ensures ParentsFirst(Walk(blocks, kids, levels), known)
    decreases levels, |kids|
  {
    if kids != [] {
      var top := kids[0];
      if levels > 0 {
        WithParentMembers(blocks, Some(top.id));
        WalkParentsFirst(blocks, WithParent(blocks, Some(top.id)), levels - 1, known + {top.id});
        PreorderParentsFirst(blocks, top, levels, known);
      }
      WalkParentsFirst(blocks, kids[1..], levels, known);
      ParentsFirstConcat(Preorder(blocks, top, levels), Walk(blocks, kids[1..], levels), known, known);
    }
  }

  lemma PreorderParentsFirst(blocks: seq<Block>, top: Block, levels: nat, known: set<Id>)
    requires levels > 0 && (top.parent.Some? ==> top.parent.value in known)
    requires ParentsFirst(Walk(blocks, WithParent(blocks, Some(top.id)), levels - 1), known + {top.id})
    ensures ParentsFirst(Preorder(blocks, top, levels), known)
  {
  }

  // ---------- the code ----------

  function ChildList(children: map<Id, seq<Block>>, id: Id): seq<Block> {
    if id in children then children[id] else []
  }

  /** The children dictionary: blocks with a parent, grouped by it in list order. */
  ghost predicate ChildrenOf(children: map<Id, seq<Block>>, blocks: seq<Block>) {
    forall id :: ChildList(children, id) == WithParent(blocks, Some(id))
  }

  /** Sorting the children of a block again changes nothing. */
  ghost predicate ChildrenSorted(children: map<Id, seq<Block>>, blocks: seq<Block>) {
    forall id :: Sorting.Sort(LocationLeq, ChildList(children, id)) == WithParent(blocks, Some(id))
  }

  lemma ChildrenStaySorted(children: map<Id, seq<Block>>, blocks: seq<Block>)
    requires Sorting.SortedBy(LocationLeq, blocks) && ChildrenOf(children, blocks)
    ensures ChildrenSorted(children, blocks)
  {
    forall id ensures Sorting.Sort(LocationLeq, ChildList(children, id)) == WithParent(blocks, Some(id)) {
      WithParentSorted(blocks, Some(id));
      Sorting.SortKeeps(LocationLeq, WithParent(blocks, Some(id)));
    }
  }

  lemma ChildrenAppend(children: map<Id, seq<Block>>, blocks: seq<Block>, b: Block)
    requires ChildrenOf(children, blocks)
    ensures b.parent.Some? ==>
      ChildrenOf(children[b.parent.value := ChildList(children, b.parent.value) + [b]], blocks + [b])
    ensures b.parent.None? ==> ChildrenOf(children, blocks + [b])
    ensures WithParent(blocks + [b], None) == WithParent(blocks, None) + Own(b, None)
  {
    forall p ensures WithParent(blocks + [b], p) == WithParent(blocks, p) + Own(b, p) {
      WithParentAppend(blocks, b, p);
    }
    if b.parent.Some? {
      var after := children[b.parent.value := ChildList(children, b.parent.value) + [b]];
      forall id ensures ChildList(after, id) == WithParent(blocks + [b], Some(id)) {
        assert ChildList(children, id) == WithParent(blocks, Some(id));
      }
    } else {
      forall id ensures ChildList(children, id) == WithParent(blocks + [b], Some(id)) {
        assert ChildList(children, id) == WithParent(blocks, Some(id));
      }
    }
  }

  method SplitRoots(sorted: seq<Block>) returns (children: map<Id, seq<Block>>, roots: seq<Block>)
    ensures ChildrenOf(children, sorted) && roots == WithParent(sorted, None)
  {
    children, roots := map[], [];
    for i := 0 to |sorted|
      invariant ChildrenOf(children, sorted[..i]) && roots == WithParent(sorted[..i], None)
    {
      var block := sorted[i];
      assert sorted[..i + 1] == sorted[..i] + [block];
      ChildrenAppend(children, sorted[..i], block);
      if block.parent.Some? {
        var p := block.parent.value;
        children := children[p := ChildList(children, p) + [block]];
      } else {
        roots := roots + [block];
      }
    }
    assert sorted[..|sorted|] == sorted;
  }

  /** Following children from b ends within a number of levels. */
  ghost predicate Ends(blocks: seq<Block>, b: Block, levels: nat)
    decreases levels
  {
    levels > 0 && forall k :: k in WithParent(blocks, Some(b.id)) ==> Ends(blocks, k, levels - 1)
  }

  /** Below a block whose parent chain reaches a root there is no cycle. */
  lemma {:induction false} RootedEnds(byId: Index, blocks: seq<Block>, b: Block, depth: nat)
    requires Forest(byId, blocks) && b in blocks && AtDepth(byId, b.id, depth)
    ensures depth < |byId| && Ends(blocks, b, |byId| - depth)
    decreases |byId| - depth
  {
    ChildLevel(byId, blocks, b, depth);
    forall k | k in WithParent(blocks, Some(b.id)) ensures Ends(blocks, k, |byId| - depth - 1) {
      RootedEnds(byId, blocks, k, depth + 1);
    }
  }

  /** `descendants` ends for every root, cycles of parent links elsewhere notwithstanding. */
  method Descendants(children: map<Id, seq<Block>>, root: Block, ghost sorted: seq<Block>, ghost levels: nat)
    returns (result: seq<Block>)
    requires ChildrenSorted(children, sorted) && Ends(sorted, root, levels)
    ensures result == Preorder(sorted, root, levels)
    decreases levels
  {
    result := [root];
    var kids := Sorting.Sort(LocationLeq, ChildList(children, root.id));
    assert kids == WithParent(sorted, Some(root.id));
    ghost var rest := kids;
    for i := 0 to |kids|
      invariant rest == kids[i..]
      invariant result + Walk(sorted, rest, levels - 1) == Preorder(sorted, root, levels)
    {
      KidEnds(sorted, root, levels, kids[i]);
      var below := Descendants(children, kids[i], sorted, levels - 1);
      WalkStep(sorted, rest, levels - 1, result);
      result := result + below;
      rest := rest[1..];
    }
  }

  lemma KidEnds(blocks: seq<Block>, b: Block, levels: nat, kid: Block)
    requires Ends(blocks, b, levels) && kid in WithParent(blocks, Some(b.id))
    ensures levels > 0 && Ends(blocks, kid, levels - 1)
  {
  }

  lemma WalkStep(blocks: seq<Block>, kids: seq<Block>, levels: nat, before: seq<Block>)
    requires kids != []
    ensures before + Walk(blocks, kids, levels) ==
            (before + Preorder(blocks, kids[0], levels)) + Walk(blocks, kids[1..], levels)
  {
  }
}

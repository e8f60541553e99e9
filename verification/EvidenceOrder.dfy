/**
 * The order in which the walk visits blocks: depth first, every subtree in one piece, and siblings
 * in location order.
 */
module EvidenceOrder {
  import opened Options
  import opened EvidenceForest
  import Sorting

  /** Siblings to be walked: at one depth, in location order, each once. */
  ghost predicate Lined(byId: Index, blocks: seq<Block>, kids: seq<Block>, d: nat) {
    && Forest(byId, blocks) && d <= |byId|
    && Level(byId, blocks, kids, d)
    && Sorting.SortedBy(LocationLeq, kids)
    && Once(kids)
  }

  ghost predicate Once(kids: seq<Block>) {
    forall b :: multiset(kids)[b] <= 1
  }

  lemma LinedTail(byId: Index, blocks: seq<Block>, kids: seq<Block>, d: nat)
    requires Lined(byId, blocks, kids, d) && kids != []
    ensures Lined(byId, blocks, kids[1..], d)
    ensures kids[0] !in kids[1..]
  {
    assert kids == [kids[0]] + kids[1..];
    forall b ensures multiset(kids[1..])[b] <= 1 { assert multiset(kids)[b] <= 1; }
    assert multiset(kids)[kids[0]] == 1 + multiset(kids[1..])[kids[0]];
  }

  lemma LinedBelow(byId: Index, blocks: seq<Block>, kids: seq<Block>, d: nat)
    requires Lined(byId, blocks, kids, d) && kids != [] && Sorting.SortedBy(LocationLeq, blocks)
    ensures d < |byId| && Lined(byId, blocks, WithParent(blocks, Some(kids[0].id)), d + 1)
  {
    ChildLevel(byId, blocks, kids[0], d);
    WithParentSorted(blocks, Some(kids[0].id));
    ChildrenOnce(byId, blocks, Some(kids[0].id));
  }

  lemma ChildrenOnce(byId: Index, blocks: seq<Block>, parent: Option<Id>)
    requires Forest(byId, blocks)
    ensures Once(WithParent(blocks, parent))
  {
    WithParentOnce(blocks, parent);
  }

  /** Where the parent chain of a block stood k levels above it. */
  lemma {:induction false} UpIsAncestor(byId: Index, id: Id, n: nat, k: nat)
    requires AtDepth(byId, id, n) && k <= n
    ensures Up(byId, id, k) == Some(Ancestor(byId, id, n, k))
    decreases k
  {
    if k > 0 { UpIsAncestor(byId, byId[id].parent.value, n - 1, k - 1); }
  }

  lemma {:induction false} UpUp(byId: Index, id: Id, a: nat, b: nat)
    requires Up(byId, id, a).Some?
    ensures Up(byId, id, a + b) == Up(byId, Up(byId, id, a).value, b)
    decreases a
  {
    if a > 0 { UpUp(byId, byId[id].parent.value, a - 1, b); }
  }

  /** A block in a walk has its depth, and above it, at the depth of the walk, one of the blocks walked. */
  lemma BelowKids(byId: Index, blocks: seq<Block>, kids: seq<Block>, d: nat, b: Block) returns (n: nat, top: Block)
    requires Forest(byId, blocks) && d <= |byId| && Level(byId, blocks, kids, d)
    requires b in Walk(blocks, kids, |byId| - d)
    ensures b in blocks && b.id in byId && byId[b.id] == b
    ensures AtDepth(byId, b.id, n) && n >= d && top in kids && Up(byId, b.id, n - d) == Some(top.id)
  {
    WalkRooted(byId, blocks, kids, d, b);
    n :| AtDepth(byId, b.id, n);
    WalkCount(byId, blocks, kids, d, b, n);
    assert multiset(Walk(blocks, kids, |byId| - d))[b] > 0;
    UpIsAncestor(byId, b.id, n, n - d);
    top := byId[Ancestor(byId, b.id, n, n - d)];
    assert multiset(kids)[top] > 0;
  }

  lemma BelowTop(byId: Index, blocks: seq<Block>, top: Block, d: nat, b: Block) returns (n: nat)
    requires Forest(byId, blocks) && d <= |byId| && Level(byId, blocks, [top], d)
    requires b in Preorder(blocks, top, |byId| - d)
    ensures b in blocks && b.id in byId && byId[b.id] == b
    ensures AtDepth(byId, b.id, n) && n >= d && Up(byId, b.id, n - d) == Some(top.id)
  {
    assert Walk(blocks, [top], |byId| - d) == Preorder(blocks, top, |byId| - d) + Walk(blocks, [], |byId| - d);
    var found;
    n, found := BelowKids(byId, blocks, [top], d, b);
  }

  lemma SameDepth(byId: Index, a: Id, b: Id, n: nat, m: nat)
    requires AtDepth(byId, a, n) && AtDepth(byId, b, m) && byId[a].parent == byId[b].parent
    ensures n == m
    ensures forall k: nat :: 0 < k ==> Up(byId, a, k) == Up(byId, b, k)
  {
    if n > 0 && m > 0 { DepthUnique(byId, byId[a].parent.value, n - 1, m - 1); }
  }

  /** The walk of the first block, then those of the others. */
  lemma WalkParts(blocks: seq<Block>, kids: seq<Block>, levels: nat)
    requires kids != [] && levels > 0
    ensures var below := Walk(blocks, WithParent(blocks, Some(kids[0].id)), levels - 1);
      Preorder(blocks, kids[0], levels) == [kids[0]] + below &&
      Walk(blocks, kids, levels) == [kids[0]] + below + Walk(blocks, kids[1..], levels)
  {
  }

  // ---------- siblings ----------

  /** No block below `top` is a sibling of a block walked after it, other than `top` itself. */
  lemma SiblingsAcross(byId: Index, blocks: seq<Block>, kids: seq<Block>, d: nat, x: Block, y: Block)
    requires Lined(byId, blocks, kids, d) && kids != []
    requires x in Preorder(blocks, kids[0], |byId| - d) && y in Walk(blocks, kids[1..], |byId| - d)
    requires x.parent == y.parent
    ensures LocationLeq(x, y)
  {
    LinedTail(byId, blocks, kids, d);
    var n := BelowTop(byId, blocks, kids[0], d, x);
    var m, top := BelowKids(byId, blocks, kids[1..], d, y);
    SameDepth(byId, x.id, y.id, n, m);
    assert kids[0].id in byId && byId[kids[0].id] == kids[0];
    assert top.id in byId && byId[top.id] == top;
    var up: nat := n - d;
    assert up > 0 ==> Up(byId, x.id, up) == Up(byId, y.id, up);
  }

  ghost predicate SiblingsOrdered(s: seq<Block>) {
    forall i, j :: 0 <= i < j < |s| && s[i].parent == s[j].parent ==> LocationLeq(s[i], s[j])
  }

  ghost predicate SiblingsFollow(s: seq<Block>, after: seq<Block>) {
    forall x, y :: x in s && y in after && x.parent == y.parent ==> LocationLeq(x, y)
  }

  lemma OrderedParts(top: Block, below: seq<Block>, after: seq<Block>)
    requires SiblingsOrdered(below) && SiblingsOrdered(after)
    requires forall b :: b in below ==> b.parent != top.parent
    requires SiblingsFollow([top] + below, after)
    ensures SiblingsOrdered([top] + below + after)
  {
    var s := [top] + below + after;
    forall i, j | 0 <= i < j < |s| && s[i].parent == s[j].parent ensures LocationLeq(s[i], s[j]) {
      if i > |below| {
        assert s[i] == after[i - 1 - |below|] && s[j] == after[j - 1 - |below|];
      } else if j > |below| {
        assert s[i] == ([top] + below)[i] && s[j] == after[j - 1 - |below|];
      } else {
        assert s[j] == below[j - 1];
        if i > 0 { assert s[i] == below[i - 1]; }
      }
    }
  }

  lemma AllAcross(byId: Index, blocks: seq<Block>, kids: seq<Block>, d: nat)
    requires Lined(byId, blocks, kids, d) && kids != []
    ensures SiblingsFollow(Preorder(blocks, kids[0], |byId| - d), Walk(blocks, kids[1..], |byId| - d))
  {
    var s, after := Preorder(blocks, kids[0], |byId| - d), Walk(blocks, kids[1..], |byId| - d);
    forall x, y | x in s && y in after && x.parent == y.parent ensures LocationLeq(x, y) {
      SiblingsAcross(byId, blocks, kids, d, x, y);
    }
  }

  lemma SiblingsStep(byId: Index, blocks: seq<Block>, kids: seq<Block>, d: nat)
    requires Lined(byId, blocks, kids, d) && kids != [] && d < |byId|
    requires SiblingsOrdered(Walk(blocks, WithParent(blocks, Some(kids[0].id)), |byId| - d - 1))
    requires SiblingsOrdered(Walk(blocks, kids[1..], |byId| - d))
    ensures SiblingsOrdered(Walk(blocks, kids, |byId| - d))
  {
    var top, below := kids[0], Walk(blocks, WithParent(blocks, Some(kids[0].id)), |byId| - d - 1);
    var after := Walk(blocks, kids[1..], |byId| - d);
    WalkParts(blocks, kids, |byId| - d);
    forall b | b in below ensures b.parent != top.parent { NoSiblingBelow(byId, blocks, top, d, b); }
    AllAcross(byId, blocks, kids, d);
    OrderedParts(top, below, after);
  }

  /** Siblings are visited in location order. */
  lemma {:induction false} SiblingsInOrder(byId: Index, blocks: seq<Block>, kids: seq<Block>, d: nat)
    requires Lined(byId, blocks, kids, d) && Sorting.SortedBy(LocationLeq, blocks)
    ensures SiblingsOrdered(Walk(blocks, kids, |byId| - d))
    decreases |byId| - d, |kids|
  {
    if kids != [] {
      LinedTail(byId, blocks, kids, d);
      LinedBelow(byId, blocks, kids, d);
      SiblingsInOrder(byId, blocks, WithParent(blocks, Some(kids[0].id)), d + 1);
      SiblingsInOrder(byId, blocks, kids[1..], d);
      SiblingsStep(byId, blocks, kids, d);
    }
  }

  lemma NoSiblingBelow(byId: Index, blocks: seq<Block>, top: Block, d: nat, b: Block)
    requires Forest(byId, blocks) && top in blocks && AtDepth(byId, top.id, d) && d < |byId|
    requires b in Walk(blocks, WithParent(blocks, Some(top.id)), |byId| - d - 1)
    ensures b.parent != top.parent
  {
    ChildLevel(byId, blocks, top, d);
    var n, kid := BelowKids(byId, blocks, WithParent(blocks, Some(top.id)), d + 1, b);
    if b.parent == top.parent { SameDepth(byId, b.id, top.id, n, d); }
  }

  // ---------- subtrees ----------

  /** The parent chain of x passes through a. */
  ghost predicate Under(byId: Index, x: Block, a: Block) {
    exists m: nat :: Up(byId, x.id, m) == Some(a.id)
  }

  /** A block walked after another sibling's subtree is not under a block of that subtree. */
  lemma NotUnderAcross(byId: Index, blocks: seq<Block>, kids: seq<Block>, d: nat, a: Block, x: Block)
    requires Lined(byId, blocks, kids, d) && kids != []
    requires a in Preorder(blocks, kids[0], |byId| - d) && x in Walk(blocks, kids[1..], |byId| - d)
    ensures !Under(byId, x, a)
  {
    LinedTail(byId, blocks, kids, d);
    var n := BelowTop(byId, blocks, kids[0], d, a);
    var m, top := BelowKids(byId, blocks, kids[1..], d, x);
    if up: nat :| Up(byId, x.id, up) == Some(a.id) {
      UpFromDepth(byId, x.id, m, up);
      DepthUnique(byId, a.id, n, m - up);
      UpUp(byId, x.id, up, n - d);
    }
  }

  ghost predicate SubtreesWhole(byId: Index, s: seq<Block>) {
    forall i, j, k :: 0 <= i < j < k < |s| && Under(byId, s[k], s[i]) ==> Under(byId, s[j], s[i])
  }

  lemma PartAt(top: Block, below: seq<Block>, after: seq<Block>, k: nat)
    requires k <= |below| + |after|
    ensures var b := ([top] + below + after)[k];
      if k <= |below| then b in [top] + below else b in after
  {
  }

  lemma WholeParts(byId: Index, top: Block, below: seq<Block>, after: seq<Block>)
    requires SubtreesWhole(byId, below) && SubtreesWhole(byId, after)
    requires forall b :: b in below ==> Under(byId, b, top)
    requires forall a, x :: a in [top] + below && x in after ==> !Under(byId, x, a)
    ensures SubtreesWhole(byId, [top] + below + after)
  {
    var s := [top] + below + after;
    forall i, j, k | 0 <= i < j < k < |s| && Under(byId, s[k], s[i]) ensures Under(byId, s[j], s[i]) {
      if i > |below| {
        assert s[i] == after[i - 1 - |below|] && s[j] == after[j - 1 - |below|] && s[k] == after[k - 1 - |below|];
      } else {
        PartAt(top, below, after, i);
        PartAt(top, below, after, k);
        assert s[j] == below[j - 1];
        if i > 0 { assert s[i] == below[i - 1] && s[k] == below[k - 1]; }
      }
    }
  }

  lemma SubtreesStep(byId: Index, blocks: seq<Block>, kids: seq<Block>, d: nat)
    requires Lined(byId, blocks, kids, d) && kids != [] && d < |byId|
    requires SubtreesWhole(byId, Walk(blocks, WithParent(blocks, Some(kids[0].id)), |byId| - d - 1))
    requires SubtreesWhole(byId, Walk(blocks, kids[1..], |byId| - d))
    ensures SubtreesWhole(byId, Walk(blocks, kids, |byId| - d))
  {
    var top, below := kids[0], Walk(blocks, WithParent(blocks, Some(kids[0].id)), |byId| - d - 1);
    var after := Walk(blocks, kids[1..], |byId| - d);
    WalkParts(blocks, kids, |byId| - d);
    forall b | b in below ensures Under(byId, b, top) { var n := BelowTop(byId, blocks, top, d, b); }
    forall a, x | a in [top] + below && x in after ensures !Under(byId, x, a) {
      NotUnderAcross(byId, blocks, kids, d, a, x);
    }
    WholeParts(byId, top, below, after);
  }

  /** The walk is depth first: what is visited between a block and one under it is under it too. */
  lemma {:induction false} SubtreesTogether(byId: Index, blocks: seq<Block>, kids: seq<Block>, d: nat)
    requires Lined(byId, blocks, kids, d) && Sorting.SortedBy(LocationLeq, blocks)
    ensures SubtreesWhole(byId, Walk(blocks, kids, |byId| - d))
    decreases |byId| - d, |kids|
  {
    if kids != [] {
      LinedTail(byId, blocks, kids, d);
      LinedBelow(byId, blocks, kids, d);
      SubtreesTogether(byId, blocks, WithParent(blocks, Some(kids[0].id)), d + 1);
      SubtreesTogether(byId, blocks, kids[1..], d);
      SubtreesStep(byId, blocks, kids, d);
    }
  }

  // ---------- the whole walk ----------

  lemma RootsLined(byId: Index, blocks: seq<Block>)
    requires Forest(byId, blocks) && Sorting.SortedBy(LocationLeq, blocks)
    ensures Lined(byId, blocks, WithParent(blocks, None), 0)
  {
    RootLevel(byId, blocks);
    WithParentSorted(blocks, None);
    ChildrenOnce(byId, blocks, None);
  }

  /** All blocks are visited depth first, roots and siblings in location order. */
  lemma VisitedInOrder(byId: Index, blocks: seq<Block>)
    requires Forest(byId, blocks) && Sorting.SortedBy(LocationLeq, blocks)
    ensures SiblingsOrdered(Visited(byId, blocks)) && SubtreesWhole(byId, Visited(byId, blocks))
  {
    RootsLined(byId, blocks);
    SiblingsInOrder(byId, blocks, WithParent(blocks, None), 0);
    SubtreesTogether(byId, blocks, WithParent(blocks, None), 0);
  }
}

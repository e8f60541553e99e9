/**
 * What a compilation holds, said of the blocks given: the text of every chunk, the blocks it cites
 * and in which order, and how chunks hang together.
 */
module EvidenceResult {
  import opened Options
  import opened EvidenceForest
  import opened EvidenceOrder
  import opened ChunkPacking
  import opened EvidenceStructure
  import Sorting

  // ---------- which inputs pass ----------

  /** The checks, in the order of the code. */
  lemma CheckIs(max: nat, blocks: seq<Block>)
    ensures Check(max, blocks) == Some(ChunkSizeTooSmall) <==> max < 128
    ensures max >= 128 ==> (Check(max, blocks) == Some(NoBlocks) <==> |blocks| == 0)
    ensures max >= 128 && |blocks| > 0 ==>
      && (Check(max, blocks) == Some(MixedDocuments) <==> exists b :: b in blocks && b.document != blocks[0].document)
      && (Check(max, blocks) == Some(MixedSources) <==>
            && (exists b :: b in blocks && b.source != blocks[0].source)
            && (forall b :: b in blocks ==> b.document == blocks[0].document))
      && (Check(max, blocks) == Some(DuplicateIds) <==>
            && (exists i, j :: 0 <= i < j < |blocks| && blocks[i].id == blocks[j].id)
            && (forall b :: b in blocks ==> b.document == blocks[0].document && b.source == blocks[0].source))
    ensures Check(max, blocks) == None <==>
      && max >= 128 && |blocks| > 0
      && (forall b :: b in blocks ==>
            b.document == blocks[0].document && b.source == blocks[0].source && LinksLead(blocks, b))
      && (forall i, j :: 0 <= i < j < |blocks| ==> blocks[i].id != blocks[j].id)
    ensures Check(max, blocks).Some? ==>
      var e := Check(max, blocks).value;
      e.MissingParent? || e.MissingReference? ==> exists b :: b in blocks && IsDangling(blocks, b, e)
  {
    FirstMissingIs(blocks, blocks);
  }

  /** Every link of a block leads to one of the blocks. */
  ghost predicate LinksLead(blocks: seq<Block>, b: Block) {
    && (b.parent.Some? ==> exists x :: x in blocks && x.id == b.parent.value)
    && (forall id :: id in b.related ==> exists x :: x in blocks && x.id == id)
  }

  /** A missing link is one of some block, of the kind reported, to an id no block has. */
  ghost predicate IsDangling(blocks: seq<Block>, b: Block, e: Error) {
    match e
    case MissingParent(id) => b.parent == Some(id) && forall x :: x in blocks ==> x.id != id
    case MissingReference(id) => id in b.related && forall x :: x in blocks ==> x.id != id
    case _ => false
  }

  lemma {:induction false} FirstMissingIs(blocks: seq<Block>, rest: seq<Block>)
    ensures FirstMissing(blocks, rest).None? <==> forall b :: b in rest ==> LinksLead(blocks, b)
    ensures FirstMissing(blocks, rest).Some? ==>
      exists b :: b in rest && IsDangling(blocks, b, FirstMissing(blocks, rest).value)
  {
    if rest != [] {
      assert rest == [rest[0]] + rest[1..];
      HeadMissingIs(blocks, rest);
      FirstMissingIs(blocks, rest[1..]);
    }
  }

  /** Either the first block's links all lead somewhere and the search goes on, or one of them is reported. */
  lemma HeadMissingIs(blocks: seq<Block>, rest: seq<Block>)
    requires rest != []
    ensures
      if LinksLead(blocks, rest[0]) then FirstMissing(blocks, rest) == FirstMissing(blocks, rest[1..])
      else FirstMissing(blocks, rest).Some? && IsDangling(blocks, rest[0], FirstMissing(blocks, rest).value)
  {
    MissingAmongIs(blocks, rest[0].related);
  }

  lemma {:induction false} MissingAmongIs(blocks: seq<Block>, related: seq<Id>)
    ensures MissingAmong(blocks, related).None? <==> forall id :: id in related ==> Known(blocks, id)
    ensures MissingAmong(blocks, related).Some? ==>
      exists id :: id in related && !Known(blocks, id) && MissingAmong(blocks, related).value == MissingReference(id)
  {
    if related != [] { MissingAmongIs(blocks, related[1..]); }
  }

  // ---------- where a chunk comes from ----------

  /** The run of chunks of one root that a chunk belongs to. */
  lemma {:induction false} Located(packings: seq<seq<seq<Block>>>, index: nat, k: nat)
    returns (r: nat, before: seq<Chunk>, after: seq<Chunk>)
    requires k < |AllChunks(packings, index)|
    ensures r < |packings| && |before| <= k < |before| + |packings[r]|
    ensures AllChunks(packings, index) == before + Numbered(packings[r], index + |before|, None) + after
  {
    var first, rest, from := Numbered(packings[0], index, None), packings[1..], index + |packings[0]|;
    NumberedLength(packings[0], index, None);
    assert AllChunks(packings, index) == first + AllChunks(rest, from);
    if k < |first| {
      r, before, after := 0, [], AllChunks(rest, from);
      assert [] + first == first;
    } else {
      r, before, after := Located(rest, from, k - |first|);
      JoinRuns(first, before, Numbered(rest[r], from + |before|, None), after);
      before, r := first + before, r + 1;
    }
  }

  lemma JoinRuns(a: seq<Chunk>, b: seq<Chunk>, c: seq<Chunk>, d: seq<Chunk>)
    ensures a + (b + c + d) == (a + b) + c + d
  {
  }

  /** The chunks of the root with the given number. */
  ghost function PartsOf(max: nat, blocks: seq<Block>, r: nat): seq<seq<Block>>
    requires r < |Roots(blocks)|
  {
    Pack(max, [], GroupOf(blocks, r))
  }

  ghost function Roots(blocks: seq<Block>): seq<Block> {
    WithParent(Sorting.Sort(LocationLeq, blocks), None)
  }

  ghost function GroupOf(blocks: seq<Block>, r: nat): seq<Block>
    requires r < |Roots(blocks)|
  {
    Preorder(Sorting.Sort(LocationLeq, blocks), Roots(blocks)[r], |IndexOf(blocks)|)
  }

  lemma {:induction false} PackingsAt(max: nat, blocks: seq<Block>, roots: seq<Block>, levels: nat, r: nat)
    requires r < |roots|
    ensures |Packings(max, blocks, roots, levels)| == |roots|
    ensures Packings(max, blocks, roots, levels)[r] == Pack(max, [], Preorder(blocks, roots[r], levels))
  {
    if |roots| > 1 { PackingsAt(max, blocks, roots[1..], levels, if r > 0 then r - 1 else 0); }
  }

  lemma PackingsSize(max: nat, blocks: seq<Block>, roots: seq<Block>, levels: nat)
    ensures |Packings(max, blocks, roots, levels)| == |roots|
  {
    if roots != [] { PackingsAt(max, blocks, roots, levels, 0); }
  }

  /** A root's chunks stand together in the list, from place f on; all but the first name the first. */
  ghost predicate StandsAt(all: seq<Chunk>, parts: seq<seq<Block>>, f: nat) {
    && f + |parts| <= |all|
    && forall m :: f <= m < f + |parts| ==>
         all[m] == MakeChunk(parts[m - f], m, if m == f then None else Some(ChunkId(f, Ids(parts[0]))))
  }

  lemma NumberedStands(before: seq<Chunk>, parts: seq<seq<Block>>, after: seq<Chunk>)
    ensures StandsAt(before + Numbered(parts, |before|, None) + after, parts, |before|)
  {
    NumberedLength(parts, |before|, None);
    var all, f := before + Numbered(parts, |before|, None) + after, |before|;
    forall m | f <= m < f + |parts|
      ensures all[m] == MakeChunk(parts[m - f], m, if m == f then None else Some(ChunkId(f, Ids(parts[0]))))
    {
      NumberedAt(parts, f, None, m - f);
      assert all[m] == Numbered(parts, f, None)[m - f];
    }
  }

  /** Which root a chunk belongs to, and where that root's chunks start. */
  lemma Origin(max: nat, blocks: seq<Block>, k: nat) returns (r: nat, f: nat)
    requires k < |Compiled(max, blocks)|
    ensures r < |Roots(blocks)| && f <= k < f + |PartsOf(max, blocks, r)|
    ensures StandsAt(Compiled(max, blocks), PartsOf(max, blocks, r), f)
  {
    var ordered, levels := Sorting.Sort(LocationLeq, blocks), |IndexOf(blocks)|;
    PackingsSize(max, ordered, Roots(blocks), levels);
    r, f := OriginIn(Packings(max, ordered, Roots(blocks), levels), k);
    PackingsAt(max, ordered, Roots(blocks), levels, r);
  }

  lemma OriginIn(packings: seq<seq<seq<Block>>>, k: nat) returns (r: nat, f: nat)
    requires k < |AllChunks(packings, 0)|
    ensures r < |packings| && f <= k < f + |packings[r]|
    ensures StandsAt(AllChunks(packings, 0), packings[r], f)
  {
    var before, after;
    r, before, after := Located(packings, 0, k);
    f := |before|;
    NumberedStands(before, packings[r], after);
  }

  // ---------- the text of a chunk ----------

  lemma {:induction false} FlattenHas(parts: seq<seq<Block>>, m: nat, b: Block)
    requires m < |parts| && b in parts[m]
    ensures b in Flatten(parts)
  {
    if m > 0 { FlattenHas(parts[1..], m - 1, b); }
  }

  lemma PartsAreBlocks(max: nat, blocks: seq<Block>, r: nat, m: nat)
    requires Distinct(blocks) && r < |Roots(blocks)| && m < |PartsOf(max, blocks, r)|
    ensures var p := PartsOf(max, blocks, r)[m];
      FitsChunk(max, p) && forall b :: b in p ==> b in blocks
  {
    var ordered, parts := Sorting.Sort(LocationLeq, blocks), PartsOf(max, blocks, r);
    ChunksFit(max, GroupOf(blocks, r));
    VisitedFacts(blocks, ordered);
    RootLevel(IndexOf(blocks), ordered);
    forall b | b in parts[m] ensures b in blocks {
      FlattenHas(parts, m, b);
      PreorderRooted(IndexOf(blocks), ordered, Roots(blocks)[r], 0, b);
    }
  }

  /**
   * A chunk's content is, block by block in the order of its ids, the bracketed modality, a blank and
   * the text of the block given, with one line break between any two.
   */
  lemma ChunkSpellsBlocks(max: nat, blocks: seq<Block>, k: nat) returns (cited: seq<Block>)
    requires Distinct(blocks) && k < |Compiled(max, blocks)|
    ensures var c := Compiled(max, blocks)[k];
      && |cited| == |c.ids| > 0
      && (forall i :: 0 <= i < |cited| ==> cited[i] in blocks && cited[i].id == c.ids[i])
      && |c.content| + 1 == Offset(cited, |cited|)
      && (forall i :: 0 <= i < |cited| ==> Spells(c.content, cited, i))
  {
    var r, f := Origin(max, blocks, k);
    PartsAreBlocks(max, blocks, r, k - f);
    cited := PartsOf(max, blocks, r)[k - f];
    ContentLength(cited);
    forall i | 0 <= i < |cited| ensures Spells(Content(cited), cited, i) { ContentSpells(cited, i); }
  }

  // ---------- the fields of a chunk ----------

  /** A chunk's number, id and token estimate: a quarter of its characters rounded up, at least one. */
  lemma ChunkFields(max: nat, blocks: seq<Block>, k: nat)
    requires k < |Compiled(max, blocks)|
    ensures var c := Compiled(max, blocks)[k];
      && c.index == k && c.id == ChunkId(k, c.ids)
      && c.estimatedTokens >= 1 && 4 * c.estimatedTokens >= |c.content|
      && (c.estimatedTokens > 1 ==> 4 * (c.estimatedTokens - 1) < |c.content|)
  {
    var r, f := Origin(max, blocks, k);
  }

  /** Below a root every block has a parent. */
  lemma {:induction false} OnlyRootParentless(blocks: seq<Block>, kids: seq<Block>, levels: nat)
    requires forall b :: b in kids ==> b.parent.Some?
    ensures forall b :: b in Walk(blocks, kids, levels) ==> b.parent.Some?
    decreases levels, |kids|
  {
    if kids != [] {
      if levels > 0 {
        WithParentMembers(blocks, Some(kids[0].id));
        OnlyRootParentless(blocks, WithParent(blocks, Some(kids[0].id)), levels - 1);
        WalkParts(blocks, kids, levels);
      }
      OnlyRootParentless(blocks, kids[1..], levels);
    }
  }

  /** Where block i of piece m stands among all: first only if it is the first of the first piece. */
  lemma {:induction false} FlattenAt(parts: seq<seq<Block>>, m: nat, i: nat) returns (at: nat)
    requires m < |parts| && i < |parts[m]| && forall n :: 0 <= n < |parts| ==> parts[n] != []
    ensures at < |Flatten(parts)| && Flatten(parts)[at] == parts[m][i]
    ensures at == 0 <==> m == 0 && i == 0
  {
    if m == 0 {
      at := i;
    } else {
      assert forall n :: 0 <= n < |parts[1..]| ==> parts[1..][n] == parts[n + 1];
      var later := FlattenAt(parts[1..], m - 1, i);
      at := |parts[0]| + later;
    }
  }

  lemma ParentlessInPart(max: nat, blocks: seq<Block>, r: nat, m: nat, i: nat)
    requires Distinct(blocks) && r < |Roots(blocks)| && m < |PartsOf(max, blocks, r)|
    requires i < |PartsOf(max, blocks, r)[m]|
    ensures PartsOf(max, blocks, r)[m][i].parent.None? <==> m == 0 && i == 0
  {
    var ordered, parts, levels := Sorting.Sort(LocationLeq, blocks), PartsOf(max, blocks, r), |IndexOf(blocks)|;
    var root := Roots(blocks)[r];
    ChunksFit(max, GroupOf(blocks, r));
    WithParentMembers(ordered, None);
    assert root in Roots(blocks);
    WithParentMembers(ordered, Some(root.id));
    OnlyRootParentless(ordered, WithParent(ordered, Some(root.id)), levels - 1);
    assert forall n :: 0 <= n < |parts| ==> parts[n] in parts && FitsChunk(max, parts[n]);
    var at := FlattenAt(parts, m, i);
    assert GroupOf(blocks, r) == [root] + Walk(ordered, WithParent(ordered, Some(root.id)), levels - 1);
  }

  /** Chunk f has no parent, and all chunks after it up to k name it as theirs. */
  ghost predicate NamesFirst(all: seq<Chunk>, f: nat, k: nat)
    requires k < |all|
  {
    f < k && all[f].parent.None? && forall m :: f < m <= k ==> all[m].parent == Some(all[f].id)
  }

  /**
   * Each chunk stays below one root: the chunk without a parent starts with a root, holds no other
   * parentless block, and every chunk that follows up to the next root names it as its parent.
   */
  lemma ChunksNameFirst(max: nat, blocks: seq<Block>, k: nat)
    requires Distinct(blocks) && k < |Compiled(max, blocks)|
    ensures var all := Compiled(max, blocks);
      && (forall i :: 0 <= i < |all[k].ids| ==>
            all[k].ids[i] in IndexOf(blocks)
            && (IndexOf(blocks)[all[k].ids[i]].parent.None? <==> i == 0 && all[k].parent.None?))
      && (all[k].parent.Some? ==>
            exists f: nat :: NamesFirst(all, f, k))
  {
    var r, f := Origin(max, blocks, k);
    RunNamesFirst(Compiled(max, blocks), PartsOf(max, blocks, r), f, k);
    forall i | 0 <= i < |Compiled(max, blocks)[k].ids|
      ensures var id := Compiled(max, blocks)[k].ids[i];
        id in IndexOf(blocks) && (IndexOf(blocks)[id].parent.None? <==> i == 0 && k == f)
    {
      ParentlessCited(max, blocks, r, k - f, i);
    }
  }

  lemma RunNamesFirst(all: seq<Chunk>, parts: seq<seq<Block>>, f: nat, k: nat)
    requires StandsAt(all, parts, f) && f <= k < f + |parts|
    ensures all[k].ids == Ids(parts[k - f])
    ensures all[k].parent.None? <==> k == f
    ensures all[k].parent.Some? ==>
      exists f: nat :: NamesFirst(all, f, k)
  {
    if k > f { assert NamesFirst(all, f, k); }
  }

  lemma ParentlessCited(max: nat, blocks: seq<Block>, r: nat, m: nat, i: nat)
    requires Distinct(blocks) && r < |Roots(blocks)| && m < |PartsOf(max, blocks, r)|
    requires i < |PartsOf(max, blocks, r)[m]|
    ensures var id := Ids(PartsOf(max, blocks, r)[m])[i];
      id in IndexOf(blocks) && (IndexOf(blocks)[id].parent.None? <==> m == 0 && i == 0)
  {
    PartsAreBlocks(max, blocks, r, m);
    DistinctOnce(blocks, PartsOf(max, blocks, r)[m][i]);
    ParentlessInPart(max, blocks, r, m, i);
  }

  /** A chunk below the same root is begun only with a block that no longer fits into the one before. */
  lemma ClosedWhenFull(max: nat, blocks: seq<Block>, k: nat) returns (b: Block)
    requires Distinct(blocks) && k + 1 < |Compiled(max, blocks)| && Compiled(max, blocks)[k + 1].parent.Some?
    ensures var c, next := Compiled(max, blocks)[k], Compiled(max, blocks)[k + 1];
      && b in blocks && |next.ids| > 0 && next.ids[0] == b.id
      && |c.content| + 1 + |b.modality| + 3 + (if b.content.Some? then |b.content.value| else 0) > max
  {
    var r, f := Origin(max, blocks, k + 1);
    b := ClosedInRun(max, blocks, Compiled(max, blocks), r, f, k);
  }

  lemma ClosedInRun(max: nat, blocks: seq<Block>, all: seq<Chunk>, r: nat, f: nat, k: nat) returns (b: Block)
    requires Distinct(blocks) && r < |Roots(blocks)| && StandsAt(all, PartsOf(max, blocks, r), f)
    requires f <= k + 1 < f + |PartsOf(max, blocks, r)| && all[k + 1].parent.Some?
    ensures f <= k && b in blocks && |all[k + 1].ids| > 0 && all[k + 1].ids[0] == b.id
    ensures |all[k].content| + 1 + |b.modality| + 3 + (if b.content.Some? then |b.content.value| else 0) > max
  {
    RunNamesFirst(all, PartsOf(max, blocks, r), f, k + 1);
    b := NextDoesNotFit(max, blocks, r, k - f);
    RunCloses(max, all, PartsOf(max, blocks, r), f, k);
  }

  lemma NextDoesNotFit(max: nat, blocks: seq<Block>, r: nat, j: nat) returns (b: Block)
    requires Distinct(blocks) && r < |Roots(blocks)| && j + 1 < |PartsOf(max, blocks, r)|
    ensures b in blocks && PartsOf(max, blocks, r)[j + 1] != [] && b == PartsOf(max, blocks, r)[j + 1][0]
    ensures |Content(PartsOf(max, blocks, r)[j])| + 1 + |Rendered(b)| > max
  {
    PartsAreBlocks(max, blocks, r, j + 1);
    PackGreedy(max, [], GroupOf(blocks, r), j);
    b := PartsOf(max, blocks, r)[j + 1][0];
  }

  lemma RunCloses(max: nat, all: seq<Chunk>, parts: seq<seq<Block>>, f: nat, k: nat)
    requires StandsAt(all, parts, f) && f <= k && k + 1 < f + |parts|
    requires parts[k + 1 - f] != []
      && |Content(parts[k - f])| + 1 + |Rendered(parts[k + 1 - f][0])| > max
    ensures var b := parts[k + 1 - f][0];
      && |all[k + 1].ids| > 0 && all[k + 1].ids[0] == b.id
      && |all[k].content| + 1 + |b.modality| + 3 + (if b.content.Some? then |b.content.value| else 0) > max
  {
  }

  // ---------- the order of the cited blocks ----------

  /** The block whose id stands at a place of the source map. */
  lemma CitedIs(max: nat, blocks: seq<Block>, i: nat)
    requires Distinct(blocks) && i < |Mapped(Compiled(max, blocks))|
    ensures var visited := Visited(IndexOf(blocks), Sorting.Sort(LocationLeq, blocks));
      && |visited| == |Mapped(Compiled(max, blocks))|
      && Mapped(Compiled(max, blocks))[i] == visited[i].id
      && visited[i].id in IndexOf(blocks) && IndexOf(blocks)[visited[i].id] == visited[i]
  {
    CompiledCitesVisited(max, blocks);
    VisitedFacts(blocks, Sorting.Sort(LocationLeq, blocks));
  }

  /** Roots, and blocks with the same parent, are cited by ascending page or slide, then start, then id. */
  lemma CitedInLocationOrder(max: nat, blocks: seq<Block>, i: nat, j: nat)
    requires Distinct(blocks) && i < j < |Mapped(Compiled(max, blocks))|
    ensures var mapped := Mapped(Compiled(max, blocks));
      && mapped[i] in IndexOf(blocks) && mapped[j] in IndexOf(blocks)
      && var a, b := IndexOf(blocks)[mapped[i]], IndexOf(blocks)[mapped[j]];
         var page := (x: Block) => if x.page.Some? && x.page.value != 0 then x.page.value
                                   else if x.slide.Some? then x.slide.value else 0;
         var start := (x: Block) => if x.start.Some? then x.start.value else 0.0;
         a.parent == b.parent ==>
           || page(a) < page(b)
           || (page(a) == page(b) && start(a) < start(b))
           || (page(a) == page(b) && start(a) == start(b) && a.id < b.id)
  {
    var ordered := Sorting.Sort(LocationLeq, blocks);
    CitedIs(max, blocks, i);
    CitedIs(max, blocks, j);
    LocationOrder();
    Sorting.SortSorted(LocationLeq, blocks);
    VisitedFacts(blocks, ordered);
    VisitedInOrder(IndexOf(blocks), ordered);
    LocationLeqIs(Visited(IndexOf(blocks), ordered)[i], Visited(IndexOf(blocks), ordered)[j]);
    CitedApart(max, blocks, i, j);
  }

  lemma CitedApart(max: nat, blocks: seq<Block>, i: nat, j: nat)
    requires Distinct(blocks) && i < j < |Mapped(Compiled(max, blocks))|
    ensures Mapped(Compiled(max, blocks))[i] != Mapped(Compiled(max, blocks))[j]
  {
    var mapped := Mapped(Compiled(max, blocks));
    CitedOnceIffRooted(max, blocks, mapped[i]);
    TwiceCounts(mapped, i, j);
  }

  lemma TwiceCounts<T>(s: seq<T>, i: nat, j: nat)
    requires i < j < |s| && multiset(s)[s[i]] <= 1
    ensures s[i] != s[j]
  {
    assert s == s[..j] + [s[j]] + s[j + 1..];
    assert s[i] in s[..j];
  }

  /** The source map is depth first: between a block and one below it stand only blocks below it. */
  lemma CitedDepthFirst(max: nat, blocks: seq<Block>, i: nat, j: nat, k: nat, up: nat) returns (less: nat)
    requires Distinct(blocks) && i < j < k < |Mapped(Compiled(max, blocks))|
    requires Up(IndexOf(blocks), Mapped(Compiled(max, blocks))[k], up) == Some(Mapped(Compiled(max, blocks))[i])
    ensures Up(IndexOf(blocks), Mapped(Compiled(max, blocks))[j], less) == Some(Mapped(Compiled(max, blocks))[i])
  {
    var byId, ordered := IndexOf(blocks), Sorting.Sort(LocationLeq, blocks);
    CitedIs(max, blocks, i);
    CitedIs(max, blocks, j);
    CitedIs(max, blocks, k);
    LocationOrder();
    Sorting.SortSorted(LocationLeq, blocks);
    VisitedFacts(blocks, ordered);
    VisitedInOrder(byId, ordered);
    assert Under(byId, Visited(byId, ordered)[k], Visited(byId, ordered)[i]);
    less :| Up(byId, Visited(byId, ordered)[j].id, less) == Some(Visited(byId, ordered)[i].id);
  }
}

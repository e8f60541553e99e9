/** Compilation of evidence blocks into source-mapped chunks. */
module EvidenceStructure {
  import opened Options
  import opened EvidenceForest
  import opened ChunkPacking
  import Sorting

  /** The hash of document, position and evidence ids; one document per compilation. */
  datatype ChunkId = ChunkId(index: nat, ids: seq<Id>)

  datatype Chunk = Chunk(
    id: ChunkId, content: string, ids: seq<Id>, parent: Option<ChunkId>, index: nat, estimatedTokens: nat)

  datatype Error =
    | ChunkSizeTooSmall | NoBlocks | MixedDocuments | MixedSources | DuplicateIds
    | MissingParent(id: Id) | MissingReference(id: Id)
    | NoContent(id: Id)   // the AttributeError of stripping a block without content

  datatype Result = Ok(chunks: seq<Chunk>, sourceMapComplete: bool) | Err(error: Error)

  function Ids(blocks: seq<Block>): seq<Id> {
    seq(|blocks|, i requires 0 <= i < |blocks| => blocks[i].id)
  }

  function MakeChunk(blocks: seq<Block>, index: nat, parent: Option<ChunkId>): Chunk {
    var content := Content(blocks);
    Chunk(ChunkId(index, Ids(blocks)), content, Ids(blocks), parent, index,
          if (|content| + 3) / 4 > 1 then (|content| + 3) / 4 else 1)
  }

  // ---------- validation ----------

  predicate Known(blocks: seq<Block>, id: Id) {
    exists b :: b in blocks && b.id == id
  }

  function MissingAmong(blocks: seq<Block>, related: seq<Id>): Option<Error> {
    if related == [] then None
    else if !Known(blocks, related[0]) then Some(MissingReference(related[0]))
    else MissingAmong(blocks, related[1..])
  }

  /** The first dangling link in list order; within a block the parent comes first. */
  function FirstMissing(blocks: seq<Block>, rest: seq<Block>): Option<Error> {
    if rest == [] then None
    else if rest[0].parent.Some? && !Known(blocks, rest[0].parent.value) then Some(MissingParent(rest[0].parent.value))
    else if MissingAmong(blocks, rest[0].related).Some? then MissingAmong(blocks, rest[0].related)
    else FirstMissing(blocks, rest[1..])
  }

  predicate Distinct(blocks: seq<Block>) {
    forall i, j :: 0 <= i < j < |blocks| ==> blocks[i].id != blocks[j].id
  }

  function Check(max: nat, blocks: seq<Block>): Option<Error> {
    if max < 128 then Some(ChunkSizeTooSmall)
    else if blocks == [] then Some(NoBlocks)
    else if exists b :: b in blocks && b.document != blocks[0].document then Some(MixedDocuments)
    else if exists b :: b in blocks && b.source != blocks[0].source then Some(MixedSources)
    else if !Distinct(blocks) then Some(DuplicateIds)
    else FirstMissing(blocks, blocks)
  }

  lemma {:induction false} FirstMissingNone(blocks: seq<Block>, rest: seq<Block>)
    requires FirstMissing(blocks, rest).None?
    ensures forall b :: b in rest && b.parent.Some? ==> Known(blocks, b.parent.value)
  {
    if rest != [] {
      FirstMissingNone(blocks, rest[1..]);
    }
  }

  // ---------- the block dictionary ----------

  /** The dictionary by id; a later block replaces an earlier one. */
  function IndexOf(blocks: seq<Block>): Index {
    if blocks == [] then map[]
    else
      var last := |blocks| - 1;
      IndexOf(blocks[..last])[blocks[last].id := blocks[last]]
  }

  lemma {:induction false} IndexKeys(blocks: seq<Block>, id: Id)
    ensures id in IndexOf(blocks) <==> Known(blocks, id)
    ensures id in IndexOf(blocks) ==> IndexOf(blocks)[id] in blocks && IndexOf(blocks)[id].id == id
  {
    if blocks != [] {
      var last := |blocks| - 1;
      IndexKeys(blocks[..last], id);
      assert blocks == blocks[..last] + [blocks[last]];
      if blocks[last].id == id { assert blocks[last] in blocks; }
    }
  }

  /** The dictionary has as many entries as there are blocks exactly if no id repeats. */
  lemma {:induction false} IndexSize(blocks: seq<Block>)
    ensures |IndexOf(blocks)| <= |blocks|
    ensures |IndexOf(blocks)| == |blocks| <==> Distinct(blocks)
  {
    if blocks != [] {
      var last := |blocks| - 1;
      var before := blocks[..last];
      IndexSize(before);
      IndexKeys(before, blocks[last].id);
      DistinctSnoc(before, blocks[last]);
      assert blocks == before + [blocks[last]];
      SetSize(IndexOf(before), blocks[last].id, blocks[last]);
    }
  }

  lemma SetSize(byId: Index, id: Id, b: Block)
    ensures |byId[id := b]| == |byId| + if id in byId then 0 else 1
  {
    assert byId[id := b].Keys == byId.Keys + {id};
    assert |byId[id := b].Keys| == |byId[id := b]| && |byId.Keys| == |byId|;
  }

  lemma DistinctSnoc(blocks: seq<Block>, b: Block)
    ensures Distinct(blocks + [b]) <==> Distinct(blocks) && !Known(blocks, b.id)
  {
    var all := blocks + [b];
    if Distinct(all) {
      forall i, j | 0 <= i < j < |blocks| ensures blocks[i].id != blocks[j].id {
        assert all[i].id != all[j].id;
      }
      forall i | 0 <= i < |blocks| ensures blocks[i].id != b.id {
        assert all[i].id != all[|blocks|].id;
      }
    }
  }

  lemma {:induction false} DistinctOnce(blocks: seq<Block>, b: Block)
    requires Distinct(blocks)
    ensures multiset(blocks)[b] <= 1
    ensures b in blocks ==> b.id in IndexOf(blocks) && IndexOf(blocks)[b.id] == b
  {
    if blocks != [] {
      var last := |blocks| - 1;
      assert blocks == blocks[..last] + [blocks[last]];
      DistinctSnoc(blocks[..last], blocks[last]);
      DistinctOnce(blocks[..last], b);
    }
  }

  /** With distinct ids, any ordering of the blocks is indexed by the dictionary. */
  lemma IndexForest(blocks: seq<Block>, ordered: seq<Block>)
    requires Distinct(blocks) && multiset(ordered) == multiset(blocks)
    ensures Forest(IndexOf(blocks), ordered)
  {
    forall b
      ensures multiset(ordered)[b] <= 1
      ensures b in ordered ==> b.id in IndexOf(blocks) && IndexOf(blocks)[b.id] == b
    {
      DistinctOnce(blocks, b);
      assert b in ordered ==> b in multiset(blocks);
    }
    forall id | id in IndexOf(blocks) ensures IndexOf(blocks)[id] in ordered && IndexOf(blocks)[id].id == id {
      IndexKeys(blocks, id);
      assert IndexOf(blocks)[id] in multiset(ordered);
    }
  }

  /** In an input that passes the checks, every parent is among the blocks. */
  lemma AcceptedLinked(max: nat, blocks: seq<Block>)
    requires Check(max, blocks).None?
    ensures Distinct(blocks) && Linked(IndexOf(blocks))
  {
    FirstMissingNone(blocks, blocks);
    forall id | id in IndexOf(blocks) && IndexOf(blocks)[id].parent.Some?
      ensures IndexOf(blocks)[id].parent.value in IndexOf(blocks)
    {
      IndexKeys(blocks, id);
      IndexKeys(blocks, IndexOf(blocks)[id].parent.value);
    }
  }

  // ---------- blocks without content ----------

  /** The first block without content, at which the packing fails. */
  function FirstBlank(blocks: seq<Block>): Option<Id> {
    if blocks == [] then None
    else if blocks[0].content.None? then Some(blocks[0].id)
    else FirstBlank(blocks[1..])
  }

  lemma {:induction false} FirstBlankConcat(a: seq<Block>, b: seq<Block>)
    ensures FirstBlank(a + b) == if FirstBlank(a).Some? then FirstBlank(a) else FirstBlank(b)
  {
    if a != [] {
      FirstBlankConcat(a[1..], b);
      assert (a + b)[1..] == a[1..] + b;
    } else {
      assert a + b == b;
    }
  }

  lemma {:induction false} FirstBlankNone(blocks: seq<Block>)
    ensures FirstBlank(blocks).None? <==> forall b :: b in blocks ==> b.content.Some?
    ensures FirstBlank(blocks).Some? ==>
      exists i :: 0 <= i < |blocks| && blocks[i].id == FirstBlank(blocks).value && blocks[i].content.None?
                  && forall j :: 0 <= j < i ==> blocks[j].content.Some?
  {
    if blocks != [] {
      assert blocks == [blocks[0]] + blocks[1..];
      FirstBlankNone(blocks[1..]);
      if blocks[0].content.Some? && FirstBlank(blocks).Some? {
        var i :| 0 <= i < |blocks[1..]| && blocks[1..][i].id == FirstBlank(blocks).value
          && blocks[1..][i].content.None? && forall j :: 0 <= j < i ==> blocks[1..][j].content.Some?;
        assert blocks[i + 1] == blocks[1..][i];
        forall j | 0 <= j < i + 1 ensures blocks[j].content.Some? {
          if j > 0 { assert blocks[j] == blocks[1..][j - 1]; }
        }
      }
    }
  }

  // ---------- chunks ----------

  /** The chunks of one root, numbered on from `index`; all but the first point to the first. */
  function Numbered(parts: seq<seq<Block>>, index: nat, first: Option<ChunkId>): seq<Chunk> {
    if parts == [] then []
    else
      var c := MakeChunk(parts[0], index, first);
      [c] + Numbered(parts[1..], index + 1, if first.None? then Some(c.id) else first)
  }

  lemma {:induction false} NumberedAt(parts: seq<seq<Block>>, index: nat, first: Option<ChunkId>, k: nat)
    requires k < |parts|
    ensures |Numbered(parts, index, first)| == |parts|
    ensures Numbered(parts, index, first)[k] ==
            MakeChunk(parts[k], index + k,
                      if k == 0 || first.Some? then first else Some(ChunkId(index, Ids(parts[0]))))
  {
    if |parts| > 1 {
      var next := if first.None? then Some(ChunkId(index, Ids(parts[0]))) else first;
      NumberedAt(parts[1..], index + 1, next, if k > 0 then k - 1 else 0);
    }
  }

  lemma NumberedLength(parts: seq<seq<Block>>, index: nat, first: Option<ChunkId>)
    ensures |Numbered(parts, index, first)| == |parts|
  {
    if parts != [] { NumberedAt(parts, index, first, 0); }
  }

  /** The packings of the walks of all roots. */
  ghost function Packings(max: nat, blocks: seq<Block>, roots: seq<Block>, levels: nat): seq<seq<seq<Block>>> {
    if roots == [] then []
    else [Pack(max, [], Preorder(blocks, roots[0], levels))] + Packings(max, blocks, roots[1..], levels)
  }

  /** The chunks of all roots, numbered through. */
  function AllChunks(packings: seq<seq<seq<Block>>>, index: nat): seq<Chunk> {
    if packings == [] then []
    else Numbered(packings[0], index, None) + AllChunks(packings[1..], index + |packings[0]|)
  }

  function Mapped(chunks: seq<Chunk>): seq<Id> {
    if chunks == [] then [] else chunks[0].ids + Mapped(chunks[1..])
  }

  lemma {:induction false} MappedConcat(a: seq<Chunk>, b: seq<Chunk>)
    ensures Mapped(a + b) == Mapped(a) + Mapped(b)
  {
    if a != [] {
      MappedConcat(a[1..], b);
      assert (a + b)[1..] == a[1..] + b;
    } else {
      assert a + b == b;
    }
  }

  lemma {:induction false} NumberedIds(parts: seq<seq<Block>>, index: nat, first: Option<ChunkId>)
    ensures Mapped(Numbered(parts, index, first)) == Ids(Flatten(parts))
  {
    if parts != [] {
      var c := MakeChunk(parts[0], index, first);
      NumberedIds(parts[1..], index + 1, if first.None? then Some(c.id) else first);
    }
  }

  /** The chunks cite the blocks of the walk, each as often and in the order visited. */
  lemma {:induction false} ChunksCiteWalk(max: nat, blocks: seq<Block>, roots: seq<Block>, levels: nat, index: nat)
    ensures Mapped(AllChunks(Packings(max, blocks, roots, levels), index)) == Ids(Walk(blocks, roots, levels))
  {
    if roots != [] {
      var group := Preorder(blocks, roots[0], levels);
      var parts := Pack(max, [], group);
      ChunksFit(max, group);
      NumberedIds(parts, index, None);
      ChunksCiteWalk(max, blocks, roots[1..], levels, index + |parts|);
      AllChunksCons(parts, Packings(max, blocks, roots[1..], levels), index);
      MappedConcat(Numbered(parts, index, None),
                   AllChunks(Packings(max, blocks, roots[1..], levels), index + |parts|));
      IdsConcat(group, Walk(blocks, roots[1..], levels));
    }
  }

  lemma IdsConcat(a: seq<Block>, b: seq<Block>)
    ensures Ids(a + b) == Ids(a) + Ids(b)
  {
  }

  // ---------- the compiler ----------

  /** The packing loop of one root. */
  method PackRoot(group: seq<Block>, max: nat, index: nat) returns (chunks: seq<Chunk>, blank: Option<Id>)
    ensures blank == FirstBlank(group)
    ensures blank.None? ==> chunks == Numbered(Pack(max, [], group), index, None)
  {
    chunks, blank := [], None;
    var current: seq<Block>, currentLength, chunkIndex := [], 0, index;
    var rootChunk: Option<ChunkId> := None;
    ghost var rest := group;
    for i := 0 to |group|
      invariant rest == group[i..] && FirstBlank(rest) == FirstBlank(group)
      invariant currentLength == |Content(current)|
      invariant chunks + Numbered(Pack(max, current, rest), chunkIndex, rootChunk) ==
                Numbered(Pack(max, [], group), index, None)
    {
      var block := group[i];
      if block.content.None? { return chunks, Some(block.id); }
      var rendered := Rendered(block);
      var separator := if current != [] then 1 else 0;
      if current != [] && currentLength + separator + |rendered| > max {
        var chunk := MakeChunk(current, chunkIndex, rootChunk);
        PackCut(max, current, rest, chunkIndex, rootChunk, chunks);
        chunks := chunks + [chunk];
        rootChunk := if rootChunk.None? then Some(chunk.id) else rootChunk;
        chunkIndex := chunkIndex + 1;
        current, currentLength, separator := [], 0, 0;
      }
      PackStay(max, current, rest);
      ContentSnoc(current, block);
      current := current + [block];
      currentLength := currentLength + separator + |rendered|;
      rest := rest[1..];
    }
    if current != [] {
      chunks := chunks + [MakeChunk(current, chunkIndex, rootChunk)];
    }
  }

  lemma PackCut(max: nat, current: seq<Block>, rest: seq<Block>, index: nat, first: Option<ChunkId>, before: seq<Chunk>)
    requires rest != [] && current != [] && |Content(current)| + 1 + |Rendered(rest[0])| > max
    ensures var c := MakeChunk(current, index, first);
      before + Numbered(Pack(max, current, rest), index, first) ==
      (before + [c]) + Numbered(Pack(max, [], rest), index + 1, if first.None? then Some(c.id) else first)
  {
    PackCloses(max, current, rest);
    NumberedCons(current, Pack(max, [], rest), index, first, before);
  }

  lemma NumberedCons(p: seq<Block>, parts: seq<seq<Block>>, index: nat, first: Option<ChunkId>, before: seq<Chunk>)
    ensures var c := MakeChunk(p, index, first);
      before + Numbered([p] + parts, index, first) ==
      (before + [c]) + Numbered(parts, index + 1, if first.None? then Some(c.id) else first)
  {
    assert ([p] + parts)[1..] == parts;
  }

  lemma PackCloses(max: nat, current: seq<Block>, rest: seq<Block>)
    requires rest != [] && current != [] && |Content(current)| + 1 + |Rendered(rest[0])| > max
    ensures Pack(max, current, rest) == [current] + Pack(max, [], rest)
  {
    PackStay(max, [], rest);
    assert [] + [rest[0]] == [rest[0]];
  }

  lemma PackStay(max: nat, current: seq<Block>, rest: seq<Block>)
    requires rest != [] && (current == [] || |Content(current)| + 1 + |Rendered(rest[0])| <= max)
    ensures Pack(max, current, rest) == Pack(max, current + [rest[0]], rest[1..])
  {
  }

  /** The dictionary loop and the duplicate check. */
  method BuildIndex(blocks: seq<Block>) returns (byId: Index, distinct: bool)
    ensures byId == IndexOf(blocks) && (distinct <==> Distinct(blocks))
  {
    byId := map[];
    for i := 0 to |blocks|
      invariant byId == IndexOf(blocks[..i])
    {
      assert blocks[..i + 1][..i] == blocks[..i];
      byId := byId[blocks[i].id := blocks[i]];
    }
    assert blocks[..|blocks|] == blocks;
    distinct := |byId| == |blocks|;
    IndexSize(blocks);
  }

  /** The link loop: the first dangling parent or reference. */
  method CheckLinks(blocks: seq<Block>, byId: Index) returns (missing: Option<Error>)
    requires byId == IndexOf(blocks)
    ensures missing == FirstMissing(blocks, blocks)
  {
    missing := None;
    ghost var rest := blocks;
    for i := 0 to |blocks|
      invariant rest == blocks[i..] && FirstMissing(blocks, rest) == FirstMissing(blocks, blocks)
    {
      var block := blocks[i];
      if block.parent.Some? {
        IndexKeys(blocks, block.parent.value);
        if block.parent.value !in byId { return Some(MissingParent(block.parent.value)); }
      }
      ghost var left := block.related;
      for j := 0 to |block.related|
        invariant left == block.related[j..] && MissingAmong(blocks, left) == MissingAmong(blocks, block.related)
      {
        IndexKeys(blocks, block.related[j]);
        if block.related[j] !in byId { return Some(MissingReference(block.related[j])); }
        left := left[1..];
      }
      rest := rest[1..];
    }
  }

  method Validate(blocks: seq<Block>, max: nat) returns (error: Option<Error>, byId: Index)
    ensures error == Check(max, blocks)
    ensures error.None? ==> Distinct(blocks) && byId == IndexOf(blocks)
  {
    byId := map[];
    if max < 128 { return Some(ChunkSizeTooSmall), byId; }
    if blocks == [] { return Some(NoBlocks), byId; }
    if exists b :: b in blocks && b.document != blocks[0].document { return Some(MixedDocuments), byId; }
    if exists b :: b in blocks && b.source != blocks[0].source { return Some(MixedSources), byId; }
    var distinct: bool;
    byId, distinct := BuildIndex(blocks);
    if !distinct { return Some(DuplicateIds), byId; }
    error := CheckLinks(blocks, byId);
  }

  predicate IdLeq(a: Id, b: Id) {
    a <= b
  }

  /** The chunks a valid input compiles to. */
  ghost function Compiled(max: nat, blocks: seq<Block>): seq<Chunk> {
    var ordered := Sorting.Sort(LocationLeq, blocks);
    AllChunks(Packings(max, ordered, WithParent(ordered, None), |IndexOf(blocks)|), 0)
  }

  /** Why an input is refused: a failed check, or the first block visited that has no content. */
  ghost function Failure(max: nat, blocks: seq<Block>): Option<Error> {
    if Check(max, blocks).Some? then Check(max, blocks)
    else
      match FirstBlank(Visited(IndexOf(blocks), Sorting.Sort(LocationLeq, blocks)))
      case None => None
      case Some(id) => Some(NoContent(id))
  }

  method Compile(blocks: seq<Block>, max: nat) returns (result: Result)
    ensures Failure(max, blocks).Some? ==> result == Err(Failure(max, blocks).value)
    ensures Failure(max, blocks).None? ==>
      result == Ok(Compiled(max, blocks), forall b :: b in blocks ==> Rooted(IndexOf(blocks), b.id))
  {
    var error, byId := Validate(blocks, max);
    if error.Some? { return Err(error.value); }
    var chunks, blank := ChunkRoots(blocks, byId, max);
    if blank.Some? { return Err(NoContent(blank.value)); }
    var mapped := Cited(chunks);
    var complete := Sorting.Sort(IdLeq, mapped) == Sorting.Sort(IdLeq, Ids(blocks));
    CompleteIffRooted(max, blocks);
    result := Ok(chunks, complete);
  }

  /** All roots in location order, each walked and packed. */
  method ChunkRoots(blocks: seq<Block>, byId: Index, max: nat) returns (chunks: seq<Chunk>, blank: Option<Id>)
    requires Distinct(blocks) && byId == IndexOf(blocks)
    ensures blank == FirstBlank(Visited(byId, Sorting.Sort(LocationLeq, blocks)))
    ensures blank.None? ==> chunks == Compiled(max, blocks)
  {
    var ordered := Sorting.Sort(LocationLeq, blocks);
    var children, roots := SplitRoots(ordered);
    ChildrenReady(blocks, children);
    chunks, blank := [], None;
    ghost var rest := roots;
    for i := 0 to |roots|
      invariant blank.None? && rest == roots[i..]
      invariant FirstBlank(Walk(ordered, rest, |byId|)) == FirstBlank(Visited(byId, ordered))
      invariant chunks + AllChunks(Packings(max, ordered, rest, |byId|), |chunks|) == Compiled(max, blocks)
    {
      RootEnds(blocks, ordered, roots[i]);
      var group := Descendants(children, roots[i], ordered, |byId|);
      BlankInWalk(ordered, rest, |byId|);
      var packed;
      packed, blank := PackRoot(group, max, |chunks|);
      if blank.Some? { return; }
      NextRoot(max, ordered, rest, |byId|, chunks);
      chunks := chunks + packed;
      rest := rest[1..];
    }
    assert rest == [] && FirstBlank(Walk(ordered, [], |byId|)) == None;
  }

  lemma BlankInWalk(blocks: seq<Block>, kids: seq<Block>, levels: nat)
    requires kids != []
    ensures FirstBlank(Walk(blocks, kids, levels)) ==
            if FirstBlank(Preorder(blocks, kids[0], levels)).Some? then FirstBlank(Preorder(blocks, kids[0], levels))
            else FirstBlank(Walk(blocks, kids[1..], levels))
  {
    FirstBlankConcat(Preorder(blocks, kids[0], levels), Walk(blocks, kids[1..], levels));
  }

  lemma ChildrenReady(blocks: seq<Block>, children: map<Id, seq<Block>>)
    requires ChildrenOf(children, Sorting.Sort(LocationLeq, blocks))
    ensures ChildrenSorted(children, Sorting.Sort(LocationLeq, blocks))
  {
    LocationOrder();
    Sorting.SortSorted(LocationLeq, blocks);
    ChildrenStaySorted(children, Sorting.Sort(LocationLeq, blocks));
  }

  /** Every root can be walked to its end. */
  lemma RootEnds(blocks: seq<Block>, ordered: seq<Block>, root: Block)
    requires Distinct(blocks) && multiset(ordered) == multiset(blocks) && root in WithParent(ordered, None)
    ensures Ends(ordered, root, |IndexOf(blocks)|)
  {
    IndexForest(blocks, ordered);
    RootLevel(IndexOf(blocks), ordered);
    RootedEnds(IndexOf(blocks), ordered, root, 0);
  }

  lemma NextRoot(max: nat, blocks: seq<Block>, roots: seq<Block>, levels: nat, before: seq<Chunk>)
    requires roots != []
    ensures var packed := Numbered(Pack(max, [], Preorder(blocks, roots[0], levels)), |before|, None);
      before + AllChunks(Packings(max, blocks, roots, levels), |before|) ==
      (before + packed) + AllChunks(Packings(max, blocks, roots[1..], levels), |before + packed|)
  {
    var parts := Pack(max, [], Preorder(blocks, roots[0], levels));
    var packed := Numbered(parts, |before|, None);
    NumberedLength(parts, |before|, None);
    var later := Packings(max, blocks, roots[1..], levels);
    AllChunksCons(parts, later, |before|);
    Regroup(before, packed, AllChunks(later, |before + packed|));
  }

  lemma AllChunksCons(parts: seq<seq<Block>>, later: seq<seq<seq<Block>>>, index: nat)
    ensures AllChunks([parts] + later, index) == Numbered(parts, index, None) + AllChunks(later, index + |parts|)
  {
    assert ([parts] + later)[1..] == later;
  }

  lemma Regroup<T>(a: seq<T>, b: seq<T>, c: seq<T>)
    ensures a + (b + c) == (a + b) + c
  {
  }

  /** The ids cited by all chunks, in order. */
  method Cited(chunks: seq<Chunk>) returns (mapped: seq<Id>)
    ensures mapped == Mapped(chunks)
  {
    mapped := [];
    ghost var rest := chunks;
    for i := 0 to |chunks|
      invariant rest == chunks[i..] && mapped + Mapped(rest) == Mapped(chunks)
    {
      mapped := mapped + chunks[i].ids;
      rest := rest[1..];
    }
  }

  // ---------- the source map ----------

  /** An id occurs as often as its block. */
  lemma {:induction false} IdCount(byId: Index, blocks: seq<Block>, id: Id)
    requires forall b :: b in blocks ==> b.id in byId && byId[b.id] == b
    requires forall x :: x in byId ==> byId[x].id == x
    ensures multiset(Ids(blocks))[id] == if id in byId then multiset(blocks)[byId[id]] else 0
  {
    if blocks != [] {
      IdCount(byId, blocks[1..], id);
      assert blocks == [blocks[0]] + blocks[1..];
      assert Ids(blocks) == [blocks[0].id] + Ids(blocks[1..]);
      assert byId[blocks[0].id] == blocks[0];
    }
  }

  lemma VisitedFacts(blocks: seq<Block>, ordered: seq<Block>)
    requires Distinct(blocks) && ordered == Sorting.Sort(LocationLeq, blocks)
    ensures Forest(IndexOf(blocks), ordered)
    ensures forall b :: b in Visited(IndexOf(blocks), ordered) ==> b in ordered
    ensures forall b :: b in ordered <==> b in blocks
  {
    IndexForest(blocks, ordered);
    forall b | b in Visited(IndexOf(blocks), ordered) ensures b in ordered {
      VisitedOnceIffRooted(IndexOf(blocks), ordered, b);
      assert multiset(Visited(IndexOf(blocks), ordered))[b] > 0;
    }
    forall b ensures b in ordered <==> b in blocks {
      assert b in ordered <==> b in multiset(ordered);
    }
  }

  lemma CompiledCitesVisited(max: nat, blocks: seq<Block>)
    ensures Mapped(Compiled(max, blocks)) == Ids(Visited(IndexOf(blocks), Sorting.Sort(LocationLeq, blocks)))
  {
    var ordered := Sorting.Sort(LocationLeq, blocks);
    ChunksCiteWalk(max, ordered, WithParent(ordered, None), |IndexOf(blocks)|, 0);
  }

  /** Every block whose parent chain reaches a root is cited exactly once; all others never. */
  lemma CitedOnceIffRooted(max: nat, blocks: seq<Block>, id: Id)
    requires Distinct(blocks)
    ensures multiset(Mapped(Compiled(max, blocks)))[id] == if Rooted(IndexOf(blocks), id) then 1 else 0
  {
    var byId, ordered := IndexOf(blocks), Sorting.Sort(LocationLeq, blocks);
    VisitedFacts(blocks, ordered);
    CompiledCitesVisited(max, blocks);
    IdCount(byId, Visited(byId, ordered), id);
    if id in byId {
      VisitedOnceIffRooted(byId, ordered, byId[id]);
    }
  }

  /** `source_map_complete` holds if and only if every block's parent chain reaches a root. */
  lemma CompleteIffRooted(max: nat, blocks: seq<Block>)
    requires Distinct(blocks)
    ensures Sorting.Sort(IdLeq, Mapped(Compiled(max, blocks))) == Sorting.Sort(IdLeq, Ids(blocks)) <==>
            forall b :: b in blocks ==> Rooted(IndexOf(blocks), b.id)
  {
    var byId := IndexOf(blocks);
    var mapped: seq<Id> := Mapped(Compiled(max, blocks));
    Sorting.SortsAgree(IdLeq, mapped, Ids(blocks));
    forall id
      ensures multiset(mapped)[id] == if Rooted(byId, id) then 1 else 0
      ensures multiset(Ids(blocks))[id] == if id in byId then 1 else 0
    {
      CitedOnceIffRooted(max, blocks, id);
      ListedOnce(blocks, id);
    }
    RootedIdsAre(byId, mapped, Ids(blocks));
    forall b | b in blocks ensures b.id in byId && byId[b.id] == b { DistinctOnce(blocks, b); }
    forall id | id in byId ensures byId[id] in blocks && byId[id].id == id { IndexKeys(blocks, id); }
  }

  lemma ListedOnce(blocks: seq<Block>, id: Id)
    requires Distinct(blocks)
    ensures multiset(Ids(blocks))[id] == if id in IndexOf(blocks) then 1 else 0
  {
    IndexForest(blocks, blocks);
    IdCount(IndexOf(blocks), blocks, id);
    if id in IndexOf(blocks) { ForestOnce(IndexOf(blocks), blocks, IndexOf(blocks)[id]); }
  }

  /** A list of the rooted ids and a list of all ids agree exactly if all ids are rooted. */
  lemma RootedIdsAre(byId: Index, mapped: seq<Id>, all: seq<Id>)
    requires forall id :: multiset(mapped)[id] == if Rooted(byId, id) then 1 else 0
    requires forall id :: multiset(all)[id] == if id in byId then 1 else 0
    ensures multiset(mapped) == multiset(all) <==> forall id :: id in byId ==> Rooted(byId, id)
  {
    if multiset(mapped) == multiset(all) {
      forall id | id in byId ensures Rooted(byId, id) {
        assert multiset(all)[id] == 1;
      }
    }
    if forall id :: id in byId ==> Rooted(byId, id) {
      forall id: Id ensures multiset(mapped)[id] == multiset(all)[id] {
        assert Rooted(byId, id) ==> id in byId;
      }
      assert multiset(mapped) == multiset(all);
    }
  }

  /**
   * An input is accepted if and only if it passes the checks and every block whose parent chain
   * reaches a root has content.
   */
  lemma AcceptedIff(max: nat, blocks: seq<Block>)
    ensures Failure(max, blocks).None? <==>
            Check(max, blocks).None? && forall b :: b in blocks && Rooted(IndexOf(blocks), b.id) ==> b.content.Some?
  {
    if Check(max, blocks).None? {
      var byId, ordered := IndexOf(blocks), Sorting.Sort(LocationLeq, blocks);
      AcceptedLinked(max, blocks);
      VisitedFacts(blocks, ordered);
      FirstBlankNone(Visited(byId, ordered));
      forall b ensures b in Visited(byId, ordered) <==> b in blocks && Rooted(byId, b.id) {
        VisitedOnceIffRooted(byId, ordered, b);
        assert b in Visited(byId, ordered) <==> multiset(Visited(byId, ordered))[b] > 0;
      }
    }
  }

  /** In an input that passes the checks, the blocks in no chunk are exactly those on or below a cycle of parents. */
  lemma UncitedIffLoops(max: nat, blocks: seq<Block>, b: Block)
    requires Check(max, blocks).None? && b in blocks
    ensures multiset(Mapped(Compiled(max, blocks)))[b.id] == 0 <==> Loops(IndexOf(blocks), b.id)
  {
    AcceptedLinked(max, blocks);
    IndexKeys(blocks, b.id);
    CitedOnceIffRooted(max, blocks, b.id);
    RootedIffNoLoop(IndexOf(blocks), b.id);
  }

  // ---------- the fewest chunks ----------

  function TotalParts(splits: seq<seq<seq<Block>>>): nat {
    if splits == [] then 0 else |splits[0]| + TotalParts(splits[1..])
  }

  /** One admissible split for the walk of each root. */
  ghost predicate SplitsEach(
    max: nat, blocks: seq<Block>, roots: seq<Block>, levels: nat, splits: seq<seq<seq<Block>>>)
  {
    && |splits| == |roots|
    && forall k :: 0 <= k < |roots| ==> IsSplit(max, splits[k], Preorder(blocks, roots[k], levels))
  }

  lemma {:induction false} PackingsFewest(
    max: nat, blocks: seq<Block>, roots: seq<Block>, levels: nat, splits: seq<seq<seq<Block>>>, index: nat)
    requires SplitsEach(max, blocks, roots, levels, splits)
    ensures SplitsEach(max, blocks, roots, levels, Packings(max, blocks, roots, levels))
    ensures |AllChunks(Packings(max, blocks, roots, levels), index)| <= TotalParts(splits)
  {
    if roots != [] {
      var group := Preorder(blocks, roots[0], levels);
      var parts := Pack(max, [], group);
      assert IsSplit(max, splits[0], group);
      PackingOptimal(max, group, splits[0]);
      NumberedLength(parts, index, None);
      forall k | 0 <= k < |roots[1..]| ensures IsSplit(max, splits[1..][k], Preorder(blocks, roots[1..][k], levels)) {
        assert IsSplit(max, splits[k + 1], Preorder(blocks, roots[k + 1], levels));
      }
      PackingsFewest(max, blocks, roots[1..], levels, splits[1..], index + |parts|);
    }
  }

  /** No choice of one admissible split per root has fewer chunks than the compilation. */
  lemma CompiledFewest(max: nat, blocks: seq<Block>, splits: seq<seq<seq<Block>>>)
    requires var ordered := Sorting.Sort(LocationLeq, blocks);
      SplitsEach(max, ordered, WithParent(ordered, None), |IndexOf(blocks)|, splits)
    ensures |Compiled(max, blocks)| <= TotalParts(splits)
  {
    var ordered := Sorting.Sort(LocationLeq, blocks);
    PackingsFewest(max, ordered, WithParent(ordered, None), |IndexOf(blocks)|, splits, 0);
  }

  /** Chunks are numbered consecutively, and each holds one block or fits. */
  lemma {:induction false} ChunksWellFormed(max: nat, packings: seq<seq<seq<Block>>>, index: nat, k: nat)
    requires k < |AllChunks(packings, index)|
    requires forall parts, p :: parts in packings && p in parts ==> FitsChunk(max, p)
    ensures var c := AllChunks(packings, index)[k];
      c.index == index + k && (|c.ids| == 1 || (|c.ids| > 0 && |c.content| <= max))
  {
    var parts := packings[0];
    ChunkAt(packings, index, k);
    if k < |parts| {
      NumberedAt(parts, index, None, k);
      assert parts[k] in parts;
    } else {
      ChunksWellFormed(max, packings[1..], index + |parts|, k - |parts|);
    }
  }

  lemma ChunkAt(packings: seq<seq<seq<Block>>>, index: nat, k: nat)
    requires packings != [] && k < |AllChunks(packings, index)|
    ensures |Numbered(packings[0], index, None)| == |packings[0]|
    ensures k < |packings[0]| ==> AllChunks(packings, index)[k] == Numbered(packings[0], index, None)[k]
    ensures k >= |packings[0]| ==>
      var later := AllChunks(packings[1..], index + |packings[0]|);
      k - |packings[0]| < |later| && AllChunks(packings, index)[k] == later[k - |packings[0]|]
  {
    NumberedLength(packings[0], index, None);
  }

  lemma {:induction false} PackingsFit(max: nat, blocks: seq<Block>, roots: seq<Block>, levels: nat)
    ensures forall parts, p :: parts in Packings(max, blocks, roots, levels) && p in parts ==> FitsChunk(max, p)
  {
    if roots != [] {
      ChunksFit(max, Preorder(blocks, roots[0], levels));
      PackingsFit(max, blocks, roots[1..], levels);
    }
  }

  /** Every compiled chunk carries its position and holds one block or at most `max` characters. */
  lemma CompiledWellFormed(max: nat, blocks: seq<Block>, k: nat)
    requires k < |Compiled(max, blocks)|
    ensures var c := Compiled(max, blocks)[k];
      c.index == k && (|c.ids| == 1 || (|c.ids| > 0 && |c.content| <= max))
  {
    var ordered := Sorting.Sort(LocationLeq, blocks);
    var packings := Packings(max, ordered, WithParent(ordered, None), |IndexOf(blocks)|);
    PackingsFit(max, ordered, WithParent(ordered, None), |IndexOf(blocks)|);
    ChunksWellFormed(max, packings, 0, k);
  }
}

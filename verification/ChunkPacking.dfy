/**
 * Greedy packing of the blocks of one root into chunks of bounded rendered length, and why no other
 * contiguous split has fewer chunks.
 */
module ChunkPacking {
  import opened Options
  import opened EvidenceForest

  /** The rendered block; one without content cannot be rendered, and fails the compilation first. */
  function Rendered(b: Block): string {
    "[" + b.modality + "] " + if b.content.Some? then b.content.value else ""
  }

  /** The rendered blocks joined by line breaks. */
  function Content(blocks: seq<Block>): string {
    if blocks == [] then ""
    else if |blocks| == 1 then Rendered(blocks[0])
    else Rendered(blocks[0]) + "\n" + Content(blocks[1..])
  }

  lemma {:induction false} ContentConcat(a: seq<Block>, b: seq<Block>)
    requires a != [] && b != []
    ensures |Content(a + b)| == |Content(a)| + 1 + |Content(b)|
  {
    if |a| > 1 {
      ContentConcat(a[1..], b);
      assert (a + b)[1..] == a[1..] + b;
    } else {
      assert (a + b)[1..] == b;
    }
  }

  /** What one chunk may hold: a single block, or blocks whose content fits. */
  predicate FitsChunk(max: nat, p: seq<Block>) {
    |p| == 1 || (p != [] && |Content(p)| <= max)
  }

  function Flatten(parts: seq<seq<Block>>): seq<Block> {
    if parts == [] then [] else parts[0] + Flatten(parts[1..])
  }

  /** A split of consecutive blocks into admissible chunks. */
  predicate IsSplit(max: nat, parts: seq<seq<Block>>, blocks: seq<Block>) {
    Flatten(parts) == blocks && forall p :: p in parts ==> FitsChunk(max, p)
  }

  /** The loop's packing: `current` is the open chunk. */
  function Pack(max: nat, current: seq<Block>, rest: seq<Block>): seq<seq<Block>>
    decreases |rest|
  {
    if rest == [] then
      if current == [] then [] else [current]
    else if current != [] && |Content(current)| + 1 + |Rendered(rest[0])| > max then
      [current] + Pack(max, [rest[0]], rest[1..])
    else
      Pack(max, current + [rest[0]], rest[1..])
  }

  lemma {:induction false} ContentSnoc(current: seq<Block>, b: Block)
    ensures |Content(current + [b])| ==
            if current == [] then |Rendered(b)| else |Content(current)| + 1 + |Rendered(b)|
  {
    if current != [] {
      ContentConcat(current, [b]);
    } else {
      assert current + [b] == [b];
    }
  }

  lemma SplitCons(max: nat, p: seq<Block>, parts: seq<seq<Block>>, blocks: seq<Block>)
    requires FitsChunk(max, p) && IsSplit(max, parts, blocks)
    ensures IsSplit(max, [p] + parts, p + blocks)
  {
    assert ([p] + parts)[1..] == parts;
  }

  /** The packing is a split of the blocks. */
  lemma {:induction false} PackSplits(max: nat, current: seq<Block>, rest: seq<Block>)
    requires current == [] || FitsChunk(max, current)
    ensures IsSplit(max, Pack(max, current, rest), current + rest)
    decreases |rest|
  {
    if rest == [] {
      if current != [] {
        SplitCons(max, current, [], []);
        assert [current] + [] == [current] && current + [] == current + rest;
      }
    } else if current != [] && |Content(current)| + 1 + |Rendered(rest[0])| > max {
      PackSplits(max, [rest[0]], rest[1..]);
      assert [rest[0]] + rest[1..] == rest;
      SplitCons(max, current, Pack(max, [rest[0]], rest[1..]), rest);
    } else {
      ContentSnoc(current, rest[0]);
      PackSplits(max, current + [rest[0]], rest[1..]);
      Shift(current, rest);
    }
  }

  lemma Shift(current: seq<Block>, rest: seq<Block>)
    requires rest != []
    ensures (current + [rest[0]]) + rest[1..] == current + rest
  {
  }

  /** Any run of consecutive blocks of an admissible chunk is one. */
  lemma FitsPiece(max: nat, a: seq<Block>, b: seq<Block>)
    requires FitsChunk(max, a + b)
    ensures a != [] ==> FitsChunk(max, a)
    ensures b != [] ==> FitsChunk(max, b)
  {
    if a == [] {
      assert a + b == b;
    } else if b == [] {
      assert a + b == a;
    } else {
      ContentConcat(a, b);
    }
  }

  /** Dropping blocks at the front of a split leaves a split of the rest with no more chunks. */
  lemma {:induction false} DropFront(max: nat, parts: seq<seq<Block>>, a: seq<Block>, b: seq<Block>)
    returns (fewer: seq<seq<Block>>)
    requires IsSplit(max, parts, a + b)
    ensures IsSplit(max, fewer, b) && |fewer| <= |parts|
  {
    if a == [] {
      fewer := parts;
      assert a + b == b;
    } else {
      var p := parts[0];
      if |p| <= |a| {
        assert (a + b)[..|p|] == p == a[..|p|];
        assert (a + b)[|p|..] == a[|p|..] + b == Flatten(parts[1..]);
        fewer := DropFront(max, parts[1..], a[|p|..], b);
      } else {
        var kept := p[|a|..];
        assert (a + b)[..|p|] == p && p == a + kept;
        FitsPiece(max, a, kept);
        assert b == kept + Flatten(parts[1..]) by { assert b == (a + b)[|a|..]; }
        fewer := [kept] + parts[1..];
      }
    }
  }

  /** The packing has the fewest chunks of all splits of the blocks. */
  lemma {:induction false} PackIsShortest(max: nat, current: seq<Block>, rest: seq<Block>, parts: seq<seq<Block>>)
    requires current == [] || FitsChunk(max, current)
    requires IsSplit(max, parts, current + rest)
    ensures |Pack(max, current, rest)| <= |parts|
    decreases |rest|
  {
    if rest != [] {
      var x, later := rest[0], rest[1..];
      ContentSnoc(current, x);
      if current != [] && |Content(current)| + 1 + |Rendered(x)| > max {
        var fewer := AfterCut(max, current, rest, parts);
        PackIsShortest(max, [x], later, fewer);
      } else {
        assert (current + [x]) + later == current + rest;
        PackIsShortest(max, current + [x], later, parts);
      }
    }
  }

  /** Where the packing closes a chunk, the first chunk of any other split is no longer. */
  lemma CutWhereOthersCut(max: nat, current: seq<Block>, rest: seq<Block>, parts: seq<seq<Block>>)
    requires current != [] && rest != [] && IsSplit(max, parts, current + rest)
    requires |Content(current)| + 1 + |Rendered(rest[0])| > max
    ensures parts != [] && |parts[0]| <= |current|
    ensures Flatten(parts[1..]) == current[|parts[0]|..] + rest
    ensures IsSplit(max, parts[1..], current[|parts[0]|..] + rest)
  {
    var p, x := parts[0], rest[0];
    if |p| > |current| {
      var head := current + [x];
      assert p == (current + rest)[..|p|];
      assert p == head + p[|head|..];
      FitsPiece(max, head, p[|head|..]);
      ContentSnoc(current, x);
    }
    assert Flatten(parts[1..]) == (current + rest)[|p|..];
  }

  /** What any other split leaves after the packing closes a chunk. */
  lemma AfterCut(max: nat, current: seq<Block>, rest: seq<Block>, parts: seq<seq<Block>>)
    returns (fewer: seq<seq<Block>>)
    requires current != [] && rest != [] && IsSplit(max, parts, current + rest)
    requires |Content(current)| + 1 + |Rendered(rest[0])| > max
    ensures IsSplit(max, fewer, [rest[0]] + rest[1..]) && |fewer| < |parts|
  {
    CutWhereOthersCut(max, current, rest, parts);
    fewer := DropFront(max, parts[1..], current[|parts[0]|..], rest);
    assert [rest[0]] + rest[1..] == rest;
  }

  /** No chunk is empty, and each holds one block or fits. */
  lemma ChunksFit(max: nat, blocks: seq<Block>)
    ensures IsSplit(max, Pack(max, [], blocks), blocks)
  {
    PackSplits(max, [], blocks);
    assert [] + blocks == blocks;
  }

  /** The chunks of a group are a split of it, and every other split has at least as many. */
  lemma PackingOptimal(max: nat, blocks: seq<Block>, parts: seq<seq<Block>>)
    requires IsSplit(max, parts, blocks)
    ensures IsSplit(max, Pack(max, [], blocks), blocks)
    ensures |Pack(max, [], blocks)| <= |parts|
  {
    ChunksFit(max, blocks);
    assert [] + blocks == blocks;
    PackIsShortest(max, [], blocks, parts);
  }

  /** Where two splits differ, this one went on: a chunk is closed only before a block that no longer fits. */
  lemma {:induction false} PackGreedy(max: nat, current: seq<Block>, rest: seq<Block>, j: nat)
    requires j + 1 < |Pack(max, current, rest)| && (current == [] || FitsChunk(max, current))
    ensures var parts := Pack(max, current, rest);
      parts[j + 1] != [] && |Content(parts[j])| + 1 + |Rendered(parts[j + 1][0])| > max
    decreases |rest|
  {
    PackSplits(max, current, rest);
    if rest != [] {
      if current != [] && |Content(current)| + 1 + |Rendered(rest[0])| > max {
        PackSplits(max, [rest[0]], rest[1..]);
        PackStarts(max, [rest[0]], rest[1..]);
        if j > 0 { PackGreedy(max, [rest[0]], rest[1..], j - 1); }
      } else {
        ContentSnoc(current, rest[0]);
        PackGreedy(max, current + [rest[0]], rest[1..], j);
      }
    }
  }

  /** The first chunk starts with the blocks of the open one. */
  lemma {:induction false} PackStarts(max: nat, current: seq<Block>, rest: seq<Block>)
    requires current != []
    ensures Pack(max, current, rest) != [] && current <= Pack(max, current, rest)[0]
    decreases |rest|
  {
    if rest != [] && |Content(current)| + 1 + |Rendered(rest[0])| <= max {
      PackStarts(max, current + [rest[0]], rest[1..]);
    }
  }

  // ---------- what a chunk spells ----------

  /** Where block i starts: a block takes its modality, two brackets, a blank, its text and a line break. */
  function Offset(blocks: seq<Block>, i: nat): nat
    requires i <= |blocks|
  {
    if i == 0 then 0
    else
      var b := blocks[i - 1];
      Offset(blocks, i - 1) + |b.modality| + 3 + (if b.content.Some? then |b.content.value| else 0) + 1
  }

  lemma {:induction false} OffsetCons(blocks: seq<Block>, i: nat)
    requires 0 < i <= |blocks|
    ensures Offset(blocks, i) == |Rendered(blocks[0])| + 1 + Offset(blocks[1..], i - 1)
  {
    if i > 1 { OffsetCons(blocks, i - 1); }
  }

  /** The content is as long as its blocks with one line break between any two. */
  lemma {:induction false} ContentLength(blocks: seq<Block>)
    requires blocks != []
    ensures |Content(blocks)| + 1 == Offset(blocks, |blocks|)
  {
    OffsetCons(blocks, |blocks|);
    if |blocks| > 1 { ContentLength(blocks[1..]); }
  }

  /** At its offset the content holds each rendered block, with a line break before it. */
  lemma {:induction false} ContentHolds(blocks: seq<Block>, i: nat)
    requires i < |blocks|
    ensures Holds(Content(blocks), Offset(blocks, i), Rendered(blocks[i]))
    ensures i > 0 ==> Offset(blocks, i) > 0 && Content(blocks)[Offset(blocks, i) - 1] == '\n'
  {
    if |blocks| > 1 {
      var first, later := Rendered(blocks[0]), Content(blocks[1..]);
      assert Content(blocks) == first + "\n" + later;
      if i > 0 {
        ContentHolds(blocks[1..], i - 1);
        OffsetCons(blocks, i);
        LaterPiece(first, later, Offset(blocks[1..], i - 1), Rendered(blocks[i]));
      } else {
        assert Content(blocks)[0..|first|] == first;
      }
    }
  }

  /** `piece` stands in `text` at `from`. */
  predicate Holds(text: string, from: nat, piece: string) {
    from + |piece| <= |text| && text[from..from + |piece|] == piece
  }

  lemma LaterPiece(first: string, later: string, from: nat, piece: string)
    requires Holds(later, from, piece)
    ensures Holds(first + "\n" + later, |first| + 1 + from, piece)
    ensures (first + "\n" + later)[|first| + from] == if from == 0 then '\n' else later[from - 1]
  {
    var all, start := first + "\n" + later, |first| + 1 + from;
    assert all[start..start + |piece|] == later[from..from + |piece|];
  }

  /** At its offset a text spells a block: bracketed modality, blank, text; a line break stands before it. */
  predicate Spells(text: string, blocks: seq<Block>, i: nat)
    requires i < |blocks|
  {
    var b, from := blocks[i], Offset(blocks, i);
    var line := "[" + b.modality + "] " + if b.content.Some? then b.content.value else "";
    && from + |line| <= |text| && text[from..from + |line|] == line
    && (i > 0 ==> from > 0 && text[from - 1] == '\n')
  }

  lemma ContentSpells(blocks: seq<Block>, i: nat)
    requires i < |blocks|
    ensures Spells(Content(blocks), blocks, i)
  {
    ContentHolds(blocks, i);
  }

  /** A chunk is admissible exactly if it holds one block, or blocks whose lengths and line breaks fit. */
  lemma FitsIff(max: nat, p: seq<Block>)
    ensures FitsChunk(max, p) <==> |p| == 1 || (p != [] && Offset(p, |p|) - 1 <= max)
  {
    if p != [] { ContentLength(p); }
  }
}

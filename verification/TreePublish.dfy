/**
 * Trees written into blocks drawn from free space: what they promise about the rest of the disk,
 * and what keeps them readable.
 */
module TreePublish {
  import opened Bytes
  import opened TreeNode
  import opened BTree
  import opened TreeWriter
  import opened SpaceManager
  import opened BlockSupply

  /** A stored tree all of whose blocks are pinned. */
  ghost predicate TreeHeld(disk: Blocks, bs: nat, layout: Layout, pinned: set<nat>, t: Tree, level: nat) {
    && Stored(disk, bs, layout.fixed.Some?, t, level) && RootHolds(disk[t.paddr], layout)
    && SizesOk(Records(t), layout, 0) && NoRepeats(Nodes(t))
    && forall n :: n in Nodes(t) ==> n.1 in pinned
  }

  ghost predicate SamePinned(d1: Blocks, d2: Blocks, pinned: set<nat>) {
    forall p :: p in pinned && p in d1 ==> p in d2 && d2[p] == d1[p]
  }

  lemma HeldStays(d1: Blocks, d2: Blocks, bs: nat, layout: Layout, p1: set<nat>, p2: set<nat>, t: Tree, level: nat)
    requires TreeHeld(d1, bs, layout, p1, t, level) && SamePinned(d1, d2, p1) && p1 <= p2
    ensures TreeHeld(d2, bs, layout, p2, t, level)
  {
    hide Stored, RootHolds, SizesOk, Records, NoRepeats, Nodes;
    StoredFrame(d1, d2, bs, layout.fixed.Some?, t, level);
    OwnBlock(d1, bs, layout.fixed.Some?, t, level);
  }

  lemma OwnBlock(disk: Blocks, bs: nat, fixed: bool, t: Tree, level: nat)
    requires Stored(disk, bs, fixed, t, level)
    ensures t.paddr in disk && (t.oid, t.paddr) in Nodes(t)
  {
    assert Nodes(t)[0] == (t.oid, t.paddr);
  }

  predicate Bounded(chunks: seq<Chunk>) {
    forall i :: 0 <= i < |chunks| ==> chunks[i].addr + chunks[i].blocks <= U64
  }

  predicate WholeBlocks(disk: Blocks, bs: nat) {
    forall p :: p in disk ==> |disk[p]| == bs
  }

  /** Blocks drawn from what was clear are the only ones that changed. */
  ghost predicate Added(d1: Blocks, d2: Blocks, u1: set<nat>, u2: set<nat>, drawn: set<nat>) {
    && drawn !! u1 && u2 == u1 + drawn && Only(d1, d2, drawn)
  }

  function SetOf(s: seq<nat>): set<nat> {
    set x | x in s
  }

  ghost predicate Only(d1: Blocks, d2: Blocks, changed: set<nat>) {
    forall p :: p !in changed ==> (p in d1 <==> p in d2) && (p in d1 ==> d2[p] == d1[p])
  }

  /** The node list of a tree as its object map should record it. */
  ghost predicate Charted(t: Tree, pairs: seq<(nat, nat)>, virtualRoot: Option<nat>, firstOid: nat, next: nat) {
    && (virtualRoot.Some? ==> t.oid == virtualRoot.value)
    && (forall n :: n in Nodes(t) ==> n in pairs)
    && (virtualRoot.None? ==> forall n :: n in pairs ==> n.0 == n.1)
    && (virtualRoot.Some? ==> forall i, j :: 0 <= i < j < |pairs| ==> pairs[i].0 != pairs[j].0)
    && (forall n :: n in pairs ==> n.0 < U64 && n.1 < U64)
    && firstOid <= next < U64
  }

  lemma TreeAdded(d1: Blocks, d2: Blocks, bs: nat, chunks: seq<Chunk>, supply: seq<nat>, layout: Layout,
                  records: seq<Record>, rootOid: nat, virtualRoot: Option<nat>, firstOid: nat, next: nat,
                  pairs: seq<(nat, nat)>, t: Tree, level: nat)
    requires ChunksOk(chunks) && Bounded(chunks) && WholeBlocks(d1, bs)
    requires TreeWritten(d1, d2, bs, Supply(chunks), supply, layout, records, rootOid, virtualRoot.Some?, firstOid,
                         next, pairs, t, level)
    requires virtualRoot.Some? ==> virtualRoot.value == rootOid < firstOid
    requires virtualRoot.None? ==> Supply(chunks) != [] && rootOid == Supply(chunks)[0]
    ensures |pairs| <= |Supply(chunks)| && WholeBlocks(d2, bs) && d1.Keys <= d2.Keys
    ensures next <= firstOid + |pairs|
    ensures var drawn := set p | p in Supply(chunks)[..|pairs|];
            drawn !! Used(chunks) && Only(d1, d2, drawn) && TreeHeld(d2, bs, layout, drawn, t, level)
    ensures Records(t) == records && t.paddr == Supply(chunks)[0] && Charted(t, pairs, virtualRoot, firstOid, next)
  {
    hide ChunkOk, Bounded, Supply, Used, Stored, RootHolds, SizesOk, Records, Nodes, NoRepeats;
    SupplyClear(chunks);
    var supply0 := Supply(chunks);
    var k := |pairs|;
    forall i | 0 <= i < k
      ensures pairs[i].1 == supply0[i] && supply0[i] in supply0[..k] && pairs[i].0 < U64 && pairs[i].1 < U64
    {
      assert supply0[..k][i] == supply0[i];
    }
    forall n | n in Nodes(t) ensures n.1 in supply0[..k] {
      var i :| 0 <= i < k && pairs[i] == n;
    }
  }

  lemma SupplyClear(chunks: seq<Chunk>)
    requires ChunksOk(chunks) && Bounded(chunks)
    ensures Fresh(Supply(chunks)) && forall p :: p in Supply(chunks) ==> p !in Used(chunks)
  {
    hide ChunkOk, Supply, Used, Fresh;
    SupplyFresh(chunks);
  }

  lemma DrawnAdded(d1: Blocks, d2: Blocks, u1: set<nat>, u2: set<nat>, drawn: set<nat>)
    requires drawn !! u1 && u2 == u1 + drawn && Only(d1, d2, drawn)
    ensures Added(d1, d2, u1, u2, drawn)
  {
    hide Only;
  }

  lemma StillBounded(a: seq<Chunk>, b: seq<Chunk>)
    requires SameShape(a, b) && Bounded(b)
    ensures Bounded(a)
  {
  }

  lemma PinnedPart(d1: Blocks, d2: Blocks, pinned: set<nat>, part: set<nat>)
    requires SamePinned(d1, d2, pinned) && part <= pinned
    ensures SamePinned(d1, d2, part)
  {
  }

  lemma PinnedTrans(d1: Blocks, d2: Blocks, d3: Blocks, pinned: set<nat>)
    requires SamePinned(d1, d2, pinned) && SamePinned(d2, d3, pinned)
    ensures SamePinned(d1, d3, pinned)
  {
  }
}

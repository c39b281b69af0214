/**
 * The deferred-free queue in its block (src/apfs_replace.rs `queue_body`): one leaf is read, its
 * runs and the new ones are coalesced, and a leaf is written back under the same object header.
 */
module QueueTree {
  import opened Bytes
  import opened TreeNode
  import opened BTree
  import opened TreeReader
  import opened TreeWriter
  import opened FreeQueue
  import Fletcher

  const QUEUE_SIZES: (nat, nat) := (16, 8)
  const QUEUE_LAYOUT: Layout := Layout(Some(QUEUE_SIZES), 0, 0)

  /** The records spell these runs, a length of zero standing for one block. */
  predicate Lists(records: seq<Record>, queue: seq<FreeRun>) {
    |records| == |queue| && forall i :: 0 <= i < |records| ==> ReadRecord(records[i]) == Ok(queue[i])
  }

  /** A root with no node below it and 16-byte keys over 8-byte values, holding these records. */
  ghost predicate QueueNode(b: seq<byte>, v: Visit) {
    && |b| >= TOC_BASE + INFO_BYTES && RootImage(b).layout.fixed == Some(QUEUE_SIZES)
    && Says(b, Some(QUEUE_SIZES), None, v) && v.children == []
  }

  ghost predicate HoldsQueue(b: seq<byte>, queue: seq<FreeRun>) {
    exists v :: QueueNode(b, v) && Lists(v.records, queue)
  }

  /** A block holds one queue at most. */
  lemma OneQueue(b: seq<byte>, p: seq<FreeRun>, q: seq<FreeRun>)
    requires HoldsQueue(b, p) && HoldsQueue(b, q)
    ensures p == q
  {
    hide Says, ReadRecord;
    var v :| QueueNode(b, v) && Lists(v.records, p);
    var w :| QueueNode(b, w) && Lists(w.records, q);
    SaysOne(b, Some(QUEUE_SIZES), None, v, w);
    forall i | 0 <= i < |p| ensures p[i] == q[i] {
      assert ReadRecord(v.records[i]) == Ok(p[i]);
    }
  }

  function QueueRecords(runs: seq<FreeRun>): (recs: seq<Record>)
    ensures |recs| == |runs|
  {
    seq(|runs|, i requires 0 <= i < |runs| => QueueRecord(runs[i]))
  }

  /** As many runs as one root node takes. */
  predicate LeafRoom(runs: seq<FreeRun>, bs: nat) {
    bs >= TOC_BASE && NodeBytes(QueueRecords(runs), QUEUE_LAYOUT, true, 0, bs) <= bs
  }

  /** Everything the update needs: a queue in the block, no pair twice, 64-bit ranges, room for the result. */
  ghost predicate Updatable(blocks: Blocks, bs: nat, paddr: nat, all: seq<FreeRun>, queue: seq<FreeRun>,
                            merged: seq<FreeRun>)
  {
    && paddr in blocks && HoldsQueue(blocks[paddr], queue)
    && NoOverlap(all) && Fits(all)
    && Canonical(merged) && Pairs(merged) == Pairs(all)
    && LeafRoom(merged, bs)
  }

  // ---- the records of the runs -----------------------------------------------------------------------

  predicate Words64(runs: seq<FreeRun>) {
    forall r :: r in runs ==> r.xid < U64 && r.paddr < U64 && 0 < r.count < U64
  }

  lemma RecordsSpell(runs: seq<FreeRun>)
    requires Words64(runs)
    ensures Lists(QueueRecords(runs), runs)
  {
    hide QueueRecord, ReadRecord;
    forall i | 0 <= i < |runs| ensures ReadRecord(QueueRecords(runs)[i]) == Ok(runs[i]) {
      RecordRoundTrip(runs[i]);
    }
  }

  lemma RecordsSized(runs: seq<FreeRun>, layout: Layout)
    requires layout.fixed == Some(QUEUE_SIZES)
    ensures SizesOk(QueueRecords(runs), layout, 0) && NoBlanks(QueueRecords(runs))
  {
    forall i | 0 <= i < |runs| ensures |QueueRecords(runs)[i].key| == 16 && |QueueRecords(runs)[i].value| == 8 {
    }
  }

  lemma MergedWords(all: seq<FreeRun>, merged: seq<FreeRun>)
    requires forall g :: g in all ==> g.xid < U64 && g.paddr < U64
    requires Canonical(merged) && StartsShared(all, merged) && Total(merged) < U64
    ensures Words64(merged)
  {
    hide Total;
    forall r | r in merged ensures r.xid < U64 && r.paddr < U64 && 0 < r.count < U64 {
      var i :| 0 <= i < |merged| && merged[i] == r;
      TotalNext(merged, i);
      TotalPrefix(merged, i + 1);
    }
  }

  lemma GatheredWords(queue: seq<FreeRun>, additions: seq<(nat, nat)>, xid: nat)
    requires xid < U64 && (forall q :: q in queue ==> q.xid < U64 && q.paddr < U64)
    requires forall i :: 0 <= i < |additions| ==> additions[i].0 < U64
    ensures forall g :: g in FreeQueue.Gathered(queue, additions, xid) ==> g.xid < U64 && g.paddr < U64
  {
    var all := FreeQueue.Gathered(queue, additions, xid);
    forall g | g in all ensures g.xid < U64 && g.paddr < U64 {
      var i :| 0 <= i < |all| && all[i] == g;
      if i < |queue| {
        assert queue[i] in queue;
      }
    }
  }

  lemma AnyLayout(recs: seq<Record>, layout: Layout, bs: nat)
    requires bs >= TOC_BASE && layout.fixed == Some(QUEUE_SIZES)
    ensures NodeBytes(recs, layout, true, 0, bs) == NodeBytes(recs, QUEUE_LAYOUT, true, 0, bs)
  {
  }

  // ---- the block ------------------------------------------------------------------------------------

  /** `bytes` under the object header of `original`, dated and sealed. */
  ghost function Rehead(original: seq<byte>, bytes: seq<byte>, xid: nat): (r: seq<byte>)
    requires |original| >= 32 && |bytes| >= 32
    ensures |r| == |bytes|
  {
    Fletcher.Sealed(Patch(Patch(bytes, 8, original[8..32]), 16, LeBytes(xid, 8)))
  }

  lemma Reheaded(original: seq<byte>, bytes: seq<byte>, xid: nat)
    requires |original| >= 32 && |bytes| >= 32 && |bytes| % 4 == 0 && xid < U64
    ensures var r := Rehead(original, bytes, xid);
            && Fletcher.Valid(r) && r[0x20..] == bytes[0x20..]
            && r[8..16] == original[8..16] && r[24..32] == original[24..32]
            && U64At(r, 16) == xid
  {
    hide Fletcher.Valid, Fletcher.Sealed, Patch, LeBytes, U64At;
    var h, d := original[8..32], LeBytes(xid, 8);
    var one := Patch(bytes, 8, h);
    var two := Patch(one, 16, d);
    var r := Fletcher.Sealed(two);
    Fletcher.SealMakesValid(two);
    PatchWrites(bytes, 8, h);
    PatchWrites(one, 16, d);
    PatchElsewhere(bytes, 8, h, 0x20, |bytes|);
    PatchElsewhere(one, 16, d, 0x20, |bytes|);
    PatchElsewhere(one, 16, d, 8, 16);
    PatchElsewhere(one, 16, d, 24, 32);
    assert one[8..32] == h;
    SliceCarried(one, original, 8, 32, 8, 16);
    SliceCarried(one, original, 8, 32, 24, 32);
    assert r[8..] == two[8..];
    SliceCarried(r, two, 8, |r|, 0x20, |r|);
    SliceCarried(r, two, 8, |r|, 8, 16);
    SliceCarried(r, two, 8, |r|, 24, 32);
    SliceCarried(r, two, 8, |r|, 16, 24);
    FieldIs64(r, 16, xid);
  }

  /** What a node holds does not depend on its object header. */
  lemma HoldsCarried(b: seq<byte>, c: seq<byte>, recs: seq<Record>, fixed: bool, level: nat)
    requires Holds(b, recs, fixed, level) && |c| == |b| && b[0x20..] == c[0x20..]
    ensures Holds(c, recs, fixed, level)
  {
    hide Entry, Matches;
    SliceCarried(b, c, 0x20, |b|, 0x20, 0x22);
    SliceCarried(b, c, 0x20, |b|, 0x22, 0x24);
    SliceCarried(b, c, 0x20, |b|, 0x24, 0x28);
    SliceCarried(b, c, 0x20, |b|, 0x28, 0x2A);
    SliceCarried(b, c, 0x20, |b|, 0x2A, 0x2C);
    var d, e := DecodeNode(b, false).value, DecodeNode(c, false).value;
    assert e == d.(bytes := c) && d.toc >= 0x20;
    forall i | 0 <= i < |recs| ensures Entry(e, i) == Entry(d, i) {
      EntryCarried(d, e, i);
    }
  }

  lemma EntryCarried(d: Node, e: Node, i: nat)
    requires d.Ok() && e == d.(bytes := e.bytes) && e.Ok() && i < d.nkeys && d.toc >= 0x20
    requires |e.bytes| == |d.bytes| && d.bytes[0x20..] == e.bytes[0x20..]
    ensures Entry(e, i) == Entry(d, i)
  {
    hide U16At;
    var b, c := d.bytes, e.bytes;
    StrideStep(i, d.nkeys, d.Stride());
    var at := d.toc + i * d.Stride();
    SameWord(b, c, at);
    SameWord(b, c, at + 2);
    if d.fixed {
      SlicesCarried(d, e, U16At(b, at), 0, U16At(b, at + 2), 0);
    } else {
      SameWord(b, c, at + 4);
      SameWord(b, c, at + 6);
      SlicesCarried(d, e, U16At(b, at), U16At(b, at + 2), U16At(b, at + 4), U16At(b, at + 6));
    }
  }

  lemma SameWord(b: seq<byte>, c: seq<byte>, at: nat)
    requires 0x20 <= at <= at + 2 <= |b| == |c| && b[0x20..] == c[0x20..]
    ensures U16At(b, at) == U16At(c, at)
  {
    SliceCarried(b, c, 0x20, |b|, at, at + 2);
  }

  lemma SlicesCarried(d: Node, e: Node, keyOff: nat, keyLen: nat, valueOff: nat, valueLen: nat)
    requires d.Ok() && e == d.(bytes := e.bytes) && e.Ok() && d.toc >= 0x20
    requires |e.bytes| == |d.bytes| && d.bytes[0x20..] == e.bytes[0x20..]
    ensures Slices(e, keyOff, keyLen, valueOff, valueLen) == Slices(d, keyOff, keyLen, valueOff, valueLen)
  {
    var r := Slices(d, keyOff, keyLen, valueOff, valueLen);
    if r.Ok? {
      var keyAt := d.keyBase + keyOff;
      var keyEnd := if d.fixed then d.valueEnd else keyAt + keyLen;
      var valueAt := d.valueEnd - valueOff;
      var end := if d.fixed then d.valueEnd else valueAt + valueLen;
      SliceCarried(d.bytes, e.bytes, 0x20, |d.bytes|, keyAt, keyEnd);
      SliceCarried(d.bytes, e.bytes, 0x20, |d.bytes|, valueAt, end);
    }
  }

  /** A written leaf under another header still holds the queue, and announces the same layout. */
  lemma LeafHolds(original: seq<byte>, bytes: seq<byte>, xid: nat, layout: Layout, runs: seq<FreeRun>)
    requires |original| >= TOC_BASE + INFO_BYTES && layout == RootImage(original).layout &&
             layout.fixed == Some(QUEUE_SIZES)
    requires |bytes| >= TOC_BASE + INFO_BYTES && |bytes| % 4 == 0 && xid < U64 && Words64(runs)
    requires Holds(bytes, QueueRecords(runs), true, 0) && RootHolds(bytes, layout)
    ensures HoldsQueue(Rehead(original, bytes, xid), runs)
    ensures RootImage(Rehead(original, bytes, xid)).layout == layout
  {
    hide Rehead, Fletcher.Valid, QueueRecords, Lists, U64At, DecodeNode, Entry, LeafRecord, SizesOk;
    var r := Rehead(original, bytes, xid);
    var recs := QueueRecords(runs);
    Reheaded(original, bytes, xid);
    HoldsCarried(bytes, r, recs, true, 0);
    SameLayout(original, bytes, r, layout, recs);
    RecordsSized(runs, layout);
    LeafEntries(r, recs, layout);
    RecordsSpell(runs);
    var v := Visit(U64At(r, 8), true, recs, []);
    assert QueueNode(r, v);
  }

  lemma SameLayout(original: seq<byte>, bytes: seq<byte>, r: seq<byte>, layout: Layout, recs: seq<Record>)
    requires |original| >= TOC_BASE + INFO_BYTES && layout == RootImage(original).layout && layout.fixed.Some?
    requires |r| == |bytes| >= TOC_BASE + INFO_BYTES && RootHolds(bytes, layout) && Holds(r, recs, true, 0)
    requires r[0x20..] == bytes[0x20..] && r[24..32] == original[24..32]
    ensures RootImage(r).layout == layout
  {
    hide Entry, Matches, Le;
    var info := |r| - INFO_BYTES;
    SliceCarried(r, bytes, 0x20, |r|, info, info + 4);
    SliceCarried(r, bytes, 0x20, |r|, info + 8, info + 12);
    SliceCarried(r, bytes, 0x20, |r|, info + 12, info + 16);
    SliceCarried(r, original, 24, 32, 0x1C, 0x20);
    assert DecodeNode(r, false).value.fixed == (U16At(r, 0x20) / 4 % 2 == 1);
  }

  // ---- reading it ------------------------------------------------------------------------------------

  /** The tree of a lone root. */
  function Lone(v: Visit, paddr: nat): Tree {
    if v.leaf then Leaf(v.oid, paddr, v.records) else Index(v.oid, paddr, [], [])
  }

  lemma LoneLeads(blocks: Blocks, paddr: nat, v: Visit)
    requires paddr in blocks && QueueNode(blocks[paddr], v)
    ensures var t := Lone(v, paddr);
            Leads(blocks, Some(QUEUE_SIZES), None, paddr, t) && Records(t) == v.records && Nodes(t) == [(v.oid, paddr)]
  {
    hide DecodeNode, Entry, LeafRecord, ChildBlock, Fletcher.Valid, U64At;
    var t := Lone(v, paddr);
    if !v.leaf {
      assert v.records == [] && OwnVisit(t).children == [];
      assert t.Index? && t.kids == [] && RecordsOf(t.kids) == [] && NodesOf(t.kids) == [];
    }
    assert OwnVisit(t) == v && Nodes(t) == [(v.oid, paddr)];
    assert Unfolds(blocks, Some(QUEUE_SIZES), None, t);
  }

  lemma NoNodes(ts: seq<Tree>)
    ensures |NodesOf(ts)| == 0 <==> ts == []
  {
  }

  lemma LoneRead(blocks: Blocks, paddr: nat, image: TreeImage)
    requires paddr in blocks && |blocks[paddr]| >= TOC_BASE + INFO_BYTES &&
             image.layout == RootImage(blocks[paddr]).layout
    requires image.layout.fixed == Some(QUEUE_SIZES) && |image.nodes| == 1
    requires LeadsSomewhere(blocks, Some(QUEUE_SIZES), None, paddr, image)
    ensures exists v :: QueueNode(blocks[paddr], v) && v.records == image.records
  {
    hide DecodeNode, Entry, LeafRecord, ChildBlock, Fletcher.Valid, U64At;
    var t :| Leads(blocks, Some(QUEUE_SIZES), None, paddr, t) && image.records == Records(t) && image.nodes == Nodes(t);
    if t.Index? {
      NoNodes(t.kids);
      assert t.kids == [] && RecordsOf(t.kids) == [];
    }
    var v := OwnVisit(t);
    assert QueueNode(blocks[paddr], v) && v.records == image.records;
  }

  /** The runs of the records; a record of another size is refused. */
  method ReadRuns(records: seq<Record>) returns (r: Result<seq<FreeRun>>)
    ensures r.Ok? ==> Lists(records, r.value) && forall q :: q in r.value ==> q.xid < U64 && q.paddr < U64
    ensures r.Err? ==> forall q :: !Lists(records, q)
  {
    var runs: seq<FreeRun> := [];
    for i := 0 to |records|
      invariant Lists(records[..i], runs)
      invariant forall q :: q in runs ==> q.xid < U64 && q.paddr < U64
    {
      var run := ReadRecord(records[i]);
      if run.Err? {
        return Err(run.error);
      }
      runs := runs + [run.value];
    }
    assert records[..|records|] == records;
    r := Ok(runs);
  }

  /** The queue read from the block, if it is one. */
  method ReadQueue(blocks: Blocks, bs: nat, paddr: nat) returns (r: Result<seq<FreeRun>>)
    requires bs >= TOC_BASE + INFO_BYTES && forall p :: p in blocks ==> |blocks[p]| == bs
    ensures r.Ok? ==> paddr in blocks && HoldsQueue(blocks[paddr], r.value)
    ensures r.Ok? ==> RootImage(blocks[paddr]).layout.fixed == Some(QUEUE_SIZES)
    ensures r.Ok? ==> forall q :: q in r.value ==> q.xid < U64 && q.paddr < U64
    ensures r.Err? && paddr in blocks ==> forall q :: !HoldsQueue(blocks[paddr], q)
  {
    hide Leads, Records, Nodes, Says, ReadRecord, Lists, RootImage;
    ghost var t: Tree := Leaf(0, 0, []);
    if v :| paddr in blocks && QueueNode(blocks[paddr], v) {
      LoneLeads(blocks, paddr, v);
      t := Lone(v, paddr);
    }
    var tree := ReadTree(blocks, bs, paddr, None, t);
    if tree.Err? {
      return Err(tree.error);
    }
    if |tree.value.nodes| != 1 || tree.value.layout.fixed != Some(QUEUE_SIZES) {
      return Err(Unsupported);
    }
    LoneRead(blocks, paddr, tree.value);
    r := ReadRuns(tree.value.records);
    if r.Err? {
      forall q ensures !HoldsQueue(blocks[paddr], q) {
        if HoldsQueue(blocks[paddr], q) {
          var w :| QueueNode(blocks[paddr], w) && Lists(w.records, q);
          var v :| QueueNode(blocks[paddr], v) && v.records == tree.value.records;
          SaysOne(blocks[paddr], Some(QUEUE_SIZES), None, v, w);
        }
      }
    }
  }

  // ---- updating it -----------------------------------------------------------------------------------

  /** Writes the runs as a lone leaf with the layout and the object header of `original`. */
  method WriteQueue(original: seq<byte>, bs: nat, runs: seq<FreeRun>, xid: nat) returns (r: Result<seq<byte>>)
    requires |original| == bs && BlockSize(bs) && TocRoom(QUEUE_LAYOUT, 0, bs) && xid < U64 && Words64(runs)
    requires RootImage(original).layout.fixed == Some(QUEUE_SIZES)
    ensures r.Ok? <==> LeafRoom(runs, bs)
    ensures r.Ok? ==> |r.value| == bs && HoldsQueue(r.value, runs)
    ensures r.Ok? ==>
              r.value[8..16] == original[8..16] && r.value[24..32] == original[24..32] && U64At(r.value, 16) == xid
    ensures r.Ok? ==> RootImage(r.value).layout == RootImage(original).layout
  {
    hide HoldsQueue, U64At, Rehead, QueueRecords, SizesOk, NodeBytes, NoBlanks, Nodes, Records, Fletcher.Valid, Holds,
         RootHolds, Words64;
    var layout := RootImage(original).layout;
    var records := QueueRecords(runs);
    RecordsSized(runs, layout);
    AnyLayout(records, layout, bs);
    assert Writable(bs, layout);
    var store := new TreeStore(bs, map[], [0]);
    var tree, nextOid, t, depth := WriteTree(store, records, layout, xid, None, 0);
    if tree.Err? {
      return Err(tree.error);
    }
    assert t.Leaf? && t.paddr == 0 && Records(t) == records;
    var bytes := store.blocks[0];
    assert Records(t) == t.recs by { LeafRecords(t); }
    LeafHolds(original, bytes, xid, layout, runs);
    Reheaded(original, bytes, xid);
    var block := new byte[bs](i requires 0 <= i < bs => bytes[i]);
    assert block[..] == bytes;
    Put(block, 8, original[8..32]);
    Put(block, 16, LeBytes(xid, 8));
    Fletcher.Seal(block);
    assert block[..] == Rehead(original, bytes, xid) by { ReheadIs(original, bytes, xid); }
    r := Ok(block[..]);
  }

  lemma LeafRecords(t: Tree)
    requires t.Leaf?
    ensures Records(t) == t.recs
  {
  }

  lemma ReheadIs(original: seq<byte>, bytes: seq<byte>, xid: nat)
    requires |original| >= 32 && |bytes| >= 32
    ensures Rehead(original, bytes, xid) ==
            Fletcher.Sealed(Patch(Patch(bytes, 8, original[8..32]), 16, LeBytes(xid, 8)))
  {
  }

  /**
   * One transaction's update of the queue block. It succeeds exactly when the block holds a queue,
   * no (transaction, block) pair is listed twice, the ranges fit in 64 bits and the coalesced list
   * fits one node. The new block then holds that list, so the next update reads it back.
   */
  method UpdateQueue(blocks: Blocks, bs: nat, paddr: nat, additions: seq<(nat, nat)>, xid: nat)
      returns (r: Result<(seq<byte>, nat, nat)>, ghost queue: seq<FreeRun>, ghost merged: seq<FreeRun>)
    requires BlockSize(bs) && TocRoom(QUEUE_LAYOUT, 0, bs) && xid < U64
    requires forall p :: p in blocks ==> |blocks[p]| == bs
    requires forall i :: 0 <= i < |additions| ==> additions[i].0 < U64
    ensures r.Ok? ==> Updatable(blocks, bs, paddr, FreeQueue.Gathered(queue, additions, xid), queue, merged)
    ensures r.Err? ==> forall q, m :: !Updatable(blocks, bs, paddr, FreeQueue.Gathered(q, additions, xid), q, m)
    ensures r.Ok? ==> |r.value.0| == bs && HoldsQueue(r.value.0, merged)
    ensures r.Ok? ==> var b, o := r.value.0, blocks[paddr];
                      b[8..16] == o[8..16] && b[24..32] == o[24..32] && U64At(b, 16) == xid &&
                      RootImage(b).layout == RootImage(o).layout
    ensures r.Ok? ==> r.value.1 == |Pairs(FreeQueue.Gathered(queue, additions, xid))|
    ensures r.Ok? ==> r.value.2 == (if merged == [] then 0 else merged[0].xid) &&
                      forall q :: q in merged ==> r.value.2 <= q.xid
  {
    hide *;
    queue, merged := [], [];
    SizeFacts(bs);
    var read := ReadQueue(blocks, bs, paddr);
    if read.Err? {
      NotAQueue(blocks, bs, paddr, additions, xid);
      return Err(read.error), queue, merged;
    }
    queue := read.value;
    GatheredWords(queue, additions, xid);
    var list := Coalesce(read.value, additions, xid);
    if list.Err? {
      forall q, m ensures !Updatable(blocks, bs, paddr, FreeQueue.Gathered(q, additions, xid), q, m) {
        if Updatable(blocks, bs, paddr, FreeQueue.Gathered(q, additions, xid), q, m) {
          UpdatableParts(blocks, bs, paddr, FreeQueue.Gathered(q, additions, xid), q, m);
          OneQueue(blocks[paddr], q, queue);
        }
      }
      return Err(list.error), queue, merged;
    }
    merged := list.value.0;
    CoalescedWords(FreeQueue.Gathered(queue, additions, xid), merged);
    var body := WriteQueue(blocks[paddr], bs, list.value.0, xid);
    if body.Err? {
      forall q, m ensures !Updatable(blocks, bs, paddr, FreeQueue.Gathered(q, additions, xid), q, m) {
        if Updatable(blocks, bs, paddr, FreeQueue.Gathered(q, additions, xid), q, m) {
          UpdatableParts(blocks, bs, paddr, FreeQueue.Gathered(q, additions, xid), q, m);
          OneQueue(blocks[paddr], q, queue);
          OneCanonical(m, merged);
        }
      }
      return Err(body.error), queue, merged;
    }
    UpdatableIs(blocks, bs, paddr, FreeQueue.Gathered(queue, additions, xid), queue, merged);
    r := Ok((body.value, list.value.1, list.value.2));
  }

  lemma SizeFacts(bs: nat)
    requires BlockSize(bs)
    ensures bs >= TOC_BASE + INFO_BYTES >= 32
  {
  }

  lemma NotAQueue(blocks: Blocks, bs: nat, paddr: nat, additions: seq<(nat, nat)>, xid: nat)
    requires paddr in blocks ==> forall q :: !HoldsQueue(blocks[paddr], q)
    ensures forall q, m :: !Updatable(blocks, bs, paddr, FreeQueue.Gathered(q, additions, xid), q, m)
  {
    hide HoldsQueue, Canonical, Fits, NoOverlap, Pairs, FreeQueue.Gathered;
  }

  lemma UpdatableParts(blocks: Blocks, bs: nat, paddr: nat, all: seq<FreeRun>, queue: seq<FreeRun>,
                       merged: seq<FreeRun>)
    requires Updatable(blocks, bs, paddr, all, queue, merged)
    ensures paddr in blocks && HoldsQueue(blocks[paddr], queue) && NoOverlap(all) && Fits(all)
    ensures Canonical(merged) && Pairs(merged) == Pairs(all) && LeafRoom(merged, bs)
  {
    hide HoldsQueue, Canonical, Fits, NoOverlap, Pairs;
  }

  lemma UpdatableIs(blocks: Blocks, bs: nat, paddr: nat, all: seq<FreeRun>, queue: seq<FreeRun>, merged: seq<FreeRun>)
    requires paddr in blocks && HoldsQueue(blocks[paddr], queue) && NoOverlap(all) && Fits(all)
    requires Canonical(merged) && Pairs(merged) == Pairs(all) && LeafRoom(merged, bs)
    ensures Updatable(blocks, bs, paddr, all, queue, merged)
  {
    hide HoldsQueue, Canonical, Fits, NoOverlap, Pairs;
  }

  lemma CoalescedWords(all: seq<FreeRun>, merged: seq<FreeRun>)
    requires forall g :: g in all ==> g.xid < U64 && g.paddr < U64
    requires Canonical(merged) && Pairs(merged) == Pairs(all) && NoOverlap(all) && Fits(all) &&
             StartsShared(all, merged)
    ensures Words64(merged)
  {
    hide Pairs, Total, StartsShared, Words64, Canonical, EndsFit;
    CanonicalCounts(merged);
    MergedWords(all, merged);
  }
}

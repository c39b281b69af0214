/** Packing a record list into a B-tree, level by level (src/apfs_write.rs `write_tree`). */
module TreeWriter {
  import opened Bytes
  import opened TreeNode
  import opened BTree
  import Fletcher

  /**
   * Any block store that hands out fresh addresses: `supply` lists the addresses its allocator
   * will return, in order, and an empty supply is an allocation failure.
   */
  class TreeStore {
    const bs: nat
    var blocks: Blocks
    var supply: seq<nat>

    constructor (bs: nat, blocks: Blocks, supply: seq<nat>)
      ensures this.bs == bs && this.blocks == blocks && this.supply == supply
    {
      this.bs, this.blocks, this.supply := bs, blocks, supply;
    }

    method Alloc() returns (r: Result<nat>)
      modifies this`supply
      ensures r.Ok? <==> old(supply) != []
      ensures r.Ok? ==> old(supply) == [r.value] + supply
      ensures r.Err? ==> supply == old(supply)
    {
      if supply == [] {
        return Err(NoSpace);
      }
      r := Ok(supply[0]);
      supply := supply[1..];
    }

    method WriteBlock(paddr: nat, data: seq<byte>)
      modifies this`blocks
      ensures blocks == old(blocks)[paddr := data]
    {
      blocks := blocks[paddr := data];
    }
  }

  predicate Fresh(supply: seq<nat>) {
    && (forall i :: 0 <= i < |supply| ==> supply[i] < U64)
    && forall i, j :: 0 <= i < j < |supply| ==> supply[i] != supply[j]
  }

  /** No record is wholly empty. */
  predicate NoBlanks(recs: seq<Record>) {
    forall i :: 0 <= i < |recs| ==> recs[i].key != [] || recs[i].value != []
  }

  /** Block size and layout for which every node that fits by size is readable. */
  predicate Writable(bs: nat, layout: Layout) {
    BlockSize(bs) && LayoutOk(layout) && TocRoom(layout, 0, bs) && TocRoom(layout, 1, bs)
  }

  lemma TocRoomAnyLevel(bs: nat, layout: Layout, level: nat)
    requires Writable(bs, layout)
    ensures TocRoom(layout, level, bs)
  {
  }

  /** Encodes, seals and stores one node. */
  method WriteNode(store: TreeStore, recs: seq<Record>, layout: Layout, level: nat, root: bool, totals: Totals,
                   oid: nat, xid: nat, storage: nat, paddr: nat) returns (r: Result<bool>)
    requires Writable(store.bs, layout) && level < U16 && oid < U64
    requires storage == 0 || storage == OBJ_PHYSICAL
    modifies store`blocks
    ensures r.Err? <==> NodeBytes(recs, layout, root, level, store.bs) > store.bs || !SizesOk(recs, layout, level)
    ensures r.Err? ==> store.blocks == old(store.blocks)
    ensures r.Ok? ==>
              && store.blocks.Keys == old(store.blocks).Keys + {paddr}
              && store.blocks == old(store.blocks)[paddr := store.blocks[paddr]]
              && var b := store.blocks[paddr];
              && |b| == store.bs && Fletcher.Valid(b) && U64At(b, 8) == oid && (!root ==> InnerNode(b))
              && (NoBlanks(recs) ==> Holds(b, recs, layout.fixed.Some?, level) && (root ==> RootHolds(b, layout)))
  {
    hide *;
    WritableSize(store.bs, layout);
    var bytes := EncodeTreeNode(store.bs, recs, layout, level, root, totals);
    if bytes.Err? {
      return Err(bytes.error);
    }
    var kind := storage + if root then TYPE_BTREE else TYPE_BTREE_NODE;
    var b := Seal(oid, xid, kind, layout.subtype, bytes.value);
    NodeFits(recs, layout, level, root, store.bs);
    NodeSealed(oid, xid, storage, bytes.value, recs, layout, level, root, totals);
    store.WriteBlock(paddr, b);
    r := Ok(true);
  }

  /** An encoded node, sealed: what a reader needs of its block. */
  lemma NodeSealed(oid: nat, xid: nat, storage: nat, bytes: seq<byte>, recs: seq<Record>, layout: Layout, level: nat,
                   root: bool, totals: Totals)
    requires Writable(|bytes|, layout) && level < U16 && oid < U64 && (storage == 0 || storage == OBJ_PHYSICAL)
    requires NodeBytes(recs, layout, root, level, |bytes|) <= |bytes| && TocFits(layout, |recs|, level, |bytes|)
    requires Encodes(bytes, recs, layout, level, root, totals)
    ensures var kind := storage + if root then TYPE_BTREE else TYPE_BTREE_NODE;
            var b := SealNode(oid, xid, kind, layout.subtype, bytes);
            && |b| == |bytes| && Fletcher.Valid(b) && U64At(b, 8) == oid && (!root ==> InnerNode(b))
            && (NoBlanks(recs) ==> Holds(b, recs, layout.fixed.Some?, level) && (root ==> RootHolds(b, layout)))
  {
    hide Holds, RootHolds, Encodes, NodeBytes, TocFits, Fletcher.Valid, TocRoom, U32At, U64At, SealNode;
    var kind := storage + if root then TYPE_BTREE else TYPE_BTREE_NODE;
    SealedFields(oid, xid, kind, layout.subtype, bytes);
    if NoBlanks(recs) {
      SealedNodeHolds(bytes, SealNode(oid, xid, kind, layout.subtype, bytes), recs, layout, level, root, totals);
    }
  }

  lemma NodeFits(recs: seq<Record>, layout: Layout, level: nat, root: bool, bs: nat)
    requires Writable(bs, layout)
    requires NodeBytes(recs, layout, root, level, bs) <= bs && SizesOk(recs, layout, level)
    ensures TocFits(layout, |recs|, level, bs)
  {
    hide NodeBytes, SizesOk, TocFits;
    if root {
      RootTocFits(recs, layout, level, bs);
    } else {
      TocRoomAnyLevel(bs, layout, level);
      TocRoomSuffices(recs, layout, level, bs);
    }
  }

  // ---- the trees behind one level -------------------------------------------------------------

  /** The tree rooted at a node that stores `slice`, over the trees its entries announce. */
  function NodeTree(level: nat, oid: nat, paddr: nat, slice: seq<Record>, kids: seq<Tree>): Tree {
    if level == 0 then Leaf(oid, paddr, slice)
    else Index(oid, paddr, seq(|slice|, i requires 0 <= i < |slice| => slice[i].key), kids)
  }

  /** `rec` is the separator of the stored, non-empty tree `t`. */
  predicate Announces(rec: Record, t: Tree) {
    NonEmpty(t) && t.oid < U64 && rec == Separator(FirstKey(t), t.oid)
  }

  predicate AllAnnounced(recs: seq<Record>, ts: seq<Tree>) {
    |recs| == |ts| && forall i :: 0 <= i < |ts| ==> Announces(recs[i], ts[i])
  }

  /** The records below the entries of a level. */
  function Flat(level: nat, entries: seq<Record>, trees: seq<Tree>): seq<Record> {
    if level == 0 then entries else RecordsOf(trees)
  }

  /** Entries of a level: themselves records, or separators announcing stored trees. */
  ghost predicate LevelOk(blocks: Blocks, bs: nat, fixed: bool, level: nat, entries: seq<Record>, trees: seq<Tree>) {
    && NoBlanks(entries)
    && (level == 0 ==> trees == [])
    && (level > 0 ==> AllAnnounced(entries, trees) && AllStored(blocks, bs, fixed, trees, level - 1))
  }

  lemma NodeTreeRecs(level: nat, oid: nat, paddr: nat, slice: seq<Record>, kids: seq<Tree>)
    requires level == 0 ==> kids == []
    requires level > 0 ==> AllAnnounced(slice, kids)
    ensures var t := NodeTree(level, oid, paddr, slice, kids);
            && (t.Index? ==> |t.keys| == |t.kids|)
            && NodeRecs(t) == slice
            && Records(t) == Flat(level, slice, kids)
            && Nodes(t) == [(oid, paddr)] + NodesOf(kids)
            && (slice != [] ==> NonEmpty(t) && FirstKey(t) == slice[0].key)
  {
    var t := NodeTree(level, oid, paddr, slice, kids);
    OwnNode(t);
    if level > 0 {
      forall i | 0 <= i < |slice| ensures NodeRecs(t)[i] == slice[i] {
        assert Announces(slice[i], kids[i]);
      }
    }
  }

  /** A node whose block holds the slice stores the tree over it. */
  lemma NodeTreeStored(blocks: Blocks, bs: nat, fixed: bool, level: nat, oid: nat, paddr: nat, slice: seq<Record>,
                       kids: seq<Tree>)
    requires LevelOk(blocks, bs, fixed, level, slice, kids)
    requires paddr in blocks && NodeBlock(blocks[paddr], bs, fixed, level, oid, slice)
    ensures Stored(blocks, bs, fixed, NodeTree(level, oid, paddr, slice, kids), level)
  {
    hide Holds, Fletcher.Valid, NodeRecs, InnerNode;
    NodeTreeRecs(level, oid, paddr, slice, kids);
    var t := NodeTree(level, oid, paddr, slice, kids);
    if level > 0 {
      forall i | 0 <= i < |kids| ensures NonEmpty(kids[i]) && t.keys[i] == FirstKey(kids[i]) && kids[i].oid < U64 {
        assert Announces(slice[i], kids[i]);
      }
    }
  }

  /** What `WriteNode` leaves in a block. */
  predicate NodeBlock(b: seq<byte>, bs: nat, fixed: bool, level: nat, oid: nat, recs: seq<Record>) {
    |b| == bs >= TOC_BASE + INFO_BYTES && Fletcher.Valid(b) && U64At(b, 8) == oid && Holds(b, recs, fixed, level)
  }

  // ---- accounting for nodes -------------------------------------------------------------------

  /** The (object id, block) pairs of the first k allocations; the root's comes first. */
  function Ledger(supply: seq<nat>, k: nat, rootOid: nat, isVirtual: bool, firstOid: nat): (l: seq<(nat, nat)>)
    requires k <= |supply|
    ensures |l| == k
  {
    seq(k, i requires 0 <= i < k =>
      (if i == 0 then rootOid else if isVirtual then firstOid + i - 1 else supply[i], supply[i]))
  }

  /** The nodes are exactly the ledger's, apart from the root's entry, each once. */
  predicate Booked(nodes: seq<(nat, nat)>, ledger: seq<(nat, nat)>) {
    && NoRepeats(nodes) && |nodes| + 1 == |ledger|
    && forall n :: n in nodes ==> n in ledger[1..]
  }

  lemma BookOne(a: seq<(nat, nat)>, b: seq<(nat, nat)>, ledger: seq<(nat, nat)>, n: (nat, nat))
    requires Booked(a + b, ledger) && forall m :: m in ledger ==> m.1 != n.1
    ensures Booked(a + ([n] + b), ledger + [n])
  {
    var all := a + ([n] + b);
    assert (ledger + [n])[1..] == ledger[1..] + [n];
    forall m | m in all ensures m in (ledger + [n])[1..] {
      assert m == n || m in a + b;
    }
    forall m | m in a + b ensures m.1 != n.1 {
      assert m in ledger[1..];
    }
    forall i, j | 0 <= i < j < |all| ensures all[i].1 != all[j].1 {
      var p, q := if i < |a| then i else i - 1, if j < |a| then j else j - 1;
      if i == |a| {
        assert all[j] == (a + b)[q];
      } else if j == |a| {
        assert all[i] == (a + b)[p];
      } else {
        assert all[i] == (a + b)[p] && all[j] == (a + b)[q];
      }
    }
  }

  /** Half-packed level: trees made so far, entries still to be packed. */
  ghost predicate Packing(blocks: Blocks, bs: nat, fixed: bool, level: nat, records: seq<Record>, rest: seq<Record>,
                          trees: seq<Tree>, parents: seq<Record>, made: seq<Tree>, ledger: seq<(nat, nat)>)
  {
    && LevelOk(blocks, bs, fixed, level, rest, trees)
    && LevelOk(blocks, bs, fixed, level + 1, parents, made)
    && RecordsOf(made) + Flat(level, rest, trees) == records
    && Booked(NodesOf(made) + NodesOf(trees), ledger)
  }

  /** A block outside the ledger can be written without touching any tree. */
  lemma LevelOkFrame(b1: Blocks, paddr: nat, b: seq<byte>, bs: nat, fixed: bool, level: nat, entries: seq<Record>,
                     trees: seq<Tree>)
    requires LevelOk(b1, bs, fixed, level, entries, trees)
    requires forall n :: n in NodesOf(trees) ==> n.1 != paddr
    ensures LevelOk(b1[paddr := b], bs, fixed, level, entries, trees)
  {
    hide AllStored, AllAnnounced;
    if level > 0 {
      AllStoredFrame(b1, b1[paddr := b], bs, fixed, trees, level - 1);
    }
  }

  lemma LevelOkSplit(blocks: Blocks, bs: nat, fixed: bool, level: nat, entries: seq<Record>, trees: seq<Tree>, n: nat)
    requires LevelOk(blocks, bs, fixed, level, entries, trees) && n <= |entries|
    ensures level > 0 ==> |trees| == |entries|
    ensures var m := if level == 0 then 0 else n;
            && LevelOk(blocks, bs, fixed, level, entries[..n], trees[..m])
            && LevelOk(blocks, bs, fixed, level, entries[n..], trees[m..])
            && Flat(level, entries, trees) ==
               Flat(level, entries[..n], trees[..m]) + Flat(level, entries[n..], trees[m..])
            && NodesOf(trees) == NodesOf(trees[..m]) + NodesOf(trees[m..])
  {
    hide RecordsOf, NodesOf, AllStored, AllAnnounced, NoBlanks;
    var m := if level == 0 then 0 else n;
    EntriesSplit(blocks, bs, fixed, level, entries, trees, n, m);
    assert entries == entries[..n] + entries[n..] && trees == trees[..m] + trees[m..];
    RecordsOfConcat(trees[..m], trees[m..]);
    NodesOfConcat(trees[..m], trees[m..]);
  }

  lemma EntriesSplit(blocks: Blocks, bs: nat, fixed: bool, level: nat, entries: seq<Record>, trees: seq<Tree>, n: nat,
                     m: nat)
    requires NoBlanks(entries) && n <= |entries| && (level == 0 ==> m == 0 && trees == [])
    requires level > 0 ==> m == n && AllAnnounced(entries, trees) && AllStored(blocks, bs, fixed, trees, level - 1)
    ensures NoBlanks(entries[..n]) && NoBlanks(entries[n..])
    ensures level > 0 ==> |trees| == |entries|
    ensures level > 0 ==> AllAnnounced(entries[..n], trees[..m]) && AllAnnounced(entries[n..], trees[m..])
    ensures level > 0 ==> AllStored(blocks, bs, fixed, trees[..m], level - 1)
    ensures level > 0 ==> AllStored(blocks, bs, fixed, trees[m..], level - 1)
  {
    hide Stored, Announces;
  }

  lemma LevelOkAppend(blocks: Blocks, bs: nat, fixed: bool, level: nat, entries: seq<Record>, trees: seq<Tree>,
                      rec: Record, t: Tree)
    requires LevelOk(blocks, bs, fixed, level + 1, entries, trees)
    requires Announces(rec, t) && rec.value != [] && Stored(blocks, bs, fixed, t, level) && InnerNode(blocks[t.paddr])
    ensures LevelOk(blocks, bs, fixed, level + 1, entries + [rec], trees + [t])
    ensures RecordsOf(trees + [t]) == RecordsOf(trees) + Records(t)
    ensures NodesOf(trees + [t]) == NodesOf(trees) + Nodes(t)
  {
    hide Stored, Announces, Records, Nodes, InnerNode;
    RecordsOfConcat(trees, [t]);
    NodesOfConcat(trees, [t]);
    SingleTree(t);
  }

  /** Packing the next n entries into a freshly allocated node. */
  lemma PackStep(blocks: Blocks, bs: nat, fixed: bool, level: nat, records: seq<Record>,
                 rest: seq<Record>, trees: seq<Tree>, parents: seq<Record>, made: seq<Tree>, ledger: seq<(nat, nat)>,
                 n: nat, oid: nat, paddr: nat, b: seq<byte>)
    requires Packing(blocks, bs, fixed, level, records, rest, trees, parents, made, ledger)
    requires 0 < n <= |rest| && oid < U64
    requires forall m :: m in ledger ==> m.1 != paddr
    requires NodeBlock(b, bs, fixed, level, oid, rest[..n]) && InnerNode(b)
    ensures level > 0 ==> |trees| == |rest|
    ensures var m := if level == 0 then 0 else n;
            Packing(blocks[paddr := b], bs, fixed, level, records, rest[n..], trees[m..],
                    parents + [Separator(rest[0].key, oid)],
                    made + [NodeTree(level, oid, paddr, rest[..n], trees[..m])], ledger + [(oid, paddr)])
  {
    hide LevelOk, NodeBlock, Booked, NodesOf, RecordsOf, Flat, Records, Nodes, Announces, InnerNode;
    LevelOkSplit(blocks, bs, fixed, level, rest, trees, n);
    var m := if level == 0 then 0 else n;
    var slice, kids, t := rest[..n], trees[..m], NodeTree(level, oid, paddr, rest[..n], trees[..m]);
    NotInNodes(made, trees, kids, trees[m..], ledger, paddr);
    LevelOkFrame(blocks, paddr, b, bs, fixed, level, slice, kids);
    LevelOkFrame(blocks, paddr, b, bs, fixed, level, rest[n..], trees[m..]);
    LevelOkFrame(blocks, paddr, b, bs, fixed, level + 1, parents, made);
    FirstEntry(blocks, bs, fixed, level, slice, kids, oid, paddr);
    NodeTreeStored(blocks[paddr := b], bs, fixed, level, oid, paddr, slice, kids);
    LevelOkAppend(blocks[paddr := b], bs, fixed, level, parents, made, Separator(rest[0].key, oid), t);
    PackAccount(records, RecordsOf(made), Records(t), Flat(level, rest[n..], trees[m..]));
    ConcatAssoc(NodesOf(made), [(oid, paddr)] + NodesOf(kids), NodesOf(trees[m..]));
    ConcatAssoc([(oid, paddr)], NodesOf(kids), NodesOf(trees[m..]));
    BookOne(NodesOf(made), NodesOf(trees), ledger, (oid, paddr));
  }

  lemma PackAccount(records: seq<Record>, made: seq<Record>, own: seq<Record>, left: seq<Record>)
    requires made + (own + left) == records
    ensures (made + own) + left == records
  {
    ConcatAssoc(made, own, left);
  }

  lemma NotInNodes(made: seq<Tree>, trees: seq<Tree>, kids: seq<Tree>, rest: seq<Tree>, ledger: seq<(nat, nat)>,
                   paddr: nat)
    requires Booked(NodesOf(made) + NodesOf(trees), ledger) && NodesOf(trees) == NodesOf(kids) + NodesOf(rest)
    requires forall m :: m in ledger ==> m.1 != paddr
    ensures forall n :: n in NodesOf(made) ==> n.1 != paddr
    ensures forall n :: n in NodesOf(kids) ==> n.1 != paddr
    ensures forall n :: n in NodesOf(rest) ==> n.1 != paddr
  {
    hide NodesOf;
    var all := NodesOf(made) + NodesOf(trees);
    forall n | n in all ensures n.1 != paddr {
      assert n in ledger[1..];
    }
    assert forall n :: n in NodesOf(made) ==> n in all;
    assert forall n :: n in NodesOf(kids) ==> n in NodesOf(trees);
    assert forall n :: n in NodesOf(rest) ==> n in NodesOf(trees);
    assert forall n :: n in NodesOf(trees) ==> n in all;
  }

  lemma FirstEntry(blocks: Blocks, bs: nat, fixed: bool, level: nat, slice: seq<Record>, kids: seq<Tree>, oid: nat,
                   paddr: nat)
    requires LevelOk(blocks, bs, fixed, level, slice, kids) && slice != [] && oid < U64
    ensures var t := NodeTree(level, oid, paddr, slice, kids);
            && Announces(Separator(slice[0].key, oid), t) && Separator(slice[0].key, oid).value != []
            && Records(t) == Flat(level, slice, kids)
            && Nodes(t) == [(oid, paddr)] + NodesOf(kids)
  {
    hide Stored, Announces, Records, Nodes, NodesOf, RecordsOf;
    NodeTreeRecs(level, oid, paddr, slice, kids);
    AnnouncesOwn(NodeTree(level, oid, paddr, slice, kids), slice[0].key);
  }

  lemma AnnouncesOwn(t: Tree, key: seq<byte>)
    requires NonEmpty(t) && t.oid < U64 && FirstKey(t) == key
    ensures Announces(Separator(key, t.oid), t)
  {
  }

  // ---- the writer -----------------------------------------------------------------------------

  /** The longest run of entries from `start` that fits one node, found one entry at a time. */
  method GreedyEnd(current: seq<Record>, start: nat, layout: Layout, level: nat, bs: nat) returns (end: nat)
    requires start < |current| && bs >= TOC_BASE
    ensures start <= end <= |current|
    ensures forall e :: start < e <= end ==> NodeBytes(current[start..e], layout, false, level, bs) <= bs
    ensures end < |current| ==> NodeBytes(current[start..end + 1], layout, false, level, bs) > bs
  {
    hide NodeBytes;
    end := start;
    while end < |current| && NodeBytes(current[start..end + 1], layout, false, level, bs) <= bs
      invariant start <= end <= |current|
      invariant forall e :: start < e <= end ==> NodeBytes(current[start..e], layout, false, level, bs) <= bs
    {
      end := end + 1;
    }
  }

  /** How the run has drawn on the store so far. */
  ghost predicate Drawn(supply0: seq<nat>, supply: seq<nat>, mappings: seq<(nat, nat)>, rootOid: nat, isVirtual: bool,
                        firstOid: nat, nextOid: nat)
  {
    && Fresh(supply0) && 1 <= |mappings| <= |supply0| && supply == supply0[|mappings|..]
    && mappings == Ledger(supply0, |mappings|, rootOid, isVirtual, firstOid)
    && nextOid == (if isVirtual then firstOid + |mappings| - 1 else firstOid)
    && nextOid < U64
  }

  /** Only addresses drawn from the supply have been written, with whole blocks. */
  ghost predicate Untouched(blocks0: Blocks, blocks: Blocks, used: seq<nat>, bs: nat) {
    && (forall p :: p !in used ==> (p in blocks <==> p in blocks0) && (p in blocks0 ==> blocks[p] == blocks0[p]))
    && (forall p :: p in blocks ==> |blocks[p]| == bs || (p in blocks0 && blocks[p] == blocks0[p]))
    && (forall p :: p in blocks0 ==> p in blocks)
  }

  lemma NextEntry(supply0: seq<nat>, supply: seq<nat>, mappings: seq<(nat, nat)>, rootOid: nat, isVirtual: bool,
                  firstOid: nat, nextOid: nat)
    requires Drawn(supply0, supply, mappings, rootOid, isVirtual, firstOid, nextOid) && supply != []
    ensures var paddr := supply[0];
            var oid := if isVirtual then nextOid else paddr;
            && oid < U64 && |mappings| < |supply0|
            && (forall m :: m in mappings ==> m.1 != paddr)
            && paddr !in supply0[..|mappings|]
            && supply0[..|mappings| + 1] == supply0[..|mappings|] + [paddr]
            && (!isVirtual || nextOid + 1 < U64 ==>
                  Drawn(supply0, supply[1..], mappings + [(oid, paddr)], rootOid, isVirtual, firstOid,
                        if isVirtual then nextOid + 1 else nextOid))
  {
    var k := |mappings|;
    assert supply[0] == supply0[k];
    forall m | m in mappings ensures m.1 != supply[0] {
      var i :| 0 <= i < k && mappings[i] == m;
      assert m.1 == supply0[i];
    }
    var oid := if isVirtual then nextOid else supply[0];
    assert mappings + [(oid, supply[0])] == Ledger(supply0, k + 1, rootOid, isVirtual, firstOid);
  }

  lemma DrawnBound(supply0: seq<nat>, supply: seq<nat>, mappings: seq<(nat, nat)>, rootOid: nat, isVirtual: bool,
                   firstOid: nat, nextOid: nat)
    requires Drawn(supply0, supply, mappings, rootOid, isVirtual, firstOid, nextOid)
    ensures 1 <= |mappings| <= |supply0| && nextOid < U64
  {
  }

  lemma WritableSize(bs: nat, layout: Layout)
    requires Writable(bs, layout)
    ensures BlockSize(bs) && LayoutOk(layout) && 4096 <= bs && TOC_BASE + INFO_BYTES <= bs && 32 <= bs
  {
  }

  lemma UntouchedStep(blocks0: Blocks, blocks: Blocks, used: seq<nat>, bs: nat, paddr: nat, b: seq<byte>)
    requires Untouched(blocks0, blocks, used, bs) && |b| == bs
    ensures Untouched(blocks0, blocks[paddr := b], used + [paddr], bs)
  {
  }

  lemma StartPacking(blocks: Blocks, bs: nat, fixed: bool, level: nat, records: seq<Record>,
                     current: seq<Record>, forest: seq<Tree>, ledger: seq<(nat, nat)>)
    requires LevelOk(blocks, bs, fixed, level, current, forest) && Flat(level, current, forest) == records
    requires Booked(NodesOf(forest), ledger)
    ensures Packing(blocks, bs, fixed, level, records, current[0..], forest, [], [], ledger)
  {
    hide Stored, Booked;
    assert current[0..] == current;
    assert NodesOf([]) + NodesOf(forest) == NodesOf(forest) && RecordsOf([]) + records == records;
  }

  lemma EndPacking(blocks: Blocks, bs: nat, fixed: bool, level: nat, records: seq<Record>,
                   rest: seq<Record>, trees: seq<Tree>, parents: seq<Record>, made: seq<Tree>, ledger: seq<(nat, nat)>)
    requires Packing(blocks, bs, fixed, level, records, rest, trees, parents, made, ledger) && rest == []
    ensures LevelOk(blocks, bs, fixed, level + 1, parents, made)
    ensures RecordsOf(made) == records && Booked(NodesOf(made), ledger)
  {
    hide Stored, Booked;
    assert trees == [];
    assert NodesOf(made) + NodesOf([]) == NodesOf(made) && RecordsOf(made) + [] == RecordsOf(made);
  }

  lemma PackingKeys(blocks: Blocks, bs: nat, fixed: bool, level: nat, records: seq<Record>, rest: seq<Record>,
                    trees: seq<Tree>, parents: seq<Record>, made: seq<Tree>, ledger: seq<(nat, nat)>, n: nat)
    requires Packing(blocks, bs, fixed, level, records, rest, trees, parents, made, ledger) && n <= |rest|
    ensures NoBlanks(rest[..n])
  {
    hide Stored, Booked;
  }

  lemma BlockWritten(b: seq<byte>, bs: nat, fixed: bool, level: nat, oid: nat, recs: seq<Record>)
    requires |b| == bs && BlockSize(bs) && Fletcher.Valid(b) && U64At(b, 8) == oid && Holds(b, recs, fixed, level)
    ensures NodeBlock(b, bs, fixed, level, oid, recs)
  {
    hide Fletcher.Valid, Holds;
  }

  lemma NoSizes(current: seq<Record>, layout: Layout, level: nat)
    ensures SizesOk(current[..0], layout, level)
  {
  }

  lemma SizesGrow(current: seq<Record>, start: nat, end: nat, layout: Layout, level: nat)
    requires start <= end <= |current|
    requires SizesOk(current[..start], layout, level) && SizesOk(current[start..end], layout, level)
    ensures SizesOk(current[..end], layout, level)
  {
    assert current[..end] == current[..start] + current[start..end];
  }

  // ---- when packing succeeds -------------------------------------------------------------------------

  predicate KeysWithin(recs: seq<Record>, longest: nat) {
    forall i :: 0 <= i < |recs| ==> |recs[i].key| <= longest
  }

  predicate ValuesEight(recs: seq<Record>) {
    forall i :: 0 <= i < |recs| ==> |recs[i].value| == 8
  }

  /** Two separators with keys of this length fit an index node, and one fits a root. */
  predicate PairFits(layout: Layout, longest: nat, bs: nat)
    requires bs >= TOC_BASE
  {
    && TOC_BASE + TocLen(layout, 2, 1, bs) + 2 * longest + 16 <= bs
    && TOC_BASE + TocLen(layout, 1, 1, bs) + longest + 8 + INFO_BYTES <= bs
  }

  /** Every record fits a node by itself, and blocks and object ids suffice for one node per record. */
  predicate LevelReady(current: seq<Record>, layout: Layout, level: nat, bs: nat, supply: nat, isVirtual: bool,
                       nextOid: nat)
    requires bs >= TOC_BASE
  {
    && SizesOk(current, layout, level) && |current| <= supply && (isVirtual ==> nextOid + |current| < U64)
    && forall i :: 0 <= i < |current| ==> NodeBytes([current[i]], layout, false, level, bs) <= bs
  }

  lemma PairHere(current: seq<Record>, layout: Layout, level: nat, bs: nat, longest: nat, start: nat, end: nat)
    requires bs >= TOC_BASE && level > 0 && KeysWithin(current, longest) && ValuesEight(current) &&
             PairFits(layout, longest, bs)
    requires start < |current| && start <= end <= |current|
    requires end < |current| ==> NodeBytes(current[start..end + 1], layout, false, level, bs) > bs
    ensures end == |current| || end >= start + 2
  {
    hide TocLen;
    if end < |current| && end < start + 2 {
      var slice := current[start..end + 1];
      SliceBytes(slice, longest);
      TocSame(layout, |slice|, level, bs);
      TocGrows(layout, bs);
    }
  }

  lemma {:induction false} SliceBytes(recs: seq<Record>, longest: nat)
    requires KeysWithin(recs, longest) && ValuesEight(recs)
    ensures KeyBytes(recs) <= |recs| * longest && ValueBytes(recs) == 8 * |recs|
  {
    if recs != [] {
      var n := |recs| - 1;
      SliceBytes(recs[..n], longest);
      assert (n + 1) * longest == n * longest + longest;
    }
  }

  /** Index levels are all laid out alike. */
  lemma TocSame(layout: Layout, n: nat, level: nat, bs: nat)
    requires bs >= TOC_BASE && level > 0
    ensures TocLen(layout, n, level, bs) == TocLen(layout, n, 1, bs)
  {
  }

  lemma TocGrows(layout: Layout, bs: nat)
    requires bs >= TOC_BASE
    ensures TocLen(layout, 1, 1, bs) <= TocLen(layout, 2, 1, bs)
  {
  }

  predicate KeysSized(recs: seq<Record>, layout: Layout) {
    layout.fixed.Some? ==> forall i :: 0 <= i < |recs| ==> |recs[i].key| == layout.fixed.value.0
  }

  /** What packing a level starts with: its records, and the blocks and ids it may draw. */
  datatype Task = Task(current: seq<Record>, layout: Layout, level: nat, bs: nat, longest: nat, supply: nat,
                       isVirtual: bool, nextOid: nat)

  ghost predicate Ready(k: Task) {
    k.bs >= TOC_BASE && LevelReady(k.current, k.layout, k.level, k.bs, k.supply, k.isVirtual, k.nextOid)
  }

  ghost predicate Paired(k: Task) {
    k.level > 0 && ValuesEight(k.current) && k.bs >= TOC_BASE && PairFits(k.layout, k.longest, k.bs)
  }

  /** The count of separators made from the first `start` records, and of what they have drawn. */
  ghost predicate Progress(k: Task, start: nat, parents: seq<Record>, supply: nat, nextOid: nat) {
    && start <= |k.current| && |parents| <= start && (start > 0 ==> parents != []) && KeysWithin(k.current, k.longest)
    && supply + |parents| == k.supply && nextOid == (if k.isVirtual then k.nextOid + |parents| else k.nextOid)
    && KeysWithin(parents, k.longest) && ValuesEight(parents) && KeysSized(parents, k.layout)
    && (Paired(k) ==> 2 * |parents| <= start + (if start == |k.current| then 1 else 0))
  }

  lemma ProgressStarts(k: Task)
    requires KeysWithin(k.current, k.longest)
    ensures Progress(k, 0, [], k.supply, k.nextOid)
  {
    hide PairFits;
  }

  /** A level that is ready meets none of the writer's errors. */
  lemma NeverStuck(k: Task, start: nat, parents: seq<Record>, supply: nat, nextOid: nat, end: nat)
    requires Progress(k, start, parents, supply, nextOid) && start < |k.current| && start <= end <= |k.current| &&
             k.bs >= TOC_BASE
    requires end < |k.current| ==> NodeBytes(k.current[start..end + 1], k.layout, false, k.level, k.bs) > k.bs
    ensures Ready(k) ==>
              && start < end && supply > 0 && (k.isVirtual ==> nextOid + 1 < U64)
              && SizesOk(k.current[start..end], k.layout, k.level)
  {
    hide NodeBytes, PairFits;
    assert k.current[start..start + 1] == [k.current[start]];
  }

  lemma ProgressStep(k: Task, start: nat, parents: seq<Record>, supply: nat, nextOid: nat, end: nat, oid: nat)
    requires Progress(k, start, parents, supply, nextOid) && start < end <= |k.current| && k.bs >= TOC_BASE &&
             supply > 0
    requires end < |k.current| ==> NodeBytes(k.current[start..end + 1], k.layout, false, k.level, k.bs) > k.bs
    requires SizesOk(k.current[..end], k.layout, k.level)
    ensures Progress(k, end, parents + [Separator(k.current[start].key, oid)], supply - 1,
                     if k.isVirtual then nextOid + 1 else nextOid)
  {
    hide NodeBytes, PairFits;
    if Paired(k) {
      PairHere(k.current, k.layout, k.level, k.bs, k.longest, start, end);
    }
    assert k.layout.fixed.Some? ==> |k.current[..end][start].key| == k.layout.fixed.value.0;
  }

  lemma ProgressEnds(k: Task, parents: seq<Record>, supply: nat, nextOid: nat)
    requires Progress(k, |k.current|, parents, supply, nextOid)
    ensures LevelDone(k, parents)
  {
    hide PairFits;
  }

  lemma ParentsWithin(k: Task, parents: seq<Record>)
    requires LevelDone(k, parents)
    ensures KeysWithin(parents, k.longest)
  {
    hide PairFits, SizesOk;
  }

  /** A packed level: separators with keys from below, and about half as many where two fit a node. */
  ghost predicate LevelDone(k: Task, parents: seq<Record>) {
    && |parents| <= |k.current| && (k.current != [] ==> parents != [])
    && KeysWithin(parents, k.longest) && SizesOk(parents, k.layout, k.level + 1) && ValuesEight(parents)
    && (Paired(k) ==> 2 * |parents| <= |k.current| + 1)
  }

  datatype Level = Level(parents: seq<Record>, mappings: seq<(nat, nat)>, nextOid: nat)

  /** Packs one whole level into nodes and returns the separators announcing them. */
  method WriteLevel(store: TreeStore, current: seq<Record>, layout: Layout, level: nat, xid: nat, isVirtual: bool,
                    nextOid0: nat, totals: Totals, mappings0: seq<(nat, nat)>,
                    ghost records: seq<Record>, ghost forest: seq<Tree>, ghost blocks0: Blocks, ghost supply0: seq<nat>,
                    ghost rootOid: nat, ghost firstOid: nat, ghost longest: nat, ghost sound: bool)
      returns (r: Result<Level>, ghost made: seq<Tree>)
    requires Writable(store.bs, layout) && level < U16 && KeysWithin(current, longest)
    requires sound ==> LevelOk(store.blocks, store.bs, layout.fixed.Some?, level, current, forest)
    requires sound ==> Flat(level, current, forest) == records && Booked(NodesOf(forest), mappings0)
    requires Drawn(supply0, store.supply, mappings0, rootOid, isVirtual, firstOid, nextOid0)
    requires Untouched(blocks0, store.blocks, supply0[..|mappings0|], store.bs)
    modifies store
    ensures r.Ok? ==>
              && |r.value.parents| <= |current| && SizesOk(current, layout, level)
              && (sound ==> LevelOk(store.blocks, store.bs, layout.fixed.Some?, level + 1, r.value.parents, made))
              && (sound ==> RecordsOf(made) == records && Booked(NodesOf(made), r.value.mappings))
              && Drawn(supply0, store.supply, r.value.mappings, rootOid, isVirtual, firstOid, r.value.nextOid)
              && Untouched(blocks0, store.blocks, supply0[..|r.value.mappings|], store.bs)
    ensures r.Ok? ==>
              && |r.value.mappings| == |mappings0| + |r.value.parents|
              && LevelDone(Task(current, layout, level, store.bs, longest, |old(store.supply)|, isVirtual, nextOid0),
                           r.value.parents)
    ensures Ready(Task(current, layout, level, store.bs, longest, |old(store.supply)|, isVirtual, nextOid0)) ==> r.Ok?
  {
    hide *;
    WritableSize(store.bs, layout);
    DrawnBound(supply0, store.supply, mappings0, rootOid, isVirtual, firstOid, nextOid0);
    var parents: seq<Record>, mappings: seq<(nat, nat)>, nextOid: nat := [], mappings0, nextOid0;
    ghost var task := Task(current, layout, level, store.bs, longest, |store.supply|, isVirtual, nextOid0);
    ProgressStarts(task);
    ghost var trees := forest;
    made := [];
    var start := 0;
    NoSizes(current, layout, level);
    if sound {
      StartPacking(store.blocks, store.bs, layout.fixed.Some?, level, records, current, forest, mappings0);
    }
    while start < |current|
      invariant start <= |current| && |parents| <= start && |mappings| <= |supply0|
      invariant |mappings| == |mappings0| + |parents|
      invariant Progress(task, start, parents, |store.supply|, nextOid)
      invariant SizesOk(current[..start], layout, level)
      invariant sound ==>
                  Packing(store.blocks, store.bs, layout.fixed.Some?, level, records, current[start..], trees,
                          parents, made, mappings)
      invariant Drawn(supply0, store.supply, mappings, rootOid, isVirtual, firstOid, nextOid)
      invariant Untouched(blocks0, store.blocks, supply0[..|mappings|], store.bs)
    {
      var end := GreedyEnd(current, start, layout, level, store.bs);
      NeverStuck(task, start, parents, |store.supply|, nextOid, end);
      if end == start {
        return Err(Capacity), made;
      }
      ghost var supply, oid0 := store.supply, nextOid;
      var paddr := store.Alloc();
      if paddr.Err? {
        return Err(NoSpace), made;
      }
      NextEntry(supply0, supply, mappings, rootOid, isVirtual, firstOid, nextOid);
      assert supply[1..] == store.supply && supply[0] == paddr.value;
      var oid := if isVirtual then nextOid else paddr.value;
      if isVirtual {
        if nextOid + 1 >= U64 {
          return Err(Overflow), made;
        }
        nextOid := nextOid + 1;
      }
      if sound {
        PackingKeys(store.blocks, store.bs, layout.fixed.Some?, level, records, current[start..], trees, parents,
                    made, mappings, end - start);
      }
      assert current[start..][..end - start] == current[start..end];
      ghost var before := store.blocks;
      var written := WriteNode(store, current[start..end], layout, level, false, totals, oid, xid,
                               if isVirtual then 0 else OBJ_PHYSICAL, paddr.value);
      if written.Err? {
        return Err(written.error), made;
      }
      SizesGrow(current, start, end, layout, level);
      UntouchedStep(blocks0, before, supply0[..|mappings|], store.bs, paddr.value, store.blocks[paddr.value]);
      if sound {
        BlockWritten(store.blocks[paddr.value], store.bs, layout.fixed.Some?, level, oid, current[start..end]);
        PackStep(before, store.bs, layout.fixed.Some?, level, records, current[start..], trees, parents, made, mappings,
                 end - start, oid, paddr.value, store.blocks[paddr.value]);
        ghost var m := if level == 0 then 0 else end - start;
        made := made + [NodeTree(level, oid, paddr.value, current[start..end], trees[..m])];
        trees := trees[m..];
      }
      assert current[start..][end - start..] == current[end..];
      assert current[start..][0] == current[start];
      ProgressStep(task, start, parents, |supply|, oid0, end, oid);
      mappings := mappings + [(oid, paddr.value)];
      parents := parents + [Separator(current[start].key, oid)];
      start := end;
    }
    assert current[..start] == current;
    ProgressEnds(task, parents, |store.supply|, nextOid);
    if sound {
      EndPacking(store.blocks, store.bs, layout.fixed.Some?, level, records, current[start..], trees, parents, made,
                 mappings);
    }
    r := Ok(Level(parents, mappings, nextOid));
  }

  /** The longest key and value, as the root's trailer records them. */
  method Longest(records: seq<Record>) returns (key: nat, value: nat)
    ensures forall i :: 0 <= i < |records| ==> |records[i].key| <= key && |records[i].value| <= value
    ensures records == [] ==> key == 0 && value == 0
    ensures records != [] ==> exists i :: 0 <= i < |records| && |records[i].key| == key
    ensures records != [] ==> exists i :: 0 <= i < |records| && |records[i].value| == value
  {
    key, value := 0, 0;
    for i := 0 to |records|
      invariant forall j :: 0 <= j < i ==> |records[j].key| <= key && |records[j].value| <= value
      invariant i == 0 ==> key == 0 && value == 0
      invariant i > 0 ==> exists j :: 0 <= j < i && |records[j].key| == key
      invariant i > 0 ==> exists j :: 0 <= j < i && |records[j].value| == value
    {
      if i == 0 || |records[i].key| > key {
        key := |records[i].key|;
      }
      if i == 0 || |records[i].value| > value {
        value := |records[i].value|;
      }
    }
  }

  /** The blocks drawn for the nodes are booked with their object ids, and nothing else has changed. */
  ghost predicate NodesDrawn(blocks0: Blocks, blocks: Blocks, bs: nat, supply0: seq<nat>, supply: seq<nat>,
                             rootOid: nat, isVirtual: bool, firstOid: nat, nextOid: nat, mappings: seq<(nat, nat)>)
  {
    && Drawn(supply0, supply, mappings, rootOid, isVirtual, firstOid, nextOid)
    && Untouched(blocks0, blocks, supply0[..|mappings|], bs)
  }

  /** What a successful run leaves: the tree, its nodes, and nothing else changed. */
  ghost predicate TreeWritten(blocks0: Blocks, blocks: Blocks, bs: nat, supply0: seq<nat>, supply: seq<nat>,
                              layout: Layout, records: seq<Record>, rootOid: nat, isVirtual: bool, firstOid: nat,
                              nextOid: nat, mappings: seq<(nat, nat)>, t: Tree, level: nat)
  {
    && NodesDrawn(blocks0, blocks, bs, supply0, supply, rootOid, isVirtual, firstOid, nextOid, mappings)
    && t.oid == rootOid && t.paddr == supply0[0]
    && Stored(blocks, bs, layout.fixed.Some?, t, level) && RootHolds(blocks[t.paddr], layout)
    && Records(t) == records && SizesOk(records, layout, 0)
    && NoRepeats(Nodes(t)) && |Nodes(t)| == |mappings|
    && (forall n :: n in Nodes(t) ==> n in mappings)
  }

  function MaxKey(records: seq<Record>): nat {
    if records == [] then 0 else Max(MaxKey(records[..|records| - 1]), |records[|records| - 1].key|)
  }

  lemma {:induction false} LongestWithin(records: seq<Record>)
    ensures KeysWithin(records, MaxKey(records))
  {
    if records != [] {
      LongestWithin(records[..|records| - 1]);
    }
  }

  /** No list of n records takes more nodes than this: a leaf per record, and half as many at each level above. */
  function NodesNeeded(records: seq<Record>): nat {
    3 * |records| + 1
  }

  /** Every record fits a node, and two separators always do. */
  predicate Packable(records: seq<Record>, layout: Layout, bs: nat)
    requires bs >= TOC_BASE
  {
    && SizesOk(records, layout, 0) && |records| < U64
    && (forall i :: 0 <= i < |records| ==> NodeBytes([records[i]], layout, false, 0, bs) <= bs)
    && PairFits(layout, MaxKey(records), bs)
  }

  /** Enough for the writer to succeed: sizes that fit, and blocks and object ids for every node. */
  predicate Roomy(records: seq<Record>, layout: Layout, bs: nat, supply: nat, isVirtual: bool, firstOid: nat)
    requires bs >= TOC_BASE
  {
    && Packable(records, layout, bs)
    && NodesNeeded(records) <= supply && (isVirtual ==> firstOid + NodesNeeded(records) < U64)
  }

  /** At the default block size an object map always has room: only blocks and ids can run out. */
  lemma ObjectMapRoomy(records: seq<Record>, layout: Layout, supply: nat, isVirtual: bool, firstOid: nat)
    requires layout.fixed == Some((16, 16)) && SizesOk(records, layout, 0) && |records| < U64
    requires NodesNeeded(records) <= supply && (isVirtual ==> firstOid + NodesNeeded(records) < U64)
    ensures Roomy(records, layout, 4096, supply, isVirtual, firstOid)
  {
    MaxKeyWithin(records, 16);
    assert TocLen(layout, 1, 0, 4096) == 448 && TocLen(layout, 1, 1, 4096) == TocLen(layout, 2, 1, 4096) == 576;
    hide TocLen, SizesOk, MaxKey;
    forall i | 0 <= i < |records| ensures NodeBytes([records[i]], layout, false, 0, 4096) <= 4096 {
      OneRecord(records[i], layout, 448);
      FixedSizes(records, layout, i);
    }
  }

  /** So has a catalog whose keys take at most 1980 bytes and whose records take at most 3976. */
  lemma CatalogRoomy(records: seq<Record>, layout: Layout, supply: nat, isVirtual: bool, firstOid: nat)
    requires layout.fixed.None? && |records| < U64 && KeysWithin(records, 1980)
    requires forall i :: 0 <= i < |records| ==> |records[i].key| + |records[i].value| <= 3976
    requires NodesNeeded(records) <= supply && (isVirtual ==> firstOid + NodesNeeded(records) < U64)
    ensures Roomy(records, layout, 4096, supply, isVirtual, firstOid)
  {
    MaxKeyWithin(records, 1980);
    assert SizesOk(records, layout, 0);
    hide SizesOk, MaxKey;
    forall i | 0 <= i < |records| ensures NodeBytes([records[i]], layout, false, 0, 4096) <= 4096 {
      OneRecord(records[i], layout, 64);
    }
  }

  lemma FixedSizes(records: seq<Record>, layout: Layout, i: nat)
    requires layout.fixed == Some((16, 16)) && SizesOk(records, layout, 0) && i < |records|
    ensures |records[i].key| == 16 && |records[i].value| == 16
  {
  }

  lemma OneRecord(rec: Record, layout: Layout, toc: nat)
    requires TocLen(layout, 1, 0, 4096) == toc
    ensures NodeBytes([rec], layout, false, 0, 4096) == TOC_BASE + toc + |rec.key| + |rec.value|
  {
    hide TocLen;
    var none: seq<Record> := [];
    assert [rec][..0] == none;
    assert KeyBytes(none) == 0 && ValueBytes(none) == 0;
  }

  lemma {:induction false} MaxKeyWithin(records: seq<Record>, longest: nat)
    requires KeysWithin(records, longest)
    ensures MaxKey(records) <= longest
  {
    if records != [] {
      MaxKeyWithin(records[..|records| - 1], longest);
    }
  }

  /** How a run on roomy input stands at each level: each is about half of the one below. */
  predicate OnTrack(records: seq<Record>, layout: Layout, bs: nat, level: nat, current: seq<Record>, nodes: nat)
    requires bs >= TOC_BASE
  {
    && SizesOk(current, layout, level)
    && (level == 0 ==> current == records && nodes == 1)
    && (level > 0 ==>
          && ValuesEight(current) && 1 <= |current| && nodes + 2 * |current| <= NodesNeeded(records)
          && (|current| - 1) * Pow2(level - 1) < |records|)
  }

  lemma RoomySupply(records: seq<Record>, layout: Layout, bs: nat, supply: nat, isVirtual: bool, firstOid: nat)
    requires bs >= TOC_BASE
    ensures Roomy(records, layout, bs, supply, isVirtual, firstOid) ==> supply > 0
  {
    hide NodeBytes, SizesOk, PairFits;
  }

  lemma TrackStarts(records: seq<Record>, layout: Layout, bs: nat, supply: nat, isVirtual: bool, firstOid: nat)
    requires bs >= TOC_BASE && Roomy(records, layout, bs, supply, isVirtual, firstOid)
    ensures OnTrack(records, layout, bs, 0, records, 1)
  {
    hide NodeBytes, SizesOk, PairFits;
  }

  lemma DrawnLeft(supply0: seq<nat>, supply: seq<nat>, mappings: seq<(nat, nat)>, rootOid: nat, isVirtual: bool,
                  firstOid: nat, nextOid: nat)
    requires Drawn(supply0, supply, mappings, rootOid, isVirtual, firstOid, nextOid)
    ensures |supply| == |supply0| - |mappings| && nextOid == if isVirtual then firstOid + |mappings| - 1 else firstOid
  {
  }

  /** A level that does not fit the root yet can be packed. */
  lemma TrackReady(records: seq<Record>, layout: Layout, bs: nat, supply0: nat, isVirtual: bool, firstOid: nat,
                   level: nat, current: seq<Record>, nodes: nat, supply: nat, nextOid: nat)
    requires bs >= TOC_BASE && Roomy(records, layout, bs, supply0, isVirtual, firstOid) &&
             OnTrack(records, layout, bs, level, current, nodes)
    requires KeysWithin(current, MaxKey(records)) && supply == supply0 - nodes &&
             nextOid == (if isVirtual then firstOid + nodes - 1 else firstOid)
    ensures Ready(Task(current, layout, level, bs, MaxKey(records), supply, isVirtual, nextOid))
    ensures level > 0 ==> Paired(Task(current, layout, level, bs, MaxKey(records), supply, isVirtual, nextOid))
  {
    hide SizesOk, MaxKey, TocLen;
    if level > 0 {
      forall i | 0 <= i < |current| ensures NodeBytes([current[i]], layout, false, level, bs) <= bs {
        SliceBytes([current[i]], MaxKey(records));
        TocSame(layout, 1, level, bs);
        TocGrows(layout, bs);
      }
    }
  }

  /** One level up: at least half as short, and so deep only if there are that many records. */
  lemma TrackOn(records: seq<Record>, layout: Layout, bs: nat, supply0: nat, isVirtual: bool, firstOid: nat, level: nat,
                current: seq<Record>, nodes: nat, parents: seq<Record>, k: Task)
    requires Writable(bs, layout) && bs >= TOC_BASE && Roomy(records, layout, bs, supply0, isVirtual, firstOid)
    requires OnTrack(records, layout, bs, level, current, nodes)
    requires KeysWithin(current, MaxKey(records)) && NodeBytes(current, layout, true, level, bs) > bs
    requires LevelDone(k, parents) && k.current == current && k.layout == layout && k.level == level &&
             (level > 0 ==> Paired(k))
    ensures OnTrack(records, layout, bs, level + 1, parents, nodes + |parents|)
    ensures level > 0 ==> |parents| < |current|
    ensures level + 1 < U16
  {
    hide SizesOk, PairFits, MaxKey, NodeBytes, Writable;
    if level == 0 {
      assert Pow2(0) == 1;
      if current == [] {
        EmptyFits(bs, layout);
      }
    } else {
      RootTooBig(records, layout, bs, supply0, isVirtual, firstOid, level, current, nodes);
      Halved(|current|, |parents|, level, |records|);
    }
  }

  /** A tree of no records is one empty root. */
  lemma EmptyFits(bs: nat, layout: Layout)
    requires Writable(bs, layout) && bs >= TOC_BASE
    ensures NodeBytes([], layout, true, 0, bs) <= bs
  {
    hide Writable;
    WritableSize(bs, layout);
    WritableLayout(bs, layout);
    if layout.fixed.Some? {
      FourFifths(bs - TOC_BASE, 4 + (layout.fixed.value.0 + ValueSize(layout.fixed.value.1, 0)));
    }
  }

  lemma WritableLayout(bs: nat, layout: Layout)
    requires Writable(bs, layout)
    ensures layout.fixed.Some? ==> layout.fixed.value.0 >= 1
  {
  }

  lemma FourFifths(room: nat, n: nat)
    requires n >= 5 && room >= 200
    ensures room / n * 4 + 40 <= room
  {
    var q := room / n;
    assert q * n <= room;
    MulMono(5, n, q);
  }

  lemma RootTooBig(records: seq<Record>, layout: Layout, bs: nat, supply0: nat, isVirtual: bool, firstOid: nat,
                   level: nat, current: seq<Record>, nodes: nat)
    requires bs >= TOC_BASE && Roomy(records, layout, bs, supply0, isVirtual, firstOid) &&
             OnTrack(records, layout, bs, level, current, nodes)
    requires level > 0 && KeysWithin(current, MaxKey(records)) && NodeBytes(current, layout, true, level, bs) > bs
    ensures |current| >= 2
  {
    hide SizesOk, MaxKey, TocLen;
    if |current| == 1 {
      SliceBytes(current, MaxKey(records));
      TocSame(layout, 1, level, bs);
    }
  }

  lemma Halved(m: nat, p: nat, level: nat, n: nat)
    requires level > 0 && m >= 2 && 1 <= p && 2 * p <= m + 1 && (m - 1) * Pow2(level - 1) < n < U64
    ensures (p - 1) * Pow2(level) < n && level + 1 < U16
  {
    var w := Pow2(level - 1);
    assert (p - 1) * (2 * w) == (2 * (p - 1)) * w;
    MulMono(2 * (p - 1), m - 1, w);
    MulMono(1, m - 1, w);
    PowerBound(level - 1);
  }

  lemma PowerBound(k: nat)
    requires Pow2(k) < U64
    ensures k < 64
  {
    if k >= 64 {
      PowerGrows(64, k);
      PowerOf64();
    }
  }

  lemma {:induction false} PowerGrows(a: nat, b: nat)
    requires a <= b
    ensures Pow2(a) <= Pow2(b)
  {
    if a < b {
      PowerGrows(a, b - 1);
    }
  }

  lemma PowerOf64()
    ensures Pow2(64) == U64
  {
    assert Pow2(1) == 2;
    assert Pow2(2) == 4;
    hide Pow2;
    PowerAdd(2, 2);
    assert Pow2(4) == 16;
    PowerAdd(4, 4);
    assert Pow2(8) == 0x100;
    PowerAdd(8, 8);
    assert Pow2(16) == U16;
    PowerAdd(16, 16);
    assert Pow2(32) == U32;
    PowerAdd(32, 32);
  }

  lemma {:induction false} PowerAdd(a: nat, b: nat)
    ensures Pow2(a + b) == Pow2(a) * Pow2(b)
  {
    if a > 0 {
      PowerAdd(a - 1, b);
      DoubleProduct(Pow2(a - 1), Pow2(b));
    }
  }

  lemma DoubleProduct(x: nat, y: nat)
    ensures 2 * x * y == 2 * (x * y)
  {
  }

  lemma TrackEnds(records: seq<Record>, layout: Layout, bs: nat, level: nat, current: seq<Record>, nodes: nat)
    requires bs >= TOC_BASE && OnTrack(records, layout, bs, level, current, nodes)
    ensures SizesOk(current, layout, level) && nodes <= NodesNeeded(records)
  {
    hide SizesOk;
  }

  /**
   * Packs `records` into leaves, then separators into index nodes, until one root holds the
   * rest. The loop ends because from level 1 on every level is strictly shorter than the last.
   * On success the store holds a tree `t` with exactly `records` below its root, each of its
   * nodes in a block of its own drawn from the supply and listed in `mappings`.
   */
  method WriteTree(store: TreeStore, records: seq<Record>, layout: Layout, xid: nat, virtualRoot: Option<nat>,
                   firstOid: nat)
      returns (r: Result<(nat, seq<(nat, nat)>)>, nextOid: nat, ghost t: Tree, ghost depth: nat)
    requires Writable(store.bs, layout) && Fresh(store.supply)
    requires firstOid < U64 && (virtualRoot.Some? ==> virtualRoot.value < U64)
    modifies store
    ensures r.Ok? ==> old(store.supply) != [] && r.value.0 == old(store.supply[0])
    ensures r.Ok? ==>
              NodesDrawn(old(store.blocks), store.blocks, store.bs, old(store.supply), store.supply,
                         if virtualRoot.Some? then virtualRoot.value else r.value.0, virtualRoot.Some?,
                         firstOid, nextOid, r.value.1)
    ensures r.Ok? && NoBlanks(records) ==>
              TreeWritten(old(store.blocks), store.blocks, store.bs, old(store.supply), store.supply, layout, records,
                          if virtualRoot.Some? then virtualRoot.value else r.value.0, virtualRoot.Some?,
                          firstOid, nextOid, r.value.1, t, depth)
    ensures store.bs >= TOC_BASE &&
            Roomy(records, layout, store.bs, |old(store.supply)|, virtualRoot.Some?, firstOid) ==>
              r.Ok? && |r.value.1| <= NodesNeeded(records)
    ensures store.bs >= TOC_BASE && NodeBytes(records, layout, true, 0, store.bs) <= store.bs ==>
              (r.Ok? <==> old(store.supply) != [] && SizesOk(records, layout, 0)) && depth == 0
    ensures store.bs >= TOC_BASE && r.Ok? && |old(store.supply)| == 1 ==>
              NodeBytes(records, layout, true, 0, store.bs) <= store.bs
  {
    hide *;
    WritableSize(store.bs, layout);
    ghost var blocks0, supply0 := store.blocks, store.supply;
    ghost var roomy := Roomy(records, layout, store.bs, |store.supply|, virtualRoot.Some?, firstOid);
    RoomySupply(records, layout, store.bs, |store.supply|, virtualRoot.Some?, firstOid);
    nextOid, t, depth := firstOid, Leaf(0, 0, []), 0;
    var root := store.Alloc();
    if root.Err? {
      return Err(NoSpace), nextOid, t, depth;
    }
    var isVirtual := virtualRoot.Some?;
    var rootOid := if isVirtual then virtualRoot.value else root.value;
    var mappings := [(rootOid, root.value)];
    FirstDraw(supply0, store.supply, root.value, rootOid, isVirtual, firstOid, blocks0, store.bs);
    var longestKey, longestValue := Longest(records);
    var level, current := 0, records;
    ghost var forest: seq<Tree> := [];
    ghost var sound := NoBlanks(records);
    if sound {
      StartLevel(store.blocks, store.bs, layout.fixed.Some?, records, mappings);
    }
    LongestWithin(records);
    if roomy {
      TrackStarts(records, layout, store.bs, |supply0|, isVirtual, firstOid);
    }
    while NodeBytes(current, layout, true, level, store.bs) > store.bs
      invariant level < U16 && 1 <= |mappings| <= |supply0|
      invariant if level == 0 then current == records else SizesOk(records, layout, 0)
      invariant level != 0 ==> |supply0| > 1 && NodeBytes(records, layout, true, 0, store.bs) > store.bs
      invariant sound ==> LevelOk(store.blocks, store.bs, layout.fixed.Some?, level, current, forest)
      invariant sound ==> Flat(level, current, forest) == records && Booked(NodesOf(forest), mappings)
      invariant Drawn(supply0, store.supply, mappings, rootOid, isVirtual, firstOid, nextOid)
      invariant Untouched(blocks0, store.blocks, supply0[..|mappings|], store.bs)
      invariant KeysWithin(current, MaxKey(records)) &&
                (roomy ==> OnTrack(records, layout, store.bs, level, current, |mappings|))
      decreases level == 0, |current|
    {
      var totals := Totals(|records|, |mappings|, longestKey, longestValue);
      DrawnLeft(supply0, store.supply, mappings, rootOid, isVirtual, firstOid, nextOid);
      ghost var task := Task(current, layout, level, store.bs, MaxKey(records), |store.supply|, isVirtual, nextOid);
      if roomy {
        TrackReady(records, layout, store.bs, |supply0|, isVirtual, firstOid, level, current, |mappings|,
                   |store.supply|, nextOid);
      }
      var next, made := WriteLevel(store, current, layout, level, xid, isVirtual, nextOid, totals, mappings,
                                   records, forest, blocks0, supply0, rootOid, firstOid, MaxKey(records), sound);
      if next.Err? {
        return Err(next.error), nextOid, t, depth;
      }
      if roomy {
        TrackOn(records, layout, store.bs, |supply0|, isVirtual, firstOid, level, current, |mappings|,
                next.value.parents, task);
      }
      if |next.value.parents| >= |current| && level != 0 {
        return Err(Capacity), nextOid, t, depth;
      }
      if level + 1 >= U16 {
        return Err(Overflow), nextOid, t, depth;
      }
      if level == 0 {
        FullLevel(task, next.value.parents);
      }
      ParentsWithin(task, next.value.parents);
      FlatForest(level + 1, next.value.parents, made);
      DrawnBound(supply0, store.supply, next.value.mappings, rootOid, isVirtual, firstOid, next.value.nextOid);
      current, mappings, nextOid := next.value.parents, next.value.mappings, next.value.nextOid;
      forest := made;
      level := level + 1;
    }
    if roomy {
      TrackEnds(records, layout, store.bs, level, current, |mappings|);
    }
    var written := WriteRoot(store, current, layout, level,
                             Totals(|records|, |mappings|, longestKey, longestValue), rootOid, xid, isVirtual,
                             root.value, records, forest, blocks0, supply0, mappings, firstOid, nextOid, sound);
    if written.Err? {
      return Err(written.error), nextOid, t, depth;
    }
    if sound {
      t, depth := NodeTree(level, rootOid, root.value, current, forest), level;
    }
    r := Ok((root.value, mappings));
  }

  /** The last level goes into the root, in the block drawn first. */
  method WriteRoot(store: TreeStore, current: seq<Record>, layout: Layout, level: nat, totals: Totals, rootOid: nat,
                   xid: nat, isVirtual: bool, paddr: nat, ghost records: seq<Record>, ghost forest: seq<Tree>,
                   ghost blocks0: Blocks, ghost supply0: seq<nat>, ghost mappings: seq<(nat, nat)>,
                   ghost firstOid: nat, ghost nextOid: nat, ghost sound: bool)
      returns (r: Result<bool>)
    requires Writable(store.bs, layout) && level < U16 && rootOid < U64
    requires 1 <= |mappings| <= |supply0| && supply0[0] == paddr
    requires if level == 0 then current == records else SizesOk(records, layout, 0)
    requires sound ==> LevelOk(store.blocks, store.bs, layout.fixed.Some?, level, current, forest)
    requires sound ==> Flat(level, current, forest) == records && Booked(NodesOf(forest), mappings)
    requires Drawn(supply0, store.supply, mappings, rootOid, isVirtual, firstOid, nextOid)
    requires Untouched(blocks0, store.blocks, supply0[..|mappings|], store.bs)
    modifies store`blocks
    ensures r.Err? <==> NodeBytes(current, layout, true, level, store.bs) > store.bs || !SizesOk(current, layout, level)
    ensures r.Ok? ==>
              NodesDrawn(blocks0, store.blocks, store.bs, supply0, store.supply, rootOid, isVirtual, firstOid, nextOid,
                         mappings)
    ensures r.Ok? && sound ==>
              TreeWritten(blocks0, store.blocks, store.bs, supply0, store.supply, layout, records, rootOid, isVirtual,
                          firstOid, nextOid, mappings, NodeTree(level, rootOid, paddr, current, forest), level)
  {
    hide *;
    WritableSize(store.bs, layout);
    if sound {
      LevelKeys(store.blocks, store.bs, layout.fixed.Some?, level, current, forest);
    }
    ghost var before := store.blocks;
    r := WriteNode(store, current, layout, level, true, totals, rootOid, xid, if isVirtual then 0 else OBJ_PHYSICAL,
                   paddr);
    if r.Ok? {
      RootDrawn(blocks0, before, store.blocks[paddr], store.bs, supply0, store.supply, rootOid, isVirtual, firstOid,
                nextOid, mappings);
      if sound {
        RootWritten(blocks0, before, store.blocks[paddr], store.bs, supply0, store.supply, layout, records, rootOid,
                    isVirtual, firstOid, nextOid, mappings, current, forest, level);
      }
    }
  }

  /** A level that does not fit one root is not empty, so it takes blocks of its own. */
  lemma FullLevel(k: Task, parents: seq<Record>)
    requires Writable(k.bs, k.layout) && k.level == 0 && k.bs >= TOC_BASE && LevelDone(k, parents)
    requires NodeBytes(k.current, k.layout, true, 0, k.bs) > k.bs
    ensures parents != []
  {
    hide Writable, NodeBytes;
    EmptyFits(k.bs, k.layout);
  }

  lemma FirstDraw(supply0: seq<nat>, supply: seq<nat>, paddr: nat, rootOid: nat, isVirtual: bool, firstOid: nat,
                  blocks: Blocks, bs: nat)
    requires Fresh(supply0) && supply0 == [paddr] + supply && firstOid < U64
    requires !isVirtual ==> rootOid == paddr
    ensures paddr < U64 && 0 < U16
    ensures Drawn(supply0, supply, [(rootOid, paddr)], rootOid, isVirtual, firstOid, firstOid)
    ensures Untouched(blocks, blocks, supply0[..1], bs)
  {
    assert supply0[0] == paddr && supply0[1..] == supply;
    assert [(rootOid, paddr)] == Ledger(supply0, 1, rootOid, isVirtual, firstOid);
  }

  lemma RootDrawn(blocks0: Blocks, before: Blocks, b: seq<byte>, bs: nat, supply0: seq<nat>, supply: seq<nat>,
                  rootOid: nat, isVirtual: bool, firstOid: nat, nextOid: nat, mappings: seq<(nat, nat)>)
    requires Drawn(supply0, supply, mappings, rootOid, isVirtual, firstOid, nextOid) && |b| == bs
    requires 1 <= |mappings| <= |supply0| && Untouched(blocks0, before, supply0[..|mappings|], bs)
    ensures NodesDrawn(blocks0, before[supply0[0] := b], bs, supply0, supply, rootOid, isVirtual, firstOid, nextOid,
                       mappings)
  {
    assert supply0[0] in supply0[..|mappings|];
  }

  lemma StartLevel(blocks: Blocks, bs: nat, fixed: bool, records: seq<Record>, ledger: seq<(nat, nat)>)
    requires NoBlanks(records) && |ledger| == 1
    ensures LevelOk(blocks, bs, fixed, 0, records, []) && Flat(0, records, []) == records
    ensures Booked(NodesOf([]), ledger)
  {
  }

  lemma FlatForest(level: nat, entries: seq<Record>, trees: seq<Tree>)
    requires level > 0
    ensures Flat(level, entries, trees) == RecordsOf(trees)
  {
  }

  lemma LevelKeys(blocks: Blocks, bs: nat, fixed: bool, level: nat, entries: seq<Record>, trees: seq<Tree>)
    requires LevelOk(blocks, bs, fixed, level, entries, trees)
    ensures NoBlanks(entries)
  {
    hide Stored;
  }

  /** Writing the root on top of the last level completes the tree. */
  lemma RootWritten(blocks0: Blocks, before: Blocks, b: seq<byte>, bs: nat, supply0: seq<nat>, supply: seq<nat>,
                    layout: Layout, records: seq<Record>, rootOid: nat, isVirtual: bool, firstOid: nat, nextOid: nat,
                    mappings: seq<(nat, nat)>, current: seq<Record>, forest: seq<Tree>, level: nat)
    requires Drawn(supply0, supply, mappings, rootOid, isVirtual, firstOid, nextOid)
    requires |mappings| <= |supply0| && supply0 != []
    requires Untouched(blocks0, before, supply0[..|mappings|], bs)
    requires LevelOk(before, bs, layout.fixed.Some?, level, current, forest)
    requires Flat(level, current, forest) == records && Booked(NodesOf(forest), mappings) && SizesOk(records, layout, 0)
    requires BlockSize(bs) && |b| == bs && Fletcher.Valid(b) && U64At(b, 8) == rootOid
    requires Holds(b, current, layout.fixed.Some?, level) && RootHolds(b, layout)
    ensures TreeWritten(blocks0, before[supply0[0] := b], bs, supply0, supply, layout, records, rootOid, isVirtual,
                        firstOid,
                        nextOid, mappings, NodeTree(level, rootOid, supply0[0], current, forest), level)
  {
    hide LevelOk, RootHolds, SizesOk, Holds, Fletcher.Valid, Records, Nodes, NodesOf, RecordsOf, Stored;
    var paddr := supply0[0];
    RootApart(supply0, supply, mappings, rootOid, isVirtual, firstOid, nextOid, NodesOf(forest));
    LevelOkFrame(before, paddr, b, bs, layout.fixed.Some?, level, current, forest);
    BlockWritten(b, bs, layout.fixed.Some?, level, rootOid, current);
    NodeTreeStored(before[paddr := b], bs, layout.fixed.Some?, level, rootOid, paddr, current, forest);
    LevelShape(before, bs, layout.fixed.Some?, level, current, forest);
    NodeTreeRecs(level, rootOid, paddr, current, forest);
    UntouchedAgain(blocks0, before, supply0[..|mappings|], bs, paddr, b);
  }

  lemma LevelShape(blocks: Blocks, bs: nat, fixed: bool, level: nat, entries: seq<Record>, trees: seq<Tree>)
    requires LevelOk(blocks, bs, fixed, level, entries, trees)
    ensures level == 0 ==> trees == []
    ensures level > 0 ==> AllAnnounced(entries, trees)
  {
    hide Stored, Announces;
  }

  lemma UntouchedAgain(blocks0: Blocks, blocks: Blocks, used: seq<nat>, bs: nat, paddr: nat, b: seq<byte>)
    requires Untouched(blocks0, blocks, used, bs) && paddr in used && |b| == bs
    ensures Untouched(blocks0, blocks[paddr := b], used, bs)
  {
  }

  /** The root's block is none of the nodes already made. */
  lemma RootApart(supply0: seq<nat>, supply: seq<nat>, mappings: seq<(nat, nat)>, rootOid: nat, isVirtual: bool,
                  firstOid: nat, nextOid: nat, nodes: seq<(nat, nat)>)
    requires Drawn(supply0, supply, mappings, rootOid, isVirtual, firstOid, nextOid) && Booked(nodes, mappings)
    ensures supply0 != [] && supply0[0] in supply0[..|mappings|] && mappings[0] == (rootOid, supply0[0])
    ensures forall n :: n in nodes ==> n.1 != supply0[0]
    ensures var all := [(rootOid, supply0[0])] + nodes;
            NoRepeats(all) && |all| == |mappings| && forall n :: n in all ==> n in mappings
  {
    assert supply0[..|mappings|][0] == supply0[0];
    forall n | n in nodes ensures n.1 != supply0[0] && n in mappings {
      assert n in mappings[1..];
      var i :| 0 <= i < |mappings| - 1 && mappings[1..][i] == n;
      assert mappings[i + 1] == n && n.1 == supply0[i + 1];
    }
    var all := [(rootOid, supply0[0])] + nodes;
    assert mappings[0] in mappings;
    forall n | n in all ensures n in mappings {
      assert n == mappings[0] || n in nodes;
    }
    forall i, j | 0 <= i < j < |all| ensures all[i].1 != all[j].1 {
      assert all[j] == nodes[j - 1] && all[j] in nodes;
    }
  }
}

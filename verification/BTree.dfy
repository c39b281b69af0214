/**
 * A B-tree on disk: what a sealed node block holds, and what it means that the blocks of a device
 * store a tree (the object header of src/apfs_write.rs `seal`, the node of `encode_tree_node`).
 */
module BTree {
  import opened Bytes
  import opened TreeNode
  import Fletcher

  type Blocks = map<nat, seq<byte>>

  const TYPE_BTREE: nat := 0x02
  const TYPE_BTREE_NODE: nat := 0x03
  const OBJ_PHYSICAL: nat := 0x4000_0000

  // ---- one node on disk ----------------------------------------------------------------------

  /** The object type in the low half of the header's type word. */
  function KindOf(b: seq<byte>): nat
    requires |b| >= 32
  {
    U32At(b, 0x18) % U16
  }

  /** `entry` read back as `rec`: exactly, or with trailing bytes in a fixed-size node. */
  predicate Matches(entry: Record, rec: Record, fixed: bool) {
    if fixed then rec.key <= entry.key && rec.value <= entry.value else entry == rec
  }

  /** The block decodes to a node of this level holding these records, as readers see it. */
  predicate Holds(b: seq<byte>, recs: seq<Record>, fixed: bool, level: nat) {
    && |b| >= TOC_BASE
    && var d := DecodeNode(b, false);
    && d.Ok?
    && d.value.level == level && d.value.leaf == (level == 0) && d.value.fixed == fixed
    && d.value.nkeys == |recs|
    && forall i :: 0 <= i < |recs| ==>
         Entry(d.value, i).Ok? && Matches(Entry(d.value, i).value, recs[i], fixed)
  }

  /** The root additionally carries the layout in its trailer and header. */
  predicate RootHolds(b: seq<byte>, layout: Layout) {
    && |b| >= TOC_BASE + INFO_BYTES
    && U32At(b, |b| - INFO_BYTES) == layout.flags
    && (layout.fixed.Some? ==> U32At(b, |b| - INFO_BYTES + 8) == layout.fixed.value.0)
    && (layout.fixed.Some? ==> U32At(b, |b| - INFO_BYTES + 12) == layout.fixed.value.1)
    && U32At(b, 0x1C) == layout.subtype && KindOf(b) == TYPE_BTREE
  }

  function ObjectHeader(oid: nat, xid: nat, kind: nat, subtype: nat): (h: seq<byte>)
    ensures |h| == 24
  {
    LeBytes(oid, 8) + LeBytes(xid, 8) + LeBytes(kind, 4) + LeBytes(subtype, 4)
  }

  /** `seal`: the object header, then the checksum over everything after it. */
  ghost function SealNode(oid: nat, xid: nat, kind: nat, subtype: nat, b: seq<byte>): (r: seq<byte>)
    requires |b| >= 32
    ensures |r| == |b|
  {
    Fletcher.Sealed(Patch(b, 8, ObjectHeader(oid, xid, kind, subtype)))
  }

  method Seal(oid: nat, xid: nat, kind: nat, subtype: nat, b: seq<byte>) returns (r: seq<byte>)
    requires |b| >= 32
    ensures r == SealNode(oid, xid, kind, subtype, b)
  {
    var block := new byte[|b|](i requires 0 <= i < |b| => b[i]);
    assert block[..] == b;
    Put(block, 8, ObjectHeader(oid, xid, kind, subtype));
    Fletcher.Seal(block);
    r := block[..];
  }

  lemma HeaderNumbers(r: seq<byte>, oid: nat, xid: nat, kind: nat, subtype: nat)
    requires |r| >= 32 && Field(r, 8, ObjectHeader(oid, xid, kind, subtype))
    ensures oid < U64 ==> U64At(r, 8) == oid
    ensures subtype < U32 ==> U32At(r, 0x1C) == subtype
    ensures kind < U32 ==> U32At(r, 0x18) == kind
  {
    var f0, f1, f2, f3 := LeBytes(oid, 8), LeBytes(xid, 8), LeBytes(kind, 4), LeBytes(subtype, 4);
    FieldConcat(r, 8, f0 + f1 + f2, f3);
    FieldConcat(r, 8, f0 + f1, f2);
    FieldConcat(r, 8, f0, f1);
    if oid < U64 {
      Fits64(oid);
    }
    if subtype < U32 {
      Fits32(subtype);
    }
    if kind < U32 {
      Fits32(kind);
    }
  }

  lemma SealedFields(oid: nat, xid: nat, kind: nat, subtype: nat, b: seq<byte>)
    requires |b| >= 32 && |b| % 4 == 0
    ensures var r := SealNode(oid, xid, kind, subtype, b);
            && Fletcher.Valid(r)
            && r[0x20..] == b[0x20..]
            && (oid < U64 ==> U64At(r, 8) == oid)
            && (subtype < U32 ==> U32At(r, 0x1C) == subtype)
            && (kind < U32 ==> U32At(r, 0x18) == kind)
  {
    hide ObjectHeader, Fletcher.Valid, Fletcher.Sealed, U64At, U32At;
    var h := ObjectHeader(oid, xid, kind, subtype);
    var p := Patch(b, 8, h);
    var r := Fletcher.Sealed(p);
    Fletcher.SealMakesValid(p);
    PatchWrites(b, 8, h);
    PatchElsewhere(b, 8, h, 0x20, |b|);
    assert r[8..] == p[8..];
    SliceCarried(r, p, 8, |b|, 0x20, |b|);
    SliceCarried(r, p, 8, |b|, 8, 32);
    HeaderNumbers(r, oid, xid, kind, subtype);
  }

  lemma EncodedHolds(b: seq<byte>, recs: seq<Record>, layout: Layout, level: nat, root: bool, totals: Totals)
    requires BlockSize(|b|) && level < U16
    requires NodeBytes(recs, layout, root, level, |b|) <= |b| && TocFits(layout, |recs|, level, |b|)
    requires Encodes(b, recs, layout, level, root, totals)
    requires forall i :: 0 <= i < |recs| ==> recs[i].key != [] || recs[i].value != []
    ensures Holds(b, recs, layout.fixed.Some?, level)
  {
    CountBound(recs, layout, level, root, |b|);
    DecodeEncoded(b, recs, layout, level, root);
    ViewOk(b, recs, layout, level, root);
    forall i | 0 <= i < |recs|
      ensures var e := Entry(View(b, |recs|, layout, level, root), i);
              e.Ok? && Matches(e.value, recs[i], layout.fixed.Some?)
    {
      EntryEncoded(b, recs, layout, level, root, totals, i);
    }
  }

  /** A written node is what readers see, whatever object header it was sealed with. */
  lemma SealedNodeHolds(b: seq<byte>, r: seq<byte>, recs: seq<Record>, layout: Layout, level: nat, root: bool,
                        totals: Totals)
    requires BlockSize(|b|) && level < U16 && LayoutOk(layout)
    requires NodeBytes(recs, layout, root, level, |b|) <= |b| && TocFits(layout, |recs|, level, |b|)
    requires Encodes(b, recs, layout, level, root, totals)
    requires forall i :: 0 <= i < |recs| ==> recs[i].key != [] || recs[i].value != []
    requires |r| == |b| && r[0x20..] == b[0x20..] && U32At(r, 0x1C) == layout.subtype
    requires root ==> KindOf(r) == TYPE_BTREE
    ensures Holds(r, recs, layout.fixed.Some?, level)
    ensures root ==> RootHolds(r, layout)
  {
    EncodesCarried(b, r, recs, layout, level, root, totals);
    EncodedHolds(r, recs, layout, level, root, totals);
    if root {
      InfoFields(r, layout, totals);
    }
  }

  lemma CountBound(recs: seq<Record>, layout: Layout, level: nat, root: bool, bs: nat)
    requires BlockSize(bs) && NodeBytes(recs, layout, root, level, bs) <= bs
    requires TocFits(layout, |recs|, level, bs)
    ensures |recs| < U32
  {
    assert |recs| <= |recs| * Stride(layout);
  }

  lemma EncodesCarried(b: seq<byte>, c: seq<byte>, recs: seq<Record>, layout: Layout, level: nat, root: bool,
                       totals: Totals)
    requires BlockSize(|b|) && |c| == |b| && b[0x20..] == c[0x20..]
    requires NodeBytes(recs, layout, root, level, |b|) <= |b| && TocFits(layout, |recs|, level, |b|)
    requires Encodes(b, recs, layout, level, root, totals)
    ensures Encodes(c, recs, layout, level, root, totals)
  {
    SliceCarried(b, c, 0x20, |b|, 0x20, 0x2C);
    SliceCarried(b, c, 0x20, |b|, TOC_BASE, ValueEnd(root, |b|));
    SliceCarried(b, c, 0x20, |b|, |b| - INFO_BYTES, |b|);
    NodeCarried(b, c, recs, layout, level, root);
  }

  lemma InfoFields(b: seq<byte>, layout: Layout, totals: Totals)
    requires BlockSize(|b|) && LayoutOk(layout) && InfoStored(b, layout, totals)
    ensures U32At(b, |b| - INFO_BYTES) == layout.flags
    ensures layout.fixed.Some? ==> U32At(b, |b| - INFO_BYTES + 8) == layout.fixed.value.0
    ensures layout.fixed.Some? ==> U32At(b, |b| - INFO_BYTES + 12) == layout.fixed.value.1
  {
    var at := |b| - INFO_BYTES;
    var size := if layout.fixed.Some? then layout.fixed.value else (0, 0);
    var f0, f1, f2, f3 := LeBytes(layout.flags, 4), LeBytes(|b|, 4), LeBytes(size.0, 4), LeBytes(size.1, 4);
    var rest := LeBytes(totals.longestKey, 4);
    var rest2, rest3, rest4 := LeBytes(totals.longestValue, 4), LeBytes(totals.keys, 8), LeBytes(totals.nodes, 8);
    FieldConcat(b, at, f0 + f1 + f2 + f3 + rest + rest2 + rest3, rest4);
    FieldConcat(b, at, f0 + f1 + f2 + f3 + rest + rest2, rest3);
    FieldConcat(b, at, f0 + f1 + f2 + f3 + rest, rest2);
    FieldConcat(b, at, f0 + f1 + f2 + f3, rest);
    FieldConcat(b, at, f0 + f1 + f2, f3);
    FieldConcat(b, at, f0 + f1, f2);
    FieldConcat(b, at, f0, f1);
    FieldIs32(b, at, layout.flags);
    FieldIs32(b, at + 8, size.0);
    FieldIs32(b, at + 12, size.1);
  }

  // ---- whole trees ---------------------------------------------------------------------------

  /** A tree as laid out on disk: every node with its object id and block. */
  datatype Tree =
    | Leaf(oid: nat, paddr: nat, recs: seq<Record>)
    | Index(oid: nat, paddr: nat, keys: seq<seq<byte>>, kids: seq<Tree>)

  /** The record a parent keeps for a child. */
  function Separator(key: seq<byte>, oid: nat): Record {
    Record(key, LeBytes(oid, 8))
  }

  /** What the node itself stores: leaf records, or one separator per child. */
  function NodeRecs(t: Tree): seq<Record>
    requires t.Index? ==> |t.keys| == |t.kids|
  {
    match t
    case Leaf(_, _, recs) => recs
    case Index(_, _, keys, kids) =>
      seq(|kids|, i requires 0 <= i < |kids| => Separator(keys[i], kids[i].oid))
  }

  function Records(t: Tree): seq<Record>
    decreases t, 0
  {
    match t
    case Leaf(_, _, recs) => recs
    case Index(_, _, _, kids) => RecordsOf(kids)
  }

  function RecordsOf(ts: seq<Tree>): seq<Record>
    decreases ts, 1
  {
    if ts == [] then [] else Records(ts[0]) + RecordsOf(ts[1..])
  }

  /** All nodes in preorder, as (object id, block) pairs. */
  function Nodes(t: Tree): seq<(nat, nat)>
    decreases t, 0
  {
    [(t.oid, t.paddr)] + match t
    case Leaf(_, _, _) => []
    case Index(_, _, _, kids) => NodesOf(kids)
  }

  function NodesOf(ts: seq<Tree>): seq<(nat, nat)>
    decreases ts, 1
  {
    if ts == [] then [] else Nodes(ts[0]) + NodesOf(ts[1..])
  }

  /** No two nodes share a block. */
  predicate NoRepeats(nodes: seq<(nat, nat)>) {
    forall i, j :: 0 <= i < j < |nodes| ==> nodes[i].1 != nodes[j].1
  }

  predicate NonEmpty(t: Tree) {
    match t
    case Leaf(_, _, recs) => recs != []
    case Index(_, _, keys, kids) => kids != [] && keys != []
  }

  function FirstKey(t: Tree): seq<byte>
    requires NonEmpty(t)
  {
    match t
    case Leaf(_, _, recs) => recs[0].key
    case Index(_, _, keys, _) => keys[0]
  }

  /** The block checks out, names the node and holds what the node should hold. */
  predicate NodeStored(b: seq<byte>, bs: nat, fixed: bool, t: Tree, level: nat)
    requires t.Index? ==> |t.keys| == |t.kids|
  {
    && |b| == bs >= TOC_BASE + INFO_BYTES && Fletcher.Valid(b)
    && U64At(b, 8) == t.oid
    && Holds(b, NodeRecs(t), fixed, level)
  }

  /**
   * The tree lies in the blocks: every node is stored in its block, sits one level below its
   * parent and is announced there by its own first key.
   */
  ghost predicate Stored(blocks: Blocks, bs: nat, fixed: bool, t: Tree, level: nat)
    decreases t
  {
    && (t.Leaf? <==> level == 0)
    && (t.Index? ==> |t.keys| == |t.kids|)
    && t.paddr in blocks
    && NodeStored(blocks[t.paddr], bs, fixed, t, level)
    && (t.Index? ==> forall i :: 0 <= i < |t.kids| ==>
          && NonEmpty(t.kids[i])
          && t.keys[i] == FirstKey(t.kids[i])
          && t.kids[i].oid < U64
          && Stored(blocks, bs, fixed, t.kids[i], level - 1)
          && InnerNode(blocks[t.kids[i].paddr]))
  }

  /** A block whose header marks it as a node below the root. */
  predicate InnerNode(b: seq<byte>) {
    |b| >= 32 && KindOf(b) == TYPE_BTREE_NODE
  }

  lemma SingleTree(t: Tree)
    ensures RecordsOf([t]) == Records(t) && NodesOf([t]) == Nodes(t)
  {
    var ts := [t];
    assert ts[1..] == [];
    assert RecordsOf(ts[1..]) == [] && NodesOf(ts[1..]) == [];
    assert NodesOf(ts) == Nodes(ts[0]) + NodesOf(ts[1..]);
  }

  lemma ForestHead(ts: seq<Tree>)
    requires ts != []
    ensures RecordsOf(ts) == Records(ts[0]) + RecordsOf(ts[1..])
    ensures NodesOf(ts) == Nodes(ts[0]) + NodesOf(ts[1..])
  {
  }

  lemma OwnNode(t: Tree)
    ensures Records(t) == if t.Leaf? then t.recs else RecordsOf(t.kids)
    ensures t.Leaf? ==> Nodes(t) == [(t.oid, t.paddr)]
    ensures t.Index? ==> Nodes(t) == [(t.oid, t.paddr)] + NodesOf(t.kids)
  {
  }

  lemma {:induction false} RecordsOfConcat(a: seq<Tree>, b: seq<Tree>)
    ensures RecordsOf(a + b) == RecordsOf(a) + RecordsOf(b)
  {
    if a == [] {
      assert a + b == b;
    } else {
      assert (a + b)[1..] == a[1..] + b;
      RecordsOfConcat(a[1..], b);
    }
  }

  lemma {:induction false} NodesOfConcat(a: seq<Tree>, b: seq<Tree>)
    ensures NodesOf(a + b) == NodesOf(a) + NodesOf(b)
  {
    if a == [] {
      assert a + b == b;
    } else {
      assert (a + b)[1..] == a[1..] + b;
      NodesOfConcat(a[1..], b);
    }
  }

  /** A kid's nodes are among its parent's forest's. */
  lemma {:induction false} NodesOfKid(ts: seq<Tree>, i: nat)
    requires i < |ts|
    ensures forall n :: n in Nodes(ts[i]) ==> n in NodesOf(ts)
  {
    if i > 0 {
      NodesOfKid(ts[1..], i - 1);
    }
  }

  /** Blocks that agree on a list of nodes. */
  ghost predicate SameOn(b1: Blocks, b2: Blocks, nodes: seq<(nat, nat)>) {
    forall n :: n in nodes && n.1 in b1 ==> n.1 in b2 && b2[n.1] == b1[n.1]
  }

  lemma {:induction false} StoredFrame(b1: Blocks, b2: Blocks, bs: nat, fixed: bool, t: Tree, level: nat)
    requires Stored(b1, bs, fixed, t, level) && SameOn(b1, b2, Nodes(t))
    ensures Stored(b2, bs, fixed, t, level)
    decreases t
  {
    hide NodeStored, InnerNode;
    assert Nodes(t)[0] == (t.oid, t.paddr);
    if t.Index? {
      forall i | 0 <= i < |t.kids|
        ensures Stored(b2, bs, fixed, t.kids[i], level - 1) && InnerNode(b2[t.kids[i].paddr])
      {
        NodesOfKid(t.kids, i);
        assert Nodes(t.kids[i])[0] == (t.kids[i].oid, t.kids[i].paddr);
        StoredFrame(b1, b2, bs, fixed, t.kids[i], level - 1);
      }
    }
  }

  ghost predicate AllStored(blocks: Blocks, bs: nat, fixed: bool, ts: seq<Tree>, level: nat) {
    forall i :: 0 <= i < |ts| ==> Stored(blocks, bs, fixed, ts[i], level) && InnerNode(blocks[ts[i].paddr])
  }

  lemma AllStoredFrame(b1: Blocks, b2: Blocks, bs: nat, fixed: bool, ts: seq<Tree>, level: nat)
    requires AllStored(b1, bs, fixed, ts, level) && SameOn(b1, b2, NodesOf(ts))
    ensures AllStored(b2, bs, fixed, ts, level)
  {
    hide NodeStored, InnerNode;
    forall i | 0 <= i < |ts| ensures Stored(b2, bs, fixed, ts[i], level) && InnerNode(b2[ts[i].paddr]) {
      NodesOfKid(ts, i);
      assert Nodes(ts[i])[0] == (ts[i].oid, ts[i].paddr);
      StoredFrame(b1, b2, bs, fixed, ts[i], level);
    }
  }
}

/**
 * Walking a B-tree back into its record list (src/apfs_replace.rs `read_tree`): what the walk
 * returns for any blocks at all, and in particular for the blocks of a stored tree.
 */
module TreeReader {
  import opened Bytes
  import opened TreeNode
  import opened BTree
  import Fletcher

  datatype TreeImage = TreeImage(records: seq<Record>, nodes: seq<(nat, nat)>, layout: Layout)

  /** A leaf entry cut to the tree's fixed sizes, if it has any. */
  function LeafRecord(e: Record, fixed: Option<(nat, nat)>): (r: Result<Record>) {
    match fixed
    case None => Ok(e)
    case Some(size) =>
      if |e.key| < size.0 then Err(ShortRecord)
      else if |e.value| < size.1 then Err(ShortRecord)
      else Ok(Record(e.key[..size.0], e.value[..size.1]))
  }

  /** The block an index entry leads to, through the object map of a virtual tree. */
  function ChildBlock(e: Record, oids: Option<map<nat, nat>>): (r: Result<nat>) {
    if |e.value| < 8 then Err(ShortRecord) else
      var child := U64At(e.value, 0);
      match oids
      case None => Ok(child)
      case Some(m) => if child in m then Ok(m[child]) else Err(Unmapped)
  }

  predicate EntryGood(node: Node, fixed: Option<(nat, nat)>, oids: Option<map<nat, nat>>, i: nat)
    requires node.Ok() && i < node.nkeys
  {
    && Entry(node, i).Ok?
    && if node.leaf then LeafRecord(Entry(node, i).value, fixed).Ok? else ChildBlock(Entry(node, i).value, oids).Ok?
  }

  /** The records of a leaf and the child blocks of an index node, entry by entry. */
  predicate EntriesRead(node: Node, fixed: Option<(nat, nat)>, oids: Option<map<nat, nat>>, records: seq<Record>,
                        children: seq<nat>)
    requires node.Ok()
  {
    if node.leaf then
      && |records| == node.nkeys && children == []
      && forall i :: 0 <= i < node.nkeys ==>
           EntryGood(node, fixed, oids, i) && Ok(records[i]) == LeafRecord(Entry(node, i).value, fixed)
    else
      && records == [] && |children| == node.nkeys
      && forall i :: 0 <= i < node.nkeys ==>
           EntryGood(node, fixed, oids, i) && Ok(children[i]) == ChildBlock(Entry(node, i).value, oids)
  }

  /** One node's records, or its children's blocks; refused as soon as one entry is bad. */
  method ReadEntries(node: Node, fixed: Option<(nat, nat)>, oids: Option<map<nat, nat>>)
      returns (r: Result<(seq<Record>, seq<nat>)>)
    requires node.Ok()
    ensures r.Err? ==> exists i :: 0 <= i < node.nkeys && !EntryGood(node, fixed, oids, i)
    ensures r.Ok? ==> EntriesRead(node, fixed, oids, r.value.0, r.value.1)
  {
    hide Entry, LeafRecord, ChildBlock;
    var records, children := [], [];
    for index := 0 to node.nkeys
      invariant node.leaf ==> |records| == index && children == []
      invariant !node.leaf ==> records == [] && |children| == index
      invariant forall i :: 0 <= i < index ==> EntryGood(node, fixed, oids, i)
      invariant node.leaf ==> forall i :: 0 <= i < index ==>
                  Entry(node, i).Ok? && Ok(records[i]) == LeafRecord(Entry(node, i).value, fixed)
      invariant !node.leaf ==> forall i :: 0 <= i < index ==>
                  Entry(node, i).Ok? && Ok(children[i]) == ChildBlock(Entry(node, i).value, oids)
    {
      var e := Entry(node, index);
      if e.Err? {
        assert !EntryGood(node, fixed, oids, index);
        return Err(e.error);
      }
      if node.leaf {
        var rec := LeafRecord(e.value, fixed);
        if rec.Err? {
          assert !EntryGood(node, fixed, oids, index);
          return Err(rec.error);
        }
        records := records + [rec.value];
      } else {
        var child := ChildBlock(e.value, oids);
        if child.Err? {
          assert !EntryGood(node, fixed, oids, index);
          return Err(child.error);
        }
        children := children + [child.value];
      }
    }
    r := Ok((records, children));
  }

  // ---- one block -----------------------------------------------------------------------------------

  /** What one block says: its object id, and its records or its children's blocks. */
  datatype Visit = Visit(oid: nat, leaf: bool, records: seq<Record>, children: seq<nat>)

  /** The block checks out, decodes, and says `v`. */
  ghost predicate Says(b: seq<byte>, fixed: Option<(nat, nat)>, oids: Option<map<nat, nat>>, v: Visit) {
    && |b| >= TOC_BASE && Fletcher.Valid(b) && v.oid == U64At(b, 8)
    && DecodeNode(b, false).Ok? && v.leaf == DecodeNode(b, false).value.leaf
    && EntriesRead(DecodeNode(b, false).value, fixed, oids, v.records, v.children)
  }

  lemma SaysOne(b: seq<byte>, fixed: Option<(nat, nat)>, oids: Option<map<nat, nat>>, v: Visit, w: Visit)
    requires Says(b, fixed, oids, v) && Says(b, fixed, oids, w)
    ensures v == w
  {
    hide Entry, DecodeNode, LeafRecord, ChildBlock, Fletcher.Valid;
    if v.leaf {
      assert forall i :: 0 <= i < |v.records| ==> Ok(v.records[i]) == Ok(w.records[i]);
    } else {
      assert forall i :: 0 <= i < |v.children| ==> Ok(v.children[i]) == Ok(w.children[i]);
    }
  }

  /** Checks, decodes and reads one block; fails exactly when it says nothing. */
  method VisitBlock(b: seq<byte>, fixed: Option<(nat, nat)>, oids: Option<map<nat, nat>>) returns (r: Result<Visit>)
    requires |b| >= TOC_BASE
    ensures r.Ok? ==> Says(b, fixed, oids, r.value)
    ensures r.Err? ==> forall v :: !Says(b, fixed, oids, v)
  {
    hide DecodeNode, Fletcher.Valid, Entry, LeafRecord, ChildBlock;
    var valid := Fletcher.ChecksumValid(b);
    if !valid {
      return Err(BadChecksum);
    }
    var node := DecodeNode(b, false);
    if node.Err? {
      return Err(node.error);
    }
    var entries := ReadEntries(node.value, fixed, oids);
    if entries.Err? {
      return Err(entries.error);
    }
    r := Ok(Visit(U64At(b, 8), node.value.leaf, entries.value.0, entries.value.1));
  }

  // ---- what the blocks unfold to --------------------------------------------------------------------

  function OwnVisit(t: Tree): Visit {
    match t
    case Leaf(oid, _, recs) => Visit(oid, true, recs, [])
    case Index(oid, _, _, kids) => Visit(oid, false, [], seq(|kids|, i requires 0 <= i < |kids| => kids[i].paddr))
  }

  /** Following child references from t's block gives the tree t. */
  ghost predicate Unfolds(blocks: Blocks, fixed: Option<(nat, nat)>, oids: Option<map<nat, nat>>, t: Tree)
    decreases t
  {
    && t.paddr in blocks && Says(blocks[t.paddr], fixed, oids, OwnVisit(t))
    && (t.Index? ==> forall i :: 0 <= i < |t.kids| ==> Unfolds(blocks, fixed, oids, t.kids[i]))
  }

  /** Every block seen belongs to a node already listed. */
  ghost predicate Listed(seen: set<nat>, nodes: seq<(nat, nat)>) {
    forall p :: p in seen ==> exists i :: 0 <= i < |nodes| && nodes[i].1 == p
  }

  /** The stack holds the blocks of the trees to be read, the next one on top. */
  ghost predicate StackOf(pending: seq<nat>, work: seq<Tree>) {
    && |pending| == |work|
    && forall i :: 0 <= i < |work| ==> pending[|work| - 1 - i] == work[i].paddr
  }

  /** The layout the root's header and trailer announce. */
  function RootImage(b: seq<byte>): (image: TreeImage)
    requires |b| >= TOC_BASE + INFO_BYTES
    ensures image.records == [] && image.nodes == []
  {
    var info := |b| - INFO_BYTES;
    var fixed := if U16At(b, 0x20) / 4 % 2 == 1 then Some((U32At(b, info + 8), U32At(b, info + 12))) else None;
    TreeImage([], [], Layout(fixed, U32At(b, info), U32At(b, 0x1C)))
  }

  lemma RootLayout(b: seq<byte>, bs: nat, t: Tree, level: nat, layout: Layout)
    requires t.Index? ==> |t.keys| == |t.kids|
    requires NodeStored(b, bs, layout.fixed.Some?, t, level) && RootHolds(b, layout)
    ensures RootImage(b).layout == layout
  {
    hide Entry, Matches, NodeRecs, Fletcher.Valid, U16At, U32At, U64At;
    assert DecodeNode(b, false).value.fixed == (U16At(b, 0x20) / 4 % 2 == 1);
  }

  /** What is still to be read, next tree first, and what the walk has produced so far. */
  ghost predicate Progress(blocks: Blocks, fixed: Option<(nat, nat)>, oids: Option<map<nat, nat>>, t: Tree,
                           work: seq<Tree>, pending: seq<nat>, seen: set<nat>, image: TreeImage)
  {
    && StackOf(pending, work)
    && (forall i :: 0 <= i < |work| ==> Unfolds(blocks, fixed, oids, work[i]))
    && image.records + RecordsOf(work) == Records(t)
    && image.nodes + NodesOf(work) == Nodes(t)
    && Listed(seen, image.nodes)
  }

  lemma StartProgress(blocks: Blocks, fixed: Option<(nat, nat)>, oids: Option<map<nat, nat>>, t: Tree, image: TreeImage)
    requires Unfolds(blocks, fixed, oids, t)
    requires image.records == [] && image.nodes == []
    ensures Progress(blocks, fixed, oids, t, [t], [t.paddr], {}, image)
  {
    hide Unfolds;
    SingleTree(t);
  }

  /** The next block has not been seen: everything seen lies earlier in the node list. */
  lemma NotSeen(blocks: Blocks, fixed: Option<(nat, nat)>, oids: Option<map<nat, nat>>, t: Tree,
                work: seq<Tree>, pending: seq<nat>, seen: set<nat>, image: TreeImage)
    requires Progress(blocks, fixed, oids, t, work, pending, seen, image)
    requires NoRepeats(Nodes(t)) && work != []
    ensures work[0].paddr !in seen
  {
    hide Unfolds;
    var k := |image.nodes|;
    assert Nodes(work[0])[0] == (work[0].oid, work[0].paddr);
    assert NodesOf(work)[0] == (work[0].oid, work[0].paddr);
    assert Nodes(t)[k] == NodesOf(work)[0];
    forall i | 0 <= i < k ensures image.nodes[i].1 != work[0].paddr {
      assert Nodes(t)[i] == image.nodes[i];
    }
  }

  lemma SeenGrows(seen: set<nat>, nodes: seq<(nat, nat)>, oid: nat, paddr: nat)
    requires Listed(seen, nodes)
    ensures Listed(seen + {paddr}, nodes + [(oid, paddr)])
  {
    var next := nodes + [(oid, paddr)];
    forall p | p in seen + {paddr} ensures exists i :: 0 <= i < |next| && next[i].1 == p {
      if p == paddr {
        assert next[|nodes|].1 == p;
      } else {
        var i :| 0 <= i < |nodes| && nodes[i].1 == p;
        assert next[i].1 == p;
      }
    }
  }

  function Reversed(s: seq<nat>): (r: seq<nat>)
    ensures |r| == |s|
    ensures forall i :: 0 <= i < |s| ==> r[i] == s[|s| - 1 - i]
  {
    seq(|s|, i requires 0 <= i < |s| => s[|s| - 1 - i])
  }

  /** The trees left to read once the first one's own node is done. */
  ghost function Rest(work: seq<Tree>): seq<Tree>
    requires work != []
  {
    if work[0].Leaf? then work[1..] else work[0].kids + work[1..]
  }

  /** Doing one node moves its own records and its own entry out of the forest. */
  lemma ForestStep(work: seq<Tree>)
    requires work != []
    ensures work[0].Leaf? ==> RecordsOf(work) == work[0].recs + RecordsOf(Rest(work))
    ensures work[0].Index? ==> RecordsOf(work) == RecordsOf(Rest(work))
    ensures NodesOf(work) == [(work[0].oid, work[0].paddr)] + NodesOf(Rest(work))
  {
    hide RecordsOf, NodesOf, Records, Nodes;
    var first, rest := work[0], work[1..];
    ForestHead(work);
    OwnNode(first);
    if first.Index? {
      RecordsOfConcat(first.kids, rest);
      NodesOfConcat(first.kids, rest);
      ConcatAssoc([(first.oid, first.paddr)], NodesOf(first.kids), NodesOf(rest));
    }
  }

  lemma StackStep(pending: seq<nat>, work: seq<Tree>, children: seq<nat>)
    requires StackOf(pending, work) && work != []
    requires |children| == if work[0].Leaf? then 0 else |work[0].kids|
    requires work[0].Index? ==> forall i :: 0 <= i < |children| ==> children[i] == work[0].kids[i].paddr
    ensures StackOf(pending[..|pending| - 1] + Reversed(children), Rest(work))
  {
    var w, p, n := Rest(work), pending[..|pending| - 1] + Reversed(children), |children|;
    forall i | 0 <= i < |w| ensures p[|w| - 1 - i] == w[i].paddr {
      if i >= n {
        assert w[i] == work[i - n + 1];
      }
    }
  }

  lemma StackLength(pending: seq<nat>, work: seq<Tree>)
    requires StackOf(pending, work)
    ensures |pending| == |work|
    ensures work != [] ==> pending[|pending| - 1] == work[0].paddr
  {
  }

  /** One round of the walk keeps the account straight. */
  lemma StepProgress(blocks: Blocks, fixed: Option<(nat, nat)>, oids: Option<map<nat, nat>>, t: Tree, work: seq<Tree>,
                     pending: seq<nat>, seen: set<nat>, image: TreeImage, visit: Visit, next: TreeImage)
    requires Progress(blocks, fixed, oids, t, work, pending, seen, image) && work != []
    requires visit == OwnVisit(work[0]) && next.records == image.records + visit.records
    requires next.nodes == image.nodes + [(work[0].oid, work[0].paddr)]
    ensures Progress(blocks, fixed, oids, t, Rest(work), pending[..|pending| - 1] + Reversed(visit.children),
                     seen + {work[0].paddr}, next)
  {
    hide Unfolds, StackOf, Listed, RecordsOf, NodesOf, Records, Nodes, Rest;
    SeenGrows(seen, image.nodes, work[0].oid, work[0].paddr);
    ForestStep(work);
    ConcatAssoc(image.nodes, [(work[0].oid, work[0].paddr)], NodesOf(Rest(work)));
    ConcatAssoc(image.records, visit.records, RecordsOf(Rest(work)));
    StackLength(pending, work);
    StackStep(pending, work, visit.children);
    RestUnfolds(blocks, fixed, oids, work);
  }

  lemma RestUnfolds(blocks: Blocks, fixed: Option<(nat, nat)>, oids: Option<map<nat, nat>>, work: seq<Tree>)
    requires work != [] && forall i :: 0 <= i < |work| ==> Unfolds(blocks, fixed, oids, work[i])
    ensures forall i :: 0 <= i < |Rest(work)| ==> Unfolds(blocks, fixed, oids, Rest(work)[i])
  {
    hide Says;
    assert Unfolds(blocks, fixed, oids, work[0]);
  }

  // ---- the tree behind a finished walk ----------------------------------------------------------------

  function Gathered(log: seq<Visit>): seq<Record> {
    if log == [] then [] else log[0].records + Gathered(log[1..])
  }

  lemma {:induction false} GatheredPush(log: seq<Visit>, v: Visit)
    ensures Gathered(log + [v]) == Gathered(log) + v.records
  {
    if log == [] {
      assert [v][1..] == [];
    } else {
      GatheredPush(log[1..], v);
      assert (log + [v])[1..] == log[1..] + [v];
    }
  }

  /** Round i of the walk: the block on top of the stack says log[i], and its children replace it. */
  ghost predicate Round(blocks: Blocks, fixed: Option<(nat, nat)>, oids: Option<map<nat, nat>>, stack: seq<nat>,
                        v: Visit, node: (nat, nat), after: seq<nat>)
  {
    && stack != [] && node == (v.oid, stack[|stack| - 1])
    && node.1 in blocks && Says(blocks[node.1], fixed, oids, v)
    && after == stack[..|stack| - 1] + Reversed(v.children)
  }

  /** A walk so far, round by round. */
  ghost predicate Trace(blocks: Blocks, fixed: Option<(nat, nat)>, oids: Option<map<nat, nat>>, root: nat,
                        stacks: seq<seq<nat>>, log: seq<Visit>, image: TreeImage)
  {
    && |stacks| == |log| + 1 && |image.nodes| == |log| && stacks[0] == [root] && image.records == Gathered(log)
    && forall i :: 0 <= i < |log| ==> Round(blocks, fixed, oids, stacks[i], log[i], image.nodes[i], stacks[i + 1])
  }

  lemma TraceOn(blocks: Blocks, fixed: Option<(nat, nat)>, oids: Option<map<nat, nat>>, root: nat,
                stacks: seq<seq<nat>>, log: seq<Visit>, image: TreeImage, v: Visit, next: TreeImage)
    requires Trace(blocks, fixed, oids, root, stacks, log, image) && stacks[|log|] != []
    requires var p := stacks[|log|][|stacks[|log|]| - 1];
             && p in blocks && Says(blocks[p], fixed, oids, v)
             && next.records == image.records + v.records && next.nodes == image.nodes + [(v.oid, p)]
    ensures var top := stacks[|log|];
            Trace(blocks, fixed, oids, root, stacks + [top[..|top| - 1] + Reversed(v.children)], log + [v], next)
  {
    hide Says, Reversed;
    GatheredPush(log, v);
  }

  /**
   * A walk that ended: the trees behind the stack of round i, whose nodes and records are those
   * still listed after it.
   */
  lemma {:induction false} Rebuild(blocks: Blocks, fixed: Option<(nat, nat)>, oids: Option<map<nat, nat>>, root: nat,
                                   stacks: seq<seq<nat>>, log: seq<Visit>, image: TreeImage, i: nat)
      returns (work: seq<Tree>)
    requires Trace(blocks, fixed, oids, root, stacks, log, image) && stacks[|log|] == [] && i <= |log|
    ensures StackOf(stacks[i], work) && forall k :: 0 <= k < |work| ==> Unfolds(blocks, fixed, oids, work[k])
    ensures NodesOf(work) == image.nodes[i..] && RecordsOf(work) == Gathered(log[i..])
    decreases |log| - i
  {
    hide Round, Unfolds, StackOf, NodesOf, RecordsOf;
    if i == |log| {
      work := [];
      NoForest();
      assert image.nodes[i..] == [] && log[i..] == [];
    } else {
      var later := Rebuild(blocks, fixed, oids, root, stacks, log, image, i + 1);
      assert Round(blocks, fixed, oids, stacks[i], log[i], image.nodes[i], stacks[i + 1]);
      work := Folded(blocks, fixed, oids, stacks[i], log[i], image.nodes[i], stacks[i + 1], later);
      assert image.nodes[i..] == [image.nodes[i]] + image.nodes[i + 1..];
      assert log[i..][0] == log[i] && log[i..][1..] == log[i + 1..];
    }
  }

  lemma NoForest()
    ensures StackOf([], []) && NodesOf([]) == [] && RecordsOf([]) == []
  {
  }

  /** Undoing one round: the block's tree is put together from its children's. */
  lemma Folded(blocks: Blocks, fixed: Option<(nat, nat)>, oids: Option<map<nat, nat>>, stack: seq<nat>, v: Visit,
               node: (nat, nat), after: seq<nat>, later: seq<Tree>) returns (work: seq<Tree>)
    requires Round(blocks, fixed, oids, stack, v, node, after) && StackOf(after, later)
    requires forall k :: 0 <= k < |later| ==> Unfolds(blocks, fixed, oids, later[k])
    ensures StackOf(stack, work) && forall k :: 0 <= k < |work| ==> Unfolds(blocks, fixed, oids, work[k])
    ensures NodesOf(work) == [node] + NodesOf(later) && RecordsOf(work) == v.records + RecordsOf(later)
  {
    hide Unfolds, Records, Nodes, RecordsOf, NodesOf, Says, StackOf, Reversed, ForestOf, OwnVisit;
    SaysShape(blocks[node.1], fixed, oids, v);
    StackOnto(stack, v.children, after, later);
    var t := ForestOf(v, node.1, later);
    work := [t] + later[|v.children|..];
    assert work[0] == t && work[1..] == later[|v.children|..];
    FoldedRest(v, node.1, later);
    ForestStep(work);
    FoldedVisit(stack, v, node.1, after, later);
    FoldedUnfolds(blocks, fixed, oids, t);
    FoldedStack(stack, v, node.1, after, later);
  }

  /** The tree of a block that says v, over the first of the trees behind it. */
  function ForestOf(v: Visit, paddr: nat, later: seq<Tree>): (t: Tree)
    requires |v.children| <= |later|
    ensures t.paddr == paddr && t.oid == v.oid && t.Leaf? == v.leaf
  {
    if v.leaf then Leaf(v.oid, paddr, v.records)
    else Index(v.oid, paddr, seq(|v.children|, _ => []), later[..|v.children|])
  }

  lemma StackOnto(stack: seq<nat>, children: seq<nat>, after: seq<nat>, later: seq<Tree>)
    requires stack != [] && after == stack[..|stack| - 1] + Reversed(children) && StackOf(after, later)
    ensures |children| <= |later| && |later| == |stack| - 1 + |children|
  {
  }

  lemma FoldedRest(v: Visit, paddr: nat, later: seq<Tree>)
    requires |v.children| <= |later| && (v.leaf ==> v.children == [])
    ensures Rest([ForestOf(v, paddr, later)] + later[|v.children|..]) == later
    ensures v.leaf ==> ForestOf(v, paddr, later).recs == v.records
  {
    var t := ForestOf(v, paddr, later);
    assert ([t] + later[|v.children|..])[1..] == later[|v.children|..];
  }

  lemma FoldedVisit(stack: seq<nat>, v: Visit, paddr: nat, after: seq<nat>, later: seq<Tree>)
    requires stack != [] && after == stack[..|stack| - 1] + Reversed(v.children) && StackOf(after, later)
    requires |v.children| <= |later| && if v.leaf then v.children == [] else v.records == []
    ensures OwnVisit(ForestOf(v, paddr, later)) == v
    ensures var t := ForestOf(v, paddr, later); t.Index? ==> t.kids == later[..|v.children|]
  {
    forall k | 0 <= k < |v.children| ensures later[k].paddr == v.children[k] {
      assert after[|later| - 1 - k] == later[k].paddr;
    }
  }

  lemma FoldedStack(stack: seq<nat>, v: Visit, paddr: nat, after: seq<nat>, later: seq<Tree>)
    requires stack != [] && after == stack[..|stack| - 1] + Reversed(v.children) && StackOf(after, later)
    requires |v.children| <= |later| && paddr == stack[|stack| - 1]
    ensures StackOf(stack, [ForestOf(v, paddr, later)] + later[|v.children|..])
  {
    hide ForestOf;
    var m, work := |v.children|, [ForestOf(v, paddr, later)] + later[|v.children|..];
    forall k | 0 <= k < |work| ensures stack[|work| - 1 - k] == work[k].paddr {
      if k > 0 {
        assert after[|later| - 1 - (m + k - 1)] == later[m + k - 1].paddr;
      }
    }
  }

  lemma SaysShape(b: seq<byte>, fixed: Option<(nat, nat)>, oids: Option<map<nat, nat>>, v: Visit)
    requires Says(b, fixed, oids, v)
    ensures if v.leaf then v.children == [] else v.records == []
  {
    hide Entry, DecodeNode, LeafRecord, ChildBlock, Fletcher.Valid;
  }

  lemma FoldedUnfolds(blocks: Blocks, fixed: Option<(nat, nat)>, oids: Option<map<nat, nat>>, t: Tree)
    requires t.paddr in blocks && Says(blocks[t.paddr], fixed, oids, OwnVisit(t))
    requires t.Index? ==> forall i :: 0 <= i < |t.kids| ==> Unfolds(blocks, fixed, oids, t.kids[i])
    ensures Unfolds(blocks, fixed, oids, t)
  {
    hide Says;
  }

  // ---- the walk ----------------------------------------------------------------------------------------

  /** The blocks unfold from `root` to the tree t, no block twice. */
  ghost predicate Leads(blocks: Blocks, fixed: Option<(nat, nat)>, oids: Option<map<nat, nat>>, root: nat, t: Tree) {
    t.paddr == root && Unfolds(blocks, fixed, oids, t) && NoRepeats(Nodes(t))
  }

  ghost predicate LeadsSomewhere(blocks: Blocks, fixed: Option<(nat, nat)>, oids: Option<map<nat, nat>>, root: nat,
                                 image: TreeImage)
  {
    exists t :: Leads(blocks, fixed, oids, root, t) && image.records == Records(t) && image.nodes == Nodes(t)
  }

  /**
   * Walks the tree from `root` with a stack and a set of blocks already seen. It terminates on any
   * input. It succeeds exactly when the blocks unfold from the root to some tree without meeting a
   * block twice, and then returns that tree's records in order, its nodes in preorder and the
   * layout the root announces.
   */
  method ReadTree(blocks: Blocks, bs: nat, root: nat, oids: Option<map<nat, nat>>, ghost t: Tree)
      returns (r: Result<TreeImage>)
    requires bs >= TOC_BASE + INFO_BYTES && forall p :: p in blocks ==> |blocks[p]| == bs
    ensures r.Ok? ==> root in blocks && r.value.layout == RootImage(blocks[root]).layout && NoRepeats(r.value.nodes)
    ensures r.Ok? ==> LeadsSomewhere(blocks, r.value.layout.fixed, oids, root, r.value)
    ensures root in blocks && Leads(blocks, RootImage(blocks[root]).layout.fixed, oids, root, t) ==>
              r == Ok(TreeImage(Records(t), Nodes(t), RootImage(blocks[root]).layout))
  {
    hide *;
    if root !in blocks {
      return Err(OutsideContainer);
    }
    var image := RootImage(blocks[root]);
    var layout := image.layout;
    ghost var work, stacks, log := [t], [[root]], [];
    var pending := [root];
    var seen: set<nat> := {};
    StartWalk(blocks, layout.fixed, oids, root, t, image);
    while pending != []
      invariant Walk(blocks, layout.fixed, oids, root, t, work, pending, seen, image)
      invariant image.layout == layout && |stacks| == |log| + 1 && stacks[|log|] == pending
      invariant Trace(blocks, layout.fixed, oids, root, stacks, log, image)
      decreases |blocks.Keys - seen|
    {
      var paddr := pending[|pending| - 1];
      NextWalk(blocks, layout.fixed, oids, root, t, work, pending, seen, image);
      if paddr in seen {
        return Err(RepeatedBlock);
      }
      if paddr !in blocks {
        return Err(OutsideContainer);
      }
      var visit := VisitBlock(blocks[paddr], layout.fixed, oids);
      if visit.Err? {
        return Err(visit.error);
      }
      FewerLeft(blocks.Keys, seen, paddr);
      ghost var was, stack, before := seen, pending, image;
      seen := seen + {paddr};
      image := TreeImage(image.records + visit.value.records, image.nodes + [(visit.value.oid, paddr)], layout);
      pending := pending[..|pending| - 1] + Reversed(visit.value.children);
      StepWalk(blocks, layout.fixed, oids, root, t, work, stack, was, before, visit.value, image);
      TraceOn(blocks, layout.fixed, oids, root, stacks, log, before, visit.value, image);
      stacks, log := stacks + [pending], log + [visit.value];
      work := if work == [] then [] else Rest(work);
    }
    EndWalk(blocks, layout.fixed, oids, root, t, work, seen, image);
    WalkFound(blocks, layout.fixed, oids, root, stacks, log, image);
    r := Ok(image);
  }

  lemma WalkFound(blocks: Blocks, fixed: Option<(nat, nat)>, oids: Option<map<nat, nat>>, root: nat,
                  stacks: seq<seq<nat>>, log: seq<Visit>, image: TreeImage)
    requires Trace(blocks, fixed, oids, root, stacks, log, image) && stacks[|log|] == [] && NoRepeats(image.nodes)
    ensures LeadsSomewhere(blocks, fixed, oids, root, image)
  {
    hide Unfolds, Round, NoRepeats;
    var work := Rebuild(blocks, fixed, oids, root, stacks, log, image, 0);
    assert |work| == 1 && work == [work[0]] && work[0].paddr == stacks[0][0];
    SingleTree(work[0]);
    assert image.nodes[0..] == image.nodes && log[0..] == log;
    assert Leads(blocks, fixed, oids, root, work[0]);
  }

  /** The loop invariant: always, and under the hypothesis that `root` leads to `t`. */
  ghost predicate Walk(blocks: Blocks, fixed: Option<(nat, nat)>, oids: Option<map<nat, nat>>, root: nat, t: Tree,
                       work: seq<Tree>, pending: seq<nat>, seen: set<nat>, image: TreeImage)
  {
    && seen <= blocks.Keys && NoRepeats(image.nodes) && Within(image.nodes, seen)
    && (Leads(blocks, fixed, oids, root, t) ==> Progress(blocks, fixed, oids, t, work, pending, seen, image))
  }

  lemma StartWalk(blocks: Blocks, fixed: Option<(nat, nat)>, oids: Option<map<nat, nat>>, root: nat, t: Tree,
                  image: TreeImage)
    requires image.records == [] && image.nodes == []
    ensures Walk(blocks, fixed, oids, root, t, [t], [root], {}, image)
    ensures Trace(blocks, fixed, oids, root, [[root]], [], image)
  {
    hide Unfolds, Progress;
    if Leads(blocks, fixed, oids, root, t) {
      StartProgress(blocks, fixed, oids, t, image);
    }
  }

  lemma NextWalk(blocks: Blocks, fixed: Option<(nat, nat)>, oids: Option<map<nat, nat>>, root: nat, t: Tree,
                 work: seq<Tree>, pending: seq<nat>, seen: set<nat>, image: TreeImage)
    requires pending != [] && Walk(blocks, fixed, oids, root, t, work, pending, seen, image)
    ensures Leads(blocks, fixed, oids, root, t) ==>
              && work != [] && pending[|pending| - 1] == work[0].paddr
              && work[0].paddr !in seen && work[0].paddr in blocks &&
                 Says(blocks[work[0].paddr], fixed, oids, OwnVisit(work[0]))
  {
    hide Says, NoRepeats;
    if Leads(blocks, fixed, oids, root, t) {
      StackLength(pending, work);
      NotSeen(blocks, fixed, oids, t, work, pending, seen, image);
      assert Unfolds(blocks, fixed, oids, work[0]);
    }
  }

  lemma StepWalk(blocks: Blocks, fixed: Option<(nat, nat)>, oids: Option<map<nat, nat>>, root: nat, t: Tree,
                 work: seq<Tree>, pending: seq<nat>, seen: set<nat>, image: TreeImage, visit: Visit, next: TreeImage)
    requires pending != [] && Walk(blocks, fixed, oids, root, t, work, pending, seen, image)
    requires var paddr := pending[|pending| - 1];
             && paddr !in seen && paddr in blocks && Says(blocks[paddr], fixed, oids, visit)
             && next.records == image.records + visit.records && next.nodes == image.nodes + [(visit.oid, paddr)]
    ensures Walk(blocks, fixed, oids, root, t, if work == [] then [] else Rest(work),
                 pending[..|pending| - 1] + Reversed(visit.children), seen + {pending[|pending| - 1]}, next)
  {
    hide Progress, NoRepeats, Within, Rest, Reversed, Says, Unfolds;
    Appended(image.nodes, seen, visit.oid, pending[|pending| - 1]);
    if Leads(blocks, fixed, oids, root, t) {
      NextWalk(blocks, fixed, oids, root, t, work, pending, seen, image);
      SaysOne(blocks[pending[|pending| - 1]], fixed, oids, visit, OwnVisit(work[0]));
      StepProgress(blocks, fixed, oids, t, work, pending, seen, image, visit, next);
    }
  }

  lemma EndWalk(blocks: Blocks, fixed: Option<(nat, nat)>, oids: Option<map<nat, nat>>, root: nat, t: Tree,
                work: seq<Tree>, seen: set<nat>, image: TreeImage)
    requires Walk(blocks, fixed, oids, root, t, work, [], seen, image)
    ensures NoRepeats(image.nodes)
    ensures Leads(blocks, fixed, oids, root, t) ==> image.records == Records(t) && image.nodes == Nodes(t)
  {
    hide Unfolds, Records, Nodes, NoRepeats;
    if Leads(blocks, fixed, oids, root, t) {
      assert work == [];
    }
  }

  predicate Within(nodes: seq<(nat, nat)>, seen: set<nat>) {
    forall n :: n in nodes ==> n.1 in seen
  }

  lemma Appended(nodes: seq<(nat, nat)>, seen: set<nat>, oid: nat, paddr: nat)
    requires NoRepeats(nodes) && Within(nodes, seen) && paddr !in seen
    ensures NoRepeats(nodes + [(oid, paddr)]) && Within(nodes + [(oid, paddr)], seen + {paddr})
  {
  }

  lemma FewerLeft(all: set<nat>, seen: set<nat>, paddr: nat)
    requires paddr in all && paddr !in seen
    ensures |all - (seen + {paddr})| < |all - seen|
  {
    assert all - seen == (all - (seen + {paddr})) + {paddr};
  }

  // ---- stored trees --------------------------------------------------------------------------------------

  /** Object ids lead to the blocks of their nodes. */
  predicate Resolves(nodes: seq<(nat, nat)>, oids: Option<map<nat, nat>>) {
    forall n :: n in nodes ==>
      if oids.Some? then n.0 in oids.value && oids.value[n.0] == n.1 else n.0 == n.1
  }

  /**
   * The hypothesis under which reading `root` must give back the tree `t`: it is stored there, no
   * block twice, and the object ids of the nodes below the root lead to their blocks.
   */
  ghost predicate Readable(blocks: Blocks, bs: nat, layout: Layout, oids: Option<map<nat, nat>>, root: nat, t: Tree,
                           level: nat)
  {
    && t.paddr == root
    && Stored(blocks, bs, layout.fixed.Some?, t, level)
    && RootHolds(blocks[root], layout)
    && SizesOk(Records(t), layout, 0)
    && Resolves(Nodes(t)[1..], oids)
    && NoRepeats(Nodes(t))
  }

  lemma LeafEntries(b: seq<byte>, recs: seq<Record>, layout: Layout)
    requires Holds(b, recs, layout.fixed.Some?, 0) && SizesOk(recs, layout, 0)
    ensures var node := DecodeNode(b, false).value;
            forall i :: 0 <= i < |recs| ==>
              LeafRecord(Entry(node, i).value, layout.fixed) == Ok(recs[i])
  {
    hide Entry, DecodeNode;
    var node := DecodeNode(b, false).value;
    forall i | 0 <= i < |recs| ensures LeafRecord(Entry(node, i).value, layout.fixed) == Ok(recs[i]) {
      var e := Entry(node, i).value;
      assert Matches(e, recs[i], layout.fixed.Some?);
      assert recs[i] in recs;
      if layout.fixed.Some? {
        assert e.key[..layout.fixed.value.0] == recs[i].key;
        assert e.value[..layout.fixed.value.1] == recs[i].value;
      }
    }
  }

  lemma IndexEntries(b: seq<byte>, t: Tree, fixed: bool, level: nat, oids: Option<map<nat, nat>>)
    requires t.Index? && |t.keys| == |t.kids| && level > 0
    requires Holds(b, NodeRecs(t), fixed, level)
    requires forall i :: 0 <= i < |t.kids| ==> t.kids[i].oid < U64
    requires Resolves(Nodes(t)[1..], oids)
    ensures var node := DecodeNode(b, false).value;
            forall i :: 0 <= i < |t.kids| ==>
              ChildBlock(Entry(node, i).value, oids) == Ok(t.kids[i].paddr)
  {
    hide Entry, DecodeNode;
    var node, recs := DecodeNode(b, false).value, NodeRecs(t);
    forall i | 0 <= i < |t.kids| ensures ChildBlock(Entry(node, i).value, oids) == Ok(t.kids[i].paddr) {
      var e, kid := Entry(node, i).value, t.kids[i];
      assert Matches(e, recs[i], fixed);
      assert recs[i].value == LeBytes(kid.oid, 8);
      Fits64(kid.oid);
      assert e.value[0..8] == recs[i].value;
      NodesOfKid(t.kids, i);
      assert Nodes(t)[1..] == NodesOf(t.kids);
      assert Nodes(kid)[0] == (kid.oid, kid.paddr);
    }
  }

  /** A stored tree unfolds from its root. */
  lemma {:induction false} StoredUnfolds(blocks: Blocks, bs: nat, layout: Layout, oids: Option<map<nat, nat>>,
                                         t: Tree, level: nat)
    requires bs >= TOC_BASE && Stored(blocks, bs, layout.fixed.Some?, t, level)
    requires Resolves(Nodes(t)[1..], oids) && SizesOk(Records(t), layout, 0)
    ensures Unfolds(blocks, layout.fixed, oids, t)
    decreases t
  {
    hide Says, SizesOk, Resolves, Nodes, Records, OwnVisit, NodeStored;
    StoredSays(blocks, bs, layout, oids, t, level);
    if t.Index? {
      forall i | 0 <= i < |t.kids| ensures Unfolds(blocks, layout.fixed, oids, t.kids[i]) {
        KidHypotheses(t, i, layout, oids);
        StoredUnfolds(blocks, bs, layout, oids, t.kids[i], level - 1);
      }
    }
  }

  lemma StoredSays(blocks: Blocks, bs: nat, layout: Layout, oids: Option<map<nat, nat>>, t: Tree, level: nat)
    requires bs >= TOC_BASE && Stored(blocks, bs, layout.fixed.Some?, t, level)
    requires Resolves(Nodes(t)[1..], oids) && SizesOk(Records(t), layout, 0)
    ensures t.paddr in blocks && Says(blocks[t.paddr], layout.fixed, oids, OwnVisit(t))
  {
    hide Entry, DecodeNode, Fletcher.Valid, LeafRecord, ChildBlock, SizesOk, Resolves;
    if t.Leaf? {
      LeafEntries(blocks[t.paddr], t.recs, layout);
    } else {
      IndexEntries(blocks[t.paddr], t, layout.fixed.Some?, level, oids);
    }
  }

  lemma KidHypotheses(t: Tree, i: nat, layout: Layout, oids: Option<map<nat, nat>>)
    requires t.Index? && i < |t.kids| && Resolves(Nodes(t)[1..], oids) && SizesOk(Records(t), layout, 0)
    ensures Resolves(Nodes(t.kids[i])[1..], oids) && SizesOk(Records(t.kids[i]), layout, 0)
  {
    assert Nodes(t)[1..] == NodesOf(t.kids);
    NodesOfKid(t.kids, i);
    RecordsOfKid(t.kids, i);
  }

  lemma {:induction false} RecordsOfKid(ts: seq<Tree>, i: nat)
    requires i < |ts|
    ensures forall r :: r in Records(ts[i]) ==> r in RecordsOf(ts)
  {
    if i > 0 {
      RecordsOfKid(ts[1..], i - 1);
    }
  }

  /** So reading a stored tree gives it back. */
  lemma ReadableLeads(blocks: Blocks, bs: nat, layout: Layout, oids: Option<map<nat, nat>>, root: nat, t: Tree,
                      level: nat)
    requires bs >= TOC_BASE + INFO_BYTES && Readable(blocks, bs, layout, oids, root, t, level)
    ensures root in blocks && |blocks[root]| == bs && RootImage(blocks[root]).layout == layout
    ensures Leads(blocks, layout.fixed, oids, root, t)
  {
    hide Holds, Fletcher.Valid, Unfolds, Resolves, SizesOk, Nodes, Records, RootHolds, RootImage;
    RootLayout(blocks[root], bs, t, level, layout);
    StoredUnfolds(blocks, bs, layout, oids, t, level);
  }
}

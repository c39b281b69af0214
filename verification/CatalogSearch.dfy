/** The pruned descent of a catalog lookup (src/apfs_read.rs `Reader::records`). */
module CatalogSearch {
  import opened Bytes
  import opened TreeNode
  import opened BTree
  import Fletcher

  const MAX_TREE_NODES: nat := 65536
  const MAX_RECORDS: nat := 1048576

  /** Object id and record kind, the two halves of a catalog key's header word. */
  type Prefix = (nat, nat)

  function PrefixOf(key: seq<byte>): Prefix
    requires |key| >= 8
  {
    (U64At(key, 0) % 0x1000_0000_0000_0000, U64At(key, 0) / 0x1000_0000_0000_0000)
  }

  predicate Le2(a: Prefix, b: Prefix) {
    a.0 < b.0 || (a.0 == b.0 && a.1 <= b.1)
  }

  predicate KeysLong(recs: seq<Record>) {
    forall i :: 0 <= i < |recs| ==> |recs[i].key| >= 8
  }

  /** Records in ascending prefix order; equal prefixes may repeat. */
  predicate Sorted(recs: seq<Record>) {
    KeysLong(recs) &&
    forall i, j :: 0 <= i <= j < |recs| ==> Le2(PrefixOf(recs[i].key), PrefixOf(recs[j].key))
  }

  /** The full scan the descent must agree with. */
  function Matching(recs: seq<Record>, target: Prefix): seq<Record>
    requires KeysLong(recs)
  {
    if recs == [] then [] else
      var last := recs[|recs| - 1];
      Matching(recs[..|recs| - 1], target) + if PrefixOf(last.key) == target then [last] else []
  }

  lemma {:induction false} MatchingConcat(a: seq<Record>, b: seq<Record>, target: Prefix)
    requires KeysLong(a) && KeysLong(b)
    ensures KeysLong(a + b) && Matching(a + b, target) == Matching(a, target) + Matching(b, target)
  {
    hide PrefixOf;
    if b == [] {
      assert a + b == a;
    } else {
      var n := |b| - 1;
      assert (a + b)[..|a| + n] == a + b[..n] && (a + b)[|a| + n] == b[n];
      MatchingConcat(a, b[..n], target);
    }
  }

  lemma {:induction false} NothingMatches(recs: seq<Record>, target: Prefix)
    requires KeysLong(recs) && forall i :: 0 <= i < |recs| ==> PrefixOf(recs[i].key) != target
    ensures Matching(recs, target) == []
  {
    if recs != [] {
      NothingMatches(recs[..|recs| - 1], target);
    }
  }

  // ---- where a kid's records lie --------------------------------------------------------------

  lemma KidRecords(kids: seq<Tree>, i: nat)
    requires i < |kids|
    ensures RecordsOf(kids) == RecordsOf(kids[..i]) + (Records(kids[i]) + RecordsOf(kids[i + 1..]))
  {
    hide Records;
    assert kids == kids[..i] + kids[i..] && kids[i..][1..] == kids[i + 1..];
    RecordsOfConcat(kids[..i], kids[i..]);
    ForestHead(kids[i..]);
  }

  lemma SortedPart(a: seq<Record>, b: seq<Record>, c: seq<Record>)
    requires Sorted(a + (b + c))
    ensures Sorted(b) && KeysLong(c)
    ensures forall i, j :: 0 <= i < |b| && 0 <= j < |c| ==> Le2(PrefixOf(b[i].key), PrefixOf(c[j].key))
  {
    var all := a + (b + c);
    forall i | 0 <= i < |b| ensures b[i] == all[|a| + i] {}
    forall j | 0 <= j < |c| ensures c[j] == all[|a| + |b| + j] {}
  }

  lemma {:induction false} FirstKeyIsFirst(blocks: Blocks, bs: nat, t: Tree, level: nat)
    requires Stored(blocks, bs, false, t, level) && NonEmpty(t)
    ensures Records(t) != [] && Records(t)[0].key == FirstKey(t)
    decreases t
  {
    hide NodeStored, InnerNode;
    if t.Index? {
      FirstKeyIsFirst(blocks, bs, t.kids[0], level - 1);
      ForestHead(t.kids);
    }
  }

  /** The test the descent applies to child i of an index node. */
  predicate Visits(recs: seq<Record>, i: nat, target: Prefix)
    requires i < |recs| && KeysLong(recs)
  {
    && (i == 0 || Le2(PrefixOf(recs[i].key), target))
    && (i + 1 == |recs| || Le2(target, PrefixOf(recs[i + 1].key)))
  }

  lemma IndexKeys(blocks: Blocks, bs: nat, t: Tree, level: nat)
    requires t.Index? && Stored(blocks, bs, false, t, level) && Sorted(Records(t))
    ensures |t.keys| == |t.kids|
    ensures forall k :: 0 <= k < |t.kids| ==> Records(t.kids[k]) != [] && Records(t.kids[k])[0].key == t.keys[k]
    ensures forall k :: 0 <= k < |t.kids| ==> |t.keys[k]| >= 8 && Sorted(Records(t.kids[k]))
  {
    hide NodeStored, InnerNode, Sorted;
    forall k | 0 <= k < |t.kids|
      ensures Records(t.kids[k]) != [] && Records(t.kids[k])[0].key == t.keys[k]
      ensures |t.keys[k]| >= 8 && Sorted(Records(t.kids[k]))
    {
      FirstKeyIsFirst(blocks, bs, t.kids[k], level - 1);
      KidRecords(t.kids, k);
      SortedPart(RecordsOf(t.kids[..k]), Records(t.kids[k]), RecordsOf(t.kids[k + 1..]));
      SortedKeys(Records(t.kids[k]));
    }
  }

  lemma SortedKeys(recs: seq<Record>)
    requires Sorted(recs)
    ensures KeysLong(recs)
  {
  }

  /** A child the descent passes over holds no record of the target prefix. */
  lemma SkippedKid(blocks: Blocks, bs: nat, t: Tree, level: nat, i: nat, target: Prefix)
    requires t.Index? && Stored(blocks, bs, false, t, level) && Sorted(Records(t)) && i < |t.kids|
    requires |t.keys| == |t.kids| && KeysLong(NodeRecs(t)) && !Visits(NodeRecs(t), i, target)
    ensures KeysLong(Records(t.kids[i])) && Matching(Records(t.kids[i]), target) == []
  {
    hide Stored;
    IndexKeys(blocks, bs, t, level);
    var kids, recs := t.kids, Records(t.kids[i]);
    KidRecords(kids, i);
    SortedPart(RecordsOf(kids[..i]), recs, RecordsOf(kids[i + 1..]));
    forall k | 0 <= k < |recs| ensures PrefixOf(recs[k].key) != target {
      assert Le2(PrefixOf(recs[0].key), PrefixOf(recs[k].key));
      if i + 1 < |kids| {
        ForestHead(kids[i + 1..]);
        assert RecordsOf(kids[i + 1..])[0] == Records(kids[i + 1])[0];
      }
    }
    NothingMatches(recs, target);
  }

  // ---- the account of a descent ----------------------------------------------------------------

  /** A tree still to be visited, with the level its block must have. */
  datatype Task = Task(tree: Tree, level: nat)

  ghost predicate TaskOk(blocks: Blocks, bs: nat, oids: map<nat, nat>, task: Task) {
    && Stored(blocks, bs, false, task.tree, task.level) && Sorted(Records(task.tree))
    && Mapped(oids, Nodes(task.tree))
  }

  ghost predicate Mapped(oids: map<nat, nat>, nodes: seq<(nat, nat)>) {
    forall n :: n in nodes ==> n.0 in oids && oids[n.0] == n.1
  }

  function Hits(t: Tree, target: Prefix): (m: multiset<Record>)
    requires KeysLong(Records(t))
  {
    multiset(Matching(Records(t), target))
  }

  ghost predicate AllLong(tasks: seq<Task>) {
    forall i :: 0 <= i < |tasks| ==> KeysLong(Records(tasks[i].tree))
  }

  ghost function HitSum(tasks: seq<Task>, target: Prefix): multiset<Record>
    requires AllLong(tasks)
  {
    if tasks == [] then multiset{} else
      HitSum(tasks[..|tasks| - 1], target) + Hits(tasks[|tasks| - 1].tree, target)
  }

  ghost function NodeSum(tasks: seq<Task>): nat {
    if tasks == [] then 0 else NodeSum(tasks[..|tasks| - 1]) + |Nodes(tasks[|tasks| - 1].tree)|
  }

  lemma SumPush(tasks: seq<Task>, task: Task, target: Prefix)
    requires AllLong(tasks) && KeysLong(Records(task.tree))
    ensures AllLong(tasks + [task])
    ensures HitSum(tasks + [task], target) == HitSum(tasks, target) + Hits(task.tree, target)
    ensures NodeSum(tasks + [task]) == NodeSum(tasks) + |Nodes(task.tree)|
  {
    hide Hits, Nodes, KeysLong;
    assert (tasks + [task])[..|tasks|] == tasks;
  }

  lemma SumPop(tasks: seq<Task>, target: Prefix)
    requires AllLong(tasks) && tasks != []
    ensures AllLong(tasks[..|tasks| - 1]) && KeysLong(Records(tasks[|tasks| - 1].tree))
    ensures HitSum(tasks, target) == HitSum(tasks[..|tasks| - 1], target) + Hits(tasks[|tasks| - 1].tree, target)
    ensures NodeSum(tasks) == NodeSum(tasks[..|tasks| - 1]) + |Nodes(tasks[|tasks| - 1].tree)|
  {
  }

  /** An index node's hits, kid by kid, and its node count. */
  lemma KidStep(kids: seq<Tree>, i: nat, target: Prefix)
    requires i < |kids| && KeysLong(RecordsOf(kids))
    ensures KeysLong(RecordsOf(kids[i..])) && KeysLong(Records(kids[i])) && KeysLong(RecordsOf(kids[i + 1..]))
    ensures multiset(Matching(RecordsOf(kids[i..]), target)) ==
            Hits(kids[i], target) + multiset(Matching(RecordsOf(kids[i + 1..]), target))
    ensures |NodesOf(kids[i..])| == |Nodes(kids[i])| + |NodesOf(kids[i + 1..])|
  {
    hide Records, Nodes, Matching;
    assert kids == kids[..i] + kids[i..] && kids[i..][1..] == kids[i + 1..];
    RecordsOfConcat(kids[..i], kids[i..]);
    ForestHead(kids[i..]);
    LongParts(RecordsOf(kids[..i]), Records(kids[i]), RecordsOf(kids[i + 1..]));
    MatchingConcat(Records(kids[i]), RecordsOf(kids[i + 1..]), target);
  }

  lemma LongParts(a: seq<Record>, b: seq<Record>, c: seq<Record>)
    requires KeysLong(a + (b + c))
    ensures KeysLong(b + c) && KeysLong(b) && KeysLong(c)
  {
    var all := a + (b + c);
    forall i | 0 <= i < |b + c| ensures |(b + c)[i].key| >= 8 {
      assert (b + c)[i] == all[|a| + i];
    }
    forall i | 0 <= i < |b| ensures |b[i].key| >= 8 {
      assert b[i] == (b + c)[i];
    }
    forall i | 0 <= i < |c| ensures |c[i].key| >= 8 {
      assert c[i] == (b + c)[|b| + i];
    }
  }

  /** The stack: one (block, expected level) per task; only the root's level is not checked. */
  ghost predicate StackMatches(pending: seq<(nat, Option<nat>)>, tasks: seq<Task>) {
    && |pending| == |tasks|
    && forall i :: 0 <= i < |tasks| ==>
         pending[i].0 == tasks[i].tree.paddr && (pending[i].1 == Some(tasks[i].level) || pending[i].1 == None)
  }

  ghost predicate KindsMatch(blocks: Blocks, pending: seq<(nat, Option<nat>)>) {
    forall i :: 0 <= i < |pending| ==>
      pending[i].0 in blocks && |blocks[pending[i].0]| >= 32 &&
      KindOf(blocks[pending[i].0]) == if pending[i].1.None? then TYPE_BTREE else TYPE_BTREE_NODE
  }

  /** What the descent owes: hits found plus hits still below the stack are all hits. */
  ghost predicate Owed(blocks: Blocks, bs: nat, oids: map<nat, nat>, t: Tree, target: Prefix, tasks: seq<Task>,
                       pending: seq<(nat, Option<nat>)>, found: seq<Record>, visited: nat)
  {
    && StackMatches(pending, tasks) && KindsMatch(blocks, pending)
    && (forall i :: 0 <= i < |tasks| ==> TaskOk(blocks, bs, oids, tasks[i]))
    && AllLong(tasks) && KeysLong(Records(t))
    && multiset(found) + HitSum(tasks, target) == Hits(t, target)
    && visited + NodeSum(tasks) <= |Nodes(t)|
  }

  /** The hypothesis: `root` stores a tree in prefix order whose ids resolve through `oids`. */
  ghost predicate Searchable(blocks: Blocks, bs: nat, oids: map<nat, nat>, root: nat, t: Tree, level: nat) {
    && t.paddr == root && Stored(blocks, bs, false, t, level)
    && |blocks[root]| >= 32 && KindOf(blocks[root]) == TYPE_BTREE
    && Sorted(Records(t)) && Mapped(oids, Nodes(t))
  }

  // ---- reading one node -------------------------------------------------------------------------

  /** Every entry is readable and has a full header word. */
  predicate EntriesGood(node: Node) {
    node.Ok() && forall i :: 0 <= i < node.nkeys ==> Entry(node, i).Ok? && |Entry(node, i).value.key| >= 8
  }

  function Entries(node: Node): (recs: seq<Record>)
    requires EntriesGood(node)
    ensures |recs| == node.nkeys && KeysLong(recs)
  {
    seq(node.nkeys, i requires 0 <= i < node.nkeys => Entry(node, i).value)
  }

  /** Block, checksum, object type, decoding and level, in the source's order. */
  method OpenNode(blocks: Blocks, paddr: nat, expected: Option<nat>) returns (r: Result<Node>)
    requires forall p :: p in blocks ==> |blocks[p]| >= TOC_BASE
    ensures r.Ok? <==>
              && paddr in blocks && Fletcher.Valid(blocks[paddr])
              && KindOf(blocks[paddr]) == (if expected.None? then TYPE_BTREE else TYPE_BTREE_NODE)
              && DecodeNode(blocks[paddr], false).Ok?
              && (expected.Some? ==> DecodeNode(blocks[paddr], false).value.level == expected.value)
    ensures r.Ok? ==> r == DecodeNode(blocks[paddr], false)
  {
    hide DecodeNode, Fletcher.Valid;
    if paddr !in blocks {
      return Err(OutsideContainer);
    }
    var valid := Fletcher.ChecksumValid(blocks[paddr]);
    if !valid {
      return Err(BadChecksum);
    }
    if KindOf(blocks[paddr]) != if expected.None? then TYPE_BTREE else TYPE_BTREE_NODE {
      return Err(WrongType);
    }
    var node := DecodeNode(blocks[paddr], false);
    if node.Ok? && expected.Some? && node.value.level != expected.value {
      return Err(WrongLevel);
    }
    r := node;
  }

  /** The prefixes of all entries, or a refusal as soon as one entry is bad. */
  method ReadPrefixes(node: Node) returns (r: Result<seq<Prefix>>)
    requires node.Ok()
    ensures r.Ok? <==> EntriesGood(node)
    ensures r.Ok? ==> |r.value| == node.nkeys
    ensures r.Ok? ==> forall i :: 0 <= i < node.nkeys ==> r.value[i] == PrefixOf(Entries(node)[i].key)
  {
    hide Entry, PrefixOf;
    var prefixes := [];
    for index := 0 to node.nkeys
      invariant |prefixes| == index
      invariant forall i :: 0 <= i < index ==>
                  Entry(node, i).Ok? && |Entry(node, i).value.key| >= 8 &&
                      prefixes[i] == PrefixOf(Entry(node, i).value.key)
    {
      var e := Entry(node, index);
      if e.Err? {
        return Err(e.error);
      }
      if |e.value.key| < 8 {
        return Err(ShortRecord);
      }
      prefixes := prefixes + [PrefixOf(e.value.key)];
    }
    r := Ok(prefixes);
  }

  /** The leaf loop: every entry of the target prefix, up to the record limit. */
  method TakeMatching(node: Node, prefixes: seq<Prefix>, target: Prefix, found0: seq<Record>)
      returns (r: Result<seq<Record>>)
    requires EntriesGood(node) && |prefixes| == node.nkeys
    requires forall i :: 0 <= i < node.nkeys ==> prefixes[i] == PrefixOf(Entries(node)[i].key)
    ensures r.Ok? ==> r.value == found0 + Matching(Entries(node), target)
    ensures r.Err? ==> |found0| + |Matching(Entries(node), target)| > MAX_RECORDS
  {
    hide Entry, PrefixOf;
    var found := found0;
    ghost var all := Entries(node);
    for index := 0 to node.nkeys
      invariant found == found0 + Matching(all[..index], target)
    {
      assert all[..index + 1][..index] == all[..index];
      MatchingPrefix(all, index + 1, target);
      if prefixes[index] != target {
        continue;
      }
      if |found| >= MAX_RECORDS {
        return Err(TooLong);
      }
      found := found + [Entry(node, index).value];
    }
    assert all[..node.nkeys] == all;
    r := Ok(found);
  }

  lemma {:induction false} MatchingPrefix(recs: seq<Record>, n: nat, target: Prefix)
    requires KeysLong(recs) && n <= |recs|
    ensures KeysLong(recs[..n]) && |Matching(recs[..n], target)| <= |Matching(recs, target)|
  {
    assert recs == recs[..n] + recs[n..];
    MatchingConcat(recs[..n], recs[n..], target);
  }

  /** An index entry that names a mapped child. */
  predicate ChildOk(rec: Record, oids: map<nat, nat>) {
    |rec.value| >= 8 && U64At(rec.value, 0) in oids
  }

  /** The first n children the prefix test lets through are all mapped. */
  predicate ChildrenOk(recs: seq<Record>, target: Prefix, oids: map<nat, nat>, n: nat)
    requires KeysLong(recs) && n <= |recs|
  {
    forall i :: 0 <= i < n && Visits(recs, i, target) ==> ChildOk(recs[i], oids)
  }

  /** The stack entries the index loop pushes for the first n children. */
  function Pushed(recs: seq<Record>, target: Prefix, oids: map<nat, nat>, level: nat, n: nat): seq<(nat, Option<nat>)>
    requires KeysLong(recs) && n <= |recs| && level > 0
  {
    if n == 0 then [] else
      Pushed(recs, target, oids, level, n - 1) +
      if Visits(recs, n - 1, target) && ChildOk(recs[n - 1], oids)
      then [(oids[U64At(recs[n - 1].value, 0)], Some(level - 1))] else []
  }

  /** The index loop: pushes exactly the children the prefix test lets through. */
  method PushChildren(node: Node, prefixes: seq<Prefix>, target: Prefix, oids: map<nat, nat>,
                      pending0: seq<(nat, Option<nat>)>)
      returns (r: Result<seq<(nat, Option<nat>)>>)
    requires EntriesGood(node) && |prefixes| == node.nkeys
    requires forall i :: 0 <= i < node.nkeys ==> prefixes[i] == PrefixOf(Entries(node)[i].key)
    ensures r.Err? ==> node.level == 0 || !ChildrenOk(Entries(node), target, oids, node.nkeys)
    ensures r.Ok? && node.level > 0 ==>
              && ChildrenOk(Entries(node), target, oids, node.nkeys)
              && r.value == pending0 + Pushed(Entries(node), target, oids, node.level, node.nkeys)
  {
    hide *;
    ghost var all := Entries(node);
    var pending := pending0;
    PushStart(all, target, oids, node.level);
    for index := 0 to node.nkeys
      invariant node.level > 0 ==> ChildrenOk(all, target, oids, index)
      invariant node.level > 0 ==> pending == pending0 + Pushed(all, target, oids, node.level, index)
    {
      var reaches := index == 0 || Le2(prefixes[index], target);
      var past := index + 1 == node.nkeys || Le2(target, prefixes[index + 1]);
      VisitsIs(all, prefixes, index, target);
      PushStep(all, target, oids, node.level, index);
      if !reaches || !past {
        continue;
      }
      EntryAt(node, index);
      var e := Entry(node, index).value;
      if |e.value| < 8 {
        return Err(ShortRecord);
      }
      if node.level == 0 {
        return Err(WrongLevel);
      }
      if U64At(e.value, 0) !in oids {
        return Err(Unmapped);
      }
      pending := pending + [(oids[U64At(e.value, 0)], Some(node.level - 1))];
    }
    r := Ok(pending);
  }

  lemma PushStart(recs: seq<Record>, target: Prefix, oids: map<nat, nat>, level: nat)
    requires KeysLong(recs)
    ensures level > 0 ==> ChildrenOk(recs, target, oids, 0) && Pushed(recs, target, oids, level, 0) == []
  {
  }

  lemma VisitsIs(recs: seq<Record>, prefixes: seq<Prefix>, i: nat, target: Prefix)
    requires KeysLong(recs) && |prefixes| == |recs| && i < |recs|
    requires forall k :: 0 <= k < |recs| ==> prefixes[k] == PrefixOf(recs[k].key)
    ensures Visits(recs, i, target) <==>
            (i == 0 || Le2(prefixes[i], target)) && (i + 1 == |recs| || Le2(target, prefixes[i + 1]))
  {
    hide Le2, PrefixOf;
  }

  lemma EntryAt(node: Node, i: nat)
    requires EntriesGood(node) && i < node.nkeys
    ensures node.Ok() && Entry(node, i).Ok? && Entry(node, i).value == Entries(node)[i]
  {
    hide Entry;
  }

  /** What one round of the index loop does to the pushed stack. */
  lemma PushStep(recs: seq<Record>, target: Prefix, oids: map<nat, nat>, level: nat, n: nat)
    requires KeysLong(recs) && n < |recs|
    ensures level > 0 && !Visits(recs, n, target) ==>
              Pushed(recs, target, oids, level, n + 1) == Pushed(recs, target, oids, level, n)
    ensures !Visits(recs, n, target) && ChildrenOk(recs, target, oids, n) ==> ChildrenOk(recs, target, oids, n + 1)
    ensures Visits(recs, n, target) && (|recs[n].value| < 8 || U64At(recs[n].value, 0) !in oids) ==>
              !ChildrenOk(recs, target, oids, |recs|)
    ensures Visits(recs, n, target) && |recs[n].value| >= 8 && U64At(recs[n].value, 0) in oids ==>
              && (ChildrenOk(recs, target, oids, n) ==> ChildrenOk(recs, target, oids, n + 1))
              && (level > 0 ==>
                    Pushed(recs, target, oids, level, n + 1) ==
                    Pushed(recs, target, oids, level, n) + [(oids[U64At(recs[n].value, 0)], Some(level - 1))])
  {
    hide Visits, U64At;
  }

  // ---- the descent ------------------------------------------------------------------------------

  /** The visits behind the pushed stack entries. */
  function ChosenTasks(kids: seq<Tree>, recs: seq<Record>, target: Prefix, level: nat, n: nat): seq<Task>
    requires |recs| == |kids| && n <= |kids| && level > 0 && KeysLong(recs)
  {
    if n == 0 then [] else
      ChosenTasks(kids, recs, target, level, n - 1) +
      if Visits(recs, n - 1, target) then [Task(kids[n - 1], level - 1)] else []
  }

  /** Everything the descent relies on about one kid of an index node. */
  ghost predicate KidOk(blocks: Blocks, bs: nat, oids: map<nat, nat>, key: seq<byte>, kid: Tree, level: nat) {
    && |key| >= 8 && TaskOk(blocks, bs, oids, Task(kid, level))
    && kid.oid < U64 && kid.oid in oids && oids[kid.oid] == kid.paddr
    && kid.paddr in blocks && |blocks[kid.paddr]| >= 32 && KindOf(blocks[kid.paddr]) == TYPE_BTREE_NODE
  }

  /** A well-formed index node, as far as the descent is concerned. */
  ghost predicate IndexOk(blocks: Blocks, bs: nat, oids: map<nat, nat>, t: Tree, level: nat) {
    && t.Index? && level > 0 && |t.keys| == |t.kids|
    && forall k :: 0 <= k < |t.kids| ==> KidOk(blocks, bs, oids, t.keys[k], t.kids[k], level - 1)
  }

  lemma KidStored(blocks: Blocks, bs: nat, t: Tree, level: nat, k: nat)
    requires t.Index? && Stored(blocks, bs, false, t, level) && k < |t.kids|
    ensures level > 0 && |t.keys| == |t.kids| && t.kids[k].oid < U64
    ensures Stored(blocks, bs, false, t.kids[k], level - 1)
    ensures var p := t.kids[k].paddr;
            p in blocks && |blocks[p]| >= 32 && KindOf(blocks[p]) == TYPE_BTREE_NODE
  {
    hide NodeStored;
  }

  lemma MappedKid(oids: map<nat, nat>, t: Tree, k: nat)
    requires t.Index? && Mapped(oids, Nodes(t)) && k < |t.kids|
    ensures Mapped(oids, Nodes(t.kids[k]))
    ensures t.kids[k].oid in oids && oids[t.kids[k].oid] == t.kids[k].paddr
  {
    hide Nodes, NodesOf;
    OwnNode(t);
    NodesOfKid(t.kids, k);
    OwnNode(t.kids[k]);
    assert (t.kids[k].oid, t.kids[k].paddr) in Nodes(t.kids[k]);
  }

  lemma IndexNode(blocks: Blocks, bs: nat, oids: map<nat, nat>, t: Tree, level: nat)
    requires t.Index? && TaskOk(blocks, bs, oids, Task(t, level))
    ensures IndexOk(blocks, bs, oids, t, level)
  {
    hide Sorted, Nodes, Records, Mapped, Stored, KindOf;
    LevelAbove(blocks, bs, t, level);
    IndexKeys(blocks, bs, t, level);
    forall k | 0 <= k < |t.kids| ensures KidOk(blocks, bs, oids, t.keys[k], t.kids[k], level - 1) {
      KidStored(blocks, bs, t, level, k);
      MappedKid(oids, t, k);
    }
  }

  lemma LevelAbove(blocks: Blocks, bs: nat, t: Tree, level: nat)
    requires t.Index? && Stored(blocks, bs, false, t, level)
    ensures level > 0
  {
    hide NodeStored;
  }

  lemma IndexKey(blocks: Blocks, bs: nat, oids: map<nat, nat>, t: Tree, level: nat)
    requires IndexOk(blocks, bs, oids, t, level)
    ensures t.Index? && level > 0 && |t.keys| == |t.kids|
    ensures forall k :: 0 <= k < |t.keys| ==> |t.keys[k]| >= 8
  {
    hide TaskOk;
    forall k | 0 <= k < |t.keys| ensures |t.keys[k]| >= 8 {
      assert KidOk(blocks, bs, oids, t.keys[k], t.kids[k], level - 1);
    }
  }

  /** The separators of a well-formed index node lead to its kids. */
  lemma IndexRecs(blocks: Blocks, bs: nat, oids: map<nat, nat>, t: Tree, level: nat)
    requires IndexOk(blocks, bs, oids, t, level)
    ensures |NodeRecs(t)| == |t.kids| && KeysLong(NodeRecs(t))
    ensures forall k :: 0 <= k < |t.kids| ==>
              ChildOk(NodeRecs(t)[k], oids) && oids[U64At(NodeRecs(t)[k].value, 0)] == t.kids[k].paddr
  {
    hide TaskOk;
    IndexKey(blocks, bs, oids, t, level);
    forall k | 0 <= k < |t.kids|
      ensures ChildOk(NodeRecs(t)[k], oids) && oids[U64At(NodeRecs(t)[k].value, 0)] == t.kids[k].paddr
    {
      assert KidOk(blocks, bs, oids, t.keys[k], t.kids[k], level - 1);
      SeparatorChild(t.keys[k], t.kids[k].oid);
    }
  }

  lemma SeparatorChild(key: seq<byte>, oid: nat)
    requires oid < U64
    ensures U64At(Separator(key, oid).value, 0) == oid
  {
    Fits64(oid);
    var v := LeBytes(oid, 8);
    assert v[0..8] == v;
  }

  function StackFor(tasks: seq<Task>): seq<(nat, Option<nat>)> {
    seq(|tasks|, i requires 0 <= i < |tasks| => (tasks[i].tree.paddr, Some(tasks[i].level)))
  }

  lemma {:induction false} PushedIs(recs: seq<Record>, kids: seq<Tree>, target: Prefix, oids: map<nat, nat>,
                                    level: nat, n: nat)
    requires KeysLong(recs) && |recs| == |kids| && n <= |kids| && level > 0
    requires forall k :: 0 <= k < |kids| ==> ChildOk(recs[k], oids) && oids[U64At(recs[k].value, 0)] == kids[k].paddr
    ensures Pushed(recs, target, oids, level, n) == StackFor(ChosenTasks(kids, recs, target, level, n))
  {
    hide Visits, ChildOk, U64At;
    if n > 0 {
      PushedIs(recs, kids, target, oids, level, n - 1);
    }
  }

  lemma {:induction false} ChosenOk(blocks: Blocks, bs: nat, oids: map<nat, nat>, t: Tree, level: nat, target: Prefix,
                                    n: nat)
    requires IndexOk(blocks, bs, oids, t, level) && n <= |t.kids| && KeysLong(NodeRecs(t))
    ensures var q := ChosenTasks(t.kids, NodeRecs(t), target, level, n);
            KindsMatch(blocks, StackFor(q)) && forall i :: 0 <= i < |q| ==> TaskOk(blocks, bs, oids, q[i])
  {
    hide TaskOk, Visits, KeysLong;
    if n > 0 {
      ChosenOk(blocks, bs, oids, t, level, target, n - 1);
      assert KidOk(blocks, bs, oids, t.keys[n - 1], t.kids[n - 1], level - 1);
      var p, q := ChosenTasks(t.kids, NodeRecs(t), target, level, n - 1), ChosenTasks(t.kids, NodeRecs(t), target,
          level, n);
      forall i | 0 <= i < |q|
        ensures TaskOk(blocks, bs, oids, q[i])
        ensures var s := StackFor(q)[i]; s.0 in blocks && |blocks[s.0]| >= 32 && KindOf(blocks[s.0]) == TYPE_BTREE_NODE
      {
        if i < |p| {
          assert q[i] == p[i] && StackFor(q)[i] == StackFor(p)[i];
        }
      }
    }
  }

  /** The chosen kids carry all of an index node's hits, and no more nodes than it has below it. */
  lemma {:induction false} ChosenSum(blocks: Blocks, bs: nat, oids: map<nat, nat>, t: Tree, level: nat,
                                     target: Prefix, n: nat, tasks: seq<Task>)
    requires t.Index? && TaskOk(blocks, bs, oids, Task(t, level)) && n <= |t.kids|
    requires level > 0 && |t.keys| == |t.kids| && KeysLong(NodeRecs(t))
    requires AllLong(tasks) && KeysLong(RecordsOf(t.kids))
    ensures KeysLong(RecordsOf(t.kids[n..])) && AllLong(tasks + ChosenTasks(t.kids, NodeRecs(t), target, level, n))
    ensures HitSum(tasks + ChosenTasks(t.kids, NodeRecs(t), target, level, n), target) +
            multiset(Matching(RecordsOf(t.kids[n..]), target)) ==
            HitSum(tasks, target) + multiset(Matching(RecordsOf(t.kids), target))
    ensures NodeSum(tasks + ChosenTasks(t.kids, NodeRecs(t), target, level, n)) + |NodesOf(t.kids[n..])| <=
            NodeSum(tasks) + |NodesOf(t.kids)|
  {
    hide Matching, KeysLong, Visits, HitSum, NodeSum, AllLong, TaskOk, RecordsOf, NodesOf, Hits, Nodes, Records;
    if n == 0 {
      assert t.kids[0..] == t.kids && tasks + [] == tasks;
    } else {
      KidStep(t.kids, n - 1, target);
      ChosenSum(blocks, bs, oids, t, level, target, n - 1, tasks);
      var before := tasks + ChosenTasks(t.kids, NodeRecs(t), target, level, n - 1);
      if Visits(NodeRecs(t), n - 1, target) {
        SumPush(before, Task(t.kids[n - 1], level - 1), target);
        assert before + [Task(t.kids[n - 1], level - 1)] == tasks + ChosenTasks(t.kids, NodeRecs(t), target, level, n);
      } else {
        assert before == tasks + ChosenTasks(t.kids, NodeRecs(t), target, level, n);
        NoHits(blocks, bs, oids, t, level, n - 1, target);
      }
    }
  }

  lemma NoHits(blocks: Blocks, bs: nat, oids: map<nat, nat>, t: Tree, level: nat, i: nat, target: Prefix)
    requires t.Index? && TaskOk(blocks, bs, oids, Task(t, level)) && i < |t.kids|
    requires |t.keys| == |t.kids| && KeysLong(NodeRecs(t)) && !Visits(NodeRecs(t), i, target)
    ensures KeysLong(Records(t.kids[i])) && Hits(t.kids[i], target) == multiset{}
  {
    hide Stored, Matching, Visits, Records, Sorted, Mapped;
    SkippedKid(blocks, bs, t, level, i, target);
  }

  /** Popping a task and visiting its node keeps the account. */
  ghost predicate Account(blocks: Blocks, bs: nat, oids: map<nat, nat>, root: nat, t: Tree, level: nat, target: Prefix,
                          tasks: seq<Task>, pending: seq<(nat, Option<nat>)>, found: seq<Record>, visited: nat)
  {
    Searchable(blocks, bs, oids, root, t, level) ==> Owed(blocks, bs, oids, t, target, tasks, pending, found, visited)
  }

  lemma StartAccount(blocks: Blocks, bs: nat, oids: map<nat, nat>, root: nat, t: Tree, level: nat, target: Prefix)
    ensures Account(blocks, bs, oids, root, t, level, target, [Task(t, level)], [(root, None)], [], 0)
  {
    hide Stored, Mapped, Nodes, Records, Sorted, Matching, KindOf, KeysLong, Hits;
    if Searchable(blocks, bs, oids, root, t, level) {
      var task := Task(t, level);
      InBlocks(blocks, bs, t, level);
      SortedKeys(Records(t));
      SumPush([], task, target);
      assert [] + [task] == [task];
    }
  }

  lemma InBlocks(blocks: Blocks, bs: nat, t: Tree, level: nat)
    requires Stored(blocks, bs, false, t, level)
    ensures t.paddr in blocks
  {
    hide NodeStored;
  }

  lemma StoredBlock(blocks: Blocks, bs: nat, t: Tree, level: nat)
    requires Stored(blocks, bs, false, t, level)
    ensures t.paddr in blocks && |blocks[t.paddr]| == bs >= TOC_BASE && Fletcher.Valid(blocks[t.paddr])
    ensures DecodeNode(blocks[t.paddr], false).Ok?
    ensures var node := DecodeNode(blocks[t.paddr], false).value;
            node.level == level && node.leaf == (level == 0) == t.Leaf? && node.nkeys == |NodeRecs(t)|
    ensures t.Leaf? ==> NodeRecs(t) == t.recs
  {
    hide DecodeNode, Fletcher.Valid, Entry;
  }

  lemma StoredEntries(blocks: Blocks, bs: nat, t: Tree, level: nat)
    requires Stored(blocks, bs, false, t, level) && KeysLong(NodeRecs(t))
    requires |blocks[t.paddr]| >= TOC_BASE && DecodeNode(blocks[t.paddr], false).Ok?
    ensures EntriesGood(DecodeNode(blocks[t.paddr], false).value)
    ensures Entries(DecodeNode(blocks[t.paddr], false).value) == NodeRecs(t)
  {
    hide DecodeNode, Fletcher.Valid, Entry;
    var node := DecodeNode(blocks[t.paddr], false).value;
    forall i | 0 <= i < node.nkeys ensures Entry(node, i) == Ok(NodeRecs(t)[i]) {
      assert Matches(Entry(node, i).value, NodeRecs(t)[i], false);
    }
  }

  /** What the next round can count on. */
  ghost predicate Ready(blocks: Blocks, bs: nat, oids: map<nat, nat>, task: Task, paddr: nat, expected: Option<nat>) {
    && paddr == task.tree.paddr && paddr in blocks && |blocks[paddr]| >= TOC_BASE
    && Fletcher.Valid(blocks[paddr])
    && KindOf(blocks[paddr]) == (if expected.None? then TYPE_BTREE else TYPE_BTREE_NODE)
    && DecodeNode(blocks[paddr], false).Ok?
    && var node := DecodeNode(blocks[paddr], false).value;
    && node.level == task.level && (expected.Some? ==> expected.value == node.level)
    && node.leaf == task.tree.Leaf?
    && EntriesGood(node)
    && (node.leaf ==> Entries(node) == task.tree.recs)
    && (!node.leaf ==> IndexOk(blocks, bs, oids, task.tree, task.level) && Entries(node) == NodeRecs(task.tree))
  }

  lemma NextReady(blocks: Blocks, bs: nat, oids: map<nat, nat>, root: nat, t: Tree, level: nat, target: Prefix,
                  tasks: seq<Task>, pending: seq<(nat, Option<nat>)>, found: seq<Record>, visited: nat)
    requires Account(blocks, bs, oids, root, t, level, target, tasks, pending, found, visited) && pending != []
    ensures Searchable(blocks, bs, oids, root, t, level) ==>
              && |tasks| == |pending| && visited + 1 <= |Nodes(t)|
              && Ready(blocks, bs, oids, tasks[|tasks| - 1], pending[|pending| - 1].0, pending[|pending| - 1].1)
  {
    hide Searchable, Stored, Mapped, IndexOk, DecodeNode, Fletcher.Valid, Entries, EntriesGood, Sorted, KindOf, Nodes,
         Records, NodeRecs;
    if Searchable(blocks, bs, oids, root, t, level) {
      var task := tasks[|tasks| - 1];
      assert TaskOk(blocks, bs, oids, task);
      SumPop(tasks, target);
      OwnNode(task.tree);
      StoredBlock(blocks, bs, task.tree, task.level);
      if task.tree.Index? {
        IndexNode(blocks, bs, oids, task.tree, task.level);
        IndexRecs(blocks, bs, oids, task.tree, task.level);
      } else {
        SortedKeys(Records(task.tree));
      }
      StoredEntries(blocks, bs, task.tree, task.level);
    }
  }

  /** The visits left after the last one's node. */
  ghost function TasksLeft(tasks: seq<Task>, target: Prefix): seq<Task> {
    if tasks == [] then [] else
      var task := tasks[|tasks| - 1];
      if task.tree.Leaf? || |task.tree.keys| != |task.tree.kids| || task.level == 0 ||
      !KeysLong(NodeRecs(task.tree)) then
        tasks[..|tasks| - 1]
      else
        tasks[..|tasks| - 1] + ChosenTasks(task.tree.kids, NodeRecs(task.tree), target, task.level, |task.tree.kids|)
  }

  lemma LeafVisit(blocks: Blocks, bs: nat, oids: map<nat, nat>, root: nat, t: Tree, level: nat, target: Prefix,
                  tasks: seq<Task>, pending: seq<(nat, Option<nat>)>, found: seq<Record>, visited: nat,
                  recs: seq<Record>)
    requires Account(blocks, bs, oids, root, t, level, target, tasks, pending, found, visited) && pending != []
    requires KeysLong(recs)
    requires Searchable(blocks, bs, oids, root, t, level) ==>
               tasks != [] && tasks[|tasks| - 1].tree.Leaf? && tasks[|tasks| - 1].tree.recs == recs
    ensures Account(blocks, bs, oids, root, t, level, target, TasksLeft(tasks, target), pending[..|pending| - 1],
                    found + Matching(recs, target), visited + 1)
  {
    hide Searchable, Stored, Mapped, Sorted, KindOf, Nodes, Records, Matching, KeysLong, TaskOk;
    if Searchable(blocks, bs, oids, root, t, level) {
      SumPop(tasks, target);
      OwnNode(tasks[|tasks| - 1].tree);
    }
  }

  lemma IndexVisit(blocks: Blocks, bs: nat, oids: map<nat, nat>, root: nat, t: Tree, level: nat, target: Prefix,
                   tasks: seq<Task>, pending: seq<(nat, Option<nat>)>, found: seq<Record>, visited: nat,
                   recs: seq<Record>, at: nat)
    requires Account(blocks, bs, oids, root, t, level, target, tasks, pending, found, visited) && pending != []
    requires KeysLong(recs) && at > 0
    requires Searchable(blocks, bs, oids, root, t, level) ==>
               && tasks != [] && tasks[|tasks| - 1].level == at
               && IndexOk(blocks, bs, oids, tasks[|tasks| - 1].tree, at) && NodeRecs(tasks[|tasks| - 1].tree) == recs
    ensures Account(blocks, bs, oids, root, t, level, target, TasksLeft(tasks, target),
                    pending[..|pending| - 1] + Pushed(recs, target, oids, at, |recs|), found, visited + 1)
  {
    if Searchable(blocks, bs, oids, root, t, level) {
      IndexOwed(blocks, bs, oids, t, target, tasks, pending, found, visited, recs, at);
    }
  }

  lemma IndexOwed(blocks: Blocks, bs: nat, oids: map<nat, nat>, t: Tree, target: Prefix,
                  tasks: seq<Task>, pending: seq<(nat, Option<nat>)>, found: seq<Record>, visited: nat,
                  recs: seq<Record>, at: nat)
    requires Owed(blocks, bs, oids, t, target, tasks, pending, found, visited) && pending != []
    requires KeysLong(recs) && at > 0
    requires tasks != [] && tasks[|tasks| - 1].level == at
    requires IndexOk(blocks, bs, oids, tasks[|tasks| - 1].tree, at) && NodeRecs(tasks[|tasks| - 1].tree) == recs
    ensures Owed(blocks, bs, oids, t, target, TasksLeft(tasks, target),
                 pending[..|pending| - 1] + Pushed(recs, target, oids, at, |recs|), found, visited + 1)
  {
    hide Stored, Mapped, Sorted, KindOf, Nodes, Records, Matching, KeysLong, TaskOk, NodeRecs, KidOk, ChildOk, Pushed,
         ChosenTasks, RecordsOf, NodesOf, HitSum, NodeSum, AllLong;
    var n := |tasks| - 1;
    var task, rest := tasks[n], tasks[..n];
    var tree := task.tree;
    assert TaskOk(blocks, bs, oids, Task(tree, at));
    IndexRecs(blocks, bs, oids, tree, at);
    SumPop(tasks, target);
    OwnNode(tree);
    var chosen := ChosenTasks(tree.kids, recs, target, at, |tree.kids|);
    PushedIs(recs, tree.kids, target, oids, at, |tree.kids|);
    ChosenOk(blocks, bs, oids, tree, at, target, |tree.kids|);
    ChosenSum(blocks, bs, oids, tree, at, target, |tree.kids|, rest);
    assert tree.kids[|tree.kids|..] == [];
    NothingLeft(target);
    StackSplice(blocks, pending, tasks, chosen);
  }

  lemma NothingLeft(target: Prefix)
    ensures RecordsOf([]) == [] && NodesOf([]) == [] && KeysLong([]) && Matching([], target) == []
  {
  }

  lemma StackSplice(blocks: Blocks, pending: seq<(nat, Option<nat>)>, tasks: seq<Task>, chosen: seq<Task>)
    requires StackMatches(pending, tasks) && KindsMatch(blocks, pending) && tasks != []
    requires KindsMatch(blocks, StackFor(chosen))
    ensures |pending| == |tasks|
    ensures StackMatches(pending[..|pending| - 1] + StackFor(chosen), tasks[..|tasks| - 1] + chosen)
    ensures KindsMatch(blocks, pending[..|pending| - 1] + StackFor(chosen))
  {
  }

  lemma AccountDone(blocks: Blocks, bs: nat, oids: map<nat, nat>, root: nat, t: Tree, level: nat, target: Prefix,
                    tasks: seq<Task>, found: seq<Record>, visited: nat)
    requires Account(blocks, bs, oids, root, t, level, target, tasks, [], found, visited)
    ensures Searchable(blocks, bs, oids, root, t, level) ==>
              KeysLong(Records(t)) && multiset(found) == multiset(Matching(Records(t), target))
  {
    hide Searchable, Stored, Matching, Records, KeysLong;
  }

  /** What is found so far never exceeds what there is. */
  lemma AccountBound(blocks: Blocks, bs: nat, oids: map<nat, nat>, root: nat, t: Tree, level: nat, target: Prefix,
                     tasks: seq<Task>, pending: seq<(nat, Option<nat>)>, found: seq<Record>, visited: nat)
    requires Account(blocks, bs, oids, root, t, level, target, tasks, pending, found, visited)
    ensures Searchable(blocks, bs, oids, root, t, level) ==>
              KeysLong(Records(t)) && |found| <= |Matching(Records(t), target)| && visited <= |Nodes(t)|
  {
    hide Searchable, Stored, Matching, Records, KeysLong, Nodes;
    if Searchable(blocks, bs, oids, root, t, level) {
      assert |multiset(found)| <= |multiset(found) + HitSum(tasks, target)|;
      assert |multiset(Matching(Records(t), target))| == |Matching(Records(t), target)|;
    }
  }

  /**
   * Collects the records of one (object id, kind) by a pruned descent. On any input it stops
   * after at most `MAX_TREE_NODES` nodes. On a stored tree in prefix order it returns, up to
   * the order of the leaves, exactly the records a full scan would keep, and it refuses only
   * when the tree has more nodes, or the answer more records, than the limits allow.
   */
  method FindRecords(blocks: Blocks, bs: nat, oids: map<nat, nat>, root: nat, target: Prefix, ghost t: Tree,
                     ghost level: nat)
      returns (r: Result<seq<Record>>)
    requires forall p :: p in blocks ==> |blocks[p]| >= TOC_BASE
    ensures Searchable(blocks, bs, oids, root, t, level) ==>
              && KeysLong(Records(t))
              && (r.Ok? ==> multiset(r.value) == multiset(Matching(Records(t), target)))
              && (r.Err? ==> |Nodes(t)| > MAX_TREE_NODES || |Matching(Records(t), target)| > MAX_RECORDS)
  {
    hide *;
    var found: seq<Record>, pending: seq<(nat, Option<nat>)>, visited := [], [(root, None)], 0;
    ghost var tasks := [Task(t, level)];
    StartAccount(blocks, bs, oids, root, t, level, target);
    while pending != []
      invariant visited <= MAX_TREE_NODES
      invariant Account(blocks, bs, oids, root, t, level, target, tasks, pending, found, visited)
      decreases MAX_TREE_NODES - visited, |pending|
    {
      var (paddr, expected) := pending[|pending| - 1];
      AccountBound(blocks, bs, oids, root, t, level, target, tasks, pending, found, visited);
      NextReady(blocks, bs, oids, root, t, level, target, tasks, pending, found, visited);
      if visited + 1 > MAX_TREE_NODES {
        return Err(TooLong);
      }
      ReadyOpens(blocks, bs, oids, if tasks == [] then Task(t, level) else tasks[|tasks| - 1], paddr, expected);
      var node := OpenNode(blocks, paddr, expected);
      if node.Err? {
        return Err(node.error);
      }
      var prefixes := ReadPrefixes(node.value);
      if prefixes.Err? {
        return Err(prefixes.error);
      }
      if node.value.leaf {
        var more := TakeMatching(node.value, prefixes.value, target, found);
        LeafVisit(blocks, bs, oids, root, t, level, target, tasks, pending, found, visited, Entries(node.value));
        if more.Err? {
          AccountBound(blocks, bs, oids, root, t, level, target, TasksLeft(tasks, target), pending[..|pending| - 1],
                       found + Matching(Entries(node.value), target), visited + 1);
          return Err(more.error);
        }
        pending, found := pending[..|pending| - 1], more.value;
      } else {
        var more := PushChildren(node.value, prefixes.value, target, oids, pending[..|pending| - 1]);
        if more.Err? {
          return Err(more.error);
        }
        if node.value.level > 0 {
          IndexVisit(blocks, bs, oids, root, t, level, target, tasks, pending, found, visited, Entries(node.value),
                     node.value.level);
        } else {
          NotSearchable(blocks, bs, oids, root, t, level, target, tasks, pending, found, visited, more.value);
        }
        pending := more.value;
      }
      visited := visited + 1;
      tasks := TasksLeft(tasks, target);
    }
    AccountDone(blocks, bs, oids, root, t, level, target, tasks, found, visited);
    r := Ok(found);
  }

  /** A ready block opens, its entries are readable, and its children are all mapped. */
  lemma ReadyOpens(blocks: Blocks, bs: nat, oids: map<nat, nat>, task: Task, paddr: nat, expected: Option<nat>)
    ensures Ready(blocks, bs, oids, task, paddr, expected) ==>
              && paddr in blocks && |blocks[paddr]| >= TOC_BASE && |blocks[paddr]| >= 32 &&
                 Fletcher.Valid(blocks[paddr])
              && KindOf(blocks[paddr]) == (if expected.None? then TYPE_BTREE else TYPE_BTREE_NODE)
              && DecodeNode(blocks[paddr], false).Ok?
              && var node := DecodeNode(blocks[paddr], false).value;
              && (expected.Some? ==> node.level == expected.value)
              && EntriesGood(node) && KeysLong(Entries(node))
              && (node.leaf ==> task.tree.Leaf? && task.tree.recs == Entries(node))
              && (!node.leaf ==>
                    node.level > 0 && task.level == node.level && IndexOk(blocks, bs, oids, task.tree, node.level))
              && (!node.leaf ==> NodeRecs(task.tree) == Entries(node))
              && (!node.leaf ==> forall target :: ChildrenOk(Entries(node), target, oids, node.nkeys))
  {
    hide Fletcher.Valid, DecodeNode, KindOf, Entry, TaskOk;
    if Ready(blocks, bs, oids, task, paddr, expected) {
      var node := DecodeNode(blocks[paddr], false).value;
      if !node.leaf {
        IndexRecs(blocks, bs, oids, task.tree, task.level);
      }
    }
  }

  /** An index node at level zero only occurs where nothing is promised. */
  lemma NotSearchable(blocks: Blocks, bs: nat, oids: map<nat, nat>, root: nat, t: Tree, level: nat, target: Prefix,
                      tasks: seq<Task>, pending: seq<(nat, Option<nat>)>, found: seq<Record>, visited: nat,
                      next: seq<(nat, Option<nat>)>)
    requires !Searchable(blocks, bs, oids, root, t, level)
    ensures Account(blocks, bs, oids, root, t, level, target, TasksLeft(tasks, target), next, found, visited + 1)
  {
  }
}

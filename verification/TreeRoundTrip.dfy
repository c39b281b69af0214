/** Writing a record list and reading it back gives the same list. */
module TreeRoundTrip {
  import opened Bytes
  import opened TreeNode
  import opened BTree
  import opened TreeWriter
  import TreeReader
  import CatalogSearch

  /** A lookup table that agrees with every (object id, block) pair. */
  predicate Agrees(oids: map<nat, nat>, pairs: seq<(nat, nat)>) {
    forall n :: n in pairs ==> n.0 in oids && oids[n.0] == n.1
  }

  /** `collect` into a map: later pairs replace earlier ones. */
  function MapOf(pairs: seq<(nat, nat)>): map<nat, nat> {
    if pairs == [] then map[] else MapOf(pairs[..|pairs| - 1])[pairs[|pairs| - 1].0 := pairs[|pairs| - 1].1]
  }

  lemma {:induction false} MapOfAgrees(pairs: seq<(nat, nat)>)
    requires forall i, j :: 0 <= i < j < |pairs| ==> pairs[i].0 != pairs[j].0
    ensures Agrees(MapOf(pairs), pairs)
  {
    if pairs != [] {
      MapOfAgrees(pairs[..|pairs| - 1]);
      forall n | n in pairs ensures n.0 in MapOf(pairs) && MapOf(pairs)[n.0] == n.1 {
        var i :| 0 <= i < |pairs| && pairs[i] == n;
        if i < |pairs| - 1 {
          assert n in pairs[..|pairs| - 1];
        }
      }
    }
  }

  /**
   * The pairs a virtual tree's writer returns can be looked up by object id exactly when the
   * root's id is not one of the ids handed out to the other nodes.
   */
  lemma MappingsFunctional(supply: seq<nat>, k: nat, rootOid: nat, firstOid: nat)
    requires Fresh(supply) && 1 <= k <= |supply|
    ensures var pairs := Ledger(supply, k, rootOid, true, firstOid);
            (exists oids :: Agrees(oids, pairs)) <==> !(firstOid <= rootOid < firstOid + k - 1)
    ensures !(firstOid <= rootOid < firstOid + k - 1) ==>
              Agrees(MapOf(Ledger(supply, k, rootOid, true, firstOid)), Ledger(supply, k, rootOid, true, firstOid))
  {
    var pairs := Ledger(supply, k, rootOid, true, firstOid);
    if firstOid <= rootOid < firstOid + k - 1 {
      var i := rootOid - firstOid + 1;
      assert pairs[i] == (rootOid, supply[i]) && pairs[0] == (rootOid, supply[0]);
      assert pairs[i] in pairs && pairs[0] in pairs;
    } else {
      MapOfAgrees(pairs);
    }
  }

  /** A root id that is handed out again: two blocks under one id. */
  lemma RootIdReused()
    ensures var pairs := Ledger([10, 11], 2, 5, true, 5);
            pairs == [(5, 10), (5, 11)] && !exists oids :: Agrees(oids, pairs)
  {
    MappingsFunctional([10, 11], 2, 5, 5);
  }

  /**
   * A reader that starts at the root's block never looks the root up, and of two pairs for one id
   * the table keeps the later, so the collected table serves it whatever the root's id is.
   */
  lemma CollectedServes(supply: seq<nat>, k: nat, rootOid: nat, firstOid: nat)
    requires Fresh(supply) && 1 <= k <= |supply|
    ensures var pairs := Ledger(supply, k, rootOid, true, firstOid);
            Agrees(MapOf(pairs), pairs[1..])
  {
    var pairs := Ledger(supply, k, rootOid, true, firstOid);
    MapOfRest(pairs);
  }

  lemma {:induction false} MapOfRest(pairs: seq<(nat, nat)>)
    requires pairs != [] && forall i, j :: 1 <= i < j < |pairs| ==> pairs[i].0 != pairs[j].0
    ensures Agrees(MapOf(pairs), pairs[1..])
  {
    var n := |pairs| - 1;
    if n > 0 {
      MapOfRest(pairs[..n]);
      forall e | e in pairs[1..] ensures e.0 in MapOf(pairs) && MapOf(pairs)[e.0] == e.1 {
        var i :| 1 <= i < |pairs| && pairs[i] == e;
        if i < n {
          assert pairs[..n][1..][i - 1] == e;
        }
      }
    }
  }

  /** Every tree the writer leaves meets the reader's hypothesis. */
  lemma WrittenReadable(blocks0: Blocks, blocks: Blocks, bs: nat, supply0: seq<nat>, supply: seq<nat>, layout: Layout,
                        records: seq<Record>, rootOid: nat, isVirtual: bool, firstOid: nat, nextOid: nat,
                        mappings: seq<(nat, nat)>, t: Tree, level: nat, oids: Option<map<nat, nat>>)
    requires TreeWritten(blocks0, blocks, bs, supply0, supply, layout, records, rootOid, isVirtual, firstOid, nextOid,
                         mappings, t, level)
    requires mappings != [] && (isVirtual ==> oids.Some? && Agrees(oids.value, mappings[1..]))
    requires !isVirtual ==> oids.None? && rootOid == supply0[0]
    ensures TreeReader.Readable(blocks, bs, layout, oids, supply0[0], t, level)
  {
    hide Stored, RootHolds, SizesOk, Records;
    forall n | n in Nodes(t)[1..]
      ensures if oids.Some? then n.0 in oids.value && oids.value[n.0] == n.1 else n.0 == n.1
    {
      var j :| 1 <= j < |Nodes(t)| && Nodes(t)[j] == n;
      assert Nodes(t)[0] == (rootOid, supply0[0]) && n.1 != supply0[0];
      assert n in Nodes(t) && n in mappings;
      var i :| 0 <= i < |mappings| && mappings[i] == n;
      assert i != 0;
      assert mappings[1..][i - 1] == n;
    }
  }

  /** A catalog written from records in prefix order can be searched: lookups equal full scans. */
  lemma WrittenSearchable(blocks0: Blocks, blocks: Blocks, bs: nat, supply0: seq<nat>, supply: seq<nat>,
                          layout: Layout, records: seq<Record>, rootOid: nat, firstOid: nat, nextOid: nat,
                          mappings: seq<(nat, nat)>, t: Tree, level: nat, oids: map<nat, nat>)
    requires TreeWritten(blocks0, blocks, bs, supply0, supply, layout, records, rootOid, true, firstOid, nextOid,
                         mappings, t, level)
    requires layout.fixed.None? && Agrees(oids, mappings) && CatalogSearch.Sorted(records)
    ensures CatalogSearch.Searchable(blocks, bs, oids, supply0[0], t, level)
  {
    hide Stored, SizesOk, Records, Nodes, CatalogSearch.Sorted;
  }

  /**
   * The round trip, for physical and for virtual trees: whatever list the writer accepts, blank
   * records apart, the reader returns unchanged and in order, together with the layout and one
   * node per allocation.
   */
  method WriteThenRead(store: TreeStore, records: seq<Record>, layout: Layout, xid: nat, virtualRoot: Option<nat>,
                       firstOid: nat)
      returns (ok: bool, image: Result<TreeReader.TreeImage>)
    requires Writable(store.bs, layout) && Fresh(store.supply)
    requires firstOid < U64 && (virtualRoot.Some? ==> virtualRoot.value < U64)
    requires forall p :: p in store.blocks ==> |store.blocks[p]| == store.bs
    modifies store
    ensures ok && NoBlanks(records) ==> image.Ok? && image.value.records == records && image.value.layout == layout
    ensures (&& store.bs >= TOC_BASE
             && Roomy(records, layout, store.bs, |old(store.supply)|, virtualRoot.Some?, firstOid)) ==>
              ok
    ensures ok && NoBlanks(records) ==>
              |image.value.nodes| <= |old(store.supply)| &&
              forall n :: n in image.value.nodes ==> n.1 in old(store.supply)[..|image.value.nodes|]
  {
    hide *;
    ghost var blocks0, supply0 := store.blocks, store.supply;
    WritableSize(store.bs, layout);
    var written, nextOid, t, depth := WriteTree(store, records, layout, xid, virtualRoot, firstOid);
    image := Err(NoSpace);
    if written.Err? {
      return false, image;
    }
    var root, mappings := written.value.0, written.value.1;
    ghost var rootOid := if virtualRoot.Some? then virtualRoot.value else root;
    var oids := None;
    if virtualRoot.Some? {
      oids := Some(MapOf(mappings));
    }
    DrawnWhole(blocks0, store.blocks, store.bs, supply0, store.supply, rootOid, virtualRoot.Some?, firstOid, nextOid,
               mappings);
    if NoBlanks(records) {
      DrawnServes(blocks0, store.blocks, store.bs, supply0, store.supply, rootOid, virtualRoot.Some?, firstOid,
                  nextOid, mappings);
      WrittenReadable(blocks0, store.blocks, store.bs, supply0, store.supply, layout, records, rootOid,
                      virtualRoot.Some?,
                      firstOid, nextOid, mappings, t, depth, oids);
      WrittenFrame(blocks0, store.blocks, store.bs, supply0, store.supply, layout, records, rootOid, virtualRoot.Some?,
                   firstOid, nextOid, mappings, t, depth);
      TreeReader.ReadableLeads(store.blocks, store.bs, layout, oids, root, t, depth);
    }
    image := TreeReader.ReadTree(store.blocks, store.bs, root, oids, t);
    ok := true;
  }

  lemma DrawnWhole(blocks0: Blocks, blocks: Blocks, bs: nat, supply0: seq<nat>, supply: seq<nat>, rootOid: nat,
                   isVirtual: bool, firstOid: nat, nextOid: nat, mappings: seq<(nat, nat)>)
    requires NodesDrawn(blocks0, blocks, bs, supply0, supply, rootOid, isVirtual, firstOid, nextOid, mappings)
    requires forall p :: p in blocks0 ==> |blocks0[p]| == bs
    ensures forall p :: p in blocks ==> |blocks[p]| == bs
  {
  }

  lemma DrawnServes(blocks0: Blocks, blocks: Blocks, bs: nat, supply0: seq<nat>, supply: seq<nat>, rootOid: nat,
                    isVirtual: bool, firstOid: nat, nextOid: nat, mappings: seq<(nat, nat)>)
    requires NodesDrawn(blocks0, blocks, bs, supply0, supply, rootOid, isVirtual, firstOid, nextOid, mappings)
    ensures mappings != [] && (isVirtual ==> Agrees(MapOf(mappings), mappings[1..]))
  {
    if isVirtual {
      CollectedServes(supply0, |mappings|, rootOid, firstOid);
    }
  }

  lemma WrittenFrame(blocks0: Blocks, blocks: Blocks, bs: nat, supply0: seq<nat>, supply: seq<nat>,
                     layout: Layout, records: seq<Record>, rootOid: nat, isVirtual: bool, firstOid: nat, nextOid: nat,
                     mappings: seq<(nat, nat)>, t: Tree, level: nat)
    requires TreeWritten(blocks0, blocks, bs, supply0, supply, layout, records, rootOid, isVirtual, firstOid, nextOid,
                         mappings, t, level)
    ensures Records(t) == records && |Nodes(t)| <= |supply0|
    ensures forall n :: n in Nodes(t) ==> n.1 in supply0[..|Nodes(t)|]
  {
    hide Stored, RootHolds, SizesOk, Records, Nodes;
    forall n | n in Nodes(t) ensures n.1 in supply0[..|Nodes(t)|] {
      var i :| 0 <= i < |mappings| && mappings[i] == n;
      assert supply0[..|mappings|][i] == n.1;
    }
  }
}

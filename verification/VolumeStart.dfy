/**
 * A volume to start from: an empty catalog and an empty object map beside a snapshot, on a
 * container whose other blocks in use are headers (src/apfs_update.rs `update_volume_files`
 * reads such a volume; src/apfs_write.rs writes it).
 */
module VolumeStart {
  import opened Bytes
  import opened TreeNode
  import opened BTree
  import opened SpaceManager
  import opened SpaceBudget
  import opened TreePublish
  import opened TreeWriter
  import opened VolumeUpdate
  import R = CatalogRecords
  import C = Catalog
  import P = PathSet
  import S = SnapshotUpdate
  import ObjectMap

  /** A catalog that holds the root directory and nothing else. */
  const BARE: seq<R.Rec> := [R.Inode(R.ROOT, R.Directory, 0, None)]

  /** Nothing in it can be located, so it matches a volume without files. */
  lemma BareTied(bs: nat)
    ensures Tied(BARE, bs, [], [])
  {
    hide R.Count, R.Find;
    forall id: nat ensures R.StreamAt(BARE, id).Err? {
      R.FindIs(BARE, R.ByInode(id));
    }
  }

  lemma BareWellFormed(next: nat)
    requires 16 <= next
    ensures R.WellFormed(BARE, next)
  {
    hide R.WellFormed;
    C.BareRoot([]);
    LaterIds(BARE, 16, next);
  }

  lemma NoEntry(p: nat, n: seq<byte>)
    ensures R.ChildAt(BARE, p, n).None?
  {
    hide R.Fold;
    R.FindIs(BARE, R.ByName(p, R.Fold(n)));
  }

  /** On such a volume any paths can be made that do not get in each other's way. */
  lemma BareOpen(paths: seq<seq<seq<byte>>>)
    requires |paths| < U32
    requires forall i :: 0 <= i < |paths| ==> paths[i] != []
    requires forall i, j :: 0 <= i < |paths| && 0 <= j < |paths[i]| ==> R.Ascii(paths[i][j])
    requires forall i, j :: 0 <= i < j < |paths| ==> P.Compatible(paths[i], paths[j])
    ensures P.AllOpen(BARE, paths)
  {
    hide R.ChildAt, R.Ascii, P.Compatible, R.StreamAt;
    forall p: nat, n ensures R.ChildAt(BARE, p, n).None? {
      NoEntry(p, n);
    }
    forall i | 0 <= i < |paths| ensures P.Open(BARE, paths[i], |paths|) {
      forall k | 0 <= k <= |paths[i]| && R.Resolve(BARE, R.ROOT, paths[i][..k]).Ok?
        ensures P.OpenAt(BARE, paths[i], k, |paths|)
      {
        RootOpen(paths[i], k, |paths|);
      }
    }
  }

  lemma RootOpen(path: seq<seq<byte>>, k: nat, slack: nat)
    requires path != [] && k <= |path| && R.Resolve(BARE, R.ROOT, path[..k]).Ok? && slack < U32
    ensures P.OpenAt(BARE, path, k, slack)
  {
    hide R.ChildAt, R.StreamAt, R.Count;
    if k > 0 {
      NoEntry(R.ROOT, path[..k][0]);
    }
    R.FindIs(BARE, R.ByInode(R.ROOT));
    assert R.Hit(R.ByInode(R.ROOT), BARE[0]);
  }

  /** The snapshot lies in blocks in use outside the headers. */
  ghost predicate SetAside(frozen: seq<S.Extent>, used: set<nat>, headers: set<nat>) {
    && 0 in headers && headers <= used
    && forall i :: 0 <= i < |frozen| ==> frozen[i].blocks > 0 && S.Cells(frozen[i]) <= used - headers
  }

  /** Pinning everything in use but the headers, and what was drawn for the map, is sound without files. */
  lemma StartSound(frozen: seq<S.Extent>, u1: set<nat>, u2: set<nat>, headers: set<nat>, drawn: set<nat>)
    requires SetAside(frozen, u1, headers) && drawn !! u1 && u2 == u1 + drawn
    ensures S.Sound(frozen, u2, u1 - headers + drawn, headers, [])
  {
    hide Range;
  }

  lemma EmptyMapHeld(disk: Blocks, root: nat, t: Tree, level: nat, drawn: set<nat>, pinned: set<nat>,
                     pairs: seq<(nat, nat)>, firstOid: nat, next: nat)
    requires TreeHeld(disk, 4096, S.OMAP, drawn, t, level) && Records(t) == [] && t.paddr == root
    requires Charted(t, pairs, None, firstOid, next) && drawn <= pinned
    ensures S.OmapHeld(disk, 4096, pinned, root, t, level, [])
  {
    hide Stored, RootHolds, SizesOk, Records, NoRepeats;
    forall n | n in Nodes(t) ensures n.0 == n.1 && n.1 in pinned {
      assert n in pairs;
    }
    assert ObjectMap.OmapRecords([], 4096) == [];
  }

  lemma EmptyMapRoomy(stock: nat, firstOid: nat)
    requires stock > 0
    ensures Roomy([], S.OMAP, 4096, stock, false, firstOid) && NoBlanks([])
  {
    ObjectMapRoomy([], S.OMAP, stock, false, firstOid);
  }

  /** Builds the volume; it takes one free block for the object map. */
  method NewFiles(sm: SpacemanContext, disk: Blocks, frozen: seq<S.Extent>, ghost headers: set<nat>, fsTreeOid: nat,
                  nextOid: nat, xid: nat)
      returns (v: Files)
    requires sm.Valid() && Bounded(sm.chunks) && WholeBlocks(disk, 4096) && Stock(sm.chunks) > 0
    requires SetAside(frozen, Used(sm.chunks), headers) && fsTreeOid < nextOid < U64 && xid < U64
    modifies sm
    ensures v.Valid() && fresh(v) && fresh(v.cat) && fresh(v.data) && v.data.sm == sm
    ensures v.cat.records == BARE && v.ids == [] && v.refs == [] && v.data.files == [] && v.data.frozen == frozen
    ensures v.data.headers == headers && v.data.xid == xid && v.data.omap == [] && v.data.history == []
    ensures v.data.pinned == Used(sm.chunks) - headers && Used(old(sm.chunks)) <= Used(sm.chunks)
    ensures SamePinned(disk, v.data.disk, Used(old(sm.chunks))) && Stock(old(sm.chunks)) <= Stock(sm.chunks) + 1
  {
    hide Tracked;
    hide Used, ChunksOk, TotalFree, Bounded, WholeBlocks, Stock, TreeHeld, Charted, Records, Writable, Roomy, NoBlanks,
         S.Sound, S.OmapHeld, SetAside, R.WellFormed, Tied, Referenced, Shrunk;
    ghost var used := Used(sm.chunks);
    S.LayoutsWritable();
    EmptyMapRoomy(Stock(sm.chunks), nextOid);
    var raw := new S.Volume.Found(sm, frozen, disk, []);
    var root, next, t, level, drawn := raw.PublishTree([], S.OMAP, xid, None, nextOid);
    ghost var pinned := used - headers + drawn;
    StartSound(frozen, used, Used(sm.chunks), headers, drawn);
    EmptyMapHeld(raw.disk, root.value.0, t, level, drawn, pinned, root.value.1, nextOid, next);
    var data := new S.Volume(sm, frozen, fsTreeOid, headers, raw.disk, [], xid, nextOid, [], root.value.0, t, level,
                             pinned);
    BareWellFormed(Max(nextOid, 16));
    BareTied(4096);
    var cat := new C.Volume(BARE, Max(nextOid, 16));
    NoneReferenced();
    AsideFacts(frozen, used, headers);
    v := new Files(cat, data, [], []);
    OnlyDrawn(disk, raw.disk, used, Used(sm.chunks), drawn);
    assert pinned == Used(sm.chunks) - headers;
  }

  lemma NoneReferenced()
    ensures Referenced([], [], [])
  {
  }

  lemma AsideFacts(frozen: seq<S.Extent>, used: set<nat>, headers: set<nat>)
    requires SetAside(frozen, used, headers)
    ensures 0 in headers && headers <= used
  {
    hide Range;
  }

  lemma OnlyDrawn(d1: Blocks, d2: Blocks, u1: set<nat>, u2: set<nat>, drawn: set<nat>)
    requires Added(d1, d2, u1, u2, drawn)
    ensures SamePinned(d1, d2, u1) && u2 == u1 + drawn && drawn !! u1
  {
  }
}

/**
 * A whole update of a container (src/apfs_update.rs `update_with_preboot_files`): two volumes one
 * after the other on one space manager, then the space manager's commit and a new checkpoint.
 * Neither volume's update disturbs what the other relies on.
 */
module ContainerUpdate {
  import opened Bytes
  import opened TreeNode
  import opened BTree
  import opened DirectoryKey
  import opened SpaceManager
  import opened SpaceBudget
  import opened TreePublish
  import opened VolumeUpdate
  import R = CatalogRecords
  import W = CatalogWalk
  import P = PathSet
  import S = SnapshotUpdate
  import ObjectMap
  import opened VolumeStart
  import SC = SpacemanCommit
  import BlockAllocator
  import AllocatorLoad
  import CheckpointRing

  // ---- two volumes side by side ------------------------------------------------------------------------------

  /** The blocks of the files that lie in no snapshot extent. */
  ghost function LooseCells(frozen: seq<S.Extent>, files: seq<S.Extent>): set<nat> {
    set i, p | 0 <= i < |files| && S.Loose(frozen, files[i]) && p in S.Cells(files[i]) :: p
  }

  /** The blocks of the snapshot, and of the files that start where one of its extents does. */
  ghost function FixedCells(frozen: seq<S.Extent>, files: seq<S.Extent>): set<nat> {
    (set i, p | 0 <= i < |frozen| && p in S.Cells(frozen[i]) :: p) +
    set i, p | 0 <= i < |files| && S.Protected(frozen, files[i].start) && p in S.Cells(files[i]) :: p
  }

  /** What a volume relies on at one moment, besides the device and the blocks it may not change. */
  datatype Side = Side(frozen: seq<S.Extent>, files: seq<S.Extent>, omap: seq<ObjectMap.Entry>, xid: nat,
                       history: seq<S.Past>, root: nat, t: Tree, level: nat)

  /** All of it lies in blocks of `other`, its trees also in blocks of `own`. */
  ghost predicate Within(disk: Blocks, bs: nat, own: set<nat>, other: set<nat>, a: Side) {
    && LooseCells(a.frozen, a.files) <= other && FixedCells(a.frozen, a.files) <= other
    && TreesIn(disk, bs, own * other, a)
  }

  ghost predicate TreesIn(disk: Blocks, bs: nat, blocks: set<nat>, a: Side) {
    S.HistoryHeld(disk, bs, a.omap, blocks, a.xid, a.history) &&
    S.OmapHeld(disk, bs, blocks, a.root, a.t, a.level, a.omap)
  }

  /** Trees stay where their blocks do. */
  lemma TreesStay(d1: Blocks, d2: Blocks, bs: nat, p1: set<nat>, p2: set<nat>, a: Side)
    requires TreesIn(d1, bs, p1, a) && SamePinned(d1, d2, p1) && p1 <= p2
    ensures TreesIn(d2, bs, p2, a)
  {
    hide TreeHeld, SamePinned, ObjectMap.OmapRecords, Records, Nodes, ObjectMap.Fits;
    S.HistoryStays(d1, d2, bs, a.omap, a.omap, p1, p2, a.xid, a.xid, a.history);
    HeldStays(d1, d2, bs, S.OMAP, p1, p2, a.t, a.level);
  }

  /** What the other volume may not change, once this one is done. */
  ghost function Handed(pinned: set<nat>, a: Side, b: Side): set<nat> {
    pinned - LooseCells(b.frozen, b.files) + LooseCells(a.frozen, a.files)
  }

  /** The files of a sound volume: their loose blocks are in use, and neither pinned nor headers. */
  lemma LooseSound(frozen: seq<S.Extent>, used: set<nat>, pinned: set<nat>, headers: set<nat>, files: seq<S.Extent>)
    requires S.Sound(frozen, used, pinned, headers, files)
    ensures LooseCells(frozen, files) <= used && LooseCells(frozen, files) !! pinned
    ensures LooseCells(frozen, files) !! headers && FixedCells(frozen, files) <= pinned
  {
    hide S.Cells, S.Loose;
    forall i | 0 <= i < |files| ensures S.SafeFile(frozen, used, pinned, headers, files[i]) {
    }
  }

  /** The same volume under other pinned blocks, if they hold its snapshot and spare its loose files. */
  lemma SoundUnder(frozen: seq<S.Extent>, u1: set<nat>, p1: set<nat>, u2: set<nat>, p2: set<nat>, headers: set<nat>,
                   files: seq<S.Extent>)
    requires S.Sound(frozen, u1, p1, headers, files)
    requires p2 <= u2 && headers <= u2 && p2 !! headers && FixedCells(frozen, files) <= p2
    requires LooseCells(frozen, files) <= u2 && LooseCells(frozen, files) !! p2
    ensures S.Sound(frozen, u2, p2, headers, files)
  {
    hide S.Cells, S.Protected;
    forall i | 0 <= i < |frozen| ensures frozen[i].blocks > 0 && S.Cells(frozen[i]) <= p2 {
      forall x | x in S.Cells(frozen[i]) ensures x in p2 {
        assert x in FixedCells(frozen, files);
      }
    }
    forall i | 0 <= i < |files| ensures S.SafeFile(frozen, u2, p2, headers, files[i]) {
      assert S.SafeFile(frozen, u1, p1, headers, files[i]);
      if S.Loose(frozen, files[i]) {
        forall x | x in S.Cells(files[i]) ensures x in u2 && x !in p2 && x !in headers {
          assert x in LooseCells(frozen, files);
        }
      }
      if S.Protected(frozen, files[i].start) {
        forall x | x in S.Cells(files[i]) ensures x in p2 {
          assert x in FixedCells(frozen, files);
        }
      }
    }
  }

  /**
   * One volume has gone on to new pinned blocks, a new device and a new side, leaving what it had
   * pinned as it was and putting its new trees into blocks not pinned before. Then the other is
   * sound under what it is handed, and each again lies in blocks the other may not change.
   */
  lemma HandOver(d1: Blocks, d2: Blocks, bs: nat, u1: set<nat>, u2: set<nat>, headers: set<nat>, p: set<nat>,
                 p2: set<nat>, q: set<nat>, a: Side, a2: Side, b: Side)
    requires S.Sound(b.frozen, u1, q, headers, b.files) && S.Sound(a2.frozen, u2, p2, headers, a2.files)
    requires Within(d1, bs, p, q, a) && Within(d1, bs, q, p, b) && p <= p2 && SamePinned(d1, d2, p)
    requires FixedCells(a2.frozen, a2.files) <= q && TreesIn(d2, bs, p * q + (p2 - p), a2)
    ensures var q2 := Handed(p2, a2, b);
            && S.Sound(b.frozen, u2, q2, headers, b.files) && TreesIn(d2, bs, q2, b)
            && Within(d2, bs, p2, q2, a2) && Within(d2, bs, q2, p2, b)
  {
    hide S.Sound, TreesIn, LooseCells, FixedCells, SamePinned;
    var q2 := Handed(p2, a2, b);
    LooseSound(b.frozen, u1, q, headers, b.files);
    LooseSound(a2.frozen, u2, p2, headers, a2.files);
    SoundHeaders(a2.frozen, u2, p2, headers, a2.files);
    SoundUnder(b.frozen, u1, q, u2, q2, headers, b.files);
    assert q * p <= q2 && p * q + (p2 - p) <= p2 * q2;
    PinnedPart(d1, d2, p, q * p);
    TreesStay(d1, d2, bs, q * p, q2, b);
    TreesStay(d1, d2, bs, q * p, q2 * p2, b);
    PinnedSelf(d2, p * q + (p2 - p));
    TreesStay(d2, d2, bs, p * q + (p2 - p), p2 * q2, a2);
  }

  lemma SoundHeaders(frozen: seq<S.Extent>, used: set<nat>, pinned: set<nat>, headers: set<nat>, files: seq<S.Extent>)
    requires S.Sound(frozen, used, pinned, headers, files)
    ensures pinned <= used && headers <= used && pinned !! headers
  {
    hide S.Cells, S.SafeFile, S.Apart;
  }

  lemma PinnedSelf(d: Blocks, p: set<nat>)
    ensures SamePinned(d, d, p)
  {
  }


  ghost function SideOf(v: S.Volume): Side
    reads v
  {
    Side(v.frozen, v.files, v.omap, v.xid, v.history, v.omapRoot, v.omapTree, v.omapLevel)
  }

  /** Two volumes of one container: each may not change what the other relies on. */
  ghost predicate Beside(v: S.Volume, w: S.Volume)
    reads v, w
  {
    && v != w && v.sm == w.sm && v.disk == w.disk && v.headers == w.headers && v.bs == w.bs
    && Within(v.disk, v.bs, v.pinned, w.pinned, SideOf(v)) && Within(v.disk, v.bs, w.pinned, v.pinned, SideOf(w))
  }

  /** Files that moved lie outside the snapshot, so nothing is fixed that was not. */
  lemma FixedMoved(frozen: seq<S.Extent>, f1: seq<S.Extent>, f2: seq<S.Extent>)
    requires OnlyMoved(frozen, f1, f2)
    ensures FixedCells(frozen, f2) <= FixedCells(frozen, f1)
  {
    hide OnlyMoved;
    forall x | x in FixedCells(frozen, f2) ensures x in FixedCells(frozen, f1) {
      if i :| 0 <= i < |f2| && S.Protected(frozen, f2[i].start) && x in S.Cells(f2[i]) {
        MovedAt(frozen, f1, f2, i);
      }
    }
  }

  lemma MovedAt(frozen: seq<S.Extent>, f1: seq<S.Extent>, f2: seq<S.Extent>, i: nat)
    requires OnlyMoved(frozen, f1, f2) && i < |f2|
    ensures Settled(frozen, f1, f2[i], i)
  {
    hide Settled;
  }

  /** A transaction's trees, and those before it, lie in blocks both had pinned and in blocks drawn for it. */
  lemma TreesOn(d1: Blocks, d2: Blocks, bs: nat, p: set<nat>, p2: set<nat>, q: set<nat>, a: Side, a2: Side, h: S.Past)
    requires TreesIn(d1, bs, p * q, a) && SamePinned(d1, d2, p) && a.xid < a2.xid
    requires S.EarlierSame(a.omap, a2.omap, a2.xid) && a2.history == a.history + [h]
    requires S.NewlyHeld(d2, bs, a2.omap, p2 - p, a2.xid, h, a2.root, a2.t, a2.level)
    ensures TreesIn(d2, bs, p * q + (p2 - p), a2)
  {
    hide S.HistoryHeld, S.OmapHeld, S.EarlierSame, S.NewlyHeld, SamePinned;
    PinnedPart(d1, d2, p, p * q);
    S.HistoryOn(d1, d2, bs, a.omap, a2.omap, p * q, p2 - p, a.xid, a2.xid, a.history, h, a2.root, a2.t, a2.level);
  }

  /** The files of a volume read as before while the other one's pinned blocks stay as they were. */
  lemma FilesBeside(d1: Blocks, d2: Blocks, p: set<nat>, frozen: seq<S.Extent>, files: seq<S.Extent>)
    requires SamePinned(d1, d2, p) && LooseCells(frozen, files) <= p && FixedCells(frozen, files) <= p
    ensures S.FilesKept(d1, d2, files)
  {
    hide S.Protected, LooseCells, FixedCells;
    forall k | 0 <= k < |files| && S.OnDisk(d1, files[k])
      ensures S.OnDisk(d2, files[k]) && S.Region(d2, files[k]) == S.Region(d1, files[k])
    {
      CellsWithin(frozen, files, p, k);
      RegionBeside(d1, d2, p, files[k]);
    }
  }

  lemma CellsWithin(frozen: seq<S.Extent>, files: seq<S.Extent>, p: set<nat>, k: nat)
    requires LooseCells(frozen, files) <= p && FixedCells(frozen, files) <= p && k < |files|
    ensures S.Cells(files[k]) <= p
  {
    hide S.Protected;
    forall x | x in S.Cells(files[k]) ensures x in p {
      if S.Loose(frozen, files[k]) {
        assert x in LooseCells(frozen, files);
      } else {
        assert S.Protected(frozen, files[k].start);
        assert x in FixedCells(frozen, files);
      }
    }
  }

  lemma RegionBeside(d1: Blocks, d2: Blocks, p: set<nat>, e: S.Extent)
    requires SamePinned(d1, d2, p) && S.Cells(e) <= p && S.OnDisk(d1, e)
    ensures S.OnDisk(d2, e) && S.Region(d2, e) == S.Region(d1, e)
  {
  }

  // ---- one volume's part of an update --------------------------------------------------------------------------

  /** What one volume is asked for: its key layout, the changes, and the headers rewritten in place. */
  datatype Request = Request(layout: KeyLayout, changes: seq<Change>, rewritten: Blocks)

  ghost predicate Askable(v: Files, q: Request, hash: seq<byte> -> nat)
    reads v, v.cat, v.data, v.data.sm
  {
    && v.Valid() && (Readable(q.layout, hash, q.changes) || P.Treelike(v.cat.records))
    && q.rewritten.Keys <= v.data.headers && WholeBlocks(q.rewritten, v.data.bs)
  }

  /** A volume's catalog published as transaction x: it joins the history, earlier transactions resolve as before. */
  ghost predicate Joined(a: Side, b: Side, h: S.Past, x: nat) {
    b.xid == x && b.history == a.history + [h] && h.xid == x && S.EarlierSame(a.omap, b.omap, x)
  }

  /**
   * Updates one of two volumes and hands the device over to the other, which keeps its files and
   * trees and may not change what the first one now relies on.
   */
  method UpdateBeside(v: Files, w: Files, q: Request, hash: seq<byte> -> nat, rank: R.Rec -> int,
                      encode: R.Rec -> Record, ghost decode: Record -> R.Rec, encodeRef: Ref -> Record, newXid: nat,
                      ghost total: nat)
      returns (r: Result<nat>, ghost done: seq<nat>, ghost h: S.Past)
    requires v != w && v.cat != w.cat && Askable(v, q, hash) && w.Valid() && Beside(v.data, w.data)
    requires v.data.xid < newXid < U64 && Coded(encode, decode, encodeRef)
    modifies v, v.cat, v.data, v.data.sm, w.data`disk, w.data`pinned
    ensures r.Ok? ==> v.Valid() && w.Valid() && Beside(v.data, w.data) && Readable(q.layout, hash, q.changes)
    ensures r.Ok? ==> AllDone(old(v.Now()), v.Now(), v.data.bs, old(v.data.pinned), q.changes, done)
    ensures r.Ok? ==> Joined(old(SideOf(v.data)), SideOf(v.data), h, newXid)
    ensures r.Ok? && W.AllStorable(old(v.cat.records)) && AllFit(q.changes, v.data.bs) ==>
              Decoded(Records(h.t), decode) == v.cat.records
    ensures r.Ok? ==> ContentKept(w.cat.records, old(w.data.disk), w.cat.records, w.data.disk, w.data.bs, {})
    ensures r.Ok? ==> old(v.data.pinned) * old(w.data.pinned) <= v.data.pinned * w.data.pinned
    ensures r.Ok? && P.Treelike(old(v.cat.records)) ==> P.Treelike(v.cat.records)
    ensures Readable(q.layout, hash, q.changes) && Affordable(old(v.Now()), q.changes, [], total, v.data.bs) &&
            Suits(old(v.Now()), q.changes, v.data.bs, encode, encodeRef) ==>
              r.Ok? && Afforded(old(v.Now()), v.Now(), q.changes, [], total, v.data.bs)
  {
    hide R.WellFormed, R.Keeps, Tied, Referenced, Content, ContentKept, SamePinned, EachStored, S.Sound, S.HistoryHeld,
         S.OmapHeld, S.NewlyHeld, S.EarlierSame, Used, ChunksOk, TotalFree, Bounded, WholeBlocks, Records, Decoded,
         Coded, Affordable, Afforded, Suits, W.AllStorable, AllFit, Readable, P.Treelike, OnlyMoved, Tracked, Within,
         LooseCells, FixedCells, Handed;
    ghost var d1, u1, p, a, b := v.data.disk, Used(v.data.sm.chunks), v.data.pinned, SideOf(v.data), SideOf(w.data);
    r, done, h := v.Update(q.layout, hash, rank, q.changes, encode, decode, encodeRef, newXid, q.rewritten, [], total);
    if r.Err? {
      return;
    }
    Over(d1, v.data.disk, v.data.bs, u1, Used(v.data.sm.chunks), v.data.headers, p, v.data.pinned, w.data.pinned, a,
         SideOf(v.data), b, h);
    OtherKept(d1, v.data.disk, v.data.bs, w.data.pinned, p, b, w.cat.records, w.ids);
    w.data.disk := v.data.disk;
    w.data.pinned := Handed(v.data.pinned, SideOf(v.data), b);
  }

  /** The hand-over after an update. */
  lemma Over(d1: Blocks, d2: Blocks, bs: nat, u1: set<nat>, u2: set<nat>, headers: set<nat>, p: set<nat>, p2: set<nat>,
             q: set<nat>, a: Side, a2: Side, b: Side, h: S.Past)
    requires S.Sound(b.frozen, u1, q, headers, b.files) && S.Sound(a2.frozen, u2, p2, headers, a2.files)
    requires Within(d1, bs, p, q, a) && Within(d1, bs, q, p, b) && p <= p2 && SamePinned(d1, d2, p)
    requires Joined(a, a2, h, a2.xid) && a.xid < a2.xid
    requires S.NewlyHeld(d2, bs, a2.omap, p2 - p, a2.xid, h, a2.root, a2.t, a2.level)
    requires a2.frozen == a.frozen && OnlyMoved(a.frozen, a.files, a2.files)
    ensures var q2 := Handed(p2, a2, b);
            && S.Sound(b.frozen, u2, q2, headers, b.files) && TreesIn(d2, bs, q2, b)
            && Within(d2, bs, p2, q2, a2) && Within(d2, bs, q2, p2, b) && p * q <= p2 * q2
  {
    hide S.Sound, TreesIn, LooseCells, FixedCells, SamePinned, OnlyMoved, S.NewlyHeld, S.EarlierSame;
    FixedMoved(a.frozen, a.files, a2.files);
    TreesOn(d1, d2, bs, p, p2, q, a, a2, h);
    HandOver(d1, d2, bs, u1, u2, headers, p, p2, q, a, a2, b);
    LooseSound(b.frozen, u1, q, headers, b.files);
  }

  lemma OtherKept(d1: Blocks, d2: Blocks, bs: nat, q: set<nat>, p: set<nat>, b: Side, records: seq<R.Rec>,
                  ids: seq<nat>)
    requires bs > 0 && Within(d1, bs, q, p, b) && SamePinned(d1, d2, p) && Tied(records, bs, ids, b.files)
    ensures ContentKept(records, d1, records, d2, bs, {})
  {
    hide TreesIn, LooseCells, FixedCells, SamePinned, Tied, S.FilesKept, ContentKept;
    FilesBeside(d1, d2, p, b.frozen, b.files);
    PublishedContent(records, d1, d2, bs, ids, b.files);
  }

  // ---- both volumes --------------------------------------------------------------------------------------------

  /** A volume's changes are stored: its paths lead to their content, and all its other files hold what they held. */
  ghost predicate PartDone(s: Scene, t: Scene, bs: nat, changes: seq<Change>, done: seq<nat>) {
    && R.Keeps(s.records, t.records) && EachStored(changes, done, t.records, t.disk, bs)
    && ContentKept(s.records, s.disk, t.records, t.disk, bs, SetOf(done))
  }

  /**
   * Its catalog was published as transaction x: it joins the history, earlier transactions resolve
   * as before, and if its records fit it decodes to the records in memory.
   */
  ghost predicate Issued(s: Scene, t: Scene, a: Side, b: Side, bs: nat, changes: seq<Change>, h: S.Past, x: nat,
                         decode: Record -> R.Rec)
  {
    && Joined(a, b, h, x)
    && (W.AllStorable(s.records) && AllFit(changes, bs) ==> Decoded(Records(h.t), decode) == t.records)
  }

  /** Enough for both: each could be served alone, and one clear run and the free blocks cover both together. */
  ghost predicate BothAffordable(s: Scene, t: Scene, a: seq<Change>, b: seq<Change>, total: nat, bs: nat)
    requires bs > 0
  {
    && Affordable(s, a, [], total, bs) && Affordable(t, b, [], total, bs)
    && UpdateCost(s, a, bs) + UpdateCost(t, b, bs) <= Min(total, Min(Stock(s.chunks), U64 - 1))
  }

  /** After the first update the second one can still be served. */
  lemma ThenSecond(s: Scene, s2: Scene, t: Scene, t2: Scene, a: seq<Change>, b: seq<Change>, total: nat, bs: nat)
    requires bs > 0 && BothAffordable(s, t, a, b, total, bs) && Afforded(s, s2, a, [], total, bs)
    requires t.chunks == s.chunks && t2 == t.(disk := s2.disk, chunks := s2.chunks) && t.perChunk == s2.perChunk
    requires SameShape(s2.chunks, s.chunks)
    ensures UpdateCost(s, a, bs) <= total && Affordable(t2, b, [], total - UpdateCost(s, a, bs), bs)
  {
    hide P.AllOpen, Stock, S.Feasible, SameShape, BlocksOf, TreesCost, Growth, P.NameCount, Paths;
    FeasibleOther(s2, t, t2, total - UpdateCost(s, a, bs), total);
  }

  lemma FeasibleOther(s: Scene, t: Scene, t2: Scene, left: nat, total: nat)
    requires FeasibleIn(s, left) && FeasibleIn(t, total) && SameShape(s.chunks, t.chunks)
    requires t2 == t.(disk := s.disk, chunks := s.chunks) && t.perChunk == s.perChunk
    ensures FeasibleIn(t2, left)
  {
    hide S.Loose, LongRun;
  }

  /** What a valid context holds has the shape of what was loaded. */
  lemma ShapeThrough(a: seq<Chunk>, b: seq<Chunk>, loaded: seq<Chunk>, da: set<nat>, db: set<nat>)
    requires Tracked(loaded, a, {}, da) && Tracked(loaded, b, {}, db)
    ensures SameShape(b, a)
  {
  }

  lemma DoneParts(s: Scene, t: Scene, bs: nat, pinned: set<nat>, changes: seq<Change>, done: seq<nat>)
    requires AllDone(s, t, bs, pinned, changes, done)
    ensures PartDone(s, t, bs, changes, done) && SamePinned(s.disk, t.disk, pinned)
  {
    hide R.Keeps, EachStored, ContentKept, SamePinned, OnlyMoved;
  }

  /** Done on the first device and kept on the next. */
  lemma DoneThen(s: Scene, t: Scene, d: Blocks, bs: nat, changes: seq<Change>, done: seq<nat>)
    requires bs > 0 && PartDone(s, t, bs, changes, done) && ContentKept(t.records, t.disk, t.records, d, bs, {})
    ensures PartDone(s, t.(disk := d), bs, changes, done)
  {
    hide R.Keeps, EachStored, ContentKept;
    StillStored(changes, done, t.records, t.disk, d, bs);
    KeptTwice(s.records, t.records, t.records, s.disk, t.disk, d, bs, SetOf(done), {});
  }

  /** Nothing changed on the first device, and done from there. */
  lemma ThenDone(s: Scene, d: Blocks, t: Scene, bs: nat, changes: seq<Change>, done: seq<nat>)
    requires bs > 0 && PartDone(s.(disk := d), t, bs, changes, done) &&
             ContentKept(s.records, s.disk, s.records, d, bs, {})
    ensures PartDone(s, t, bs, changes, done)
  {
    hide R.Keeps, EachStored, ContentKept;
    KeptTwice(s.records, s.records, t.records, s.disk, d, t.disk, bs, {}, SetOf(done));
  }

  /** Two volumes of one container, both valid and neither in the other's way. */
  ghost predicate Joint(v: Files, w: Files)
    reads v, v.cat, v.data, v.data.sm, w, w.cat, w.data, w.data.sm
  {
    v != w && v.cat != w.cat && v.Valid() && w.Valid() && Beside(v.data, w.data)
  }

  ghost predicate Asked(v: Files, w: Files, qv: Request, qw: Request, hash: seq<byte> -> nat)
    reads v, v.cat, v.data, v.data.sm, w, w.cat, w.data, w.data.sm
  {
    Askable(v, qv, hash) && Askable(w, qw, hash)
  }

  /** Both volumes at one moment, and what each may not change. */
  datatype Pair = Pair(v: Scene, w: Scene, a: Side, b: Side, pv: set<nat>, pw: set<nat>)

  ghost function PairOf(v: Files, w: Files): Pair
    reads v, v.cat, v.data, v.data.sm, w, w.cat, w.data, w.data.sm
  {
    Pair(v.Now(), w.Now(), SideOf(v.data), SideOf(w.data), v.data.pinned, w.data.pinned)
  }

  /** The files written on either volume, the catalogs published, and the transaction. */
  datatype Outcome = Outcome(dv: seq<nat>, dw: seq<nat>, hv: S.Past, hw: S.Past, xid: nat)

  predicate ReadableBoth(qv: Request, qw: Request, hash: seq<byte> -> nat) {
    Readable(qv.layout, hash, qv.changes) && Readable(qw.layout, hash, qw.changes)
  }

  /** Both lists of changes are stored and both catalogs published; what both had to leave alone is unchanged. */
  ghost predicate BothIssued(s: Pair, t: Pair, qv: Request, qw: Request, o: Outcome, decode: Record -> R.Rec) {
    && PartDone(s.v, t.v, 4096, qv.changes, o.dv) && PartDone(s.w, t.w, 4096, qw.changes, o.dw)
    && Issued(s.v, t.v, s.a, t.a, 4096, qv.changes, o.hv, o.xid, decode)
    && Issued(s.w, t.w, s.b, t.b, 4096, qw.changes, o.hw, o.xid, decode)
    && SamePinned(s.v.disk, t.v.disk, s.pv * s.pw)
  }

  /**
   * Both volumes of a container, one after the other. If it succeeds, every path of either list
   * leads to its data, all other files of both volumes hold what they held, both catalogs are
   * published as one transaction, and no block that both volumes had to leave alone has changed:
   * neither snapshot, and no tree either had published. It succeeds if the layouts can read the
   * names and there is enough for both.
   */
  method UpdateBoth(v: Files, w: Files, qv: Request, qw: Request, hash: seq<byte> -> nat, rank: R.Rec -> int,
                    encode: R.Rec -> Record, ghost decode: Record -> R.Rec, encodeRef: Ref -> Record, newXid: nat,
                    ghost total: nat)
      returns (r: Result<bool>, ghost done: Outcome)
    requires Joint(v, w) && Asked(v, w, qv, qw, hash) && Coded(encode, decode, encodeRef)
    requires v.data.xid < newXid < U64 && w.data.xid < newXid
    modifies v, v.cat, v.data, v.data.sm, w, w.cat, w.data
    ensures r.Ok? ==> Joint(v, w) && ReadableBoth(qv, qw, hash)
    ensures r.Ok? ==> BothIssued(old(PairOf(v, w)), PairOf(v, w), qv, qw, done, decode) && done.xid == newXid
    ensures Served(old(PairOf(v, w)), qv, qw, hash, encode, encodeRef, total) ==> r.Ok?
  {
    hide R.WellFormed, R.Keeps, Tied, Referenced, Content, ContentKept, SamePinned, EachStored, S.Sound, S.HistoryHeld,
         S.OmapHeld, S.NewlyHeld, S.EarlierSame, Used, ChunksOk, TotalFree, Bounded, WholeBlocks, Records, Decoded,
         Coded, Affordable, Afforded, Compact, W.AllStorable, AllFit, Readable, P.Treelike, OnlyMoved, Within, Joined,
         AllDone, PartDone, Tracked, SameShape, BothAffordable;
    ghost var s, sm := PairOf(v, w), v.data.sm;
    ghost var served := Served(s, qv, qw, hash, encode, encodeRef, total);
    ghost var chunks0, dirty0 := sm.chunks, sm.dirtyCibs;
    done := Outcome([], [], S.Past(0, Leaf(0, 0, []), 0), S.Past(0, Leaf(0, 0, []), 0), newXid);
    if served {
      FirstServed(s, qv, qw, hash, encode, encodeRef, total);
    }
    var first, dv, hv := UpdateBeside(v, w, qv, hash, rank, encode, decode, encodeRef, newXid, total);
    if first.Err? {
      return Err(first.error), done;
    }
    ghost var t := PairOf(v, w);
    ghost var left := 0;
    if served {
      ShapeThrough(chunks0, sm.chunks, sm.loaded, dirty0, sm.dirtyCibs);
      ThenSecond(s.v, t.v, s.w, t.w, qv.changes, qw.changes, total, v.data.bs);
      left := total - UpdateCost(s.v, qv.changes, v.data.bs);
    }
    DoneParts(s.v, t.v, v.data.bs, s.pv, qv.changes, dv);
    var second, dw, hw := UpdateBeside(w, v, qw, hash, rank, encode, decode, encodeRef, newXid, left);
    if second.Err? {
      return Err(second.error), done;
    }
    ghost var u := PairOf(v, w);
    DoneParts(t.w, u.w, w.data.bs, t.pw, qw.changes, dw);
    BothDone(s.v, t.v, u.v, s.w, t.w, u.w, v.data.bs, qv.changes, dv, qw.changes, dw);
    PinnedPart(s.v.disk, t.v.disk, s.pv, s.pv * s.pw);
    PinnedPart(t.w.disk, u.w.disk, t.pw, s.pv * s.pw);
    PinnedTrans(s.v.disk, t.v.disk, u.w.disk, s.pv * s.pw);
    r, done := Ok(true), Outcome(dv, dw, hv, hw, newXid);
  }

  /** Names both layouts can read, records that fit, and enough for both. */
  ghost predicate Served(s: Pair, qv: Request, qw: Request, hash: seq<byte> -> nat, encode: R.Rec -> Record,
                         encodeRef: Ref -> Record, total: nat)
  {
    && ReadableBoth(qv, qw, hash)
    && Suits(s.v, qv.changes, 4096, encode, encodeRef) && Suits(s.w, qw.changes, 4096, encode, encodeRef)
    && BothAffordable(s.v, s.w, qv.changes, qw.changes, total, 4096)
  }

  lemma FirstServed(s: Pair, qv: Request, qw: Request, hash: seq<byte> -> nat, encode: R.Rec -> Record,
                    encodeRef: Ref -> Record, total: nat)
    requires Served(s, qv, qw, hash, encode, encodeRef, total)
    ensures Affordable(s.v, qv.changes, [], total, 4096)
  {
    hide Affordable, Readable, Suits, UpdateCost;
  }

  lemma BothDone(s: Scene, s2: Scene, s3: Scene, t: Scene, t2: Scene, t3: Scene, bs: nat, a: seq<Change>,
                 da: seq<nat>, b: seq<Change>, db: seq<nat>)
    requires bs > 0 && PartDone(s, s2, bs, a, da) && PartDone(t2, t3, bs, b, db)
    requires s3.records == s2.records && t2.records == t.records && t2.disk == s2.disk && s3.disk == t3.disk
    requires ContentKept(t.records, t.disk, t.records, t2.disk, bs, {})
    requires ContentKept(s2.records, s2.disk, s2.records, s3.disk, bs, {})
    ensures PartDone(s, s3, bs, a, da) && PartDone(t, t3, bs, b, db)
  {
    hide R.Keeps, EachStored, ContentKept;
    DoneThen(s, s2, s3.disk, bs, a, da);
    ThenDone(t, t2.disk, t3, bs, b, db);
  }

  // ---- the container -------------------------------------------------------------------------------------------

  /** The space manager's context as it was parsed. */
  ghost predicate Parsed(sm: SpacemanContext, perChunk: nat, chunks: seq<Chunk>)
    reads sm
  {
    && sm.blocksPerChunk == perChunk && sm.chunks == sm.loaded == chunks && sm.freeDelta == 0 && sm.dirtyCibs == {}
  }

  /** A container's space manager on the device. */
  datatype Table = Table(disk: map<nat, BlockAllocator.Meta>, cibs: seq<nat>, count: nat, perChunk: nat, free: nat)

  ghost predicate SaneTable(t: Table, want: (seq<Chunk>, seq<nat>)) {
    SC.Sane(t.disk, t.cibs, t.count, t.perChunk, t.free, want)
  }

  /**
   * Writes the space manager back: the table then records exactly the blocks in use, so the next
   * parse finds them, and it never fails.
   */
  method CommitSpace(sm: SpacemanContext, table: Table, ghost want: (seq<Chunk>, seq<nat>))
      returns (r: Table, again: Result<(seq<Chunk>, seq<nat>)>)
    requires sm.Valid() && SaneTable(table, want) && sm.loaded == want.0
    ensures again.Ok? && SaneTable(r, again.value) && again.value.1 == want.1
    ensures Used(again.value.0) == Used(sm.chunks) && r.free == table.free + sm.freeDelta
    ensures r == table.(disk := r.disk, free := r.free)
  {
    hide SC.Sane, SC.Wanted, SC.Separate, SC.Described, SC.Untouched, SC.OnlyTouched, ChunksOk, TotalFree, Tiled, Used,
         Tracked;
    SC.SaneFacts(table.disk, table.cibs, table.count, table.perChunk, table.free, want);
    var parsed := SC.Parse(table.disk, table.cibs, table.count, want);
    var addrs := parsed.value.1;
    var tables := SC.TablesOf(parsed.value.0, addrs, |table.cibs|);
    SC.CommitFacts(table.disk, table.cibs, want.0, sm.chunks, addrs, sm.dirtyCibs);
    FreeCount(sm.chunks, table.free, sm.freeDelta);
    var written := SC.Commit(table.disk, table.cibs, tables, sm.chunks, addrs, sm.dirtyCibs, table.free, sm.freeDelta,
                             want.0);
    SC.SaneAgain(written.value.0, table.cibs, table.count, table.perChunk, table.free, want.0, addrs, sm.chunks,
                 sm.freeDelta, sm.dirtyCibs);
    r := table.(disk := written.value.0, free := written.value.1);
    again := SC.Parse(r.disk, r.cibs, r.count, (AllocatorLoad.Cleaned(sm.chunks), addrs));
  }

  lemma FreeCount(chunks: seq<Chunk>, free: nat, delta: int)
    requires TotalFree(chunks) == free + delta
    ensures free + delta >= 0
  {
  }

  /**
   * The whole update. If it succeeds, both volumes' paths lead to their data and all other files
   * hold what they held; the next parse of the space manager finds exactly the blocks in use and a
   * free count that is the number of clear blocks; and the checkpoint appended is the one a mount
   * finds. If it fails, no checkpoint was appended. It succeeds if there is enough for both
   * volumes and the descriptor ring has three slots.
   */
  method UpdateContainer(v: Files, w: Files, qv: Request, qw: Request, hash: seq<byte> -> nat, rank: R.Rec -> int,
                         encode: R.Rec -> Record, ghost decode: Record -> R.Rec, encodeRef: Ref -> Record,
                         table: Table, ghost want: (seq<Chunk>, seq<nat>), ring: CheckpointRing.Descriptors,
                         ghost total: nat)
      returns (r: Result<Table>, again: Result<(seq<Chunk>, seq<nat>)>, ghost done: Outcome)
    requires Joint(v, w) && Asked(v, w, qv, qw, hash) && SaneTable(table, want)
    requires Parsed(v.data.sm, table.perChunk, want.0) && Coded(encode, decode, encodeRef)
    requires ring.Valid() && Follows(ring, v.data.xid, w.data.xid)
    modifies v, v.cat, v.data, v.data.sm, w, w.cat, w.data, ring
    ensures r.Ok? ==> Joint(v, w) && ReadableBoth(qv, qw, hash)
    ensures r.Ok? ==> BothIssued(old(PairOf(v, w)), PairOf(v, w), qv, qw, done, decode)
    ensures r.Ok? ==> done.xid == old(Newest(ring)) + 1
    ensures r.Ok? ==> Recorded(r.value, again, v.data.sm, want.1)
    ensures ring.Valid() && ring.history == old(ring.history) + if r.Ok? then [old(Newest(ring)) + 1] else []
    ensures Served(old(PairOf(v, w)), qv, qw, hash, encode, encodeRef, total) && |old(ring.slots)| >= 3 ==> r.Ok?
  {
    hide Joint, Asked, BothIssued, ReadableBoth, Served, SaneTable, Coded, Used, SamePinned, CheckpointRing.Current,
         CheckpointRing.Kept;
    again, done := Err(NotFound), Outcome([], [], S.Past(0, Leaf(0, 0, []), 0), S.Past(0, Leaf(0, 0, []), 0), 0);
    var xid, slot := ring.Mount();
    var both;
    both, done := UpdateBoth(v, w, qv, qw, hash, rank, encode, decode, encodeRef, xid + 1, total);
    if both.Err? {
      r := Err(both.error);
      return;
    }
    JointSpace(v, w);
    var written, found := CommitSpace(v.data.sm, table, want);
    var appended := ring.Append(slot, xid + 1);
    if appended.Err? {
      r := Err(appended.error);
      return;
    }
    r, again := Ok(written), found;
  }

  /** The table read again holds the blocks in use, and its free count is the number of clear blocks. */
  ghost predicate Recorded(t: Table, again: Result<(seq<Chunk>, seq<nat>)>, sm: SpacemanContext, addrs: seq<nat>)
    reads sm
  {
    again.Ok? && SaneTable(t, again.value) && again.value.1 == addrs && Used(again.value.0) == Used(sm.chunks)
  }

  /** The transaction of the newest checkpoint. */
  ghost function Newest(ring: CheckpointRing.Descriptors): nat
    reads ring
  {
    if ring.history == [] then 0 else ring.history[|ring.history| - 1]
  }

  /** The next transaction comes after those of both volumes, and has a number. */
  ghost predicate Follows(ring: CheckpointRing.Descriptors, a: nat, b: nat)
    reads ring
  {
    a <= Newest(ring) && b <= Newest(ring) && Newest(ring) + 1 < U64
  }

  lemma JointSpace(v: Files, w: Files)
    requires Joint(v, w)
    ensures v.data.sm.Valid()
  {
    hide Beside;
  }

  // ---- a container to start from -------------------------------------------------------------------------------

  /** Two volumes with bare roots, each with its snapshot, on one space manager; it takes two free blocks. */
  method NewPair(sm: SpacemanContext, disk: Blocks, f: seq<S.Extent>, g: seq<S.Extent>, ghost headers: set<nat>,
                 fsTreeOid: nat, nextOid: nat, xid: nat)
      returns (v: Files, w: Files)
    requires sm.Valid() && Bounded(sm.chunks) && WholeBlocks(disk, 4096) && Stock(sm.chunks) > 1
    requires SetAside(f, Used(sm.chunks), headers) && SetAside(g, Used(sm.chunks), headers)
    requires fsTreeOid < nextOid < U64 && xid < U64
    modifies sm
    ensures Joint(v, w) && v.data.sm == sm && v.data.frozen == f && w.data.frozen == g && v.data.headers == headers
    ensures v.cat.records == BARE && w.cat.records == BARE && v.data.xid == xid && w.data.xid == xid
  {
    hide Used, ChunksOk, TotalFree, Bounded, WholeBlocks, Stock, S.Sound, S.OmapHeld, S.HistoryHeld, SetAside,
         R.WellFormed, Tied, Referenced, Tracked, SamePinned, LooseCells, FixedCells;
    ghost var u0 := Used(sm.chunks);
    v := NewFiles(sm, disk, f, headers, fsTreeOid, nextOid, xid);
    ghost var u1, d1, p := Used(sm.chunks), v.data.disk, v.data.pinned;
    AsideWider(g, u0, u1, headers);
    w := NewFiles(sm, v.data.disk, g, headers, fsTreeOid, nextOid, xid);
    ghost var u2 := Used(sm.chunks);
    PinnedPart(d1, w.data.disk, u1, p);
    AsideFacts(f, u0, headers);
    PairStarts(d1, w.data.disk, f, g, u0, u1, u2, headers, p, w.data.pinned, SideOf(v.data), SideOf(w.data));
    v.data.disk := w.data.disk;
    v.data.pinned := w.data.pinned;
  }

  lemma AsideWider(frozen: seq<S.Extent>, u1: set<nat>, u2: set<nat>, headers: set<nat>)
    requires SetAside(frozen, u1, headers) && u1 <= u2
    ensures SetAside(frozen, u2, headers)
  {
    hide Range;
  }

  lemma PairStarts(d1: Blocks, d2: Blocks, f: seq<S.Extent>, g: seq<S.Extent>, u0: set<nat>, u1: set<nat>, u2: set<nat>,
                   headers: set<nat>, p: set<nat>, q: set<nat>, a: Side, b: Side)
    requires S.Sound(f, u1, p, headers, []) && S.Sound(g, u2, q, headers, []) && u1 <= u2
    requires p == u1 - headers && q == u2 - headers && headers <= u1 && SamePinned(d1, d2, p)
    requires a.frozen == f && a.files == [] && b.frozen == g && b.files == []
    requires TreesIn(d1, 4096, p, a) && TreesIn(d2, 4096, q, b)
    ensures S.Sound(f, u2, q, headers, []) && TreesIn(d2, 4096, q, a)
    ensures Within(d2, 4096, q, q, a) && Within(d2, 4096, q, q, b)
  {
    hide S.Sound, TreesIn, SamePinned;
    assert p <= q && q * q == q;
    TreesStay(d1, d2, 4096, p, q, a);
    LooseSound(f, u1, p, headers, []);
    LooseSound(g, u2, q, headers, []);
    assert LooseCells(f, []) == {} && LooseCells(g, []) == {};
    SoundUnder(f, u1, p, u2, q, headers, []);
  }
}

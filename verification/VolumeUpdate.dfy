/**
 * Catalog, extent references and file blocks of a volume together (src/apfs_update.rs
 * `update_volume_files`): every file the catalog locates is a file of the volume, in the place the
 * catalog says, before and after any number of updates.
 */
module VolumeUpdate {
  import opened Bytes
  import opened TreeNode
  import opened BTree
  import opened DirectoryKey
  import opened SpaceManager
  import opened SpaceBudget
  import opened TreePublish
  import opened TreeWriter
  import R = CatalogRecords
  import W = CatalogWalk
  import C = Catalog
  import P = PathSet
  import S = SnapshotUpdate

  // ---- what a file holds -----------------------------------------------------------------------------

  /** The bytes of an object: its stream and extent as the catalog has them, read from the device. */
  function Content(records: seq<R.Rec>, disk: Blocks, bs: nat, id: nat): Result<seq<byte>> {
    match R.StreamAt(records, id)
    case Err(e) => Err(e)
    case Ok(at) =>
      if bs == 0 then Err(OutsideContainer) else S.ReadFile(disk, S.Extent(at.paddr, at.extent / bs), at.size)
  }

  /** The catalog has the object in this extent. */
  predicate HeldAt(records: seq<R.Rec>, bs: nat, id: nat, e: S.Extent) {
    var at := R.StreamAt(records, id);
    at.Ok? && at.value.paddr == e.start && at.value.extent == e.blocks * bs
  }

  /** The objects the catalog can locate are the volume's files, one extent each. */
  ghost predicate Tied(records: seq<R.Rec>, bs: nat, ids: seq<nat>, files: seq<S.Extent>) {
    && |ids| == |files| && (forall i, j :: 0 <= i < j < |ids| ==> ids[i] != ids[j])
    && (forall k :: 0 <= k < |ids| ==> HeldAt(records, bs, ids[k], files[k]))
    && (forall id: nat :: R.StreamAt(records, id).Ok? ==> id in ids)
  }

  lemma HeldContent(records: seq<R.Rec>, disk: Blocks, bs: nat, id: nat, e: S.Extent)
    requires bs > 0 && HeldAt(records, bs, id, e)
    ensures R.StreamAt(records, id).Ok?
    ensures Content(records, disk, bs, id) == S.ReadFile(disk, e, R.StreamAt(records, id).value.size)
  {
    hide R.StreamAt, S.ReadFile;
    DivMod(e.blocks, bs, 0);
  }

  // ---- making sure the path is there -----------------------------------------------------------------

  /** After the path was made: its object is a file already known, or a new and empty one. */
  lemma TiedMade(before: seq<R.Rec>, first: nat, records: seq<R.Rec>, next: nat, path: seq<seq<byte>>, id: nat, bs: nat,
                 ids: seq<nat>, files: seq<S.Extent>)
    requires W.Made(before, first, records, next, path, id) && R.WellFormed(before, first) &&
             R.StreamAt(records, id).Ok?
    requires Tied(before, bs, ids, files)
    ensures id in ids ==> Tied(records, bs, ids, files)
    ensures id !in ids ==> Tied(records, bs, ids + [id], files + [S.Extent(0, 0)])
    ensures forall f: nat :: f != id ==> R.StreamAt(records, f).Ok? == R.StreamAt(before, f).Ok?
    ensures forall f: nat :: f in ids ==> R.StreamAt(records, f) == R.StreamAt(before, f)
  {
    hide R.StreamAt, R.WellFormed, R.Resolve, R.Keeps;
    forall f: nat | f in ids ensures R.StreamAt(records, f) == R.StreamAt(before, f) {
      var k :| 0 <= k < |ids| && ids[k] == f;
      assert HeldAt(before, bs, ids[k], files[k]);
    }
    if id !in ids {
      assert R.StreamAt(before, id).Err?;
      assert R.Resolve(records, R.ROOT, path) == Ok(id);
      assert R.Locate(records, path) == R.StreamAt(records, id);
      assert R.StreamAt(records, id) == Ok(R.Location(id, 0, 0, 0));
      var ids2, files2 := ids + [id], files + [S.Extent(0, 0)];
      forall k | 0 <= k < |ids2| ensures HeldAt(records, bs, ids2[k], files2[k]) {
        if k < |ids| {
          assert HeldAt(before, bs, ids[k], files[k]) && ids[k] in ids;
        }
      }
      forall i, j | 0 <= i < j < |ids2| ensures ids2[i] != ids2[j] {
        assert ids2[i] in ids;
      }
    } else {
      forall k | 0 <= k < |ids| ensures HeldAt(records, bs, ids[k], files[k]) {
        assert HeldAt(before, bs, ids[k], files[k]) && ids[k] in ids;
      }
    }
  }

  // ---- recording the new extent ----------------------------------------------------------------------

  /** The catalog with the new size and place of one object. */
  function Filed(records: seq<R.Rec>, i: nat, j: nat, size: nat, length: nat, paddr: nat): seq<R.Rec>
    requires i < |records| && j < |records| && records[i].Inode? && records[j].Extent?
  {
    records[i := records[i].(stream := Some((size, length)))][j := R.Extent(records[j].id, length, paddr)]
  }

  lemma FiledHits(records: seq<R.Rec>, i: nat, j: nat, size: nat, length: nat, paddr: nat, q: R.Query)
    requires i < |records| && j < |records| && records[i].Inode? && records[j].Extent?
    ensures R.Count(Filed(records, i, j, size, length, paddr), q) == R.Count(records, q)
    ensures R.Find(Filed(records, i, j, size, length, paddr), q) == R.Find(records, q)
  {
    hide R.Count, R.Find, R.Fold;
    var once := records[i := records[i].(stream := Some((size, length)))];
    R.CountReplace(records, i, once[i], q);
    R.CountReplace(once, j, R.Extent(records[j].id, length, paddr), q);
  }

  lemma FiledAt(records: seq<R.Rec>, i: nat, j: nat, size: nat, length: nat, paddr: nat, k: nat)
    requires i < |records| && j < |records| && records[i].Inode? && records[j].Extent? && k < |records|
    ensures var f := Filed(records, i, j, size, length, paddr);
            |f| == |records| && f[k] == if k == i then records[i].(stream := Some((size, length)))
                                        else if k == j then R.Extent(records[j].id, length, paddr) else records[k]
  {
  }

  /** Names lead where they did, the object is located in its new place, every other object in its old one. */
  lemma FiledLocated(records: seq<R.Rec>, id: nat, i: nat, j: nat, size: nat, length: nat, paddr: nat)
    requires i < |records| && j < |records| && records[i].Inode? && records[j].Extent?
    requires R.Find(records, R.ByInode(id)) == Some(i) && R.Find(records, R.ByExtent(id)) == Some(j)
    requires R.Count(records, R.ByExtent(id)) == 1
    ensures var f := Filed(records, i, j, size, length, paddr);
            && W.SameChildrenAt(f, records) && W.SameStreamsBut(f, records, id)
            && R.StreamAt(f, id) == Ok(R.Location(id, size, length, paddr))
  {
    hide R.Count, R.Find, R.Fold, Filed;
    var f := Filed(records, i, j, size, length, paddr);
    forall p, n ensures R.ChildAt(f, p, n) == R.ChildAt(records, p, n) {
      var q := R.ByName(p, R.Fold(n));
      FiledHits(records, i, j, size, length, paddr, q);
      R.FindIs(records, q);
      if R.Find(records, q).Some? {
        FiledAt(records, i, j, size, length, paddr, R.Find(records, q).value);
      }
    }
    forall g: nat | g != id ensures R.StreamAt(f, g) == R.StreamAt(records, g) {
      OtherStream(records, id, i, j, size, length, paddr, g);
    }
    FiledHits(records, i, j, size, length, paddr, R.ByInode(id));
    FiledHits(records, i, j, size, length, paddr, R.ByExtent(id));
    FiledAt(records, i, j, size, length, paddr, i);
    FiledAt(records, i, j, size, length, paddr, j);
  }

  lemma OtherStream(records: seq<R.Rec>, id: nat, i: nat, j: nat, size: nat, length: nat, paddr: nat, g: nat)
    requires i < |records| && j < |records| && records[i].Inode? && records[j].Extent? && g != id
    requires R.Find(records, R.ByInode(id)) == Some(i) && R.Find(records, R.ByExtent(id)) == Some(j)
    ensures R.StreamAt(Filed(records, i, j, size, length, paddr), g) == R.StreamAt(records, g)
  {
    hide R.Count, R.Find, R.Fold, Filed;
    FiledHits(records, i, j, size, length, paddr, R.ByInode(g));
    FiledHits(records, i, j, size, length, paddr, R.ByExtent(g));
    R.FindIs(records, R.ByInode(g));
    R.FindIs(records, R.ByExtent(g));
    R.FindIs(records, R.ByInode(id));
    R.FindIs(records, R.ByExtent(id));
    if R.Find(records, R.ByInode(g)).Some? {
      FiledAt(records, i, j, size, length, paddr, R.Find(records, R.ByInode(g)).value);
    }
    if R.Find(records, R.ByExtent(g)).Some? {
      FiledAt(records, i, j, size, length, paddr, R.Find(records, R.ByExtent(g)).value);
    }
  }

  lemma FiledWellFormed(records: seq<R.Rec>, next: nat, i: nat, j: nat, size: nat, length: nat, paddr: nat)
    requires R.WellFormed(records, next) && i < |records| && j < |records| && records[i].Inode? && records[j].Extent?
    ensures R.WellFormed(Filed(records, i, j, size, length, paddr), next)
  {
    hide R.Count, R.Find, R.Fold, Filed, R.HasDirectory;
    var f := Filed(records, i, j, size, length, paddr);
    forall id ensures R.Count(f, R.ByInode(id)) <= 1 {
      FiledHits(records, i, j, size, length, paddr, R.ByInode(id));
    }
    forall p, n ensures R.Count(f, R.ByName(p, n)) <= 1 {
      FiledHits(records, i, j, size, length, paddr, R.ByName(p, n));
    }
    forall r | r in f ensures R.RecOk(f, next, r) {
      var k :| 0 <= k < |f| && f[k] == r;
      FiledAt(records, i, j, size, length, paddr, 0);
      FiledAt(records, i, j, size, length, paddr, k);
      R.WellFormedAt(records, next, records[k]);
      if r.DirRec? {
        FiledHits(records, i, j, size, length, paddr, R.ByInode(r.child));
        FiledDirectory(records, i, j, size, length, paddr, r.parent);
      } else if r.Inode? {
        FiledHits(records, i, j, size, length, paddr, R.ByParent(r.id));
      }
    }
    FiledDirectory(records, i, j, size, length, paddr, R.ROOT);
  }

  lemma FiledDirectory(records: seq<R.Rec>, i: nat, j: nat, size: nat, length: nat, paddr: nat, id: nat)
    requires i < |records| && j < |records| && records[i].Inode? && records[j].Extent? && R.HasDirectory(records, id)
    ensures R.HasDirectory(Filed(records, i, j, size, length, paddr), id)
  {
    hide Filed;
    var r :| r in records && r.Inode? && r.id == id && r.kind == R.Directory;
    var k :| 0 <= k < |records| && records[k] == r;
    FiledAt(records, i, j, size, length, paddr, k);
    var f := Filed(records, i, j, size, length, paddr);
    assert f[k] in f && f[k].Inode? && f[k].id == id && f[k].kind == R.Directory;
  }

  // ---- extent references -------------------------------------------------------------------------------

  /** A record of the extent-reference tree. */
  datatype Ref = Ref(paddr: nat, blocks: nat, owner: nat)

  /** The references to the extent that starts at a block. */
  function RefsAt(refs: seq<Ref>, p: nat): seq<Ref> {
    if refs == [] then [] else
    RefsAt(refs[..|refs| - 1], p) + if refs[|refs| - 1].paddr == p then [refs[|refs| - 1]] else []
  }

  /** Without the references that start at either block. */
  function Dropped(refs: seq<Ref>, a: nat, b: nat): seq<Ref> {
    if refs == [] then [] else
    var last := refs[|refs| - 1];
    Dropped(refs[..|refs| - 1], a, b) + if last.paddr == a || last.paddr == b then [] else [last]
  }

  lemma RefsPush(refs: seq<Ref>, r: Ref, p: nat)
    ensures RefsAt(refs + [r], p) == RefsAt(refs, p) + if r.paddr == p then [r] else []
  {
    assert (refs + [r])[..|refs|] == refs;
  }

  lemma {:induction false} DroppedRefs(refs: seq<Ref>, a: nat, b: nat, p: nat)
    ensures RefsAt(Dropped(refs, a, b), p) == if p == a || p == b then [] else RefsAt(refs, p)
  {
    if refs != [] {
      var front, last := refs[..|refs| - 1], refs[|refs| - 1];
      DroppedRefs(front, a, b, p);
      if last.paddr == a || last.paddr == b {
        assert Dropped(refs, a, b) == Dropped(front, a, b);
      } else {
        RefsPush(Dropped(front, a, b), last, p);
      }
    }
  }

  /** The references after a file moved from one extent to another. */
  function Moved(refs: seq<Ref>, from: nat, to: S.Extent, owner: nat): seq<Ref> {
    Dropped(refs, to.start, from) + [Ref(to.start, to.blocks, owner)]
  }

  function InsertRef(refs: seq<Ref>, r: Ref): seq<Ref> {
    if refs == [] || refs[|refs| - 1].paddr <= r.paddr then refs + [r]
    else InsertRef(refs[..|refs| - 1], r) + [refs[|refs| - 1]]
  }

  /** The stable sort by starting block. */
  function SortRefs(refs: seq<Ref>): seq<Ref> {
    if refs == [] then [] else InsertRef(SortRefs(refs[..|refs| - 1]), refs[|refs| - 1])
  }

  lemma {:induction false} InsertedRefs(refs: seq<Ref>, r: Ref, p: nat)
    ensures RefsAt(InsertRef(refs, r), p) == RefsAt(refs, p) + if r.paddr == p then [r] else []
  {
    hide RefsAt;
    if refs == [] || refs[|refs| - 1].paddr <= r.paddr {
      RefsPush(refs, r, p);
    } else {
      var front, last := refs[..|refs| - 1], refs[|refs| - 1];
      InsertedRefs(front, r, p);
      RefsPush(InsertRef(front, r), last, p);
      RefsPush(front, last, p);
      assert refs == front + [last];
    }
  }

  lemma {:induction false} SortedRefs(refs: seq<Ref>, p: nat)
    ensures RefsAt(SortRefs(refs), p) == RefsAt(refs, p)
  {
    if refs != [] {
      var front, last := refs[..|refs| - 1], refs[|refs| - 1];
      SortedRefs(front, p);
      InsertedRefs(SortRefs(front), last, p);
    }
  }

  /** Every file with blocks has one reference, with its extent and owner; the others lie nowhere. */
  ghost predicate Referenced(refs: seq<Ref>, ids: seq<nat>, files: seq<S.Extent>) {
    && |ids| == |files|
    && forall k :: 0 <= k < |files| ==>
         if files[k].blocks == 0 then files[k].start == 0
         else RefsAt(refs, files[k].start) == [Ref(files[k].start, files[k].blocks, ids[k])]
  }

  lemma ReferencedSorted(refs: seq<Ref>, ids: seq<nat>, files: seq<S.Extent>)
    requires Referenced(refs, ids, files)
    ensures Referenced(SortRefs(refs), ids, files)
  {
    hide RefsAt, SortRefs;
    forall k | 0 <= k < |files| && files[k].blocks > 0
      ensures RefsAt(SortRefs(refs), files[k].start) == [Ref(files[k].start, files[k].blocks, ids[k])]
    {
      SortedRefs(refs, files[k].start);
    }
  }

  /** Files with blocks start at different blocks, and none at a header. */
  lemma OwnStart(frozen: seq<S.Extent>, used: set<nat>, pinned: set<nat>, headers: set<nat>, files: seq<S.Extent>,
                 k: nat, j: nat)
    requires S.Sound(frozen, used, pinned, headers, files) && k < |files| && j < |files|
    requires files[j].blocks > 0 && S.Loose(frozen, files[k]) && k != j
    ensures files[j].start != files[k].start
  {
    hide Range;
    var a, b := files[j], files[k];
    assert a.start in S.Cells(a) && b.start in S.Cells(b);
    assert S.SafeFile(frozen, used, pinned, headers, a) && S.SafeFile(frozen, used, pinned, headers, b);
    assert S.Apart(frozen, files[if j < k then j else k], files[if j < k then k else j]);
  }

  lemma NotAtHeader(frozen: seq<S.Extent>, used: set<nat>, pinned: set<nat>, headers: set<nat>, files: seq<S.Extent>,
                    j: nat, h: nat)
    requires S.Sound(frozen, used, pinned, headers, files) && j < |files| && files[j].blocks > 0 && h in headers
    ensures files[j].start != h
  {
    hide Range;
    assert files[j].start in S.Cells(files[j]);
    assert S.SafeFile(frozen, used, pinned, headers, files[j]);
  }

  lemma MovedReferenced(frozen: seq<S.Extent>, used: set<nat>, pinned: set<nat>, headers: set<nat>, refs: seq<Ref>,
                        ids: seq<nat>, files: seq<S.Extent>, k: nat, f: S.Extent)
    requires Referenced(refs, ids, files) && k < |files| && f.blocks > 0 && 0 in headers
    requires forall i, j :: 0 <= i < j < |ids| ==> ids[i] != ids[j]
    requires S.Sound(frozen, used, pinned, headers, files[k := f]) && S.Loose(frozen, f)
    ensures Referenced(Moved(refs, files[k].start, f, ids[k]), ids, files[k := f])
  {
    hide RefsAt, S.Loose, S.Cells, Range, S.Sound, Dropped;
    var after, e := files[k := f], files[k];
    forall j | 0 <= j < |after| && after[j].blocks > 0
      ensures RefsAt(Moved(refs, e.start, f, ids[k]), after[j].start) == [Ref(after[j].start, after[j].blocks, ids[j])]
    {
      var p := after[j].start;
      RefsPush(Dropped(refs, f.start, e.start), Ref(f.start, f.blocks, ids[k]), p);
      DroppedRefs(refs, f.start, e.start, p);
      if j != k {
        OwnStart(frozen, used, pinned, headers, after, k, j);
        assert ids[if j < k then j else k] != ids[if j < k then k else j];
        if e.blocks == 0 {
          NotAtHeader(frozen, used, pinned, headers, after, j, 0);
        }
      }
    }
  }

  // ---- one file ------------------------------------------------------------------------------------------

  /** Other files keep their content, in whatever order the records are. */
  ghost predicate ContentKept(r1: seq<R.Rec>, d1: Blocks, r2: seq<R.Rec>, d2: Blocks, bs: nat, except: set<nat>) {
    forall g: nat :: g !in except && Content(r1, d1, bs, g).Ok? ==> Content(r2, d2, bs, g) == Content(r1, d1, bs, g)
  }

  lemma SameRegion(d1: Blocks, d2: Blocks, e: S.Extent, size: nat)
    requires S.OnDisk(d1, e) && S.OnDisk(d2, e) && S.Region(d2, e) == S.Region(d1, e)
    ensures S.ReadFile(d2, e, size) == S.ReadFile(d1, e, size)
  {
  }

  /** What the catalog says of the other files does not change, nor do their blocks, so neither does their content. */
  lemma KeptContent(r1: seq<R.Rec>, d1: Blocks, r2: seq<R.Rec>, d2: Blocks, bs: nat, k: nat, ids: seq<nat>,
                    files: seq<S.Extent>)
    requires bs > 0 && Tied(r1, bs, ids, files) && k < |ids| && W.SameStreamsBut(r2, r1, ids[k])
    requires forall j :: 0 <= j < |files| && j != k && S.OnDisk(d1, files[j]) ==>
               S.OnDisk(d2, files[j]) && S.Region(d2, files[j]) == S.Region(d1, files[j])
    ensures ContentKept(r1, d1, r2, d2, bs, {ids[k]})
  {
    hide R.StreamAt, S.Region, S.OnDisk, S.ReadFile, Content;
    forall g: nat | g != ids[k] && Content(r1, d1, bs, g).Ok? ensures Content(r2, d2, bs, g) == Content(r1, d1, bs, g) {
      ContentStream(r1, d1, bs, g);
      var j :| 0 <= j < |ids| && ids[j] == g;
      var e := files[j];
      assert HeldAt(r1, bs, ids[j], e) && HeldAt(r2, bs, ids[j], e);
      HeldContent(r1, d1, bs, g, e);
      HeldContent(r2, d2, bs, g, e);
      ReadOnDisk(d1, e, R.StreamAt(r1, g).value.size);
      SameRegion(d1, d2, e, R.StreamAt(r1, g).value.size);
    }
  }

  lemma NothingMoved(before: seq<R.Rec>, records: seq<R.Rec>, disk: Blocks, bs: nat, ids: seq<nat>,
                     files: seq<S.Extent>)
    requires bs > 0 && Tied(before, bs, ids, files)
    requires forall f: nat :: f in ids ==> R.StreamAt(records, f) == R.StreamAt(before, f)
    ensures ContentKept(before, disk, records, disk, bs, {})
  {
    hide R.StreamAt, S.ReadFile;
    forall g: nat | Content(before, disk, bs, g).Ok?
      ensures Content(records, disk, bs, g) == Content(before, disk, bs, g)
    {
      assert g in ids;
    }
  }

  lemma HeldStream(records: seq<R.Rec>, bs: nat, ids: seq<nat>, files: seq<S.Extent>, k: nat)
    requires Tied(records, bs, ids, files) && k < |ids|
    ensures R.StreamAt(records, ids[k]).Ok?
  {
    hide R.StreamAt;
    assert HeldAt(records, bs, ids[k], files[k]);
  }

  lemma ContentStream(records: seq<R.Rec>, disk: Blocks, bs: nat, g: nat)
    requires bs > 0 && Content(records, disk, bs, g).Ok?
    ensures R.StreamAt(records, g).Ok?
  {
  }

  lemma ReadOnDisk(disk: Blocks, e: S.Extent, size: nat)
    requires S.ReadFile(disk, e, size).Ok?
    ensures S.OnDisk(disk, e)
  {
  }

  lemma TiedFiled(before: seq<R.Rec>, records: seq<R.Rec>, bs: nat, ids: seq<nat>, files: seq<S.Extent>, k: nat,
                  f: S.Extent, size: nat)
    requires Tied(before, bs, ids, files) && k < |ids| && W.SameStreamsBut(records, before, ids[k])
    requires R.StreamAt(records, ids[k]) == Ok(R.Location(ids[k], size, f.blocks * bs, f.start))
    ensures Tied(records, bs, ids, files[k := f])
  {
    hide R.StreamAt;
    forall j | 0 <= j < |ids| ensures HeldAt(records, bs, ids[j], files[k := f][j]) {
      if j != k {
        assert ids[if j < k then j else k] != ids[if j < k then k else j];
        assert HeldAt(before, bs, ids[j], files[j]);
      }
    }
  }

  lemma NamesKept(a: seq<R.Rec>, b: seq<R.Rec>, c: seq<R.Rec>, path: seq<seq<byte>>, id: nat)
    requires R.Keeps(a, b) && W.SameChildrenAt(c, b) && R.Resolve(b, R.ROOT, path) == Ok(id)
    ensures R.Keeps(a, c) && R.Resolve(c, R.ROOT, path) == Ok(id)
  {
    hide R.ChildAt;
    R.PathsKept(b, c, R.ROOT, path);
  }

  lemma MadeParts(before: seq<R.Rec>, first: nat, records: seq<R.Rec>, next: nat, path: seq<seq<byte>>, id: nat)
    requires W.Made(before, first, records, next, path, id)
    ensures R.WellFormed(records, next) && R.Resolve(records, R.ROOT, path) == Ok(id) && R.Keeps(before, records)
    ensures first <= next && R.Locate(records, path) == R.StreamAt(records, id)
  {
    hide R.WellFormed, R.Resolve, R.StreamAt, R.Keeps;
  }

  lemma NewReferenced(refs: seq<Ref>, ids: seq<nat>, files: seq<S.Extent>, id: nat)
    requires Referenced(refs, ids, files)
    ensures Referenced(refs, ids + [id], files + [S.Extent(0, 0)])
  {
    hide RefsAt;
  }

  lemma TiedParts(records: seq<R.Rec>, bs: nat, ids: seq<nat>, files: seq<S.Extent>)
    requires Tied(records, bs, ids, files)
    ensures |ids| == |files| && forall i, j :: 0 <= i < j < |ids| ==> ids[i] != ids[j]
    ensures forall id: nat :: R.StreamAt(records, id).Ok? ==> id in ids
  {
    hide R.StreamAt;
  }

  lemma NewContent(records: seq<R.Rec>, disk: Blocks, bs: nat, id: nat, f: S.Extent, content: seq<byte>)
    requires bs > 0 && R.StreamAt(records, id) == Ok(R.Location(id, |content|, f.blocks * bs, f.start))
    requires S.ReadFile(disk, f, |content|) == Ok(content)
    ensures Content(records, disk, bs, id) == Ok(content)
  {
    hide R.StreamAt, S.ReadFile;
    HeldContent(records, disk, bs, id, f);
  }

  /** The path can be made, or leads to an object that can be located. */
  ghost predicate Reachable(records: seq<R.Rec>, next: nat, path: seq<seq<byte>>) {
    && W.Acceptable(records, next, path)
    && (R.Resolve(records, R.ROOT, path).Ok? ==>
          R.StreamAt(records, R.Resolve(records, R.ROOT, path).value).Ok?)
  }

  lemma ReachableMade(before: seq<R.Rec>, first: nat, path: seq<seq<byte>>, records: seq<R.Rec>, next: nat, id: nat)
    ensures Reachable(before, first, path) ==> W.Acceptable(before, first, path)
    ensures W.Acceptable(before, first, path) && W.Made(before, first, records, next, path, id) ==>
              (R.Locate(records, path).Ok? <==> Reachable(before, first, path))
  {
    hide W.Acceptable, R.Resolve, R.StreamAt, R.WellFormed;
    if W.Made(before, first, records, next, path, id) && R.Resolve(before, R.ROOT, path).Ok? {
      R.PathsKept(before, records, R.ROOT, path);
    }
  }

  /** Kinds and entry counts do not change, and what could be located still can. */
  lemma FiledKinds(records: seq<R.Rec>, id: nat, i: nat, j: nat, size: nat, length: nat, paddr: nat)
    requires i < |records| && j < |records| && records[i].Inode? && records[j].Extent?
    requires var f := Filed(records, i, j, size, length, paddr);
             W.SameStreamsBut(f, records, id) && R.StreamAt(f, id).Ok?
    ensures var f := Filed(records, i, j, size, length, paddr);
            P.KindsSame(records, f) && P.StreamsStay(records, f) && |f| == |records|
  {
    hide R.Count, R.Find, R.Fold, Filed, R.StreamAt;
    var f := Filed(records, i, j, size, length, paddr);
    forall x: nat ensures P.SameInode(records, f, x) {
      FiledHits(records, i, j, size, length, paddr, R.ByInode(x));
      R.FindIs(records, R.ByInode(x));
      R.FindIs(f, R.ByInode(x));
      if R.Find(records, R.ByInode(x)).Some? {
        FiledAt(records, i, j, size, length, paddr, R.Find(records, R.ByInode(x)).value);
      }
    }
    FiledAt(records, i, j, size, length, paddr, i);
  }

  lemma FiledStorable(records: seq<R.Rec>, i: nat, j: nat, size: nat, length: nat, paddr: nat)
    requires i < |records| && j < |records| && records[i].Inode? && records[j].Extent? && W.AllStorable(records)
    requires size < U64 && length < U64 && paddr < U64
    ensures W.AllStorable(Filed(records, i, j, size, length, paddr))
  {
    hide Filed;
    var f := Filed(records, i, j, size, length, paddr);
    FiledAt(records, i, j, size, length, paddr, i);
    forall k | 0 <= k < |f| ensures W.Storable(f[k]) {
      FiledAt(records, i, j, size, length, paddr, k);
      assert W.Storable(records[k]);
    }
  }

  lemma MovedSize(refs: seq<Ref>, from: nat, to: S.Extent, owner: nat)
    ensures |Moved(refs, from, to, owner)| <= |refs| + 1
  {
    DroppedSize(refs, to.start, from);
  }

  lemma {:induction false} DroppedSize(refs: seq<Ref>, a: nat, b: nat)
    ensures |Dropped(refs, a, b)| <= |refs|
  {
    if refs != [] {
      DroppedSize(refs[..|refs| - 1], a, b);
    }
  }

  /** Place and length of a file fit 64 bits. */
  lemma PlaceFits(chunks: seq<Chunk>, f: S.Extent, content: seq<byte>, bs: nat)
    requires bs > 0 && f.blocks == S.BlocksFor(content, bs) && S.Cells(f) <= Used(chunks) && Bounded(chunks)
    requires |content| + bs <= U64 && bs < U64 && f.blocks > 0
    ensures f.start < U64 && f.blocks * bs < U64
  {
    assert f.start in S.Cells(f);
    var p := f.start;
    assert p < U64 by {
      var i :| 0 <= i < |chunks| && chunks[i].addr <= p < chunks[i].addr + chunks[i].blocks;
    }
    BlockBytes(f.blocks, |content|, bs);
  }

  lemma BlockBytes(n: nat, len: nat, bs: nat)
    requires bs > 0 && n == Max(DivCeil(len, bs), 1)
    ensures n * bs <= Max(len + bs - 1, bs)
  {
    var d := DivCeil(len, bs);
    if d > 0 {
      assert (d - 1) * bs < len;
      assert d * bs == (d - 1) * bs + bs;
    }
  }

  /** Where the inode and the one extent of a located object stand. */
  method OwnRecords(records: seq<R.Rec>, id: nat) returns (i: nat, j: nat)
    requires R.StreamAt(records, id).Ok?
    ensures i < |records| && j < |records| && records[i].Inode? && records[j].Extent?
    ensures R.Find(records, R.ByInode(id)) == Some(i) && R.Find(records, R.ByExtent(id)) == Some(j)
    ensures R.Count(records, R.ByExtent(id)) == 1
  {
    hide R.Find, R.Count;
    var inode := W.FindRecord(records, R.ByInode(id));
    var extent := W.SoleExtent(records, id);
    i, j := inode.value, extent.value;
  }

  method Position(ids: seq<nat>, id: nat) returns (k: nat)
    ensures k <= |ids| && (k < |ids| ==> ids[k] == id) && (k == |ids| ==> id !in ids)
  {
    k := 0;
    while k < |ids|
      invariant k <= |ids| && id !in ids[..k]
    {
      if ids[k] == id {
        return;
      }
      k := k + 1;
    }
  }

  class Files {
    const cat: C.Volume
    const data: S.Volume
    /** The objects behind the volume's files. */
    var ids: seq<nat>
    var refs: seq<Ref>

    ghost predicate Valid()
      reads this, cat, data, data.sm
    {
      && cat.Valid() && data.Valid() && cat.nextId < U64 && data.nextOid <= cat.nextId && 0 in data.headers
      && Tied(cat.records, data.bs, ids, data.files) && Referenced(refs, ids, data.files)
    }

    ghost function Now(): Scene
      reads this, cat, data, data.sm
    {
      Scene(cat.records, cat.nextId, data.disk, data.sm.chunks, data.sm.blocksPerChunk, data.frozen, data.files, |refs|,
            |data.omap|)
    }

    constructor (cat: C.Volume, data: S.Volume, ids: seq<nat>, refs: seq<Ref>)
      requires cat.Valid() && data.Valid() && cat.nextId < U64 && data.nextOid <= cat.nextId && 0 in data.headers
      requires Tied(cat.records, data.bs, ids, data.files) && Referenced(refs, ids, data.files)
      ensures Valid() && this.cat == cat && this.data == data && this.ids == ids && this.refs == refs
    {
      this.cat, this.data, this.ids, this.refs := cat, data, ids, refs;
    }

    /**
     * The file a path leads to, made empty if need be. No file changes, and every path still leads
     * where it did. It succeeds exactly if the layout can read every name and the path can be made
     * and its file located: a name it cannot read is written, and then the file is not found.
     */
    method Reach(layout: KeyLayout, hash: seq<byte> -> nat, rank: R.Rec -> int, path: seq<seq<byte>>)
        returns (r: Result<nat>)
      requires Valid() && (R.AllLegible(layout, hash, path) || W.NoRevisit(cat.records, path))
      modifies this`ids, cat, data`files
      ensures r.Ok? ==> Valid() && r.value < |ids| && R.Resolve(cat.records, R.ROOT, path) == Ok(ids[r.value])
      ensures r.Ok? ==> R.Keeps(old(cat.records), cat.records)
      ensures r.Ok? ==> ContentKept(old(cat.records), data.disk, cat.records, data.disk, data.bs, {})
      ensures r.Ok? ==>
                && W.Made(old(cat.records), old(cat.nextId), cat.records, cat.nextId, path, ids[r.value])
                && W.MadeExactly(old(cat.records), old(cat.nextId), cat.records, cat.nextId, path, ids[r.value])
                && |cat.records| <= |old(cat.records)| + 2 * |path| + 2
      ensures r.Ok? && W.AllStorable(old(cat.records)) && W.NamesShort(path) ==> W.AllStorable(cat.records)
      ensures r.Ok? ==> data.files == old(data.files) || data.files == old(data.files) + [S.Extent(0, 0)]
      ensures r.Ok? <==> R.AllLegible(layout, hash, path) && Reachable(old(cat.records), old(cat.nextId), path)
    {
      hide Tracked;
      hide R.AllLegible, R.NoStubs, R.Follow;
      hide W.AllStorable, W.NamesShort, W.MadeExactly, W.NoRevisit, W.Gained, R.ChildAt, Reachable;
      hide R.WellFormed, W.Made, R.Keeps, R.Resolve, R.StreamAt, R.Legible, W.Acceptable, Tied, Referenced, Content,
           ContentKept, S.Sound, S.HistoryHeld, S.OmapHeld, S.OnDisk, Used, ChunksOk, TotalFree, Bounded, WholeBlocks;
      ghost var before, first, ids0, files0 := cat.records, cat.nextId, ids, data.files;
      var made := cat.EnsureFileRecords(layout, hash, path, rank);
      ReachableMade(before, first, path, cat.records, cat.nextId, if made.Ok? then made.value else 0);
      if made.Err? {
        return Err(made.error);
      }
      if R.AllLegible(layout, hash, path) {
        MadeParts(before, first, cat.records, cat.nextId, path, made.value);
      }
      R.FollowIs(cat.records, R.ROOT, path);
      var at := W.LocateFile(cat.records, path);
      if at.Err? {
        return Err(at.error);
      }
      var id := made.value;
      TiedMade(before, first, cat.records, cat.nextId, path, id, data.bs, ids, data.files);
      var k := Position(ids, id);
      if k == |ids| {
        NewReferenced(refs, ids, data.files, id);
        var added := data.AddFile();
        ids := ids + [id];
      }
      NothingMoved(before, cat.records, data.disk, data.bs, ids0, files0);
      TiedParts(cat.records, data.bs, ids, data.files);
      r := Ok(k);
    }

    /** Rewrites file k, and records its new size and place in the catalog and the extent references. */
    method Store(k: nat, id: nat, content: seq<byte>, ghost total: nat) returns (r: Result<bool>)
      requires Valid() && k < |ids| && ids[k] == id
      modifies this`refs, cat`records, data`disk, data`files, data.sm
      ensures r.Ok? ==> Valid() && SamePinned(old(data.disk), data.disk, data.pinned)
      ensures r.Ok? ==> W.SameChildrenAt(cat.records, old(cat.records))
      ensures r.Ok? ==> Content(cat.records, data.disk, data.bs, id) == Ok(content)
      ensures r.Ok? ==> ContentKept(old(cat.records), old(data.disk), cat.records, data.disk, data.bs, {id})
      ensures r.Ok? ==>
                && P.KindsSame(old(cat.records), cat.records) && P.StreamsStay(old(cat.records), cat.records)
                && |cat.records| == |old(cat.records)| && |refs| <= |old(refs)| + 1
                && k < |data.files| == |old(data.files)| && data.files == old(data.files)[k := data.files[k]]
                && S.Loose(data.frozen, data.files[k])
      ensures r.Ok? && W.AllStorable(old(cat.records)) && |content| + data.bs <= U64 ==> W.AllStorable(cat.records)
      ensures S.BlocksFor(content, data.bs) <= total &&
              S.Feasible(old(data.disk), old(data.sm.chunks), data.sm.blocksPerChunk, data.frozen, old(data.files),
                         total) ==>
                && r.Ok? && Stock(old(data.sm.chunks)) <= Stock(data.sm.chunks) + S.BlocksFor(content, data.bs)
                && S.Feasible(data.disk, data.sm.chunks, data.sm.blocksPerChunk, data.frozen, data.files,
                              total - S.BlocksFor(content, data.bs))
    {
      hide Tracked;
      hide W.AllStorable, P.KindsSame, P.StreamsStay;
      hide R.WellFormed, R.StreamAt, Tied, Referenced, Content, ContentKept, S.Sound, S.HistoryHeld, S.OmapHeld,
           S.ReadFile, S.Region, S.OnDisk, S.Wiped, S.CanMove, S.Feasible, S.StaysPut, S.Loose, S.Released,
           S.BlocksFor, S.Cells, S.Loosened, Used, ChunksOk, TotalFree, Bounded, WholeBlocks, SamePinned, Stock,
           R.Find, R.Count, W.SameChildrenAt, W.SameStreamsBut, Filed, Moved;
      ghost var records, disk0, files0 := cat.records, data.disk, data.files;
      TiedParts(records, data.bs, ids, data.files);
      var from := data.files[k].start;
      var moved := data.UpdateFile(k, content, total);
      if moved.Err? {
        return Err(moved.error);
      }
      var f := data.files[k];
      S.NotEmpty(content, data.bs);
      MovedReferenced(data.frozen, Used(data.sm.chunks), data.pinned, data.headers, refs, ids, files0, k, f);
      ghost var refs0 := refs;
      refs := Moved(refs, from, f, id);
      HeldStream(records, data.bs, ids, files0, k);
      var i, j := OwnRecords(cat.records, id);
      FiledLocated(records, id, i, j, |content|, f.blocks * data.bs, f.start);
      FiledWellFormed(records, cat.nextId, i, j, |content|, f.blocks * data.bs, f.start);
      FiledKinds(records, id, i, j, |content|, f.blocks * data.bs, f.start);
      MovedSize(refs0, from, f, id);
      if W.AllStorable(records) && |content| + data.bs <= U64 {
        PlaceFits(data.sm.chunks, f, content, data.bs);
        FiledStorable(records, i, j, |content|, f.blocks * data.bs, f.start);
      }
      cat.records := Filed(cat.records, i, j, |content|, f.blocks * data.bs, f.start);
      TiedFiled(records, cat.records, data.bs, ids, files0, k, f, |content|);
      NewContent(cat.records, data.disk, data.bs, id, f, content);
      forall j | 0 <= j < |files0| && j != k && S.OnDisk(disk0, files0[j])
        ensures S.OnDisk(data.disk, files0[j]) && S.Region(data.disk, files0[j]) == S.Region(disk0, files0[j])
      {
        assert data.files[j] == files0[j];
      }
      KeptContent(records, disk0, cat.records, data.disk, data.bs, k, ids, files0);
      r := Ok(true);
    }

    /**
     * Makes the path if need be, rewrites its file, and records the new size and place in the
     * catalog and the extent references. The path then leads to exactly `content`; every other
     * file keeps its content and every path that led somewhere still leads there. A path with a
     * name the layout cannot read is refused. It succeeds if the names can be read, the path is
     * open and a clear run covers the content, and what is still to come stays possible.
     */
    method UpdateOne(layout: KeyLayout, hash: seq<byte> -> nat, rank: R.Rec -> int, path: seq<seq<byte>>,
                     content: seq<byte>, ghost rest: seq<seq<seq<byte>>>, ghost total: nat)
        returns (r: Result<nat>)
      requires Valid() && (R.AllLegible(layout, hash, path) || W.NoRevisit(cat.records, path))
      modifies this, cat, data`disk, data`files, data.sm
      ensures r.Ok? ==> Valid()
      ensures r.Ok? ==> R.AllLegible(layout, hash, path)
      ensures r.Ok? && P.Treelike(old(cat.records)) ==> P.Treelike(cat.records)
      ensures r.Ok? ==> OneDone(old(Now()), Now(), data.bs, data.pinned, (path, content), r.value)
      ensures r.Ok? && W.AllStorable(old(cat.records)) && ChangeFits((path, content), data.bs) ==>
                W.AllStorable(cat.records)
      ensures R.AllLegible(layout, hash, path) && OneFunded(old(Now()), (path, content), rest, total, data.bs) ==>
                r.Ok? && OneDefrayed(old(Now()), Now(), (path, content), rest, total, data.bs)
    {
      hide R.WellFormed, R.Keeps, R.Resolve, R.AllLegible, Tied, Referenced, Content, ContentKept, SamePinned,
           W.NoRevisit, P.Treelike, W.SameChildrenAt, S.Sound, S.HistoryHeld, S.OmapHeld, Used, ChunksOk, TotalFree,
           Bounded, WholeBlocks,
           Prospect, S.Feasible, S.BlocksFor, Stock, W.AllStorable, W.NamesShort, W.Made, W.MadeExactly, Reachable,
           P.KindsSame, P.StreamsStay, R.StreamAt, S.Loose, OnlyMoved, Tracked;
      ghost var s, before, disk0, first, files0, chunks0 :=
        Now(), cat.records, data.disk, cat.nextId, data.files, data.sm.chunks;
      ghost var able :=
        R.AllLegible(layout, hash, path) && OneFunded(s, (path, content), rest, total, data.bs);
      if able {
        ProspectFirst(s, path, rest, total);
      }
      var k := Reach(layout, hash, rank, path);
      if k.Err? {
        return Err(k.error);
      }
      ghost var records, files1 := cat.records, data.files;
      if able {
        FeasibleAdded(disk0, chunks0, data.sm.blocksPerChunk, data.frozen, files0, files1, total);
      }
      var stored := Store(k.value, ids[k.value], content, total);
      if stored.Err? {
        return Err(stored.error);
      }
      MadeIds(before, first, records, cat.nextId, path, ids[k.value]);
      if P.Treelike(before) {
        P.TreeMade(before, first, records, cat.nextId, path, ids[k.value]);
        P.TreeSame(records, cat.records);
      }
      if able {
        ProspectOn(s, records, Now(), path, rest, total, total - S.BlocksFor(content, data.bs), ids[k.value]);
      }
      NamesKept(before, records, cat.records, path, ids[k.value]);
      MovedOne(data.frozen, files0, files1, data.files, k.value);
      KeptTwice(before, records, cat.records, disk0, disk0, data.disk, data.bs, {}, {ids[k.value]});
      r := Ok(ids[k.value]);
    }

    /**
     * All the changes of an update, in order. Every path leads to its content unless a later one
     * leads to the same file; files no path leads to keep theirs. They are refused if the layout
     * cannot read some name, and succeed if it can read all, all paths are open and one clear run
     * covers all the content.
     */
    method UpdateAll(layout: KeyLayout, hash: seq<byte> -> nat, rank: R.Rec -> int, changes: seq<Change>,
                     ghost rest: seq<seq<seq<byte>>>, ghost total: nat)
        returns (r: Result<bool>, ghost done: seq<nat>)
      requires Valid() && (Readable(layout, hash, changes) || P.Treelike(cat.records))
      modifies this, cat, data`disk, data`files, data.sm
      ensures r.Ok? ==> Readable(layout, hash, changes)
      ensures r.Ok? && P.Treelike(old(cat.records)) ==> P.Treelike(cat.records)
      ensures r.Ok? ==> Valid() && AllDone(old(Now()), Now(), data.bs, data.pinned, changes, done)
      ensures r.Ok? ==> Enlarged(old(Now()), Now(), changes)
      ensures r.Ok? && W.AllStorable(old(cat.records)) && AllFit(changes, data.bs) ==> W.AllStorable(cat.records)
      ensures Readable(layout, hash, changes) && Funded(old(Now()), changes, rest, total, data.bs) ==>
                r.Ok? && Defrayed(old(Now()), Now(), changes, rest, total, data.bs)
    {
      hide R.AllLegible, W.NoRevisit, P.Treelike, Tracked, Underway, Sized, Paid, AllDone, Enlarged,
           Defrayed, OneDone, OneFunded, OneDefrayed;
      hide R.WellFormed, R.Keeps, R.Resolve, Tied, Referenced, Content, ContentKept, SamePinned, EachStored,
           S.Sound, S.HistoryHeld, S.OmapHeld, Used, ChunksOk, TotalFree, Bounded, WholeBlocks, Prospect, S.BlocksFor,
           Stock, W.AllStorable, ChangeFits, Growth, BlocksOf, Paths, P.NameCount;
      ghost var s, able := Now(), Readable(layout, hash, changes) && Funded(Now(), changes, rest, total, data.bs);
      ghost var spare: nat := if able then total - BlocksOf(changes, data.bs) else 0;
      ghost var fit := W.AllStorable(cat.records) && AllFit(changes, data.bs);
      done := [];
      AllStarts(s, changes, data.bs, data.pinned, rest, total);
      for i := 0 to |changes|
        invariant Valid() && Underway(s, Now(), data.bs, data.pinned, changes, i, done) && Sized(s, Now(), changes, i)
        invariant P.Treelike(old(cat.records)) ==> P.Treelike(cat.records)
        invariant forall j :: 0 <= j < i ==> R.AllLegible(layout, hash, changes[j].0)
        invariant fit ==> W.AllStorable(cat.records)
        invariant able ==> Paid(s, Now(), changes, i, rest, spare, data.bs)
      {
        ghost var before := Now();
        if P.Treelike(cat.records) {
          P.TreeNoRevisit(cat.records, cat.nextId, changes[i].0);
        }
        ghost var left := spare + BlocksOf(changes[i..], data.bs);
        if able {
          PaidNow(s, before, changes, i, rest, spare, data.bs);
        }
        var id := UpdateOne(layout, hash, rank, changes[i].0, changes[i].1, Paths(changes[i + 1..]) + rest, left);
        if id.Err? {
          return Err(id.error), done;
        }
        UnderwayOn(s, before, Now(), data.bs, data.pinned, changes, i, done, id.value);
        if able {
          PaidOn(s, before, Now(), changes, i, rest, spare, data.bs);
        }
        done := done + [id.value];
      }
      AllEnds(s, Now(), data.bs, data.pinned, changes, done);
      if able {
        PaidAll(s, Now(), changes, rest, total, data.bs);
      }
      r := Ok(true);
    }

    /**
     * Sorts the extent references and publishes them with the catalog and the object map. No file's
     * content and nothing pinned changes; the catalog published decodes to the records.
     */
    method PublishAll(encode: R.Rec -> Record, ghost decode: Record -> R.Rec, encodeRef: Ref -> Record, newXid: nat,
                      rewritten: Blocks, ghost rest: seq<seq<seq<byte>>>, ghost total: nat, ghost n: nat, ghost m: nat)
        returns (r: Result<nat>, ghost h: S.Past)
      requires Valid() && data.xid < newXid < U64 && Coded(encode, decode, encodeRef)
      requires rewritten.Keys <= data.headers && WholeBlocks(rewritten, data.bs)
      modifies this`refs, cat`nextId, data, data.sm
      ensures data.files == old(data.files)
      ensures r.Ok? ==> Valid() && SamePinned(old(data.disk), data.disk, old(data.pinned)) && |refs| == |old(refs)|
      ensures r.Ok? ==> ContentKept(cat.records, old(data.disk), cat.records, data.disk, data.bs, {})
      ensures r.Ok? ==> data.xid == newXid && old(data.pinned) <= data.pinned
      ensures r.Ok? ==> S.EarlierSame(old(data.omap), data.omap, newXid)
      ensures r.Ok? ==> data.history == old(data.history) + [h] && h.xid == newXid && h.t.paddr == r.value
      ensures r.Ok? ==>
                S.NewlyHeld(data.disk, data.bs, data.omap, data.pinned - old(data.pinned), newXid, h, data.omapRoot,
                            data.omapTree, data.omapLevel)
      ensures r.Ok? && W.AllStorable(cat.records) ==> Decoded(Records(h.t), decode) == cat.records
      ensures TreesFit(old(Now()), rest, total, n, m) && W.AllStorable(cat.records) && Compact(encode, encodeRef) ==>
                r.Ok? && TreesDone(old(Now()), Now(), rest, total, n, m)
    {
      hide R.WellFormed, Tied, Referenced, Content, ContentKept, SamePinned, SortRefs, S.Sound, S.HistoryHeld,
           S.OmapHeld, Used, ChunksOk, TotalFree, Bounded, WholeBlocks, NoBlanks, Records, S.FilesKept,
           S.RoomToPublish, Stock, S.EarlierSame, Encoded, Decoded, Coded, Compact, Prospect, W.AllStorable,
           P.NameCount, TreesCost, S.Feasible, S.PublishCost, NodesNeeded, EncodedRefs, TreesFit, TreesDone,
           S.NewlyHeld, Tracked;
      h := S.Past(0, Leaf(0, 0, []), 0);
      ghost var s, mapped := Now(), |data.omap|;
      ghost var able := TreesFit(s, rest, total, n, m) && W.AllStorable(cat.records) && Compact(encode, encodeRef);
      ReferencedSorted(refs, ids, data.files);
      SortedSize(refs);
      refs := SortRefs(refs);
      EncodedFull(cat.records, encode, decode, encodeRef);
      EncodedRefsFull(refs, encode, decode, encodeRef);
      if W.AllStorable(cat.records) {
        DecodesBack(cat.records, encode, decode, encodeRef);
      }
      if able {
        TreesRoom(s, rest, total, n, m, refs, encode, encodeRef);
      }
      ghost var disk1, history1, pinned1 := data.disk, data.history, data.pinned;
      r := data.Publish(Encoded(cat.records, encode), EncodedRefs(refs, encodeRef), newXid, cat.nextId, rewritten,
                        total);
      if r.Err? {
        return;
      }
      h :| data.history == history1 + [h] && h.xid == newXid && h.t.paddr == r.value &&
          Records(h.t) == Encoded(cat.records, encode) &&
          S.NewlyHeld(data.disk, data.bs, data.omap, data.pinned - pinned1, newXid, h, data.omapRoot, data.omapTree,
                      data.omapLevel);
      PublishedContent(cat.records, disk1, data.disk, data.bs, ids, data.files);
      LaterIds(cat.records, cat.nextId, data.nextOid);
      cat.nextId := data.nextOid;
      if able {
        TreesOut(s, Now(), rest, total, n, m, refs, encode, encodeRef);
      }
    }

    /**
     * A whole update: all changes, then catalog, object map and extent references are published.
     * The published catalog decodes to records by which every path leads to its content. Nothing
     * pinned changes, so snapshots and earlier catalogs stay readable. With a name the layout cannot
     * read it is refused and publishes nothing. It succeeds if all names can be read, all paths are
     * open, one clear run covers content and trees, ids suffice and the records fit.
     */
    method Update(layout: KeyLayout, hash: seq<byte> -> nat, rank: R.Rec -> int, changes: seq<Change>,
                  encode: R.Rec -> Record, ghost decode: Record -> R.Rec, encodeRef: Ref -> Record, newXid: nat,
                  rewritten: Blocks, ghost rest: seq<seq<seq<byte>>>, ghost total: nat)
        returns (r: Result<nat>, ghost done: seq<nat>, ghost h: S.Past)
      requires Valid() && data.xid < newXid < U64
      requires Readable(layout, hash, changes) || P.Treelike(cat.records)
      requires Coded(encode, decode, encodeRef)
      requires rewritten.Keys <= data.headers && WholeBlocks(rewritten, data.bs)
      modifies this, cat, data, data.sm
      ensures !Readable(layout, hash, changes) ==>
                && r.Err? && data.history == old(data.history) && data.xid == old(data.xid)
                && data.omap == old(data.omap)
      ensures r.Ok? && P.Treelike(old(cat.records)) ==> P.Treelike(cat.records)
      ensures r.Ok? ==>
                Valid() && SamePinned(old(data.disk), data.disk, old(data.pinned)) &&
                R.Keeps(old(cat.records), cat.records)
      ensures r.Ok? ==> EachStored(changes, done, cat.records, data.disk, data.bs)
      ensures r.Ok? ==> ContentKept(old(cat.records), old(data.disk), cat.records, data.disk, data.bs, SetOf(done))
      ensures r.Ok? ==> OnlyMoved(data.frozen, old(data.files), data.files)
      ensures r.Ok? ==> data.xid == newXid && old(data.pinned) <= data.pinned
      ensures r.Ok? ==> S.EarlierSame(old(data.omap), data.omap, newXid)
      ensures r.Ok? ==> data.history == old(data.history) + [h] && h.xid == newXid && h.t.paddr == r.value
      ensures r.Ok? ==>
                S.NewlyHeld(data.disk, data.bs, data.omap, data.pinned - old(data.pinned), newXid, h, data.omapRoot,
                            data.omapTree, data.omapLevel)
      ensures r.Ok? && W.AllStorable(old(cat.records)) && AllFit(changes, data.bs) ==>
                W.AllStorable(cat.records) && Decoded(Records(h.t), decode) == cat.records
      ensures Readable(layout, hash, changes) && Affordable(old(Now()), changes, rest, total, data.bs) &&
              Suits(old(Now()), changes, data.bs, encode, encodeRef) ==>
                r.Ok? && Afforded(old(Now()), Now(), changes, rest, total, data.bs)
    {
      hide Readable, P.Treelike, S.NewlyHeld, Tracked, OnlyMoved;
      hide R.WellFormed, R.Keeps, R.Resolve, Tied, Referenced, Content, ContentKept, SamePinned,
           EachStored, S.Sound, S.HistoryHeld, S.OmapHeld, Used, ChunksOk, TotalFree, Bounded, WholeBlocks,
           Records, Stock, S.EarlierSame, Decoded, Coded, Compact, Affordable,
           Prospect, W.AllStorable, AllFit, Growth, BlocksOf, Paths, P.NameCount, TreesCost;
      h := S.Past(0, Leaf(0, 0, []), 0);
      ghost var s, n, m := Now(), |cat.records| + Growth(changes), |refs| + |changes|;
      ghost var able :=
        Readable(layout, hash, changes) && Affordable(s, changes, rest, total, data.bs) &&
        Suits(s, changes, data.bs, encode, encodeRef);
      if able {
        AffordableBlocks(s, changes, rest, total, data.bs);
      }
      var all, ids1 := UpdateAll(layout, hash, rank, changes, rest, total);
      done := ids1;
      if all.Err? {
        r := Err(all.error);
        return;
      }
      ghost var disk1, pinned1, records1 := data.disk, data.pinned, cat.records;
      ghost var left := if able then total - BlocksOf(changes, data.bs) else 0;
      if able {
        AffordableThen(s, Now(), changes, rest, total, data.bs);
      }
      r, h := PublishAll(encode, decode, encodeRef, newXid, rewritten, rest, left, n, m);
      if r.Err? {
        return;
      }
      StillStored(changes, done, cat.records, disk1, data.disk, data.bs);
      KeptTwice(old(cat.records), cat.records, cat.records, old(data.disk), disk1, data.disk, data.bs, SetOf(done), {});
      PinnedTrans(old(data.disk), disk1, data.disk, pinned1);
    }
  }

  // ---- what is still possible ------------------------------------------------------------------------------

  /** A path and the bytes its file is to hold. */
  type Change = (seq<seq<byte>>, seq<byte>)

  /** The layout can read the names of all the paths. */
  predicate Readable(layout: KeyLayout, hash: seq<byte> -> nat, changes: seq<Change>) {
    forall i :: 0 <= i < |changes| ==> R.AllLegible(layout, hash, changes[i].0)
  }

  /** The names fit a hashed key, and the content a 64-bit length. */
  predicate ChangeFits(c: Change, bs: nat) {
    W.NamesShort(c.0) && |c.1| + bs <= U64
  }

  predicate AllFit(changes: seq<Change>, bs: nat) {
    forall i :: 0 <= i < |changes| ==> ChangeFits(changes[i], bs)
  }

  function Paths(changes: seq<Change>): (paths: seq<seq<seq<byte>>>)
    ensures |paths| == |changes|
  {
    seq(|changes|, i requires 0 <= i < |changes| => changes[i].0)
  }

  /** How many blocks the content takes. */
  function BlocksOf(changes: seq<Change>, bs: nat): nat
    requires bs > 0
  {
    if changes == [] then 0 else S.BlocksFor(changes[0].1, bs) + BlocksOf(changes[1..], bs)
  }

  /** The most records the paths can bring. */
  function Growth(changes: seq<Change>): nat {
    if changes == [] then 0 else 2 * |changes[0].0| + 2 + Growth(changes[1..])
  }

  /** The most blocks the trees of n records, m references and a map of `mapped` entries can take. */
  function TreesCost(n: nat, m: nat, mapped: nat): nat {
    4 * (3 * n + 1) + 3 * mapped + 1 + (3 * m + 1)
  }

  /** What decides whether updates succeed: catalog, device, free space, files, and how long the other lists are. */
  datatype Scene = Scene(records: seq<R.Rec>, next: nat, disk: Blocks, chunks: seq<Chunk>, perChunk: nat,
                         frozen: seq<S.Extent>, files: seq<S.Extent>, refs: nat, mapped: nat)

  ghost predicate FeasibleIn(s: Scene, total: nat) {
    S.Feasible(s.disk, s.chunks, s.perChunk, s.frozen, s.files, total)
  }

  /** The paths can be made one after the other, and a clear run of `total` blocks is there for their content. */
  ghost predicate Prospect(s: Scene, paths: seq<seq<seq<byte>>>, total: nat) {
    P.AllOpen(s.records, paths) && s.next + P.NameCount(paths) < U64 && FeasibleIn(s, total)
  }

  lemma ProspectFirst(s: Scene, path: seq<seq<byte>>, rest: seq<seq<seq<byte>>>, total: nat)
    requires Prospect(s, [path] + rest, total)
    ensures Reachable(s.records, s.next, path) && FeasibleIn(s, total)
  {
    hide P.AllOpen, FeasibleIn, W.Acceptable, R.Resolve, R.StreamAt;
    P.FirstOpen(s.records, s.next, [path] + rest);
  }

  lemma ProspectFeasible(s: Scene, paths: seq<seq<seq<byte>>>, total: nat)
    requires Prospect(s, paths, total)
    ensures FeasibleIn(s, total)
  {
    hide P.AllOpen, FeasibleIn;
  }

  /** An empty extent more changes nothing. */
  lemma FeasibleAdded(disk: Blocks, chunks: seq<Chunk>, perChunk: nat, frozen: seq<S.Extent>, files: seq<S.Extent>,
                      more: seq<S.Extent>, total: nat)
    requires S.Feasible(disk, chunks, perChunk, frozen, files, total)
    requires more == files || more == files + [S.Extent(0, 0)]
    ensures S.Feasible(disk, chunks, perChunk, frozen, more, total)
  {
    hide Tiled, InOneChunk, LongRun, S.Covers, S.Protected;
  }

  lemma FeasibleLess(s: Scene, total: nat, less: nat)
    requires FeasibleIn(s, total) && less <= total
    ensures FeasibleIn(s, less)
  {
    hide Tiled, InOneChunk, LongRun, S.Covers, S.Loose;
    ShorterRun(s.chunks, total, less);
  }

  lemma MadeIds(before: seq<R.Rec>, first: nat, records: seq<R.Rec>, next: nat, path: seq<seq<byte>>, id: nat)
    requires W.Made(before, first, records, next, path, id)
    ensures next <= first + |path|
  {
    hide R.WellFormed, R.Resolve, R.StreamAt, R.Keeps;
  }

  /** One change done, the others are still possible. */
  lemma ProspectOn(s: Scene, made: seq<R.Rec>, t: Scene, path: seq<seq<byte>>, rest: seq<seq<seq<byte>>>, total: nat,
                   left: nat, id: nat)
    requires Prospect(s, [path] + rest, total) && R.WellFormed(s.records, s.next)
    requires W.Made(s.records, s.next, made, t.next, path, id) &&
             W.MadeExactly(s.records, s.next, made, t.next, path, id)
    requires W.SameChildrenAt(t.records, made) && P.KindsSame(made, t.records) && P.StreamsStay(made, t.records)
    requires FeasibleIn(t, left)
    ensures Prospect(t, rest, left)
  {
    hide P.AllOpen, FeasibleIn, R.WellFormed, W.Made, W.MadeExactly, W.SameChildrenAt, P.KindsSame, P.StreamsStay;
    var all := [path] + rest;
    assert all[1..] == rest && all[0] == path;
    P.RestOpen(s.records, s.next, made, t.next, all, id);
    P.AllStayOpen(made, t.records, rest);
    MadeIds(s.records, s.next, made, t.next, path, id);
  }

  lemma NoChanges(bs: nat)
    requires bs > 0
    ensures BlocksOf([], bs) == 0 && Growth([]) == 0 && Paths([]) == [] && P.NameCount(Paths([])) == 0
  {
  }

  lemma ChangesStep(changes: seq<Change>, bs: nat, i: nat, rest: seq<seq<seq<byte>>>)
    requires bs > 0 && i < |changes|
    ensures BlocksOf(changes[i..], bs) == S.BlocksFor(changes[i].1, bs) + BlocksOf(changes[i + 1..], bs)
    ensures Growth(changes[i..]) == 2 * |changes[i].0| + 2 + Growth(changes[i + 1..])
    ensures Paths(changes[i..]) + rest == [changes[i].0] + (Paths(changes[i + 1..]) + rest)
    ensures P.NameCount(Paths(changes[i..])) == |changes[i].0| + P.NameCount(Paths(changes[i + 1..]))
  {
    hide S.BlocksFor;
    assert changes[i..][0] == changes[i] && changes[i..][1..] == changes[i + 1..];
    assert Paths(changes[i..])[1..] == Paths(changes[i + 1..]);
  }

  /** Files that moved, and new ones, lie in no snapshot extent or are empty. */
  ghost predicate OnlyMoved(frozen: seq<S.Extent>, f1: seq<S.Extent>, f2: seq<S.Extent>) {
    |f1| <= |f2| && forall i :: 0 <= i < |f2| ==> Settled(frozen, f1, f2[i], i)
  }

  predicate Settled(frozen: seq<S.Extent>, f1: seq<S.Extent>, e: S.Extent, i: nat) {
    S.Loose(frozen, e) || e.blocks == 0 || (i < |f1| && e == f1[i])
  }

  lemma MovedTwice(frozen: seq<S.Extent>, f1: seq<S.Extent>, f2: seq<S.Extent>, f3: seq<S.Extent>)
    requires OnlyMoved(frozen, f1, f2) && OnlyMoved(frozen, f2, f3)
    ensures OnlyMoved(frozen, f1, f3)
  {
    hide S.Loose;
    forall i | 0 <= i < |f3| ensures Settled(frozen, f1, f3[i], i) {
      assert Settled(frozen, f2, f3[i], i);
      if i < |f2| {
        assert Settled(frozen, f1, f2[i], i);
      }
    }
  }

  lemma MovedOne(frozen: seq<S.Extent>, f1: seq<S.Extent>, f2: seq<S.Extent>, f3: seq<S.Extent>, k: nat)
    requires f2 == f1 || f2 == f1 + [S.Extent(0, 0)]
    requires |f3| == |f2| && k < |f2| && f3 == f2[k := f3[k]] && S.Loose(frozen, f3[k])
    ensures OnlyMoved(frozen, f1, f3)
  {
    hide S.Loose;
    forall i | 0 <= i < |f3| ensures Settled(frozen, f1, f3[i], i) {
      if i != k {
        assert f3[i] == f2[i];
      }
    }
  }

  /**
   * A change is done: its path leads to its content, nothing pinned changed, names lead where they
   * did, other files hold what they held, and the volume has not grown by more than the change needs.
   */
  ghost predicate OneDone(s: Scene, t: Scene, bs: nat, pinned: set<nat>, c: Change, id: nat) {
    && SamePinned(s.disk, t.disk, pinned) && R.Keeps(s.records, t.records)
    && R.Resolve(t.records, R.ROOT, c.0) == Ok(id) && bs > 0 && Content(t.records, t.disk, bs, id) == Ok(c.1)
    && ContentKept(s.records, s.disk, t.records, t.disk, bs, {id})
    && |t.records| <= |s.records| + 2 * |c.0| + 2 && t.refs <= s.refs + 1 && t.next <= s.next + |c.0|
    && t.frozen == s.frozen && OnlyMoved(s.frozen, s.files, t.files)
  }

  /** Its path is open, and those of `rest` after it, and a clear run covers its content. */
  ghost predicate OneFunded(s: Scene, c: Change, rest: seq<seq<seq<byte>>>, total: nat, bs: nat)
    requires bs > 0
  {
    Prospect(s, [c.0] + rest, total) && S.BlocksFor(c.1, bs) <= total
  }

  /** What is left when it is done. */
  ghost predicate OneDefrayed(s: Scene, t: Scene, c: Change, rest: seq<seq<seq<byte>>>, total: nat, bs: nat)
    requires bs > 0
  {
    && S.BlocksFor(c.1, bs) <= total && Stock(s.chunks) <= Stock(t.chunks) + S.BlocksFor(c.1, bs)
    && Prospect(t, rest, total - S.BlocksFor(c.1, bs))
  }

  /** All changes are stored, nothing pinned changed, names lead where they did, and other files hold what they held. */
  ghost predicate AllDone(s: Scene, t: Scene, bs: nat, pinned: set<nat>, changes: seq<Change>, done: seq<nat>) {
    && SamePinned(s.disk, t.disk, pinned) && R.Keeps(s.records, t.records)
    && EachStored(changes, done, t.records, t.disk, bs)
    && ContentKept(s.records, s.disk, t.records, t.disk, bs, SetOf(done))
    && t.frozen == s.frozen && OnlyMoved(s.frozen, s.files, t.files)
  }

  /** How far the changes can make the volume grow. */
  ghost predicate Enlarged(s: Scene, t: Scene, changes: seq<Change>) {
    && |t.records| <= |s.records| + Growth(changes) && t.refs <= s.refs + |changes|
    && t.next <= s.next + P.NameCount(Paths(changes))
  }

  /** Their paths are open, and those of `rest` after them, and one clear run covers their content. */
  ghost predicate Funded(s: Scene, changes: seq<Change>, rest: seq<seq<seq<byte>>>, total: nat, bs: nat)
    requires bs > 0
  {
    Prospect(s, Paths(changes) + rest, total) && BlocksOf(changes, bs) <= total
  }

  /** What is left when they are done. */
  ghost predicate Defrayed(s: Scene, t: Scene, changes: seq<Change>, rest: seq<seq<seq<byte>>>, total: nat, bs: nat)
    requires bs > 0
  {
    && BlocksOf(changes, bs) <= total && Stock(s.chunks) <= Stock(t.chunks) + BlocksOf(changes, bs)
    && Prospect(t, rest, total - BlocksOf(changes, bs))
  }

  /** After i changes: they are stored, names lead where they did, and other files hold what they held. */
  ghost predicate Underway(s: Scene, t: Scene, bs: nat, pinned: set<nat>, changes: seq<Change>, i: nat, done: seq<nat>)
  {
    && i <= |changes| && SamePinned(s.disk, t.disk, pinned) && R.Keeps(s.records, t.records)
    && EachStored(changes[..i], done, t.records, t.disk, bs)
    && ContentKept(s.records, s.disk, t.records, t.disk, bs, SetOf(done))
    && t.frozen == s.frozen && OnlyMoved(s.frozen, s.files, t.files)
  }

  /** How far the volume can have grown by then. */
  ghost predicate Sized(s: Scene, t: Scene, changes: seq<Change>, i: nat) {
    && i <= |changes| && |t.records| + Growth(changes[i..]) <= |s.records| + Growth(changes) && t.refs <= s.refs + i
    && t.next + P.NameCount(Paths(changes[i..])) <= s.next + P.NameCount(Paths(changes))
  }

  /** What is left by then covers the other changes. */
  ghost predicate Paid(s: Scene, t: Scene, changes: seq<Change>, i: nat, rest: seq<seq<seq<byte>>>, spare: nat, bs: nat)
    requires bs > 0
  {
    && i <= |changes| && Stock(s.chunks) + BlocksOf(changes[i..], bs) <= Stock(t.chunks) + BlocksOf(changes, bs)
    && Prospect(t, Paths(changes[i..]) + rest, spare + BlocksOf(changes[i..], bs))
  }

  lemma AllStarts(s: Scene, changes: seq<Change>, bs: nat, pinned: set<nat>, rest: seq<seq<seq<byte>>>, total: nat)
    requires bs > 0
    ensures Underway(s, s, bs, pinned, changes, 0, []) && Sized(s, s, changes, 0)
    ensures Funded(s, changes, rest, total, bs) ==> Paid(s, s, changes, 0, rest, total - BlocksOf(changes, bs), bs)
  {
    hide EachStored, ContentKept, SamePinned, R.Keeps, Prospect, Stock, Growth, BlocksOf, Paths, P.NameCount;
    NothingStored(changes, s.records, s.disk, bs, pinned);
    assert changes[0..] == changes;
  }

  lemma UnderwayOn(s: Scene, t: Scene, u: Scene, bs: nat, pinned: set<nat>, changes: seq<Change>, i: nat,
                   done: seq<nat>, id: nat)
    requires bs > 0 && Underway(s, t, bs, pinned, changes, i, done) && i < |changes|
    requires Sized(s, t, changes, i) && OneDone(t, u, bs, pinned, changes[i], id)
    ensures Underway(s, u, bs, pinned, changes, i + 1, done + [id]) && Sized(s, u, changes, i + 1)
  {
    hide Sized, OnlyMoved;
    SizedOn(s, t, u, changes, i);
    MovedTwice(s.frozen, s.files, t.files, u.files);
    hide R.Keeps, R.Resolve, Content, ContentKept, SamePinned, EachStored;
    assert changes[..i + 1] == changes[..i] + [changes[i]];
    MoreStored(changes[..i], done, t.records, t.disk, u.records, u.disk, bs, changes[i], id);
    KeptTwice(s.records, t.records, u.records, s.disk, t.disk, u.disk, bs, SetOf(done), {id});
    assert SetOf(done + [id]) == SetOf(done) + {id};
    R.KeepsTrans(s.records, t.records, u.records);
    PinnedTrans(s.disk, t.disk, u.disk, pinned);
  }

  lemma SizedOn(s: Scene, t: Scene, u: Scene, changes: seq<Change>, i: nat)
    requires Sized(s, t, changes, i) && i < |changes|
    requires |u.records| <= |t.records| + 2 * |changes[i].0| + 2 && u.refs <= t.refs + 1
    requires u.next <= t.next + |changes[i].0|
    ensures Sized(s, u, changes, i + 1)
  {
    hide Growth, BlocksOf, Paths, P.NameCount;
    ChangesStep(changes, 1, i, []);
  }

  lemma PaidNow(s: Scene, t: Scene, changes: seq<Change>, i: nat, rest: seq<seq<seq<byte>>>, spare: nat, bs: nat)
    requires bs > 0 && Paid(s, t, changes, i, rest, spare, bs) && i < |changes|
    ensures OneFunded(t, changes[i], Paths(changes[i + 1..]) + rest, spare + BlocksOf(changes[i..], bs), bs)
  {
    hide S.BlocksFor, Prospect, Stock, Growth, BlocksOf, Paths, P.NameCount;
    ChangesStep(changes, bs, i, rest);
  }

  lemma PaidOn(s: Scene, t: Scene, u: Scene, changes: seq<Change>, i: nat, rest: seq<seq<seq<byte>>>, spare: nat,
               bs: nat)
    requires bs > 0 && Paid(s, t, changes, i, rest, spare, bs) && i < |changes|
    requires OneDefrayed(t, u, changes[i], Paths(changes[i + 1..]) + rest, spare + BlocksOf(changes[i..], bs), bs)
    ensures Paid(s, u, changes, i + 1, rest, spare, bs)
  {
    hide Prospect, Stock, Growth, BlocksOf, Paths, P.NameCount, S.BlocksFor;
    ChangesStep(changes, bs, i, rest);
  }

  lemma AllEnds(s: Scene, t: Scene, bs: nat, pinned: set<nat>, changes: seq<Change>, done: seq<nat>)
    requires bs > 0 && Underway(s, t, bs, pinned, changes, |changes|, done) && Sized(s, t, changes, |changes|)
    ensures AllDone(s, t, bs, pinned, changes, done) && Enlarged(s, t, changes)
  {
    hide EachStored, ContentKept, SamePinned, R.Keeps, P.NameCount;
    assert changes[..|changes|] == changes && changes[|changes|..] == [];
  }

  lemma PaidAll(s: Scene, t: Scene, changes: seq<Change>, rest: seq<seq<seq<byte>>>, total: nat, bs: nat)
    requires bs > 0 && BlocksOf(changes, bs) <= total
    requires Paid(s, t, changes, |changes|, rest, total - BlocksOf(changes, bs), bs)
    ensures Defrayed(s, t, changes, rest, total, bs)
  {
    hide Prospect, Stock, Growth, BlocksOf, Paths, P.NameCount;
    NoChanges(bs);
    assert changes[|changes|..] == [];
    assert Paths(changes[|changes|..]) + rest == rest;
  }

  lemma {:induction false} CountTogether(a: seq<seq<seq<byte>>>, b: seq<seq<seq<byte>>>)
    ensures P.NameCount(a + b) == P.NameCount(a) + P.NameCount(b)
  {
    if a == [] {
      assert a + b == b;
    } else {
      CountTogether(a[1..], b);
      assert (a + b)[0] == a[0] && (a + b)[1..] == a[1..] + b;
    }
  }

  lemma {:induction false} InsertRefSize(refs: seq<Ref>, r: Ref)
    ensures |InsertRef(refs, r)| == |refs| + 1
  {
    if refs != [] && refs[|refs| - 1].paddr > r.paddr {
      InsertRefSize(refs[..|refs| - 1], r);
    }
  }

  lemma {:induction false} SortedSize(refs: seq<Ref>)
    ensures |SortRefs(refs)| == |refs|
  {
    if refs != [] {
      SortedSize(refs[..|refs| - 1]);
      InsertRefSize(SortRefs(refs[..|refs| - 1]), refs[|refs| - 1]);
    }
  }

  /** How records become bytes: those that fit their fields are read back, and no key is empty. */
  ghost predicate Coded(encode: R.Rec -> Record, decode: Record -> R.Rec, encodeRef: Ref -> Record) {
    && (forall rec :: W.Storable(rec) ==> decode(encode(rec)) == rec)
    && (forall rec :: encode(rec).key != []) && (forall ref :: encodeRef(ref).key != [])
  }

  predicate Small(r: Record) {
    |r.key| <= 1980 && |r.key| + |r.value| <= 3976
  }

  /** The bytes of such a record fit a node of 4096 bytes. */
  ghost predicate Compact(encode: R.Rec -> Record, encodeRef: Ref -> Record) {
    (forall rec :: W.Storable(rec) ==> Small(encode(rec))) && (forall ref :: Small(encodeRef(ref)))
  }

  /** With records that fit, the trees can be published. */
  lemma RoomNow(records: seq<R.Rec>, refs: seq<Ref>, encode: R.Rec -> Record, encodeRef: Ref -> Record, mapped: nat,
                stock: nat, next: nat, n: nat, m: nat)
    requires W.AllStorable(records) && Compact(encode, encodeRef) && |records| <= n && |refs| <= m
    requires TreesCost(n, m, mapped) <= Min(stock, U64 - 1) && next + 3 * n + 1 < U64
    ensures var recs, rs := Encoded(records, encode), EncodedRefs(refs, encodeRef);
            && S.RoomToPublish(recs, rs, mapped, stock, next)
            && S.PublishCost(recs, rs, mapped) <= TreesCost(n, m, mapped) && NodesNeeded(recs) <= 3 * n + 1
  {
    hide W.Storable, Roomy;
    var recs, rs := Encoded(records, encode), EncodedRefs(refs, encodeRef);
    forall i | 0 <= i < |recs| ensures Small(recs[i]) {
      assert W.Storable(records[i]);
    }
    CatalogRoomy(recs, S.CATALOG, stock, true, next);
    CatalogRoomy(rs, S.EXTENTREF, stock, false, next);
  }

  lemma ProspectPublished(s: Scene, t: Scene, rest: seq<seq<seq<byte>>>, total: nat, cost: nat, left: nat)
    requires Prospect(s, rest, total) && t.records == s.records && t.next + P.NameCount(rest) < U64
    requires cost <= total && FeasibleIn(t, total - cost) && left <= total - cost
    ensures Prospect(t, rest, left)
  {
    hide P.AllOpen, FeasibleIn;
    FeasibleLess(t, total - cost, left);
  }

  /** Enough to publish trees of n records and m references at most. */
  ghost predicate TreesFit(s: Scene, rest: seq<seq<seq<byte>>>, total: nat, n: nat, m: nat) {
    && Prospect(s, rest, total) && |s.records| <= n && s.refs <= m
    && TreesCost(n, m, s.mapped) <= Min(total, Min(Stock(s.chunks), U64 - 1))
    && s.next + P.NameCount(rest) + 3 * n + 1 < U64
  }

  ghost predicate TreesDone(s: Scene, t: Scene, rest: seq<seq<seq<byte>>>, total: nat, n: nat, m: nat) {
    && TreesCost(n, m, s.mapped) <= total && Prospect(t, rest, total - TreesCost(n, m, s.mapped))
    && Stock(s.chunks) <= Stock(t.chunks) + TreesCost(n, m, s.mapped)
    && t.mapped <= s.mapped + 3 * n + 1 && t.next <= s.next + 3 * n + 1
  }

  lemma TreesRoom(s: Scene, rest: seq<seq<seq<byte>>>, total: nat, n: nat, m: nat, refs: seq<Ref>,
                  encode: R.Rec -> Record, encodeRef: Ref -> Record)
    requires TreesFit(s, rest, total, n, m) && W.AllStorable(s.records) && Compact(encode, encodeRef)
    requires |refs| == s.refs
    ensures var recs, rs := Encoded(s.records, encode), EncodedRefs(refs, encodeRef);
            && S.RoomToPublish(recs, rs, s.mapped, Stock(s.chunks), s.next)
            && S.PublishCost(recs, rs, s.mapped) <= total && FeasibleIn(s, total)
  {
    hide Prospect, FeasibleIn, Stock, W.AllStorable, Compact, Encoded, EncodedRefs, S.RoomToPublish, S.PublishCost,
         TreesCost, P.NameCount;
    RoomNow(s.records, refs, encode, encodeRef, s.mapped, Stock(s.chunks), s.next, n, m);
    ProspectFeasible(s, rest, total);
  }

  lemma TreesOut(s: Scene, t: Scene, rest: seq<seq<seq<byte>>>, total: nat, n: nat, m: nat, refs: seq<Ref>,
                 encode: R.Rec -> Record, encodeRef: Ref -> Record)
    requires TreesFit(s, rest, total, n, m) && W.AllStorable(s.records) && Compact(encode, encodeRef)
    requires |refs| == s.refs && t.records == s.records
    requires var recs, rs := Encoded(s.records, encode), EncodedRefs(refs, encodeRef);
             var cost := S.PublishCost(recs, rs, s.mapped);
             && cost <= total && FeasibleIn(t, total - cost) && Stock(s.chunks) <= Stock(t.chunks) + cost
             && t.mapped <= s.mapped + NodesNeeded(recs) && t.next <= s.next + NodesNeeded(recs)
    ensures TreesDone(s, t, rest, total, n, m)
  {
    hide Prospect, FeasibleIn, Stock, W.AllStorable, Compact, Encoded, EncodedRefs, S.RoomToPublish, S.PublishCost,
         TreesCost, P.NameCount, NodesNeeded;
    RoomNow(s.records, refs, encode, encodeRef, s.mapped, Stock(s.chunks), s.next, n, m);
    ProspectPublished(s, t, rest, total, S.PublishCost(Encoded(s.records, encode), EncodedRefs(refs, encodeRef),
                                                       s.mapped), total - TreesCost(n, m, s.mapped));
  }

  // ---- what an update takes ----------------------------------------------------------------------------------

  /** The most records and references there can be after the changes, and the most blocks the update can take. */
  function MostRecords(s: Scene, changes: seq<Change>): nat {
    |s.records| + Growth(changes)
  }

  function UpdateCost(s: Scene, changes: seq<Change>, bs: nat): nat
    requires bs > 0
  {
    BlocksOf(changes, bs) + TreesCost(MostRecords(s, changes), s.refs + |changes|, s.mapped)
  }

  /** Records fit their fields before and after, and fit nodes. */
  ghost predicate Suits(s: Scene, changes: seq<Change>, bs: nat, encode: R.Rec -> Record, encodeRef: Ref -> Record) {
    W.AllStorable(s.records) && AllFit(changes, bs) && Compact(encode, encodeRef)
  }

  /** Enough for an update: open paths, one clear run for content and trees, ids, and records that fit. */
  ghost predicate Affordable(s: Scene, changes: seq<Change>, rest: seq<seq<seq<byte>>>, total: nat, bs: nat)
    requires bs > 0
  {
    && Prospect(s, Paths(changes) + rest, total)
    && UpdateCost(s, changes, bs) <= Min(total, Min(Stock(s.chunks), U64 - 1))
    && s.next + P.NameCount(Paths(changes) + rest) + 3 * MostRecords(s, changes) + 1 < U64
  }

  /** What it leaves: the rest is still possible, and nothing was used up beyond the cost. */
  ghost predicate Afforded(s: Scene, t: Scene, changes: seq<Change>, rest: seq<seq<seq<byte>>>, total: nat, bs: nat)
    requires bs > 0
  {
    && UpdateCost(s, changes, bs) <= total && Prospect(t, rest, total - UpdateCost(s, changes, bs))
    && Stock(s.chunks) <= Stock(t.chunks) + UpdateCost(s, changes, bs)
    && |t.records| <= MostRecords(s, changes) && t.refs <= s.refs + |changes|
    && t.mapped <= s.mapped + 3 * MostRecords(s, changes) + 1
    && t.next <= s.next + P.NameCount(Paths(changes)) + 3 * MostRecords(s, changes) + 1
  }

  lemma AffordableBlocks(s: Scene, changes: seq<Change>, rest: seq<seq<seq<byte>>>, total: nat, bs: nat)
    requires bs > 0 && Affordable(s, changes, rest, total, bs)
    ensures BlocksOf(changes, bs) <= total && Prospect(s, Paths(changes) + rest, total)
  {
    hide Prospect, Stock, TreesCost, BlocksOf;
  }

  /** After the changes: what is left covers the trees. */
  lemma AffordableThen(s: Scene, t: Scene, changes: seq<Change>, rest: seq<seq<seq<byte>>>, total: nat, bs: nat)
    requires bs > 0 && Affordable(s, changes, rest, total, bs) && BlocksOf(changes, bs) <= total
    requires Prospect(t, rest, total - BlocksOf(changes, bs))
    requires Stock(s.chunks) <= Stock(t.chunks) + BlocksOf(changes, bs)
    requires |t.records| <= MostRecords(s, changes) && t.refs <= s.refs + |changes| && t.mapped == s.mapped
    requires t.next <= s.next + P.NameCount(Paths(changes))
    ensures TreesFit(t, rest, total - BlocksOf(changes, bs), MostRecords(s, changes), s.refs + |changes|)
  {
    hide Prospect, Stock, TreesCost, BlocksOf;
    CountTogether(Paths(changes), rest);
  }

  function Encoded(records: seq<R.Rec>, encode: R.Rec -> Record): seq<Record> {
    seq(|records|, i requires 0 <= i < |records| => encode(records[i]))
  }

  function EncodedRefs(refs: seq<Ref>, encode: Ref -> Record): seq<Record> {
    seq(|refs|, i requires 0 <= i < |refs| => encode(refs[i]))
  }

  function Decoded(records: seq<Record>, decode: Record -> R.Rec): seq<R.Rec> {
    seq(|records|, i requires 0 <= i < |records| => decode(records[i]))
  }

  lemma EncodedFull(records: seq<R.Rec>, encode: R.Rec -> Record, decode: Record -> R.Rec, encodeRef: Ref -> Record)
    requires Coded(encode, decode, encodeRef)
    ensures NoBlanks(Encoded(records, encode))
  {
  }

  lemma EncodedRefsFull(refs: seq<Ref>, encode: R.Rec -> Record, decode: Record -> R.Rec, encodeRef: Ref -> Record)
    requires Coded(encode, decode, encodeRef)
    ensures NoBlanks(EncodedRefs(refs, encodeRef))
  {
  }

  lemma DecodesBack(records: seq<R.Rec>, encode: R.Rec -> Record, decode: Record -> R.Rec, encodeRef: Ref -> Record)
    requires Coded(encode, decode, encodeRef) && W.AllStorable(records)
    ensures Decoded(Encoded(records, encode), decode) == records
  {
    hide W.Storable;
    forall i | 0 <= i < |records| ensures decode(encode(records[i])) == records[i] {
      assert W.Storable(records[i]);
    }
  }

  /** Publishing writes to fresh blocks only, so files stay as they are. */
  lemma PublishedContent(records: seq<R.Rec>, d1: Blocks, d2: Blocks, bs: nat, ids: seq<nat>, files: seq<S.Extent>)
    requires bs > 0 && Tied(records, bs, ids, files) && S.FilesKept(d1, d2, files)
    ensures ContentKept(records, d1, records, d2, bs, {})
  {
    hide R.StreamAt, S.Region, S.OnDisk, S.ReadFile, Content;
    forall g: nat | Content(records, d1, bs, g).Ok? ensures Content(records, d2, bs, g) == Content(records, d1, bs, g) {
      ContentStream(records, d1, bs, g);
      var j :| 0 <= j < |ids| && ids[j] == g;
      var e := files[j];
      assert HeldAt(records, bs, ids[j], e);
      HeldContent(records, d1, bs, g, e);
      HeldContent(records, d2, bs, g, e);
      ReadOnDisk(d1, e, R.StreamAt(records, g).value.size);
      SameRegion(d1, d2, e, R.StreamAt(records, g).value.size);
    }
  }

  lemma StillStored(changes: seq<(seq<seq<byte>>, seq<byte>)>, done: seq<nat>, records: seq<R.Rec>, d1: Blocks,
                    d2: Blocks, bs: nat)
    requires EachStored(changes, done, records, d1, bs) && ContentKept(records, d1, records, d2, bs, {})
    ensures EachStored(changes, done, records, d2, bs)
  {
    hide Content, R.Resolve;
  }

  lemma LaterIds(records: seq<R.Rec>, next: nat, later: nat)
    requires R.WellFormed(records, next) && next <= later
    ensures R.WellFormed(records, later)
  {
    hide R.Count, R.HasDirectory;
    forall r | r in records ensures R.RecOk(records, later, r) {
      R.WellFormedAt(records, next, r);
    }
  }

  /** Path i leads to `done[i]`, whose content is the last that was stored there. */
  ghost predicate EachStored(changes: seq<(seq<seq<byte>>, seq<byte>)>, done: seq<nat>, records: seq<R.Rec>,
                             disk: Blocks, bs: nat)
  {
    && |done| == |changes|
    && (forall i :: 0 <= i < |changes| ==> R.Resolve(records, R.ROOT, changes[i].0) == Ok(done[i]))
    && (forall i :: 0 <= i < |changes| && done[i] !in done[i + 1..] ==>
          Content(records, disk, bs, done[i]) == Ok(changes[i].1))
  }

  lemma NothingStored(changes: seq<(seq<seq<byte>>, seq<byte>)>, records: seq<R.Rec>, disk: Blocks, bs: nat,
                      pinned: set<nat>)
    requires bs > 0
    ensures EachStored(changes[..0], [], records, disk, bs) && ContentKept(records, disk, records, disk, bs, SetOf([]))
    ensures R.Keeps(records, records) && SamePinned(disk, disk, pinned)
  {
    hide Content, R.ChildAt;
  }

  lemma MoreStored(changes: seq<(seq<seq<byte>>, seq<byte>)>, done: seq<nat>, r1: seq<R.Rec>, d1: Blocks,
                   r2: seq<R.Rec>, d2: Blocks, bs: nat, change: (seq<seq<byte>>, seq<byte>), id: nat)
    requires bs > 0 && EachStored(changes, done, r1, d1, bs) && R.Keeps(r1, r2) && ContentKept(r1, d1, r2, d2, bs, {id})
    requires R.Resolve(r2, R.ROOT, change.0) == Ok(id) && Content(r2, d2, bs, id) == Ok(change.1)
    ensures EachStored(changes + [change], done + [id], r2, d2, bs)
  {
    hide Content, R.Resolve, R.Keeps;
    var all, ids := changes + [change], done + [id];
    forall i | 0 <= i < |all| ensures R.Resolve(r2, R.ROOT, all[i].0) == Ok(ids[i]) {
      if i < |changes| {
        R.PathsKept(r1, r2, R.ROOT, changes[i].0);
      }
    }
    forall i | 0 <= i < |all| && ids[i] !in ids[i + 1..] ensures Content(r2, d2, bs, ids[i]) == Ok(all[i].1) {
      if i < |changes| {
        assert ids[i + 1..] == done[i + 1..] + [id];
        assert Content(r1, d1, bs, done[i]) == Ok(changes[i].1);
      }
    }
  }

  lemma KeptTwice(r1: seq<R.Rec>, r2: seq<R.Rec>, r3: seq<R.Rec>, d1: Blocks, d2: Blocks, d3: Blocks, bs: nat,
                  a: set<nat>, b: set<nat>)
    requires bs > 0 && ContentKept(r1, d1, r2, d2, bs, a) && ContentKept(r2, d2, r3, d3, bs, b)
    ensures ContentKept(r1, d1, r3, d3, bs, a + b) && {} + b == b && a + {} == a
  {
    hide Content;
  }
}

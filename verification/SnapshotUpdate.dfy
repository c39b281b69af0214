/**
 * Rewriting the files of a volume that carries a snapshot (src/apfs_update.rs
 * `update_volume_files`): file blocks, the catalog, the object map and the headers that are
 * rewritten in place, over whole runs of updates.
 */
module SnapshotUpdate {
  import opened Bytes
  import opened TreeNode
  import opened BTree
  import opened TreeWriter
  import opened SpaceManager
  import opened BlockSupply
  import opened SpaceBudget
  import opened TreePublish
  import ObjectMap
  import TreeReader

  datatype Extent = Extent(start: nat, blocks: nat)

  function Cells(e: Extent): set<nat> {
    Range(e.start, e.blocks)
  }

  // ---- file content ----------------------------------------------------------------------------

  /** `data` over n blocks, the rest zeroed. */
  function Cut(data: seq<byte>, n: nat, bs: nat): (parts: seq<seq<byte>>)
    ensures |parts| == n && forall i :: 0 <= i < n ==> |parts[i]| == bs
  {
    if n == 0 then [] else
    var k := Min(|data|, bs);
    [data[..k] + Zeros(bs - k)] + Cut(data[k..], n - 1, bs)
  }

  lemma {:induction false} CutJoins(data: seq<byte>, n: nat, bs: nat)
    requires |data| <= n * bs
    ensures Concat(Cut(data, n, bs)) == data + Zeros(n * bs - |data|)
  {
    if n > 0 {
      var k := Min(|data|, bs);
      StepBound(n, bs, |data|, k);
      CutJoins(data[k..], n - 1, bs);
      var rest := (n - 1) * bs - |data[k..]|;
      assert Cut(data, n, bs)[1..] == Cut(data[k..], n - 1, bs);
      HeadJoins(data, k, bs - k, rest);
    }
  }

  lemma HeadJoins(data: seq<byte>, k: nat, pad: nat, rest: nat)
    requires k <= |data| && (pad > 0 ==> k == |data|)
    ensures (data[..k] + Zeros(pad)) + (data[k..] + Zeros(rest)) == data + Zeros(pad + rest)
  {
  }

  lemma StepBound(n: nat, bs: nat, len: nat, k: nat)
    requires n > 0 && len <= n * bs && k == Min(len, bs)
    ensures 0 <= (n - 1) * bs && len - k <= (n - 1) * bs && n * bs == (n - 1) * bs + bs
  {
    assert n * bs == (n - 1) * bs + bs;
  }

  predicate OnDisk(disk: Blocks, e: Extent) {
    Cells(e) <= disk.Keys
  }

  /** The blocks of an extent, in order. */
  function Region(disk: Blocks, e: Extent): seq<seq<byte>>
    requires OnDisk(disk, e)
  {
    seq(e.blocks, i requires 0 <= i < e.blocks => disk[e.start + i])
  }

  /** `read_file_bytes`: the first `size` bytes of the file's region. */
  function ReadFile(disk: Blocks, e: Extent, size: nat): Result<seq<byte>> {
    if !OnDisk(disk, e) then Err(OutsideContainer)
    else if size > |Concat(Region(disk, e))| then Err(TooLong)
    else Ok(Concat(Region(disk, e))[..size])
  }

  // ---- what an update relies on and keeps -------------------------------------------------------

  /** The snapshot's extent references hold a record that starts at this block. */
  predicate Protected(frozen: seq<Extent>, start: nat) {
    exists i :: 0 <= i < |frozen| && frozen[i].start == start
  }

  /** An extent the update may free or overwrite. */
  predicate Loose(frozen: seq<Extent>, e: Extent) {
    e.blocks != 0 && !Protected(frozen, e.start)
  }

  /** A live extent is a snapshot's, or it shares no block with anything pinned or any header. */
  ghost predicate SafeFile(frozen: seq<Extent>, used: set<nat>, pinned: set<nat>, headers: set<nat>, e: Extent) {
    && (Loose(frozen, e) ==> Cells(e) <= used && Cells(e) !! pinned && Cells(e) !! headers)
    && (Protected(frozen, e.start) ==> Cells(e) <= pinned)
  }

  predicate Apart(frozen: seq<Extent>, a: Extent, b: Extent) {
    Loose(frozen, a) && Loose(frozen, b) ==> Cells(a) !! Cells(b)
  }

  ghost predicate Sound(frozen: seq<Extent>, used: set<nat>, pinned: set<nat>, headers: set<nat>, files: seq<Extent>) {
    && pinned <= used && headers <= used && pinned !! headers
    && (forall i :: 0 <= i < |frozen| ==> frozen[i].blocks > 0 && Cells(frozen[i]) <= pinned)
    && (forall i :: 0 <= i < |files| ==> SafeFile(frozen, used, pinned, headers, files[i]))
    && (forall i, j :: 0 <= i < j < |files| ==> Apart(frozen, files[i], files[j]))
  }

  /** The most blocks that catalog, object map and extent references can take. */
  function PublishCost(records: seq<Record>, refs: seq<Record>, mapped: nat): nat {
    4 * NodesNeeded(records) + 3 * mapped + 1 + NodesNeeded(refs)
  }

  /** Enough blocks and ids for the new catalog, the object map with its nodes added, and the extent references. */
  ghost predicate RoomToPublish(records: seq<Record>, refs: seq<Record>, mapped: nat, stock: nat, firstOid: nat) {
    && PublishCost(records, refs, mapped) <= Min(stock, U64 - 1)
    && Roomy(records, CATALOG, 4096, stock, true, firstOid) && Roomy(refs, EXTENTREF, 4096, stock, false, firstOid)
  }

  lemma RoomForCatalog(records: seq<Record>, refs: seq<Record>, mapped: nat, stock: nat, firstOid: nat)
    requires RoomToPublish(records, refs, mapped, stock, firstOid)
    ensures Roomy(records, CATALOG, 4096, stock, true, firstOid)
  {
    hide Roomy;
  }

  lemma RoomForMap(records: seq<Record>, refs: seq<Record>, mapped: nat, stock: nat, firstOid: nat, nodes: nat,
                   added: seq<ObjectMap.Entry>, next: nat)
    requires RoomToPublish(records, refs, mapped, stock, firstOid) && nodes <= NodesNeeded(records) &&
             |added| <= mapped + nodes
    ensures nodes <= stock && Roomy(ObjectMap.OmapRecords(added, 4096), OMAP, 4096, stock - nodes, false, next)
  {
    hide Roomy;
    var recs := ObjectMap.OmapRecords(added, 4096);
    assert NodesNeeded(recs) <= 3 * (mapped + nodes) + 1;
    ObjectMapRoomy(recs, OMAP, stock - nodes, false, next);
  }

  lemma RoomForRefs(records: seq<Record>, refs: seq<Record>, mapped: nat, stock: nat, firstOid: nat, nodes: nat,
                    added: seq<ObjectMap.Entry>, next: nat, left: nat)
    requires RoomToPublish(records, refs, mapped, stock, firstOid) && nodes <= NodesNeeded(records) &&
             |added| <= mapped + nodes
    requires left + NodesNeeded(ObjectMap.OmapRecords(added, 4096)) >= stock - nodes
    ensures Roomy(refs, EXTENTREF, 4096, left, false, next)
  {
    hide SizesOk, NodeBytes, PairFits, MaxKey, Packable;
    assert NodesNeeded(ObjectMap.OmapRecords(added, 4096)) <= 3 * (mapped + nodes) + 1;
    assert NodesNeeded(refs) <= left;
  }

  /** What giving up file k's extent leaves in use. */
  ghost function Released(frozen: seq<Extent>, used: set<nat>, e: Extent): set<nat> {
    if Loose(frozen, e) then used - Cells(e) else used
  }

  /** These blocks hold zeros. */
  ghost predicate Wiped(disk: Blocks, cells: set<nat>, bs: nat) {
    forall p :: p in cells ==> p in disk && disk[p] == Zeros(bs)
  }

  /** How many blocks the data takes; an empty file keeps one. */
  function BlocksFor(data: seq<byte>, bs: nat): nat
    requires bs > 0
  {
    Max(DivCeil(|data|, bs), 1)
  }

  lemma NotEmpty(data: seq<byte>, bs: nat)
    requires bs > 0
    ensures BlocksFor(data, bs) > 0
  {
  }

  /** The data takes exactly the extent's blocks, and the extent may be overwritten. */
  predicate InPlace(frozen: seq<Extent>, e: Extent, data: seq<byte>, bs: nat)
    requires bs > 0
  {
    Loose(frozen, e) && e.blocks == BlocksFor(data, bs)
  }

  // ---- what protection by starting blocks is worth ------------------------------------------------

  /** The snapshot's blocks are in use. */
  ghost predicate SnapshotHeld(frozen: seq<Extent>, used: set<nat>) {
    forall i :: 0 <= i < |frozen| ==> Cells(frozen[i]) <= used
  }

  /** A block that is still in use, not part of the file now, and unchanged. */
  predicate SparedBlock(d1: Blocks, d2: Blocks, used: set<nat>, f: Extent, p: nat) {
    p in used && p !in Cells(f) && (p in d1 ==> p in d2 && d2[p] == d1[p])
  }

  /** No block of the snapshot was freed, taken or written. */
  ghost predicate Spared(frozen: seq<Extent>, d1: Blocks, d2: Blocks, used: set<nat>, f: Extent) {
    forall i, p :: 0 <= i < |frozen| && p in Cells(frozen[i]) ==> SparedBlock(d1, d2, used, f, p)
  }

  /** The extent is empty, starts where a snapshot extent does, or overlaps none of them. */
  predicate KeptApart(frozen: seq<Extent>, e: Extent) {
    e.blocks == 0 || Protected(frozen, e.start) || forall i :: 0 <= i < |frozen| ==> Cells(e) !! Cells(frozen[i])
  }

  lemma SparedIff(frozen: seq<Extent>, d1: Blocks, d2: Blocks, u1: set<nat>, u2: set<nat>, e: Extent, f: Extent,
                  inPlace: bool)
    requires inPlace ==> Loose(frozen, e) && f == e && u2 == u1
    requires !inPlace ==> Cells(f) !! Released(frozen, u1, e) && u2 == Released(frozen, u1, e) + Cells(f)
    requires d1.Keys == d2.Keys && forall p :: p in d2 && p !in Cells(f) && p !in Loosened(frozen, e) ==> d2[p] == d1[p]
    ensures SnapshotHeld(frozen, u1) ==> (Spared(frozen, d1, d2, u2, f) <==> KeptApart(frozen, e))
  {
    hide Range;
    if SnapshotHeld(frozen, u1) {
      if KeptApart(frozen, e) {
        forall i, p | 0 <= i < |frozen| && p in Cells(frozen[i]) ensures SparedBlock(d1, d2, u2, f, p) {
          assert p in u1;
        }
      } else {
        var i :| 0 <= i < |frozen| && !(Cells(e) !! Cells(frozen[i]));
        var p :| p in Cells(e) && p in Cells(frozen[i]);
        assert !SparedBlock(d1, d2, u2, f, p);
      }
    }
  }

  /** The data fits the file's loose extent exactly, so the file is rewritten in place. */
  predicate StaysPut(frozen: seq<Extent>, files: seq<Extent>, k: nat, data: seq<byte>, bs: nat) {
    bs > 0 && k < |files| && InPlace(frozen, files[k], data, bs)
  }

  /** Every change rewrites its file in place. */
  ghost predicate AllStayPut(frozen: seq<Extent>, files: seq<Extent>, disk: Blocks, changes: seq<(nat, seq<byte>)>,
                             bs: nat)
  {
    forall i :: 0 <= i < |changes| ==>
      StaysPut(frozen, files, changes[i].0, changes[i].1, bs) && OnDisk(disk, files[changes[i].0])
  }

  lemma OneStaysPut(frozen: seq<Extent>, files: seq<Extent>, d0: Blocks, disk: Blocks, changes: seq<(nat, seq<byte>)>,
                    bs: nat, i: nat)
    requires AllStayPut(frozen, files, d0, changes, bs) && disk.Keys == d0.Keys && i < |changes|
    ensures StaysPut(frozen, files, changes[i].0, changes[i].1, bs) && OnDisk(disk, files[changes[i].0])
  {
    hide StaysPut, Range;
  }

  /** Every block of every chunk is on the device. */
  ghost predicate Covers(disk: Blocks, chunks: seq<Chunk>) {
    forall i, p: nat :: 0 <= i < |chunks| && chunks[i].addr <= p < chunks[i].addr + chunks[i].blocks ==> p in disk
  }

  /** Enough for a file to move: its loose extent can be freed, and a chunk has a clear run. */
  ghost predicate CanMove(disk: Blocks, chunks: seq<Chunk>, perChunk: nat, frozen: seq<Extent>, e: Extent, n: nat) {
    && perChunk > 0 && n > 0 && ChunksOk(chunks) && Covers(disk, chunks)
    && (Loose(frozen, e) ==> Freeable(chunks, perChunk, e.start, e.blocks))
    && exists i :: 0 <= i < |chunks| && HasRun(chunks[i], n)
  }

  lemma MoveStarts(disk: Blocks, chunks: seq<Chunk>, perChunk: nat, frozen: seq<Extent>, e: Extent, n: nat)
    requires CanMove(disk, chunks, perChunk, frozen, e, n)
    ensures perChunk > 0 && n > 0 && ChunksOk(chunks) && Covers(disk, chunks)
    ensures exists i :: 0 <= i < |chunks| && HasRun(chunks[i], n)
    ensures Loose(frozen, e) ==> Freeable(chunks, perChunk, e.start, e.blocks) && OnDisk(disk, e)
  {
    hide HasRun, ChunksOk, AllAre;
    if Loose(frozen, e) {
      forall p | p in Cells(e) ensures p in disk {
        var c := chunks[e.start / perChunk];
        assert c.addr <= p < c.addr + c.blocks;
      }
    }
  }

  /** How many blocks all the changes take together. */
  function Demand(changes: seq<(nat, seq<byte>)>, bs: nat): nat
    requires bs > 0
  {
    if changes == [] then 0 else BlocksFor(changes[0].1, bs) + Demand(changes[1..], bs)
  }

  /**
   * Enough for files to be rewritten one after another, wherever they go: chunks of equal size side
   * by side and all on the device, every loose file within one chunk, and one clear run of `total`
   * blocks.
   */
  ghost predicate Feasible(disk: Blocks, chunks: seq<Chunk>, perChunk: nat, frozen: seq<Extent>, files: seq<Extent>,
                           total: nat)
  {
    && perChunk > 0 && Tiled(chunks, perChunk) && Covers(disk, chunks) && LongRun(chunks, total)
    && forall i :: 0 <= i < |files| && Loose(frozen, files[i]) ==>
         InOneChunk(chunks, perChunk, files[i].start, files[i].blocks)
  }

  /** A feasible change can be made: in place, or by moving. */
  lemma FeasibleMove(disk: Blocks, chunks: seq<Chunk>, perChunk: nat, frozen: seq<Extent>, used: set<nat>,
                     pinned: set<nat>, headers: set<nat>, files: seq<Extent>, total: nat, k: nat, n: nat)
    requires Feasible(disk, chunks, perChunk, frozen, files, total) && 0 < n <= total && k < |files|
    requires ChunksOk(chunks) && used == Used(chunks) && Sound(frozen, used, pinned, headers, files)
    ensures CanMove(disk, chunks, perChunk, frozen, files[k], n) && (Loose(frozen, files[k]) ==> OnDisk(disk, files[k]))
  {
    hide Used, ChunksOk, Tiled, HasRun, Range;
    var e := files[k];
    ShorterRun(chunks, total, n);
    if Loose(frozen, e) {
      assert SafeFile(frozen, used, pinned, headers, e);
      UsedIsFreeable(chunks, perChunk, e.start, e.blocks);
    }
    assert CanMove(disk, chunks, perChunk, frozen, e, n);
    MoveStarts(disk, chunks, perChunk, frozen, e, n);
  }

  lemma FeasibleAfter(d1: Blocks, d2: Blocks, before: seq<Chunk>, after: seq<Chunk>, perChunk: nat, frozen: seq<Extent>,
                      files: seq<Extent>, total: nat, k: nat, f: Extent)
    requires Feasible(d1, before, perChunk, frozen, files, total) && f.blocks <= total && k < |files| &&
             d2.Keys == d1.Keys
    requires Spent(before, after, perChunk, f.start, f.blocks) || (after == before && f == files[k] && Loose(frozen, f))
    ensures Feasible(d2, after, perChunk, frozen, files[k := f], total - f.blocks)
    ensures SameShape(after, before) && Stock(before) <= Stock(after) + f.blocks
  {
    hide Tiled, InOneChunk, HasRun, Stock, SameShape, LongRun, Loose;
    if after == before && !Spent(before, after, perChunk, f.start, f.blocks) {
      ShapeSame(before);
      ShorterRun(before, total, total - f.blocks);
    } else {
      ShapeTiled(after, before, perChunk);
      StillCovered(d1, d2, before, after);
    }
    var moved := files[k := f];
    forall i | 0 <= i < |moved| && Loose(frozen, moved[i])
      ensures InOneChunk(after, perChunk, moved[i].start, moved[i].blocks)
    {
      if i != k {
        ShapeInOne(after, before, perChunk, files[i].start, files[i].blocks);
      }
    }
  }

  /** Publishing takes blocks and moves no file. */
  lemma FeasiblePublished(d1: Blocks, d2: Blocks, before: seq<Chunk>, after: seq<Chunk>, perChunk: nat,
                          frozen: seq<Extent>, files: seq<Extent>, total: nat, cost: nat)
    requires Feasible(d1, before, perChunk, frozen, files, total) && cost <= total && d1.Keys <= d2.Keys
    requires Shrunk(before, after, cost)
    ensures Feasible(d2, after, perChunk, frozen, files, total - cost)
  {
    hide Tiled, InOneChunk, HasRun, Stock, LongRun, Loose;
    ShapeTiled(after, before, perChunk);
    forall i, p: nat | 0 <= i < |after| && after[i].addr <= p < after[i].addr + after[i].blocks ensures p in d2 {
      assert before[i].addr <= p < before[i].addr + before[i].blocks;
      assert p in d1;
    }
    forall i | 0 <= i < |files| && Loose(frozen, files[i])
      ensures InOneChunk(after, perChunk, files[i].start, files[i].blocks)
    {
      ShapeInOne(after, before, perChunk, files[i].start, files[i].blocks);
    }
  }

  lemma StillCovered(d1: Blocks, d2: Blocks, before: seq<Chunk>, after: seq<Chunk>)
    requires Covers(d1, before) && d2.Keys == d1.Keys && SameShape(after, before)
    ensures Covers(d2, after)
  {
    forall i, p: nat | 0 <= i < |after| && after[i].addr <= p < after[i].addr + after[i].blocks ensures p in d2 {
      assert before[i].addr <= p < before[i].addr + before[i].blocks;
      assert p in d1;
    }
  }

  lemma NoDemand(bs: nat)
    requires bs > 0
    ensures Demand([], bs) == 0
  {
  }

  lemma DemandStep(changes: seq<(nat, seq<byte>)>, bs: nat, i: nat)
    requires bs > 0 && i < |changes|
    ensures Demand(changes[i..], bs) == BlocksFor(changes[i].1, bs) + Demand(changes[i + 1..], bs)
  {
    assert changes[i..][0] == changes[i] && changes[i..][1..] == changes[i + 1..];
  }

  lemma RoomStays(records: seq<Record>, refs: seq<Record>, mapped: nat, stock: nat, more: nat, firstOid: nat)
    requires RoomToPublish(records, refs, mapped, stock, firstOid) && stock <= more
    ensures RoomToPublish(records, refs, mapped, more, firstOid)
  {
    hide SizesOk, NodeBytes, PairFits, MaxKey, NodesNeeded, Packable;
  }

  lemma ShrunkStock(before: seq<Chunk>, after: seq<Chunk>, n: nat)
    requires Shrunk(before, after, n)
    ensures Stock(before) <= Stock(after) + n
  {
    hide Stock, LongRun;
  }

  /** Three trees, together within the cost of publishing. */
  lemma AllDrawn(c0: seq<Chunk>, c1: seq<Chunk>, c2: seq<Chunk>, c3: seq<Chunk>, records: seq<Record>,
                 refs: seq<Record>, mapped: nat, added: seq<ObjectMap.Entry>, a: nat, b: nat, c: nat)
    requires Shrunk(c0, c1, a) && Shrunk(c1, c2, b) && Shrunk(c2, c3, c)
    requires a <= NodesNeeded(records) && |added| <= mapped + a
    requires b <= NodesNeeded(ObjectMap.OmapRecords(added, 4096)) && c <= NodesNeeded(refs)
    ensures Shrunk(c0, c3, PublishCost(records, refs, mapped)) && |added| <= mapped + NodesNeeded(records)
  {
    hide Shrunk;
    ShrunkThrough(c0, c1, c2, a, b);
    ShrunkThrough(c0, c2, c3, a + b, c);
    ShrunkMore(c0, c3, a + b + c, PublishCost(records, refs, mapped));
  }

  lemma EnoughBlocks(len: nat, bs: nat)
    requires bs > 0
    ensures len <= Max(DivCeil(len, bs), 1) * bs
  {
    var n := DivCeil(len, bs);
    assert len <= n * bs;
    MulMono(n, Max(n, 1), bs);
  }

  lemma NothingWiped(disk: Blocks, bs: nat)
    ensures Wiped(disk, {}, bs)
  {
  }

  lemma {:induction false} CutNothing(n: nat, bs: nat)
    ensures forall i :: 0 <= i < n ==> Cut([], n, bs)[i] == Zeros(bs)
  {
    if n > 0 {
      CutNothing(n - 1, bs);
      var none: seq<byte> := [];
      assert none[..0] + Zeros(bs) == Zeros(bs);
    }
  }

  lemma AllWiped(disk: Blocks, e: Extent, bs: nat)
    requires OnDisk(disk, e) && Region(disk, e) == Cut([], e.blocks, bs)
    ensures Wiped(disk, Cells(e), bs)
  {
    hide Cut;
    CutNothing(e.blocks, bs);
    forall p | p in Cells(e) ensures p in disk && disk[p] == Zeros(bs) {
      assert disk[p] == Region(disk, e)[p - e.start];
    }
  }

  lemma RunOnDisk(disk: Blocks, chunks0: seq<Chunk>, before: seq<Chunk>, after: seq<Chunk>, c: nat, s: nat, n: nat)
    requires Covers(disk, chunks0) && SameShape(before, chunks0) && c < |before| && Took(before, after, c, s, n)
    ensures OnDisk(disk, Extent(before[c].addr + s, n))
  {
    hide HasRun, Flip;
    assert RunAt(before[c], s, n);
    forall p | p in Range(before[c].addr + s, n) ensures p in disk {
      assert chunks0[c].addr <= p < chunks0[c].addr + chunks0[c].blocks;
    }
  }

  /** Moving file k to a run that is clear once its own loose blocks are released. */
  lemma MovedSound(frozen: seq<Extent>, used: set<nat>, pinned: set<nat>, headers: set<nat>, files: seq<Extent>,
                   k: nat, e: Extent)
    requires Sound(frozen, used, pinned, headers, files) && k < |files| && e.blocks > 0
    requires Cells(e) !! Released(frozen, used, files[k])
    ensures Sound(frozen, Released(frozen, used, files[k]) + Cells(e), pinned, headers, files[k := e]) &&
            Loose(frozen, e)
    ensures forall i :: 0 <= i < |files| && i != k && Loose(frozen, files[i]) ==>
              Cells(files[i]) !! Cells(e) && Cells(files[i]) !! Loosened(frozen, files[k])
  {
    hide Range;
    var left := Released(frozen, used, files[k]);
    FreshUnprotected(frozen, pinned, left, e);
    var next := left + Cells(e);
    forall i | 0 <= i < |files| && i != k
      ensures SafeFile(frozen, next, pinned, headers, files[i])
      ensures Loose(frozen, files[i]) ==> Cells(files[i]) !! Cells(e) && Cells(files[i]) !! Loosened(frozen, files[k])
    {
      assert Apart(frozen, files[if i < k then i else k], files[if i < k then k else i]);
      assert SafeFile(frozen, used, pinned, headers, files[i]);
    }
  }

  /** The cells of an extent that an update may touch. */
  ghost function Loosened(frozen: seq<Extent>, e: Extent): set<nat> {
    if Loose(frozen, e) then Cells(e) else {}
  }

  /** A run clear of everything pinned starts no snapshot extent. */
  lemma FreshUnprotected(frozen: seq<Extent>, pinned: set<nat>, used: set<nat>, e: Extent)
    requires e.blocks > 0 && Cells(e) !! used && pinned <= used
    requires forall i :: 0 <= i < |frozen| ==> frozen[i].blocks > 0 && Cells(frozen[i]) <= pinned
    ensures !Protected(frozen, e.start)
  {
    assert e.start in Cells(e);
    forall i | 0 <= i < |frozen| ensures frozen[i].start != e.start {
      assert frozen[i].start in Cells(frozen[i]);
    }
  }

  // ---- trees that later updates must not disturb --------------------------------------------------

  const CATALOG: Layout := Layout(None, 0x42, 0x0e)
  const OMAP: Layout := Layout(Some((16, 16)), 0x12, 0x0b)
  const EXTENTREF: Layout := Layout(None, 0x52, 0x0f)

  /** A catalog some update published, with the transaction that did. */
  datatype Past = Past(xid: nat, t: Tree, level: nat)

  /** The catalog is still on disk, and its transaction still finds every node of it. */
  ghost predicate PastHeld(disk: Blocks, bs: nat, omap: seq<ObjectMap.Entry>, pinned: set<nat>, xid: nat, h: Past) {
    && h.xid <= xid && TreeHeld(disk, bs, CATALOG, pinned, h.t, h.level)
    && forall n :: n in Nodes(h.t) ==> ObjectMap.Resolve(omap, n.0, h.xid) == Ok(n.1)
  }

  ghost predicate HistoryHeld(disk: Blocks, bs: nat, omap: seq<ObjectMap.Entry>, pinned: set<nat>, xid: nat,
                              history: seq<Past>)
  {
    forall i :: 0 <= i < |history| ==> PastHeld(disk, bs, omap, pinned, xid, history[i])
  }

  lemma HistoryStays(d1: Blocks, d2: Blocks, bs: nat, o1: seq<ObjectMap.Entry>, o2: seq<ObjectMap.Entry>,
                     p1: set<nat>, p2: set<nat>, x1: nat, x2: nat, history: seq<Past>)
    requires HistoryHeld(d1, bs, o1, p1, x1, history) && SamePinned(d1, d2, p1) && p1 <= p2 && x1 <= x2
    requires forall oid: nat, x: nat :: x <= x1 ==> ObjectMap.Resolve(o2, oid, x) == ObjectMap.Resolve(o1, oid, x)
    ensures HistoryHeld(d2, bs, o2, p2, x2, history)
  {
    hide TreeHeld, SamePinned, Nodes, ObjectMap.Resolve;
    forall i | 0 <= i < |history| ensures PastHeld(d2, bs, o2, p2, x2, history[i]) {
      assert PastHeld(d1, bs, o1, p1, x1, history[i]);
      HeldStays(d1, d2, bs, CATALOG, p1, p2, history[i].t, history[i].level);
    }
  }

  /** The lookup table an object map gives as of a transaction. */
  function Table(omap: seq<ObjectMap.Entry>, x: nat): map<nat, nat> {
    map e | e in omap && ObjectMap.Resolve(omap, e.oid, x).Ok? :: e.oid := ObjectMap.Resolve(omap, e.oid, x).value
  }

  lemma InTable(omap: seq<ObjectMap.Entry>, x: nat, oid: nat, p: nat)
    requires ObjectMap.Resolve(omap, oid, x) == Ok(p)
    ensures oid in Table(omap, x) && Table(omap, x)[oid] == p
  {
    ObjectMap.NewestIsNewest(omap, oid, x);
  }

  /** Every catalog ever published can still be read back through its own transaction. */
  lemma PastReadable(disk: Blocks, bs: nat, omap: seq<ObjectMap.Entry>, pinned: set<nat>, xid: nat, h: Past)
    requires PastHeld(disk, bs, omap, pinned, xid, h)
    ensures TreeReader.Readable(disk, bs, CATALOG, Some(Table(omap, h.xid)), h.t.paddr, h.t, h.level)
  {
    hide Stored, RootHolds, SizesOk, Records, NoRepeats, Table, ObjectMap.Resolve;
    forall n | n in Nodes(h.t)[1..] ensures n.0 in Table(omap, h.xid) && Table(omap, h.xid)[n.0] == n.1 {
      assert n in Nodes(h.t);
      InTable(omap, h.xid, n.0, n.1);
    }
  }

  /** The object map itself: the records of a held tree, one per entry. */
  ghost predicate OmapHeld(disk: Blocks, bs: nat, pinned: set<nat>, root: nat, t: Tree, level: nat,
                           omap: seq<ObjectMap.Entry>)
  {
    && TreeHeld(disk, bs, OMAP, pinned, t, level) && t.paddr == root
    && (forall n :: n in Nodes(t) ==> n.0 == n.1)
    && ObjectMap.Fits(omap) && Records(t) == ObjectMap.OmapRecords(omap, bs)
  }

  /** What a transaction writes into the headers: catalog and object-map roots, the map, the next object id. */
  datatype Roots = Roots(catalog: nat, omap: seq<ObjectMap.Entry>, omapRoot: nat, nextOid: nat)

  // ---- what an update takes ---------------------------------------------------------------------------

  /** What decides whether updates succeed. */
  datatype Scene = Scene(disk: Blocks, chunks: seq<Chunk>, perChunk: nat, frozen: seq<Extent>, files: seq<Extent>,
                         mapped: nat, next: nat)

  ghost predicate FeasibleIn(s: Scene, total: nat) {
    Feasible(s.disk, s.chunks, s.perChunk, s.frozen, s.files, total)
  }

  /** What publishing leaves: no more than its cost is used up, and of a long clear run the rest. */
  ghost predicate Published(s: Scene, t: Scene, records: seq<Record>, refs: seq<Record>, firstOid: nat, total: nat) {
    var cost := PublishCost(records, refs, s.mapped);
    && Stock(s.chunks) <= Stock(t.chunks) + cost
    && t.mapped <= s.mapped + NodesNeeded(records) && t.next <= firstOid + NodesNeeded(records)
    && (cost <= total && FeasibleIn(s, total) ==> FeasibleIn(t, total - cost))
  }

  lemma PublishedNow(s: Scene, t: Scene, records: seq<Record>, refs: seq<Record>, firstOid: nat, total: nat)
    requires Shrunk(s.chunks, t.chunks, PublishCost(records, refs, s.mapped)) && s.disk.Keys <= t.disk.Keys
    requires t.files == s.files && t.frozen == s.frozen && t.perChunk == s.perChunk
    requires t.mapped <= s.mapped + NodesNeeded(records) && t.next <= firstOid + NodesNeeded(records)
    ensures Published(s, t, records, refs, firstOid, total)
  {
    hide Shrunk, Feasible, Stock, PublishCost, NodesNeeded;
    var cost := PublishCost(records, refs, s.mapped);
    ShrunkStock(s.chunks, t.chunks, cost);
    if cost <= total && FeasibleIn(s, total) {
      FeasiblePublished(s.disk, t.disk, s.chunks, t.chunks, s.perChunk, s.frozen, s.files, total, cost);
    }
  }

  /** A clear run covers the changes, and the blocks left cover the three trees. */
  ghost predicate Affordable(s: Scene, changes: seq<(nat, seq<byte>)>, records: seq<Record>, refs: seq<Record>,
                             firstOid: nat, total: nat)
  {
    && FeasibleIn(s, total) && Demand(changes, 4096) <= Min(total, Stock(s.chunks))
    && RoomToPublish(records, refs, s.mapped, Stock(s.chunks) - Demand(changes, 4096), firstOid)
  }

  function UpdateCost(changes: seq<(nat, seq<byte>)>, records: seq<Record>, refs: seq<Record>, mapped: nat): nat {
    Demand(changes, 4096) + PublishCost(records, refs, mapped)
  }

  /** What an update leaves. */
  ghost predicate Afforded(s: Scene, t: Scene, changes: seq<(nat, seq<byte>)>, records: seq<Record>,
                           refs: seq<Record>, firstOid: nat, total: nat)
  {
    var cost := UpdateCost(changes, records, refs, s.mapped);
    && |t.files| == |s.files| && Stock(s.chunks) <= Stock(t.chunks) + cost
    && t.mapped <= s.mapped + NodesNeeded(records) && t.next <= firstOid + NodesNeeded(records)
    && (cost <= total ==> FeasibleIn(t, total - cost))
  }

  lemma AffordableParts(s: Scene, changes: seq<(nat, seq<byte>)>, records: seq<Record>, refs: seq<Record>,
                        firstOid: nat, total: nat)
    requires Affordable(s, changes, records, refs, firstOid, total)
    ensures Feasible(s.disk, s.chunks, s.perChunk, s.frozen, s.files, total) && Demand(changes, 4096) <= total
  {
    hide Feasible, Demand, Stock, RoomToPublish;
  }

  lemma AffordableThen(s: Scene, t: Scene, changes: seq<(nat, seq<byte>)>, records: seq<Record>, refs: seq<Record>,
                       firstOid: nat, total: nat)
    requires Affordable(s, changes, records, refs, firstOid, total) && t.mapped == s.mapped
    requires Stock(s.chunks) <= Stock(t.chunks) + Demand(changes, 4096)
    ensures RoomToPublish(records, refs, t.mapped, Stock(t.chunks), firstOid)
  {
    hide Feasible, Demand, Stock, RoomToPublish;
    RoomStays(records, refs, s.mapped, Stock(s.chunks) - Demand(changes, 4096), Stock(t.chunks), firstOid);
  }

  lemma AffordedNow(s: Scene, t: Scene, u: Scene, changes: seq<(nat, seq<byte>)>, records: seq<Record>,
                    refs: seq<Record>, firstOid: nat, total: nat)
    requires Demand(changes, 4096) <= total && |t.files| == |s.files| && t.mapped == s.mapped
    requires FeasibleIn(t, total - Demand(changes, 4096)) && Stock(s.chunks) <= Stock(t.chunks) + Demand(changes, 4096)
    requires Published(t, u, records, refs, firstOid, total - Demand(changes, 4096)) && |u.files| == |t.files|
    ensures Afforded(s, u, changes, records, refs, firstOid, total)
  {
    hide FeasibleIn, Demand, Stock, PublishCost, NodesNeeded;
  }

  class Volume {
    const bs: nat
    const sm: SpacemanContext
    /** The extent references of the volume's snapshot; empty without one. */
    const frozen: seq<Extent>
    const fsTreeOid: nat
    /** Blocks rewritten in place: superblock, object-map header, chunk infos, bitmaps, space manager. */
    ghost const headers: set<nat>
    var disk: Blocks
    var files: seq<Extent>
    var xid: nat
    var nextOid: nat
    var omap: seq<ObjectMap.Entry>
    var omapRoot: nat
    ghost var omapTree: Tree
    ghost var omapLevel: nat
    /** Blocks no update may change: the snapshot's, and every tree published so far. */
    ghost var pinned: set<nat>
    ghost var history: seq<Past>

    ghost predicate Valid()
      reads this, sm
    {
      && sm.Valid() && bs == 4096 && Bounded(sm.chunks) && WholeBlocks(disk, bs)
      && fsTreeOid < nextOid < U64 && xid < U64
      && Sound(frozen, Used(sm.chunks), pinned, headers, files)
      && HistoryHeld(disk, bs, omap, pinned, xid, history)
      && OmapHeld(disk, bs, pinned, omapRoot, omapTree, omapLevel, omap)
    }

    constructor (sm: SpacemanContext, frozen: seq<Extent>, fsTreeOid: nat, ghost headers: set<nat>, disk: Blocks,
                 files: seq<Extent>, xid: nat, nextOid: nat, omap: seq<ObjectMap.Entry>, omapRoot: nat,
                 ghost omapTree: Tree, ghost omapLevel: nat, ghost pinned: set<nat>)
      requires sm.Valid() && Bounded(sm.chunks) && WholeBlocks(disk, 4096) && fsTreeOid < nextOid < U64 && xid < U64
      requires Sound(frozen, Used(sm.chunks), pinned, headers, files)
      requires OmapHeld(disk, 4096, pinned, omapRoot, omapTree, omapLevel, omap)
      ensures Valid() && history == [] && this.disk == disk && this.files == files && this.frozen == frozen &&
              this.pinned == pinned && this.sm == sm && this.headers == headers && this.fsTreeOid == fsTreeOid
      ensures this.nextOid == nextOid && this.xid == xid && this.omap == omap && this.omapRoot == omapRoot
      ensures this.omapTree == omapTree && this.omapLevel == omapLevel && this.bs == 4096
    {
      hide Used, ChunksOk, TotalFree, Tracked, Bounded, WholeBlocks, Sound, OmapHeld, PastHeld;
      this.bs, this.sm, this.frozen, this.fsTreeOid, this.headers := 4096, sm, frozen, fsTreeOid, headers;
      this.disk, this.files, this.xid, this.nextOid := disk, files, xid, nextOid;
      this.omap, this.omapRoot, this.omapTree, this.omapLevel := omap, omapRoot, omapTree, omapLevel;
      this.pinned, this.history := pinned, [];
    }

    ghost function Now(): Scene
      reads this, sm
    {
      Scene(disk, sm.chunks, sm.blocksPerChunk, frozen, files, |omap|, nextOid)
    }

    /** A volume as it may be found, with nothing known of its files. */
    constructor Found(sm: SpacemanContext, frozen: seq<Extent>, disk: Blocks, files: seq<Extent>)
      ensures this.sm == sm && this.frozen == frozen && this.disk == disk && this.files == files && bs == 4096
    {
      this.bs, this.sm, this.frozen, fsTreeOid, headers := 4096, sm, frozen, 0, {};
      this.disk, this.files, xid, nextOid := disk, files, 0, 0;
      omap, omapRoot, omapTree, omapLevel := [], 0, Leaf(0, 0, []), 0;
      pinned, history := {}, [];
    }

    /** `write_stage1` and, for empty data, `zero_blocks`. */
    method Fill(e: Extent, data: seq<byte>) returns (r: Result<bool>)
      requires WholeBlocks(disk, bs)
      modifies this`disk
      ensures r.Ok? <==> OnDisk(old(disk), e) && |data| <= e.blocks * bs
      ensures r.Err? ==> disk == old(disk)
      ensures WholeBlocks(disk, bs) && disk.Keys == old(disk).Keys
      ensures forall p :: p in disk && p !in Cells(e) ==> disk[p] == old(disk)[p]
      ensures r.Ok? ==> OnDisk(disk, e) && Region(disk, e) == Cut(data, e.blocks, bs)
    {
      hide Cut;
      if !(Cells(e) <= disk.Keys) {
        return Err(OutsideContainer);
      }
      if |data| > e.blocks * bs {
        return Err(TooLong);
      }
      var parts := Cut(data, e.blocks, bs);
      for i := 0 to e.blocks
        invariant disk.Keys == old(disk).Keys && WholeBlocks(disk, bs)
        invariant forall p :: p in disk && p !in Cells(e) ==> disk[p] == old(disk)[p]
        invariant forall j :: 0 <= j < i ==> e.start + j in disk && disk[e.start + j] == parts[j]
      {
        disk := disk[e.start + i := parts[i]];
      }
      r := Ok(true);
    }

    /**
     * Releases and zeroes a loose extent, then takes a new run of n blocks; succeeds whenever the
     * extent lies in one chunk and some chunk already has a clear run.
     */
    method Relocate(e: Extent, n: nat) returns (r: Result<nat>)
      requires sm.Valid() && Bounded(sm.chunks) && WholeBlocks(disk, bs)
      modifies this`disk, sm
      ensures r.Ok? ==> sm.Valid() && Bounded(sm.chunks) && WholeBlocks(disk, bs) && disk.Keys == old(disk).Keys
      ensures r.Ok? ==> forall p :: p in disk && p !in Loosened(frozen, e) ==> disk[p] == old(disk)[p]
      ensures r.Ok? ==> Wiped(disk, Loosened(frozen, e), bs)
      ensures r.Ok? ==> Range(r.value, n) !! Released(frozen, Used(old(sm.chunks)), e)
      ensures r.Ok? ==> Used(sm.chunks) == Released(frozen, Used(old(sm.chunks)), e) + Range(r.value, n)
      ensures r.Ok? ==> Spent(old(sm.chunks), sm.chunks, sm.blocksPerChunk, r.value, n)
      ensures CanMove(old(disk), old(sm.chunks), sm.blocksPerChunk, frozen, e, n) ==>
                r.Ok? && OnDisk(disk, Extent(r.value, n))
    {
      hide Tracked;
      hide Used, ChunksOk, TotalFree, Bounded, Range, Freeable, SameShape, HasRun, Took, WholeBlocks, Region, OnDisk,
           Cut, CanMove, Wiped, Spent;
      ghost var chunks0 := sm.chunks;
      ghost var can := CanMove(disk, sm.chunks, sm.blocksPerChunk, frozen, e, n);
      if can {
        MoveStarts(disk, chunks0, sm.blocksPerChunk, frozen, e, n);
      }
      NothingWiped(disk, bs);
      ShapeSame(sm.chunks);
      if Loose(frozen, e) {
        var freed := sm.FreeRange(e.start, e.blocks);
        if freed.Err? {
          return Err(freed.error);
        }
        StillBounded(sm.chunks, chunks0);
        var zeroed := Fill(e, []);
        if zeroed.Err? {
          return Err(zeroed.error);
        }
        AllWiped(disk, e, bs);
      }
      ghost var chunks1 := sm.chunks;
      if can {
        RunStays(chunks0, chunks1, n);
      }
      r := sm.AllocRange(n);
      if r.Ok? {
        StillBounded(sm.chunks, chunks1);
        ghost var c, s: nat :| 0 <= c < |chunks1| && Took(chunks1, sm.chunks, c, s, n) &&
            r.value == chunks1[c].addr + s;
        MoveSpent(chunks0, chunks1, sm.chunks, sm.blocksPerChunk, c, s, n);
        if can {
          RunOnDisk(disk, chunks0, chunks1, sm.chunks, c, s, n);
        }
      }
    }

    /**
     * Rewrites a file that lies in `e`: in place if the extent is loose and of the right size,
     * otherwise in a new run, releasing and zeroing the old extent only if it is loose. Whatever
     * the state of the volume, the snapshot's blocks are spared exactly when the extent is empty,
     * starts where a snapshot extent does, or overlaps none of them.
     */
    method Rewrite(e: Extent, data: seq<byte>) returns (r: Result<Extent>)
      requires sm.Valid() && Bounded(sm.chunks) && WholeBlocks(disk, bs) && bs > 0
      modifies this`disk, sm
      ensures r.Ok? ==> sm.Valid() && Bounded(sm.chunks) && WholeBlocks(disk, bs) && disk.Keys == old(disk).Keys
      ensures r.Ok? ==> r.value.blocks == BlocksFor(data, bs) && ReadFile(disk, r.value, |data|) == Ok(data)
      ensures r.Ok? ==>
                forall p :: p in disk && p !in Cells(r.value) && p !in Loosened(frozen, e) ==> disk[p] == old(disk)[p]
      ensures InPlace(frozen, e, data, bs) ==> sm.chunks == old(sm.chunks) && (r.Ok? ==> r.value == e)
      ensures r.Ok? && !InPlace(frozen, e, data, bs) ==>
                && Cells(r.value) !! Released(frozen, Used(old(sm.chunks)), e)
                && Used(sm.chunks) == Released(frozen, Used(old(sm.chunks)), e) + Cells(r.value)
                && Spent(old(sm.chunks), sm.chunks, sm.blocksPerChunk, r.value.start, r.value.blocks)
      ensures r.Ok? ==> Wiped(disk, Loosened(frozen, e) - Cells(r.value), bs)
      ensures r.Ok? && SnapshotHeld(frozen, Used(old(sm.chunks))) ==>
                (Spared(frozen, old(disk), disk, Used(sm.chunks), r.value) <==> KeptApart(frozen, e))
      ensures CanMove(old(disk), old(sm.chunks), sm.blocksPerChunk, frozen, e, BlocksFor(data, bs)) ==> r.Ok?
      ensures InPlace(frozen, e, data, bs) && OnDisk(old(disk), e) ==> r.Ok?
    {
      hide Tracked;
      hide Used, ChunksOk, TotalFree, Bounded, Range, WholeBlocks, Region, OnDisk, Cut, ReadFile, Released, Loosened,
           DivCeil, CanMove, Wiped, Spared, KeptApart, SnapshotHeld, Loose, Spent;
      ghost var before, used := disk, Used(sm.chunks);
      var n := BlocksFor(data, bs);
      var start := e.start;
      EnoughBlocks(|data|, bs);
      if CanMove(disk, sm.chunks, sm.blocksPerChunk, frozen, e, n) {
        MoveStarts(disk, sm.chunks, sm.blocksPerChunk, frozen, e, n);
      }
      if !Loose(frozen, e) || e.blocks != n {
        var run := Relocate(e, n);
        if run.Err? {
          return Err(run.error);
        }
        start := run.value;
      }
      var f := Extent(start, n);
      ghost var moved := disk;
      var filled := Fill(f, data);
      if filled.Err? {
        return Err(filled.error);
      }
      ReadBack(disk, f, data, bs);
      StillWiped(moved, disk, e, f, frozen, bs);
      SparedIff(frozen, before, disk, used, Used(sm.chunks), e, f, Loose(frozen, e) && e.blocks == n);
      r := Ok(f);
    }

    /**
     * Rewrites file k. Nothing pinned, no header and no other file changes; the file reads back as
     * `data`; the blocks in use are those before, without the released extent, and the new one.
     */
    method UpdateFile(k: nat, data: seq<byte>, ghost total: nat) returns (r: Result<bool>)
      requires Valid() && k < |files|
      modifies this`disk, this`files, sm
      ensures r.Ok? ==> Valid() && disk.Keys == old(disk).Keys
      ensures r.Ok? ==> SamePinned(old(disk), disk, pinned) && SamePinned(old(disk), disk, headers)
      ensures r.Ok? ==>
                |files| == |old(files)| && files == old(files)[k := files[k]] &&
                ReadFile(disk, files[k], |data|) == Ok(data)
      ensures r.Ok? ==> forall j :: 0 <= j < |files| && j != k && OnDisk(old(disk), files[j]) ==>
                          OnDisk(disk, files[j]) && Region(disk, files[j]) == Region(old(disk), files[j])
      ensures r.Ok? ==> files[k].blocks == BlocksFor(data, bs) && Loose(frozen, files[k])
      ensures StaysPut(frozen, old(files), k, data, bs) ==> files == old(files) && sm.chunks == old(sm.chunks)
      ensures r.Ok? ==> Used(sm.chunks) == Released(frozen, Used(old(sm.chunks)), old(files)[k]) + Cells(files[k])
      ensures r.Ok? ==> Wiped(disk, Loosened(frozen, old(files)[k]) - Cells(files[k]), bs)
      ensures CanMove(old(disk), old(sm.chunks), sm.blocksPerChunk, frozen, old(files)[k], BlocksFor(data, bs)) ==>
                r.Ok?
      ensures StaysPut(frozen, old(files), k, data, bs) && OnDisk(old(disk), old(files)[k]) ==> r.Ok?
      ensures BlocksFor(data, bs) <= total &&
              Feasible(old(disk), old(sm.chunks), sm.blocksPerChunk, frozen, old(files), total) ==>
                && r.Ok? && Feasible(disk, sm.chunks, sm.blocksPerChunk, frozen, files, total - BlocksFor(data, bs))
                && Stock(old(sm.chunks)) <= Stock(sm.chunks) + BlocksFor(data, bs)
    {
      hide Tracked;
      hide Sound, Used, ChunksOk, TotalFree, Bounded, Range, HistoryHeld, OmapHeld, WholeBlocks, Loose, KeptApart,
           Spared, SnapshotHeld, SamePinned, Region, OnDisk, ReadFile, ObjectMap.Resolve, Released, Loosened,
           BlocksFor, CanMove, Wiped, Feasible, Spent, Stock;
      ghost var before, used, chunks0, n := disk, Used(sm.chunks), sm.chunks, BlocksFor(data, bs);
      var e := files[k];
      LooseUsed(frozen, used, pinned, headers, files, k);
      NotEmpty(data, bs);
      ghost var able := n <= total && Feasible(disk, chunks0, sm.blocksPerChunk, frozen, files, total);
      if able {
        FeasibleMove(disk, chunks0, sm.blocksPerChunk, frozen, used, pinned, headers, files, total, k, n);
      }
      var moved := Rewrite(e, data);
      if moved.Err? {
        return Err(moved.error);
      }
      var f := moved.value;
      if able {
        FeasibleAfter(before, disk, chunks0, sm.chunks, sm.blocksPerChunk, frozen, files, total, k, f);
      }
      LooseAgain(frozen, used, e);
      assert Used(sm.chunks) == Released(frozen, used, e) + Cells(f);
      Settled(frozen, used, pinned, headers, files, k, f, before, disk);
      HistoryStays(before, disk, bs, omap, omap, pinned, pinned, xid, xid, history);
      OmapStays(before, disk, bs, pinned, pinned, omapRoot, omapTree, omapLevel, omap);
      files := files[k := f];
      r := Ok(true);
    }

    /** Applies a list of file rewrites, the later of two for one file winning. */
    method UpdateFiles(changes: seq<(nat, seq<byte>)>, ghost total: nat) returns (r: Result<bool>)
      requires Valid() && forall i :: 0 <= i < |changes| ==> changes[i].0 < |files|
      modifies this`disk, this`files, sm
      ensures r.Ok? ==> Valid() && |files| == |old(files)| && disk.Keys == old(disk).Keys
      ensures r.Ok? ==> SamePinned(old(disk), disk, pinned) && Rewritten(changes, old(disk), old(files), disk, files)
      ensures AllStayPut(frozen, old(files), old(disk), changes, bs) ==>
                r.Ok? && files == old(files) && sm.chunks == old(sm.chunks)
      ensures Demand(changes, bs) <= total &&
              Feasible(old(disk), old(sm.chunks), sm.blocksPerChunk, frozen, old(files), total) ==>
                && r.Ok? && Stock(old(sm.chunks)) <= Stock(sm.chunks) + Demand(changes, bs)
                && Feasible(disk, sm.chunks, sm.blocksPerChunk, frozen, files, total - Demand(changes, bs))
    {
      hide Tracked;
      hide Feasible, Demand, BlocksFor, Stock, AllStayPut, StaysPut, CanMove, Wiped, Released, Loosened, ChunksOk,
           TotalFree, SamePinned, Rewritten, Sound, Used, Bounded, HistoryHeld, OmapHeld, WholeBlocks, ReadFile,
           Region, OnDisk;
      ghost var put := AllStayPut(frozen, files, disk, changes, bs);
      ghost var spare := total - Demand(changes, bs);
      ghost var able := 0 <= spare && Feasible(disk, sm.chunks, sm.blocksPerChunk, frozen, files, total);
      assert changes[0..] == changes;
      assert Demand([], bs) == 0 by { NoDemand(bs); }
      NothingRewritten(disk, files, pinned);
      for i := 0 to |changes|
        invariant Valid() && |files| == |old(files)| && disk.Keys == old(disk).Keys
        invariant SamePinned(old(disk), disk, pinned) && Rewritten(changes[..i], old(disk), old(files), disk, files)
        invariant put ==> files == old(files) && sm.chunks == old(sm.chunks)
        invariant able ==>
                    Feasible(disk, sm.chunks, sm.blocksPerChunk, frozen, files, spare + Demand(changes[i..], bs))
        invariant able ==>
                    Stock(old(sm.chunks)) + Demand(changes[i..], bs) <= Stock(sm.chunks) + Demand(changes, bs)
      {
        ghost var d, f := disk, files;
        DemandStep(changes, bs, i);
        if put {
          OneStaysPut(frozen, files, old(disk), disk, changes, bs, i);
        }
        r := UpdateFile(changes[i].0, changes[i].1, if able then spare + Demand(changes[i..], bs) else 0);
        if r.Err? {
          return;
        }
        OneRewritten(changes, i, old(disk), old(files), d, f, disk, files);
        PinnedTrans(old(disk), d, disk, pinned);
      }
      assert changes[..|changes|] == changes && changes[|changes|..] == [];
      r := Ok(true);
    }

    /** Writes one tree into freshly drawn blocks. */
    method PublishTree(records: seq<Record>, layout: Layout, newXid: nat, virtualRoot: Option<nat>, firstOid: nat)
      returns (r: Result<(nat, seq<(nat, nat)>)>, next: nat, ghost t: Tree, ghost level: nat, ghost drawn: set<nat>)
      requires sm.Valid() && Bounded(sm.chunks) && WholeBlocks(disk, bs)
      requires Writable(bs, layout) && NoBlanks(records)
      requires firstOid < U64 && (virtualRoot.Some? ==> virtualRoot.value < firstOid)
      modifies this`disk, sm
      ensures r.Ok? ==> sm.Valid() && Bounded(sm.chunks) && WholeBlocks(disk, bs)
      ensures r.Ok? ==> Added(old(disk), disk, Used(old(sm.chunks)), Used(sm.chunks), drawn)
      ensures r.Ok? ==> TreeHeld(disk, bs, layout, drawn, t, level) && Records(t) == records && t.paddr == r.value.0
      ensures r.Ok? ==> Charted(t, r.value.1, virtualRoot, firstOid, next)
      ensures r.Ok? ==> Stock(sm.chunks) + |r.value.1| == Stock(old(sm.chunks))
      ensures r.Ok? ==> Shrunk(old(sm.chunks), sm.chunks, |r.value.1|) && old(disk).Keys <= disk.Keys
      ensures r.Ok? ==> next <= firstOid + |r.value.1|
      ensures bs >= TOC_BASE && Roomy(records, layout, bs, Stock(old(sm.chunks)), virtualRoot.Some?, firstOid) ==>
                r.Ok? && |r.value.1| <= NodesNeeded(records)
    {
      hide Tracked;
      hide Roomy, NodesNeeded, Used, ChunkOk, TotalFree, Bounded, WholeBlocks, Supply, SameShape, Fresh, NoBlanks,
           Writable, TreeWritten, Added, TreeHeld, Charted, Records, Shrunk;
      ghost var chunks0, disk0 := sm.chunks, disk;
      SupplyClear(chunks0);
      var store := new TreeStore(bs, disk, Supply(sm.chunks));
      StockIs(chunks0);
      t, level, drawn := Leaf(0, 0, []), 0, {};
      r, next, t, level := WriteTree(store, records, layout, newXid, virtualRoot, firstOid);
      if r.Err? {
        return;
      }
      var k := |r.value.1|;
      ghost var rootOid := if virtualRoot.Some? then virtualRoot.value else r.value.0;
      drawn := set p | p in Supply(chunks0)[..Min(k, |Supply(chunks0)|)];
      TreeAdded(disk0, store.blocks, bs, chunks0, store.supply, layout, records, rootOid, virtualRoot, firstOid, next,
                r.value.1, t, level);
      disk := store.blocks;
      Draw(sm, k);
      StockIs(sm.chunks);
      StillBounded(sm.chunks, chunks0);
      DrawnAdded(disk0, disk, Used(chunks0), Used(sm.chunks), drawn);
    }

    /** Writes catalog, object map and extent references into freshly drawn blocks, then the headers in place. */
    method WriteOut(records: seq<Record>, refs: seq<Record>, newXid: nat, firstOid: nat, rewritten: Blocks)
      returns (r: Result<Roots>, ghost h: Past, ghost mapTree: Tree, ghost mapLevel: nat, ghost more: set<nat>)
      requires Valid() && xid < newXid < U64 && nextOid <= firstOid < U64 && NoBlanks(records) && NoBlanks(refs)
      requires rewritten.Keys <= headers && WholeBlocks(rewritten, bs)
      modifies this`disk, sm
      ensures r.Ok? ==> sm.Valid() && Bounded(sm.chunks) && WholeBlocks(disk, bs) && fsTreeOid < r.value.nextOid < U64
      ensures r.Ok? ==> firstOid <= r.value.nextOid
      ensures r.Ok? ==> Sound(frozen, Used(sm.chunks), pinned + more, headers, files)
      ensures r.Ok? ==> SamePinned(old(disk), disk, pinned) && FilesKept(old(disk), disk, files)
      ensures r.Ok? ==> h.xid == newXid && h.t.paddr == r.value.catalog && Records(h.t) == records
      ensures r.Ok? ==> more !! pinned && EarlierSame(omap, r.value.omap, newXid)
      ensures r.Ok? ==>
                NewlyHeld(disk, bs, r.value.omap, more, newXid, h, r.value.omapRoot, mapTree, mapLevel)
      ensures RoomToPublish(records, refs, |omap|, Stock(old(sm.chunks)), firstOid) ==>
                && r.Ok? && Shrunk(old(sm.chunks), sm.chunks, PublishCost(records, refs, |omap|))
                && |r.value.omap| <= |omap| + NodesNeeded(records)
                && r.value.nextOid <= firstOid + NodesNeeded(records)
      ensures r.Ok? ==> old(disk).Keys <= disk.Keys
    {
      hide Tracked;
      hide Roomy, RoomToPublish, NodesNeeded, Stock, Shrunk, PublishCost;
      hide Sound, Used, ChunksOk, TotalFree, Bounded, WholeBlocks, HistoryHeld, OmapHeld, NoBlanks, Writable, Added,
           TreeHeld, Charted, Records, SamePinned, FilesKept, EarlierSame, PastHeld, ObjectMap.MapsAdded,
           ObjectMap.InOrder, ObjectMap.OmapRecords, ObjectMap.Fits;
      LayoutsWritable();
      MapFits(disk, bs, pinned, omapRoot, omapTree, omapLevel, omap);
      ghost var d0, u0, stock := disk, Used(sm.chunks), Stock(sm.chunks);
      ghost var room := RoomToPublish(records, refs, |omap|, stock, firstOid);
      if room {
        RoomForCatalog(records, refs, |omap|, stock, firstOid);
      }
      more, mapTree, mapLevel, h := {}, Leaf(0, 0, []), 0, Past(0, Leaf(0, 0, []), 0);
      var catalog, next, t, level, a := PublishTree(records, CATALOG, newXid, Some(fsTreeOid), firstOid);
      if catalog.Err? {
        r := Err(catalog.error);
        return;
      }
      ghost var d1, u1, c1 := disk, Used(sm.chunks), sm.chunks;
      var added := ObjectMap.AddMappings(omap, catalog.value.1, newXid);
      MapKeys(added, bs);
      NextBound(t, catalog.value.1, Some(fsTreeOid), firstOid, next);
      if room {
        RoomForMap(records, refs, |omap|, stock, firstOid, |catalog.value.1|, added, next);
      }
      var map2, mapNext, t2, level2, b := PublishTree(ObjectMap.OmapRecords(added, bs), OMAP, newXid, None, next);
      if map2.Err? {
        r := Err(map2.error);
        return;
      }
      ghost var d2, u2, c2 := disk, Used(sm.chunks), sm.chunks;
      if room {
        RoomForRefs(records, refs, |omap|, stock, firstOid, |catalog.value.1|, added, next, Stock(sm.chunks));
      }
      var refTree, _, _, _, c := PublishTree(refs, EXTENTREF, newXid, None, next);
      if refTree.Err? {
        r := Err(refTree.error);
        return;
      }
      ghost var d3 := disk;
      if room {
        AllDrawn(old(sm.chunks), c1, c2, sm.chunks, records, refs, |omap|, added, |catalog.value.1|, |map2.value.1|,
                 |refTree.value.1|);
      }
      disk := disk + rewritten;
      more, mapTree, mapLevel, h := a + b + c, t2, level2, Past(newXid, t, level);
      Settle(frozen, headers, files, pinned, bs, d0, u0, d1, u1, a, d2, u2, b, d3, Used(sm.chunks), c, rewritten);
      NewCatalog(d1, disk, bs, omap, added, catalog.value.1, fsTreeOid, firstOid, next, newXid, a, more, t, level);
      NewMap(d2, disk, bs, omap, added, catalog.value.1, t, fsTreeOid, firstOid, next, newXid, b, more, t2, level2,
             map2.value, mapNext);
      Earlier(omap, added, catalog.value.1, newXid);
      r := Ok(Roots(catalog.value.0, added, map2.value.0, next));
    }

    /** Publishes a new catalog as transaction `newXid`. */
    method Publish(records: seq<Record>, refs: seq<Record>, newXid: nat, firstOid: nat, rewritten: Blocks,
                   ghost total: nat)
        returns (r: Result<nat>)
      requires Valid() && xid < newXid < U64 && nextOid <= firstOid < U64 && NoBlanks(records) && NoBlanks(refs)
      requires rewritten.Keys <= headers && WholeBlocks(rewritten, bs)
      modifies this`disk, this`xid, this`nextOid, this`omap, this`omapRoot, this`omapTree, this`omapLevel,
               this`pinned, this`history, sm
      ensures r.Ok? ==> Valid() && xid == newXid && old(pinned) <= pinned && SamePinned(old(disk), disk, old(pinned))
      ensures r.Ok? ==> firstOid <= nextOid
      ensures r.Ok? ==> FilesKept(old(disk), disk, files)
      ensures r.Ok? ==>
                exists h: Past ::
                  && history == old(history) + [h] && h.xid == newXid && h.t.paddr == r.value && Records(h.t) == records
                  && NewlyHeld(disk, bs, omap, pinned - old(pinned), newXid, h, omapRoot, omapTree, omapLevel)
      ensures r.Ok? ==> EarlierSame(old(omap), omap, newXid)
      ensures RoomToPublish(records, refs, |old(omap)|, Stock(old(sm.chunks)), firstOid) ==>
                r.Ok? && Published(old(Now()), Now(), records, refs, firstOid, total)
    {
      hide Sound, Used, ChunksOk, TotalFree, Bounded, WholeBlocks, HistoryHeld, OmapHeld, NoBlanks, Records,
           SamePinned, FilesKept, EarlierSame, NewlyHeld, RoomToPublish, Stock, Feasible, Shrunk, PublishCost,
           NodesNeeded, Published, Tracked;
      ghost var s, d0 := Now(), disk;
      var roots, h, mapTree, mapLevel, more := WriteOut(records, refs, newXid, firstOid, rewritten);
      if roots.Err? {
        return Err(roots.error);
      }
      HistoryOn(d0, disk, bs, omap, roots.value.omap, pinned, more, xid, newXid, history, h, roots.value.omapRoot,
                mapTree, mapLevel);
      assert pinned + more - pinned == more;
      history, pinned := history + [h], pinned + more;
      xid, nextOid, omap, omapRoot := newXid, roots.value.nextOid, roots.value.omap, roots.value.omapRoot;
      omapTree, omapLevel := mapTree, mapLevel;
      if RoomToPublish(records, refs, s.mapped, Stock(s.chunks), firstOid) {
        PublishedNow(s, Now(), records, refs, firstOid, total);
      }
      r := Ok(roots.value.catalog);
    }

    /** `ensure_file_records` gives a new file an empty extent at block zero. */
    method AddFile() returns (k: nat)
      requires Valid()
      modifies this`files
      ensures Valid() && k == |old(files)| && files == old(files) + [Extent(0, 0)]
    {
      hide Tracked;
      hide Used, ChunksOk, TotalFree, Bounded, WholeBlocks, HistoryHeld, OmapHeld;
      k := |files|;
      files := files + [Extent(0, 0)];
    }

    /**
     * One update of the volume. A success leaves every pinned block as it was, so the snapshot's
     * extents and all trees published before stay intact; every earlier transaction resolves
     * every object as before; the changed files read back, the others are unchanged.
     */
    method Update(changes: seq<(nat, seq<byte>)>, records: seq<Record>, refs: seq<Record>, newXid: nat, firstOid: nat,
                  rewritten: Blocks, ghost total: nat)
      returns (r: Result<nat>)
      requires Valid() && forall i :: 0 <= i < |changes| ==> changes[i].0 < |files|
      requires xid < newXid < U64 && nextOid <= firstOid < U64 && NoBlanks(records) && NoBlanks(refs)
      requires rewritten.Keys <= headers && WholeBlocks(rewritten, bs)
      modifies this, sm
      ensures r.Ok? ==> Valid() && xid == newXid && old(pinned) <= pinned && SamePinned(old(disk), disk, old(pinned))
      ensures r.Ok? ==> Rewritten(changes, old(disk), old(files), disk, files)
      ensures r.Ok? ==>
                exists h: Past ::
                  history == old(history) + [h] && h.xid == newXid && h.t.paddr == r.value && Records(h.t) == records
      ensures r.Ok? ==> EarlierSame(old(omap), omap, newXid)
      ensures AllStayPut(frozen, old(files), old(disk), changes, bs) &&
              RoomToPublish(records, refs, |old(omap)|, Stock(old(sm.chunks)), firstOid) ==>
                r.Ok?
      ensures Affordable(old(Now()), changes, records, refs, firstOid, total) ==>
                r.Ok? && Afforded(old(Now()), Now(), changes, records, refs, firstOid, total)
    {
      hide Feasible, Demand, BlocksFor, Sound, Used, ChunksOk, TotalFree, Bounded, WholeBlocks, HistoryHeld, OmapHeld,
           NoBlanks, Records, SamePinned, FilesKept, EarlierSame, Rewritten, AllStayPut, RoomToPublish, Stock,
           PublishCost, NodesNeeded, Affordable, Afforded, NewlyHeld, Tracked;
      ghost var s, able := Now(), Affordable(Now(), changes, records, refs, firstOid, total);
      if able {
        AffordableParts(s, changes, records, refs, firstOid, total);
      }
      var done := UpdateFiles(changes, total);
      if done.Err? {
        return Err(done.error);
      }
      ghost var d, t, rest := disk, Now(), if able then total - Demand(changes, bs) else 0;
      if able {
        AffordableThen(s, Now(), changes, records, refs, firstOid, total);
      }
      r := Publish(records, refs, newXid, firstOid, rewritten, rest);
      if able {
        AffordedNow(s, t, Now(), changes, records, refs, firstOid, total);
      }
      if r.Ok? {
        PinnedTrans(old(disk), d, disk, old(pinned));
        RewrittenKept(changes, old(disk), old(files), d, disk, files);
      }
    }
  }

  ghost predicate FilesKept(d1: Blocks, d2: Blocks, files: seq<Extent>) {
    forall k :: 0 <= k < |files| && OnDisk(d1, files[k]) ==>
      OnDisk(d2, files[k]) && Region(d2, files[k]) == Region(d1, files[k])
  }

  /** Every transaction before x resolves every object as it did. */
  ghost predicate EarlierSame(o1: seq<ObjectMap.Entry>, o2: seq<ObjectMap.Entry>, x: nat) {
    forall oid: nat, k: nat :: k < x ==> ObjectMap.Resolve(o2, oid, k) == ObjectMap.Resolve(o1, oid, k)
  }

  lemma RewrittenKept(changes: seq<(nat, seq<byte>)>, d0: Blocks, f0: seq<Extent>, d1: Blocks, d2: Blocks,
                      files: seq<Extent>)
    requires Rewritten(changes, d0, f0, d1, files) && FilesKept(d1, d2, files)
    ensures Rewritten(changes, d0, f0, d2, files)
  {
    hide OnDisk, Region, Wanted;
    forall k | 0 <= k < |files| ensures FileIs(Wanted(changes, k), d0, f0[k], d2, files[k]) {
      assert FileIs(Wanted(changes, k), d0, f0[k], d1, files[k]);
    }
  }

  lemma LayoutsWritable()
    ensures Writable(4096, CATALOG) && Writable(4096, OMAP) && Writable(4096, EXTENTREF)
  {
    TocRoomAt4096(0, 0x12, 0x0b);
    TocRoomAt4096(1, 0x12, 0x0b);
  }

  lemma MapFits(disk: Blocks, bs: nat, pinned: set<nat>, root: nat, t: Tree, level: nat, omap: seq<ObjectMap.Entry>)
    requires OmapHeld(disk, bs, pinned, root, t, level, omap)
    ensures ObjectMap.Fits(omap)
  {
  }

  lemma MapKeys(omap: seq<ObjectMap.Entry>, bs: nat)
    ensures NoBlanks(ObjectMap.OmapRecords(omap, bs))
  {
  }

  lemma NextBound(t: Tree, pairs: seq<(nat, nat)>, virtualRoot: Option<nat>, firstOid: nat, next: nat)
    requires Charted(t, pairs, virtualRoot, firstOid, next)
    ensures firstOid <= next < U64
  {
  }

  /** Three trees drawn one after the other, then the headers: what is pinned and what moved. */
  lemma Settle(frozen: seq<Extent>, headers: set<nat>, files: seq<Extent>, pinned: set<nat>, bs: nat,
               d0: Blocks, u0: set<nat>, d1: Blocks, u1: set<nat>, a: set<nat>, d2: Blocks, u2: set<nat>, b: set<nat>,
               d3: Blocks, u3: set<nat>, c: set<nat>, rewritten: Blocks)
    requires Sound(frozen, u0, pinned, headers, files) && WholeBlocks(d3, bs)
    requires Added(d0, d1, u0, u1, a) && Added(d1, d2, u1, u2, b) && Added(d2, d3, u2, u3, c)
    requires rewritten.Keys <= headers && WholeBlocks(rewritten, bs)
    ensures var d4 := d3 + rewritten;
            && Sound(frozen, u3, pinned + (a + b + c), headers, files) && WholeBlocks(d4, bs)
            && (a + b + c) !! pinned
            && SamePinned(d0, d4, pinned) && SamePinned(d1, d4, a) && SamePinned(d2, d4, b)
            && FilesKept(d0, d4, files)
  {
    hide Range, FilesKept, SafeFile, Only, WholeBlocks, SamePinned;
    var d4 := d3 + rewritten;
    var new3 := a + b + c;
    assert u3 == u0 + new3 && new3 !! u0;
    PinMore(frozen, u0, pinned, headers, files, new3);
    OnlyHeaders(d3, rewritten, headers, bs);
    OnlyThrough(d2, d3, d4, c, headers);
    OnlyThrough(d1, d2, d4, b, c + headers);
    OnlyThrough(d0, d1, d4, a, b + (c + headers));
    assert a + (b + (c + headers)) == new3 + headers;
    OnlyApart(d2, d4, c + headers, b);
    OnlyApart(d1, d4, b + (c + headers), a);
    OnlyApart(d0, d4, new3 + headers, pinned);
    FilesOnly(frozen, u0, pinned, headers, files, d0, d4, new3);
  }

  lemma OnlyHeaders(d: Blocks, rewritten: Blocks, headers: set<nat>, bs: nat)
    requires rewritten.Keys <= headers && WholeBlocks(rewritten, bs) && WholeBlocks(d, bs)
    ensures Only(d, d + rewritten, headers) && WholeBlocks(d + rewritten, bs)
  {
  }

  lemma OnlyThrough(d1: Blocks, d2: Blocks, d3: Blocks, a: set<nat>, b: set<nat>)
    requires Only(d1, d2, a) && Only(d2, d3, b)
    ensures Only(d1, d3, a + b)
  {
  }

  lemma OnlyApart(d1: Blocks, d2: Blocks, changed: set<nat>, kept: set<nat>)
    requires Only(d1, d2, changed) && changed !! kept
    ensures SamePinned(d1, d2, kept)
  {
  }

  /** A change confined to fresh blocks and headers reaches no file. */
  lemma FilesOnly(frozen: seq<Extent>, used: set<nat>, pinned: set<nat>, headers: set<nat>, files: seq<Extent>,
                  d1: Blocks, d2: Blocks, taken: set<nat>)
    requires Sound(frozen, used, pinned, headers, files) && taken !! used && Only(d1, d2, taken + headers)
    ensures FilesKept(d1, d2, files)
  {
    hide Range, Only, OnDisk, Region;
    forall k | 0 <= k < |files| && OnDisk(d1, files[k])
      ensures OnDisk(d2, files[k]) && Region(d2, files[k]) == Region(d1, files[k])
    {
      assert SafeFile(frozen, used, pinned, headers, files[k]);
      if files[k].blocks == 0 {
        EmptyRegion(d1, files[k]);
        EmptyRegion(d2, files[k]);
      } else {
        RegionOnly(d1, d2, files[k], taken + headers);
      }
    }
  }

  lemma EmptyRegion(disk: Blocks, e: Extent)
    requires e.blocks == 0
    ensures OnDisk(disk, e) && Region(disk, e) == []
  {
  }

  lemma RegionOnly(d1: Blocks, d2: Blocks, e: Extent, changed: set<nat>)
    requires OnDisk(d1, e) && Only(d1, d2, changed) && Cells(e) !! changed
    ensures OnDisk(d2, e) && Region(d2, e) == Region(d1, e)
  {
    assert forall p :: p in Cells(e) ==> p in d2 && d2[p] == d1[p];
  }

  lemma PinMore(frozen: seq<Extent>, used: set<nat>, pinned: set<nat>, headers: set<nat>, files: seq<Extent>,
                more: set<nat>)
    requires Sound(frozen, used, pinned, headers, files) && more !! used
    ensures Sound(frozen, used + more, pinned + more, headers, files)
  {
    hide Range;
    forall i | 0 <= i < |files| ensures SafeFile(frozen, used + more, pinned + more, headers, files[i]) {
      assert SafeFile(frozen, used, pinned, headers, files[i]);
    }
  }

  lemma Earlier(omap: seq<ObjectMap.Entry>, added: seq<ObjectMap.Entry>, pairs: seq<(nat, nat)>, newXid: nat)
    requires ObjectMap.MapsAdded(omap, pairs, newXid, added)
    ensures EarlierSame(omap, added, newXid)
  {
    hide ObjectMap.Resolve, ObjectMap.MapsAdded;
    forall oid: nat, k: nat | k < newXid ensures ObjectMap.Resolve(added, oid, k) == ObjectMap.Resolve(omap, oid, k) {
      ObjectMap.EarlierUnchanged(omap, pairs, newXid, added, oid, k);
    }
  }

  lemma NewCatalog(d1: Blocks, d4: Blocks, bs: nat, omap: seq<ObjectMap.Entry>, added: seq<ObjectMap.Entry>,
                   pairs: seq<(nat, nat)>, fsTreeOid: nat, firstOid: nat, next: nat, newXid: nat, a: set<nat>,
                   pinned: set<nat>, t: Tree, level: nat)
    requires TreeHeld(d1, bs, CATALOG, a, t, level) && SamePinned(d1, d4, a) && a <= pinned
    requires Charted(t, pairs, Some(fsTreeOid), firstOid, next) && ObjectMap.MapsAdded(omap, pairs, newXid, added)
    ensures PastHeld(d4, bs, added, pinned, newXid, Past(newXid, t, level))
  {
    hide TreeHeld, SamePinned, ObjectMap.MapsAdded, ObjectMap.Resolve, Nodes;
    HeldStays(d1, d4, bs, CATALOG, a, pinned, t, level);
    forall n | n in Nodes(t) ensures ObjectMap.Resolve(added, n.0, newXid) == Ok(n.1) {
      var i :| 0 <= i < |pairs| && pairs[i] == n;
      ObjectMap.MappedPair(pairs, i);
      ObjectMap.NewResolved(omap, pairs, newXid, added, n.0);
    }
  }

  lemma NewMap(d2: Blocks, d4: Blocks, bs: nat, omap: seq<ObjectMap.Entry>, added: seq<ObjectMap.Entry>,
               pairs: seq<(nat, nat)>, catalog: Tree, fsTreeOid: nat, firstOid: nat, next: nat, newXid: nat,
               b: set<nat>, pinned: set<nat>, t: Tree, level: nat, made: (nat, seq<(nat, nat)>), mapNext: nat)
    requires TreeHeld(d2, bs, OMAP, b, t, level) && SamePinned(d2, d4, b) && b <= pinned && t.paddr == made.0
    requires Charted(t, made.1, None, next, mapNext) && Records(t) == ObjectMap.OmapRecords(added, bs)
    requires Charted(catalog, pairs, Some(fsTreeOid), firstOid, next) && ObjectMap.MapsAdded(omap, pairs, newXid, added)
    requires ObjectMap.Fits(omap) && newXid < U64
    ensures OmapHeld(d4, bs, pinned, made.0, t, level, added)
  {
    hide TreeHeld, SamePinned, ObjectMap.MapsAdded, Nodes, Records, ObjectMap.OmapRecords, ObjectMap.Mapped;
    HeldStays(d2, d4, bs, OMAP, b, pinned, t, level);
    forall i | 0 <= i < |added| ensures added[i].oid < U64 && added[i].xid < U64 && added[i].paddr < U64 {
      ObjectMap.EntryAdded(omap, pairs, newXid, added, added[i]);
      if added[i] !in omap {
        ObjectMap.MappedIn(pairs, added[i].oid);
      }
    }
  }

  /** A transaction's catalog and map are wholly in the blocks drawn for it. */
  ghost predicate NewlyHeld(disk: Blocks, bs: nat, omap: seq<ObjectMap.Entry>, drawn: set<nat>, xid: nat, h: Past,
                            root: nat, t: Tree, level: nat)
  {
    PastHeld(disk, bs, omap, drawn, xid, h) && OmapHeld(disk, bs, drawn, root, t, level, omap)
  }

  lemma HistoryOn(d0: Blocks, d4: Blocks, bs: nat, omap: seq<ObjectMap.Entry>, added: seq<ObjectMap.Entry>,
                  p0: set<nat>, more: set<nat>, xid: nat, newXid: nat, history: seq<Past>, h: Past, root: nat, t: Tree,
                  level: nat)
    requires HistoryHeld(d0, bs, omap, p0, xid, history) && SamePinned(d0, d4, p0) && xid < newXid
    requires EarlierSame(omap, added, newXid) && NewlyHeld(d4, bs, added, more, newXid, h, root, t, level)
    ensures HistoryHeld(d4, bs, added, p0 + more, newXid, history + [h])
    ensures OmapHeld(d4, bs, p0 + more, root, t, level, added)
  {
    hide TreeHeld, SamePinned, ObjectMap.Resolve, ObjectMap.OmapRecords, Records, Nodes, ObjectMap.Fits;
    HistoryStays(d0, d4, bs, omap, added, p0, p0 + more, xid, newXid, history);
    HeldWider(d4, bs, CATALOG, more, p0 + more, h.t, h.level);
    HeldWider(d4, bs, OMAP, more, p0 + more, t, level);
  }

  lemma HeldWider(d: Blocks, bs: nat, layout: Layout, p1: set<nat>, p2: set<nat>, t: Tree, level: nat)
    requires TreeHeld(d, bs, layout, p1, t, level) && p1 <= p2
    ensures TreeHeld(d, bs, layout, p2, t, level)
  {
    hide Stored, SizesOk, RootHolds, NoRepeats;
  }

  /** The last change to a file, if any. */
  function Wanted(changes: seq<(nat, seq<byte>)>, k: nat): Option<seq<byte>> {
    if changes == [] then None
    else if changes[|changes| - 1].0 == k then Some(changes[|changes| - 1].1)
    else Wanted(changes[..|changes| - 1], k)
  }

  /** Every changed file reads back as its last change; every other file is where it was, unchanged. */
  ghost predicate Rewritten(changes: seq<(nat, seq<byte>)>, d1: Blocks, f1: seq<Extent>, d2: Blocks, f2: seq<Extent>) {
    |f1| == |f2| && forall k :: 0 <= k < |f2| ==> FileIs(Wanted(changes, k), d1, f1[k], d2, f2[k])
  }

  ghost predicate FileIs(wanted: Option<seq<byte>>, d1: Blocks, e1: Extent, d2: Blocks, e2: Extent) {
    match wanted
    case Some(data) => ReadFile(d2, e2, |data|) == Ok(data)
    case None => e2 == e1 && (OnDisk(d1, e1) ==> OnDisk(d2, e2) && Region(d2, e2) == Region(d1, e1))
  }

  lemma NothingRewritten(disk: Blocks, files: seq<Extent>, pinned: set<nat>)
    ensures Rewritten([], disk, files, disk, files) && SamePinned(disk, disk, pinned)
  {
  }

  lemma OneRewritten(changes: seq<(nat, seq<byte>)>, i: nat, d0: Blocks, f0: seq<Extent>, d1: Blocks, f1: seq<Extent>,
                     d2: Blocks, f2: seq<Extent>)
    requires i < |changes| && changes[i].0 < |f1| == |f2| && Rewritten(changes[..i], d0, f0, d1, f1)
    requires f2 == f1[changes[i].0 := f2[changes[i].0]] &&
             ReadFile(d2, f2[changes[i].0], |changes[i].1|) == Ok(changes[i].1)
    requires forall j :: 0 <= j < |f2| && j != changes[i].0 && OnDisk(d1, f2[j]) ==>
               OnDisk(d2, f2[j]) && Region(d2, f2[j]) == Region(d1, f2[j])
    ensures Rewritten(changes[..i + 1], d0, f0, d2, f2)
  {
    hide OnDisk, Region;
    assert changes[..i + 1][..i] == changes[..i];
  }

  /** Releasing a loose extent and taking it again changes nothing. */
  lemma LooseAgain(frozen: seq<Extent>, used: set<nat>, e: Extent)
    requires Loose(frozen, e) ==> Cells(e) <= used
    ensures Cells(e) !! Released(frozen, used, e) || !Loose(frozen, e)
    ensures Loose(frozen, e) ==> used == Released(frozen, used, e) + Cells(e) && Loosened(frozen, e) == Cells(e)
  {
    hide Range;
  }

  lemma LooseUsed(frozen: seq<Extent>, used: set<nat>, pinned: set<nat>, headers: set<nat>, files: seq<Extent>, k: nat)
    requires Sound(frozen, used, pinned, headers, files) && k < |files|
    ensures Loose(frozen, files[k]) ==> Cells(files[k]) <= used
  {
    hide Range;
    assert SafeFile(frozen, used, pinned, headers, files[k]);
  }

  /** One file moved or rewritten, and nothing else touched. */
  lemma Settled(frozen: seq<Extent>, used: set<nat>, pinned: set<nat>, headers: set<nat>, files: seq<Extent>, k: nat,
                f: Extent, d1: Blocks, d2: Blocks)
    requires Sound(frozen, used, pinned, headers, files) && k < |files| && f.blocks > 0
    requires Cells(f) !! Released(frozen, used, files[k]) && d1.Keys == d2.Keys
    requires forall p :: p in d2 && p !in Cells(f) && p !in Loosened(frozen, files[k]) ==> d2[p] == d1[p]
    ensures Sound(frozen, Released(frozen, used, files[k]) + Cells(f), pinned, headers, files[k := f]) &&
            Loose(frozen, f)
    ensures SamePinned(d1, d2, pinned) && SamePinned(d1, d2, headers)
    ensures forall j :: 0 <= j < |files| && j != k && OnDisk(d1, files[j]) ==>
              OnDisk(d2, files[j]) && Region(d2, files[j]) == Region(d1, files[j])
  {
    hide Range;
    MovedSound(frozen, used, pinned, headers, files, k, f);
    assert SafeFile(frozen, used, pinned, headers, files[k]);
    var touched := Cells(f) + Loosened(frozen, files[k]);
    assert touched !! pinned && touched !! headers;
    forall j | 0 <= j < |files| && j != k && OnDisk(d1, files[j])
      ensures OnDisk(d2, files[j]) && Region(d2, files[j]) == Region(d1, files[j])
    {
      assert SafeFile(frozen, used, pinned, headers, files[j]);
      RegionSame(d1, d2, files[j], touched);
    }
  }

  lemma RegionSame(d1: Blocks, d2: Blocks, e: Extent, touched: set<nat>)
    requires OnDisk(d1, e) && d1.Keys == d2.Keys && Cells(e) !! touched
    requires forall p :: p in d2 && p !in touched ==> d2[p] == d1[p]
    ensures OnDisk(d2, e) && Region(d2, e) == Region(d1, e)
  {
    assert forall p :: p in Cells(e) ==> d2[p] == d1[p];
  }

  lemma OmapStays(d1: Blocks, d2: Blocks, bs: nat, p1: set<nat>, p2: set<nat>, root: nat, t: Tree, level: nat,
                  omap: seq<ObjectMap.Entry>)
    requires OmapHeld(d1, bs, p1, root, t, level, omap) && SamePinned(d1, d2, p1) && p1 <= p2
    ensures OmapHeld(d2, bs, p2, root, t, level, omap)
  {
    hide TreeHeld, SamePinned, Nodes, Records, ObjectMap.OmapRecords, ObjectMap.Fits;
    HeldStays(d1, d2, bs, OMAP, p1, p2, t, level);
  }

  /** Filling the new extent leaves the rest of the old one wiped; in place there is no rest. */
  lemma StillWiped(moved: Blocks, disk: Blocks, e: Extent, f: Extent, frozen: seq<Extent>, bs: nat)
    requires moved.Keys == disk.Keys && forall p :: p in disk && p !in Cells(f) ==> disk[p] == moved[p]
    requires Wiped(moved, Loosened(frozen, e), bs) || f == e
    ensures Wiped(disk, Loosened(frozen, e) - Cells(f), bs)
  {
    hide Range;
  }

  lemma ReadBack(disk: Blocks, e: Extent, data: seq<byte>, bs: nat)
    requires OnDisk(disk, e) && Region(disk, e) == Cut(data, e.blocks, bs) && |data| <= e.blocks * bs
    ensures ReadFile(disk, e, |data|) == Ok(data)
  {
    hide Cut;
    CutJoins(data, e.blocks, bs);
  }

  // ---- whole runs ------------------------------------------------------------------------------------

  /** What one update is asked to do; `created` object ids go to new catalog records. */
  datatype Request = Request(changes: seq<(nat, seq<byte>)>, records: seq<Record>, refs: seq<Record>, created: nat,
                             rewritten: Blocks)

  predicate RequestOk(q: Request, bs: nat) {
    NoBlanks(q.records) && NoBlanks(q.refs) && WholeBlocks(q.rewritten, bs)
  }

  /** What an update reads and changes, apart from files and free space. */
  datatype State = State(disk: Blocks, pinned: set<nat>, omap: seq<ObjectMap.Entry>, xid: nat, history: seq<Past>)

  ghost function StateOf(v: Volume): State
    reads v
  {
    State(v.disk, v.pinned, v.omap, v.xid, v.history)
  }

  /** What any number of updates keep from the state they started in. */
  ghost predicate RunKeeps(before: State, after: State, published: seq<seq<Record>>) {
    && before.pinned <= after.pinned && SamePinned(before.disk, after.disk, before.pinned)
    && after.xid == before.xid + |published| && EarlierSame(before.omap, after.omap, before.xid + 1)
    && Logged(before.history, after.history, before.xid, published)
  }

  /** The history goes on with these catalogs, one transaction each. */
  ghost predicate Logged(before: seq<Past>, after: seq<Past>, xid: nat, published: seq<seq<Record>>) {
    && |after| == |before| + |published| && after[..|before|] == before
    && forall i :: 0 <= i < |published| ==> PublishedAs(after[|before| + i], xid + 1 + i, published[i])
  }

  ghost predicate PublishedAs(h: Past, xid: nat, records: seq<Record>) {
    h.xid == xid && Records(h.t) == records
  }

  ghost function Catalogs(requests: seq<Request>): seq<seq<Record>> {
    seq(|requests|, i requires 0 <= i < |requests| => requests[i].records)
  }

  // ---- when a run succeeds -----------------------------------------------------------------------------

  /** The most blocks a run can take, with `mapped` entries in the object map. */
  ghost function RunCost(requests: seq<Request>, mapped: nat): nat {
    if requests == [] then 0
    else
      var q := requests[0];
      Demand(q.changes, 4096) + PublishCost(q.records, q.refs, mapped) +
      RunCost(requests[1..], mapped + NodesNeeded(q.records))
  }

  /** The most object ids it can take. */
  ghost function RunIds(requests: seq<Request>): nat {
    if requests == [] then 0 else requests[0].created + NodesNeeded(requests[0].records) + RunIds(requests[1..])
  }

  /** The records fit nodes, and the files changed exist. */
  predicate RequestFits(q: Request, files: nat) {
    && Packable(q.records, CATALOG, 4096) && Packable(q.refs, EXTENTREF, 4096)
    && forall i :: 0 <= i < |q.changes| ==> q.changes[i].0 < files
  }

  /**
   * Enough for a whole run: one clear run of all the blocks its files and trees can take, transaction
   * numbers and object ids for all of it, and records that fit nodes.
   */
  ghost predicate RunReady(s: Scene, xid: nat, requests: seq<Request>) {
    && FeasibleIn(s, RunCost(requests, s.mapped)) && RunCost(requests, s.mapped) <= Min(Stock(s.chunks), U64 - 1)
    && xid + |requests| < U64 && s.next + RunIds(requests) < U64
    && forall i :: 0 <= i < |requests| ==> RequestFits(requests[i], |s.files|)
  }

  /** The first request of a run that is ready can be served. */
  lemma ReadyFirst(s: Scene, xid: nat, requests: seq<Request>)
    requires RunReady(s, xid, requests) && requests != []
    ensures var q := requests[0];
            && Affordable(s, q.changes, q.records, q.refs, s.next + q.created, RunCost(requests, s.mapped))
            && s.next + q.created < U64 && xid + 1 < U64 && RequestFits(q, |s.files|)
  {
    hide Feasible, Stock, Demand, Packable;
  }

  /** After it the rest of the run is. */
  lemma ReadyRest(s: Scene, t: Scene, xid: nat, requests: seq<Request>)
    requires RunReady(s, xid, requests) && requests != []
    requires var q := requests[0];
             Afforded(s, t, q.changes, q.records, q.refs, s.next + q.created, RunCost(requests, s.mapped))
    ensures RunReady(t, xid + 1, requests[1..])
  {
    hide Stock, Demand, RequestFits, PublishCost, NodesNeeded, LongRun, Covers, InOneChunk, Loose;
    var rest, most := requests[1..], s.mapped + NodesNeeded(requests[0].records);
    CostGrows(rest, t.mapped, most);
    ShorterRun(t.chunks, RunCost(rest, most), RunCost(rest, t.mapped));
    forall i | 0 <= i < |rest| ensures RequestFits(rest[i], |t.files|) {
      assert rest[i] == requests[i + 1];
    }
  }

  lemma {:induction false} CostGrows(requests: seq<Request>, m: nat, n: nat)
    requires m <= n
    ensures RunCost(requests, m) <= RunCost(requests, n)
  {
    if requests != [] {
      CostGrows(requests[1..], m + NodesNeeded(requests[0].records), n + NodesNeeded(requests[0].records));
    }
  }

  lemma ChangesExist(q: Request, files: nat)
    requires RequestFits(q, files)
    ensures forall i :: 0 <= i < |q.changes| ==> q.changes[i].0 < files
  {
    hide Packable;
  }

  /**
   * Any run of updates, each one transaction after the last. As long as they succeed, no pinned
   * block ever changes, so the snapshot's extents are intact; what any transaction before the
   * run resolved, it still resolves; and the catalog of every single update stays readable. With
   * one clear run of all the blocks the run can take, all of them succeed.
   */
  method Run(v: Volume, requests: seq<Request>) returns (done: nat)
    requires v.Valid() && forall i :: 0 <= i < |requests| ==>
               RequestOk(requests[i], v.bs) && requests[i].rewritten.Keys <= v.headers
    modifies v, v.sm
    ensures done <= |requests|
    ensures done == |requests| ==>
              v.Valid() && RunKeeps(old(StateOf(v)), StateOf(v), Catalogs(requests))
    ensures RunReady(old(v.Now()), old(v.xid), requests) ==> done == |requests|
  {
    hide Tracked;
    hide RunReady, RunCost, RunIds, RequestFits, Affordable, Afforded, Stock, Demand, RoomToPublish, Packable;
    hide Sound, Used, ChunksOk, TotalFree, Bounded, WholeBlocks, HistoryHeld, OmapHeld, NoBlanks, Records, SamePinned,
         EarlierSame, Rewritten, RunKeeps;
    ghost var start := StateOf(v);
    RunStarts(start);
    assert Catalogs(requests[..0]) == [] && requests[0..] == requests;
    done := 0;
    ghost var ready := RunReady(v.Now(), v.xid, requests);
    while done < |requests|
      invariant done <= |requests| && v.Valid()
      invariant ready ==> RunReady(v.Now(), v.xid, requests[done..])
      invariant RunKeeps(start, StateOf(v), Catalogs(requests[..done]))
    {
      var q := requests[done];
      ghost var rest := requests[done..];
      assert rest[0] == q && rest[1..] == requests[done + 1..];
      var firstOid := v.nextOid + q.created;
      if ready {
        ReadyFirst(v.Now(), v.xid, rest);
        ChangesExist(q, |v.files|);
      }
      if firstOid >= U64 || v.xid + 1 >= U64 || exists i :: 0 <= i < |q.changes| && q.changes[i].0 >= |v.files| {
        return;
      }
      ghost var before := StateOf(v);
      ghost var scene, total := v.Now(), RunCost(rest, |v.omap|);
      var r := v.Update(q.changes, q.records, q.refs, v.xid + 1, firstOid, q.rewritten, total);
      if r.Err? {
        return;
      }
      ghost var new1: Past :| v.history == before.history + [new1] && new1.xid == before.xid + 1 &&
          Records(new1.t) == q.records;
      assert Catalogs(requests[..done + 1]) == Catalogs(requests[..done]) + [q.records];
      RunGoesOn(start, before, StateOf(v), Catalogs(requests[..done]), q.records, new1);
      if ready {
        ReadyRest(scene, v.Now(), before.xid, rest);
      }
      done := done + 1;
    }
    assert requests[..done] == requests;
  }

  lemma RunStarts(start: State)
    ensures RunKeeps(start, start, [])
  {
    hide Records;
  }

  lemma RunGoesOn(start: State, before: State, after: State, published: seq<seq<Record>>, next: seq<Record>, h: Past)
    requires RunKeeps(start, before, published)
    requires before.pinned <= after.pinned && SamePinned(before.disk, after.disk, before.pinned)
    requires after.xid == before.xid + 1 && EarlierSame(before.omap, after.omap, before.xid + 1)
    requires after.history == before.history + [h] && h.xid == before.xid + 1 && Records(h.t) == next
    ensures RunKeeps(start, after, published + [next])
  {
    hide Records, EarlierSame, SamePinned, Logged;
    PinnedThrough(start, before, after);
    EarlierThrough(start.omap, before.omap, after.omap, start.xid + 1, before.xid + 1);
    LoggedOn(start.history, before.history, start.xid, published, next, h);
  }

  lemma LoggedOn(start: seq<Past>, before: seq<Past>, xid: nat, published: seq<seq<Record>>, next: seq<Record>, h: Past)
    requires Logged(start, before, xid, published) && PublishedAs(h, xid + 1 + |published|, next)
    ensures Logged(start, before + [h], xid, published + [next])
  {
    hide PublishedAs;
    var after, all := before + [h], published + [next];
    assert after[..|start|] == before[..|start|];
    forall i | 0 <= i < |all| ensures PublishedAs(after[|start| + i], xid + 1 + i, all[i]) {
      if i < |published| {
        assert after[|start| + i] == before[|start| + i] && all[i] == published[i];
      } else {
        assert i == |published| && after[|start| + i] == h && all[i] == next;
      }
    }
  }

  lemma EarlierThrough(m1: seq<ObjectMap.Entry>, m2: seq<ObjectMap.Entry>, m3: seq<ObjectMap.Entry>, x: nat, y: nat)
    requires x <= y && EarlierSame(m1, m2, x) && EarlierSame(m2, m3, y)
    ensures EarlierSame(m1, m3, x)
  {
    hide ObjectMap.Resolve;
  }

  lemma PinnedThrough(start: State, before: State, after: State)
    requires start.pinned <= before.pinned && SamePinned(start.disk, before.disk, start.pinned)
    requires before.pinned <= after.pinned && SamePinned(before.disk, after.disk, before.pinned)
    ensures start.pinned <= after.pinned && SamePinned(start.disk, after.disk, start.pinned)
  {
  }

  /** With every pinned block unchanged, the snapshot reads as it did. */
  lemma SnapshotIntact(frozen: seq<Extent>, used: set<nat>, pinned: set<nat>, headers: set<nat>, files: seq<Extent>,
                       d1: Blocks, d2: Blocks, i: nat, size: nat)
    requires Sound(frozen, used, pinned, headers, files) && SamePinned(d1, d2, pinned) && i < |frozen| &&
             OnDisk(d1, frozen[i])
    ensures Region(d2, frozen[i]) == Region(d1, frozen[i]) &&
            ReadFile(d2, frozen[i], size) == ReadFile(d1, frozen[i], size)
    ensures Cells(frozen[i]) <= used
  {
    hide Range;
    assert forall p :: p in Cells(frozen[i]) ==> p in d1 && p in d2 && d2[p] == d1[p];
    assert OnDisk(d2, frozen[i]);
    SameRegion(d1, d2, frozen[i]);
  }

  lemma SameRegion(d1: Blocks, d2: Blocks, e: Extent)
    requires OnDisk(d1, e) && OnDisk(d2, e) && forall p :: p in Cells(e) ==> d2[p] == d1[p]
    ensures Region(d2, e) == Region(d1, e)
  {
  }

  function Ones(n: nat): (r: seq<byte>)
    ensures |r| == n && forall i :: 0 <= i < n ==> r[i] == 1
  {
    seq(n, _ => 1)
  }

  /**
   * An extent that starts inside a snapshot extent is not protected. Blocks 1 and 2 belong to the
   * snapshot and a live file lies in block 2; rewriting it changes the snapshot's second block.
   */
  method InnerStartRun() returns (v: Volume, r: Result<Extent>, before: seq<byte>, after: seq<byte>)
    ensures v.frozen == [Extent(1, 2)] && !Protected(v.frozen, 2) && 2 in Cells(v.frozen[0])
    ensures r == Ok(Extent(2, 1)) && 2 in v.disk && after == v.disk[2] && |before| == |after| == 4096
    ensures before[0] == 1 && after[0] == 7
  {
    hide Tracked;
    hide Ones, Cut, DivCeil, ChunksOk, TotalFree, Used;
    var chunk := Chunk(0, 4, 1, Some([true, true, true, false]), 0, false);
    OneChunkOk(chunk);
    var sm := new SpacemanContext(32768, [chunk]);
    var ones := Ones(4096);
    var disk: Blocks := map[0 := ones, 1 := ones, 2 := ones, 3 := ones];
    v := new Volume.Found(sm, [Extent(1, 2)], disk, [Extent(2, 1)]);
    before := v.disk[2];
    InnerFacts(disk, [chunk]);
    r := v.Rewrite(Extent(2, 1), [7]);
    after := v.disk[2];
    InnerRead(v.disk, after);
  }

  lemma OneChunkOk(c: Chunk)
    requires c == Chunk(0, 4, 1, Some([true, true, true, false]), 0, false)
    ensures ChunksOk([c])
  {
    var bits := [true, true, true, false];
    assert bits[..3] == [true, true, true] && [true, true, true][..2] == [true, true] &&
           [true, true][..1] == [true] && [true][..0] == [];
    assert CountClear([true]) == 0 && CountClear([true, true]) == 0 && CountClear(bits[..3]) == 0 &&
           CountClear(bits) == 1;
    assert bits[..4] == bits;
  }

  lemma InnerFacts(disk: Blocks, chunks: seq<Chunk>)
    requires disk.Keys == {0, 1, 2, 3} && (forall p :: p in disk ==> |disk[p]| == 4096) && |chunks| == 1 &&
             chunks[0].addr == 0 && chunks[0].blocks == 4
    ensures Bounded(chunks) && WholeBlocks(disk, 4096) && OnDisk(disk, Extent(2, 1))
    ensures InPlace([Extent(1, 2)], Extent(2, 1), [7], 4096) && 2 in Cells(Extent(1, 2))
  {
    assert DivCeil(1, 4096) == 1;
  }

  lemma InnerRead(disk: Blocks, b: seq<byte>)
    requires 2 in disk && b == disk[2] && |b| == 4096 && ReadFile(disk, Extent(2, 1), 1) == Ok([7])
    ensures b[0] == 7
  {
    var region := Region(disk, Extent(2, 1));
    assert region == [b];
    assert Concat([b]) == b by { assert [b][1..] == []; assert b + [] == b; }
    assert b[..1] == [7];
    assert b[..1][0] == 7;
  }
}

/**
 * The allocator of a file replacement (src/apfs_replace.rs `Allocator`): single blocks from the
 * main device, metadata blocks from an internal pool, and a commit that writes every changed
 * bitmap and chunk-info block to a new place and turns the pool-bitmap ring by one.
 */
module BlockAllocator {
  import opened Bytes
  import opened SpaceManager
  import opened BlockSupply
  import IpRing

  /** The metadata blocks the allocator reads and writes. */
  datatype Meta = BitmapBlock(bits: seq<bool>) | CibBlock(infos: seq<Info>)

  // ---- what is on disk -----------------------------------------------------------------------------

  /** The records of CIB `index`: one per chunk it describes, in order. */
  function InfosOf(chunks: seq<Chunk>, addrs: seq<nat>, index: nat): seq<Info>
    requires |chunks| == |addrs|
  {
    if chunks == [] then [] else
    var n := |chunks| - 1;
    var c := chunks[n];
    InfosOf(chunks[..n], addrs[..n], index) + if c.cib == index then [Info(c.addr, c.blocks, c.free, addrs[n])] else []
  }

  /** No chunk of this CIB has changed. */
  predicate Clean(chunks: seq<Chunk>, index: nat) {
    forall k :: 0 <= k < |chunks| && chunks[k].cib == index ==> !chunks[k].dirty
  }

  ghost predicate BitmapBacked(disk: map<nat, Meta>, c: Chunk, addr: nat) {
    && c.bitmap.Some?
    && if addr == 0 then forall i :: 0 <= i < |c.bitmap.value| ==> !c.bitmap.value[i]
       else addr in disk && disk[addr] == BitmapBlock(c.bitmap.value)
  }

  ghost predicate CibBacked(disk: map<nat, Meta>, cib: nat, chunks: seq<Chunk>, addrs: seq<nat>, index: nat)
    requires |chunks| == |addrs|
  {
    cib in disk && disk[cib] == CibBlock(InfosOf(chunks, addrs, index))
  }

  predicate Shaped(cibs: seq<nat>, chunks: seq<Chunk>, addrs: seq<nat>) {
    |chunks| == |addrs| && forall k :: 0 <= k < |chunks| ==> chunks[k].cib < |cibs| && chunks[k].bitmap.Some?
  }

  /**
   * The first `done` chunks and all unchanged ones have their bitmaps on disk; so have the first
   * `sealed` CIBs and all whose chunks are unchanged.
   */
  ghost predicate BackedTo(disk: map<nat, Meta>, cibs: seq<nat>, chunks: seq<Chunk>, addrs: seq<nat>, done: nat,
                           written: nat)
  {
    && Shaped(cibs, chunks, addrs)
    && (forall k :: 0 <= k < |chunks| && (k < done || !chunks[k].dirty) ==> BitmapBacked(disk, chunks[k], addrs[k]))
    && (forall i :: 0 <= i < |cibs| && (i < written || Clean(chunks, i)) ==> CibBacked(disk, cibs[i], chunks, addrs, i))
  }

  /** The metadata on disk describes exactly these chunks. */
  ghost predicate Backed(disk: map<nat, Meta>, cibs: seq<nat>, chunks: seq<Chunk>, addrs: seq<nat>) {
    && Shaped(cibs, chunks, addrs)
    && (forall k :: 0 <= k < |chunks| ==> BitmapBacked(disk, chunks[k], addrs[k]))
    && (forall i :: 0 <= i < |cibs| ==> CibBacked(disk, cibs[i], chunks, addrs, i))
  }

  lemma AllBacked(disk: map<nat, Meta>, cibs: seq<nat>, chunks: seq<Chunk>, addrs: seq<nat>)
    requires BackedTo(disk, cibs, chunks, addrs, |chunks|, |cibs|)
    ensures Backed(disk, cibs, chunks, addrs)
  {
    hide BitmapBacked, CibBacked, Clean;
  }

  // ---- the pool ------------------------------------------------------------------------------------

  /** The internal pool: `count` blocks from `base`. */
  datatype Pool = Pool(base: nat, count: nat, ringBase: nat)

  /** A free block of the pool. */
  predicate PoolClear(pool: Pool, bits: seq<bool>, p: nat) {
    pool.base <= p < pool.base + pool.count && p - pool.base < |bits| && !bits[p - pool.base]
  }

  /** Where metadata lives: not in a free pool block, and not in the bitmap ring. */
  predicate Anchored(pool: Pool, bits: seq<bool>, slots: nat, p: nat) {
    !PoolClear(pool, bits, p) && !(pool.ringBase <= p < pool.ringBase + slots)
  }

  ghost predicate AllAnchored(pool: Pool, bits: seq<bool>, slots: nat, cibs: seq<nat>, addrs: seq<nat>) {
    && (forall i :: 0 <= i < |cibs| ==> Anchored(pool, bits, slots, cibs[i]))
    && (forall k :: 0 <= k < |addrs| ==> addrs[k] == 0 || Anchored(pool, bits, slots, addrs[k]))
  }

  /** Pool and ring are separate stretches of the device, neither at block zero. */
  predicate PoolOk(pool: Pool, bits: seq<bool>, slots: nat) {
    && 0 < pool.base && 0 < pool.ringBase && pool.count <= |bits|
    && (pool.base + pool.count <= pool.ringBase || pool.ringBase + slots <= pool.base)
  }

  /** The pool blocks taken since `before`, each once, and nothing else written. */
  ghost predicate Logged(pool: Pool, before: seq<bool>, bits: seq<bool>, d1: map<nat, Meta>, d2: map<nat, Meta>,
                         log: seq<nat>)
  {
    && pool.count <= |before| == |bits| && IpRing.Distinct(log)
    && CountClear(bits[..pool.count]) + |log| == CountClear(before[..pool.count])
    && (forall b :: 0 <= b < |bits| && before[b] ==> bits[b])
    && (forall w :: w in log ==> PoolClear(pool, before, w) && !PoolClear(pool, bits, w))
    && Elsewhere(d1, d2, log)
  }

  ghost predicate Elsewhere(d1: map<nat, Meta>, d2: map<nat, Meta>, log: seq<nat>) {
    forall p :: p !in log ==> (p in d1 <==> p in d2) && (p in d1 ==> d2[p] == d1[p])
  }

  lemma LogMore(pool: Pool, before: seq<bool>, bits: seq<bool>, d1: map<nat, Meta>, d2: map<nat, Meta>, log: seq<nat>,
                w: nat, m: Meta)
    requires Logged(pool, before, bits, d1, d2, log) && PoolClear(pool, bits, w)
    ensures w - pool.base < |bits|
    ensures Logged(pool, before, bits[w - pool.base := true], d1, d2[w := m], log + [w])
  {
    IpRing.DistinctPush(log, w);
    var b := w - pool.base;
    CountUpdate(bits[..pool.count], b, true);
    assert bits[b := true][..pool.count] == bits[..pool.count][b := true];
  }

  /** A pool block can be had exactly while one is free. */
  lemma PoolFreeIff(pool: Pool, bits: seq<bool>)
    requires pool.count <= |bits|
    ensures (exists p: nat :: PoolClear(pool, bits, p)) <==> CountClear(bits[..pool.count]) > 0
  {
    if CountClear(bits[..pool.count]) > 0 {
      var b := ClearBit(bits[..pool.count]);
      assert PoolClear(pool, bits, pool.base + b);
    }
    if p: nat :| PoolClear(pool, bits, p) {
      assert AllAre(bits[..pool.count], p - pool.base, 1, false);
      RunNeedsClear(bits[..pool.count], p - pool.base, 1);
    }
  }

  lemma {:induction false} ClearBit(bits: seq<bool>) returns (b: nat)
    requires CountClear(bits) > 0
    ensures b < |bits| && !bits[b]
  {
    var n := |bits| - 1;
    if bits[n] {
      b := ClearBit(bits[..n]);
    } else {
      b := n;
    }
  }

  lemma AnchoredMore(pool: Pool, bits: seq<bool>, slots: nat, cibs: seq<nat>, addrs: seq<nat>, w: nat)
    requires PoolOk(pool, bits, slots) && AllAnchored(pool, bits, slots, cibs, addrs) && PoolClear(pool, bits, w)
    ensures var after := bits[w - pool.base := true];
            PoolOk(pool, after, slots) && AllAnchored(pool, after, slots, cibs, addrs) &&
                Anchored(pool, after, slots, w) && w != 0
    ensures w !in cibs && w !in addrs
  {
    var after := bits[w - pool.base := true];
    assert Anchored(pool, after, slots, w);
    forall i | 0 <= i < |cibs| ensures cibs[i] != w && Anchored(pool, after, slots, cibs[i]) {
      assert Anchored(pool, bits, slots, cibs[i]);
    }
    forall k | 0 <= k < |addrs| ensures addrs[k] != w && (addrs[k] == 0 || Anchored(pool, after, slots, addrs[k])) {
      assert addrs[k] == 0 || Anchored(pool, bits, slots, addrs[k]);
    }
  }

  // ---- how the steps of a commit move the frontier ---------------------------------------------------

  lemma {:induction false} InfosAddr(chunks: seq<Chunk>, addrs: seq<nat>, k: nat, a: nat, index: nat)
    requires |chunks| == |addrs| && k < |chunks| && chunks[k].cib != index
    ensures InfosOf(chunks, addrs[k := a], index) == InfosOf(chunks, addrs, index)
  {
    var n := |chunks| - 1;
    if k == n {
      assert addrs[k := a][..n] == addrs[..n];
    } else {
      InfosAddr(chunks[..n], addrs[..n], k, a, index);
      assert addrs[k := a][..n] == addrs[..n][k := a];
    }
  }

  lemma {:induction false} InfosChunk(chunks: seq<Chunk>, addrs: seq<nat>, k: nat, c: Chunk, index: nat)
    requires |chunks| == |addrs| && k < |chunks| && chunks[k].cib != index && c.cib != index
    ensures InfosOf(chunks[k := c], addrs, index) == InfosOf(chunks, addrs, index)
  {
    var n := |chunks| - 1;
    if k == n {
      assert chunks[k := c][..n] == chunks[..n];
    } else {
      InfosChunk(chunks[..n], addrs[..n], k, c, index);
      assert chunks[k := c][..n] == chunks[..n][k := c];
    }
  }

  /** Changing a chunk in memory leaves everything that is not marked as changed backed. */
  lemma ChunkChanged(disk: map<nat, Meta>, cibs: seq<nat>, chunks: seq<Chunk>, addrs: seq<nat>, k: nat, c: Chunk)
    requires BackedTo(disk, cibs, chunks, addrs, 0, 0) && k < |chunks|
    requires c.dirty && c.cib == chunks[k].cib && c.bitmap.Some?
    ensures BackedTo(disk, cibs, chunks[k := c], addrs, 0, 0)
  {
    hide BitmapBacked, InfosOf;
    var next := chunks[k := c];
    forall i | 0 <= i < |cibs| && Clean(next, i) ensures CibBacked(disk, cibs[i], next, addrs, i) {
      assert next[k] == c;
      assert c.cib != i;
      forall j | 0 <= j < |chunks| && chunks[j].cib == i ensures !chunks[j].dirty {
        assert next[j] == chunks[j];
      }
      InfosChunk(chunks, addrs, k, c, i);
    }
  }

  /** Writing a block nothing refers to leaves everything backed. */
  lemma StillBacked(disk: map<nat, Meta>, cibs: seq<nat>, chunks: seq<Chunk>, addrs: seq<nat>, done: nat,
                    written: nat, w: nat, m: Meta)
    requires BackedTo(disk, cibs, chunks, addrs, done, written) && w !in cibs && w !in addrs
    ensures BackedTo(disk[w := m], cibs, chunks, addrs, done, written)
  {
    hide InfosOf, Clean;
    forall k | 0 <= k < |chunks| && (k < done || !chunks[k].dirty)
      ensures BitmapBacked(disk[w := m], chunks[k], addrs[k])
    {
      assert BitmapBacked(disk, chunks[k], addrs[k]) && addrs[k] in addrs;
    }
    forall i | 0 <= i < |cibs| && (i < written || Clean(chunks, i))
      ensures CibBacked(disk[w := m], cibs[i], chunks, addrs, i)
    {
      assert CibBacked(disk, cibs[i], chunks, addrs, i) && cibs[i] in cibs;
    }
  }

  lemma BitmapWritten(disk: map<nat, Meta>, cibs: seq<nat>, chunks: seq<Chunk>, addrs: seq<nat>, k: nat, w: nat)
    requires BackedTo(disk, cibs, chunks, addrs, k, 0) && k < |chunks| && chunks[k].dirty && chunks[k].bitmap.Some?
    requires w !in cibs && w !in addrs && w != 0
    ensures BackedTo(disk[w := BitmapBlock(chunks[k].bitmap.value)], cibs, chunks, addrs[k := w], k + 1, 0)
  {
    hide InfosOf;
    var m := BitmapBlock(chunks[k].bitmap.value);
    StillBacked(disk, cibs, chunks, addrs, k, 0, w, m);
    var next := disk[w := m];
    forall j | 0 <= j < |chunks| && (j < k + 1 || !chunks[j].dirty)
      ensures BitmapBacked(next, chunks[j], addrs[k := w][j])
    {
      if j != k {
        assert BitmapBacked(next, chunks[j], addrs[j]);
      }
    }
    forall i | 0 <= i < |cibs| && Clean(chunks, i) ensures CibBacked(next, cibs[i], chunks, addrs[k := w], i) {
      assert CibBacked(next, cibs[i], chunks, addrs, i);
      assert chunks[k].cib != i;
      InfosAddr(chunks, addrs, k, w, i);
    }
  }

  lemma CibWritten(disk: map<nat, Meta>, cibs: seq<nat>, chunks: seq<Chunk>, addrs: seq<nat>, i: nat, w: nat)
    requires BackedTo(disk, cibs, chunks, addrs, |chunks|, i) && i < |cibs| && w !in cibs && w !in addrs
    ensures BackedTo(disk[w := CibBlock(InfosOf(chunks, addrs, i))], cibs[i := w], chunks, addrs, |chunks|, i + 1)
  {
    hide InfosOf, Clean, BitmapBacked;
    var m := CibBlock(InfosOf(chunks, addrs, i));
    StillBacked(disk, cibs, chunks, addrs, |chunks|, i, w, m);
    forall j | 0 <= j < |cibs| && (j < i + 1 || Clean(chunks, j))
      ensures CibBacked(disk[w := m], cibs[i := w][j], chunks, addrs, j)
    {
      if j != i {
        assert CibBacked(disk[w := m], cibs[j], chunks, addrs, j);
      }
    }
  }

  lemma FrontierOn(disk: map<nat, Meta>, cibs: seq<nat>, chunks: seq<Chunk>, addrs: seq<nat>, k: nat)
    requires BackedTo(disk, cibs, chunks, addrs, k, 0) && k < |chunks| && !chunks[k].dirty
    ensures BackedTo(disk, cibs, chunks, addrs, k + 1, 0)
  {
    hide BitmapBacked, CibBacked, Clean;
  }

  lemma CibFrontierOn(disk: map<nat, Meta>, cibs: seq<nat>, chunks: seq<Chunk>, addrs: seq<nat>, i: nat)
    requires BackedTo(disk, cibs, chunks, addrs, |chunks|, i) && i < |cibs| && Clean(chunks, i)
    ensures BackedTo(disk, cibs, chunks, addrs, |chunks|, i + 1)
  {
    hide BitmapBacked, CibBacked, Clean;
  }

  lemma AnchorAddr(pool: Pool, bits: seq<bool>, slots: nat, cibs: seq<nat>, addrs: seq<nat>, k: nat, w: nat)
    requires AllAnchored(pool, bits, slots, cibs, addrs) && Anchored(pool, bits, slots, w) && k < |addrs|
    ensures AllAnchored(pool, bits, slots, cibs, addrs[k := w])
  {
  }

  lemma AnchorCib(pool: Pool, bits: seq<bool>, slots: nat, cibs: seq<nat>, addrs: seq<nat>, i: nat, w: nat)
    requires AllAnchored(pool, bits, slots, cibs, addrs) && Anchored(pool, bits, slots, w) && i < |cibs|
    ensures AllAnchored(pool, bits, slots, cibs[i := w], addrs)
  {
  }

  /** The old bitmap blocks of the changed chunks, in order. */
  function OldBitmaps(chunks: seq<Chunk>, addrs: seq<nat>, k: nat): seq<nat>
    requires k <= |chunks| == |addrs|
  {
    if k == 0 then [] else
    OldBitmaps(chunks, addrs, k - 1) + if chunks[k - 1].dirty && addrs[k - 1] != 0 then [addrs[k - 1]] else []
  }

  /** The old blocks of the CIBs with a changed chunk, in order. */
  function OldCibs(chunks: seq<Chunk>, cibs: seq<nat>, i: nat): seq<nat>
    requires i <= |cibs|
  {
    if i == 0 then [] else OldCibs(chunks, cibs, i - 1) + if Clean(chunks, i - 1) then [] else [cibs[i - 1]]
  }

  /** How many of the first k chunks have changed. */
  function Dirty(chunks: seq<Chunk>, k: nat): nat
    requires k <= |chunks|
  {
    if k == 0 then 0 else Dirty(chunks, k - 1) + if chunks[k - 1].dirty then 1 else 0
  }

  lemma {:induction false} DirtyGrows(chunks: seq<Chunk>, j: nat, k: nat)
    requires j <= k <= |chunks|
    ensures Dirty(chunks, j) <= Dirty(chunks, k)
  {
    if j < k {
      DirtyGrows(chunks, j, k - 1);
    }
  }

  /** How many of the first i CIBs have a changed chunk. */
  function DirtyCibs(chunks: seq<Chunk>, i: nat): nat {
    if i == 0 then 0 else DirtyCibs(chunks, i - 1) + if Clean(chunks, i - 1) then 0 else 1
  }

  lemma {:induction false} DirtyCibsGrow(chunks: seq<Chunk>, i: nat, j: nat)
    requires i <= j
    ensures DirtyCibs(chunks, i) <= DirtyCibs(chunks, j)
  {
    if i < j {
      DirtyCibsGrow(chunks, i, j - 1);
    }
  }

  class Allocator {
    const pool: Pool
    const ring: IpRing.Ring
    /** Main device: one entry per chunk, every chunk with its bits, and the block its bitmap was read from. */
    var chunks: seq<Chunk>
    var addrs: seq<nat>
    var cibs: seq<nat>
    var poolBits: seq<bool>
    var smFree: nat
    var taken: nat
    /** Metadata blocks on disk. */
    var disk: map<nat, Meta>

    ghost predicate Valid()
      reads this, ring
    {
      && ChunksOk(chunks) && smFree == TotalFree(chunks) && BackedTo(disk, cibs, chunks, addrs, 0, 0)
      && ring.Valid() && PoolOk(pool, poolBits, |ring.next|) && AllAnchored(pool, poolBits, |ring.next|, cibs, addrs)
    }

    constructor (pool: Pool, ring: IpRing.Ring, chunks: seq<Chunk>, addrs: seq<nat>, cibs: seq<nat>,
                 poolBits: seq<bool>, disk: map<nat, Meta>)
      requires ChunksOk(chunks) && Backed(disk, cibs, chunks, addrs) && ring.Valid()
      requires PoolOk(pool, poolBits, |ring.next|) && AllAnchored(pool, poolBits, |ring.next|, cibs, addrs)
      ensures Valid() && this.chunks == chunks && this.ring == ring && this.pool == pool && taken == 0
      ensures this.addrs == addrs && this.cibs == cibs && this.poolBits == poolBits && this.disk == disk
      ensures smFree == TotalFree(chunks)
    {
      this.pool, this.ring, this.chunks, this.addrs, this.cibs := pool, ring, chunks, addrs, cibs;
      this.poolBits, this.disk, smFree, taken := poolBits, disk, TotalFree(chunks), 0;
    }

    /** The first free block of the main device; the count underflows the source guards against cannot happen. */
    method Allocate() returns (r: Result<nat>)
      requires Valid()
      modifies this`chunks, this`smFree, this`taken
      ensures Valid()
      ensures r.Ok? <==> exists i :: 0 <= i < |old(chunks)| && HasRun(old(chunks)[i], 1)
      ensures r.Err? ==> chunks == old(chunks) && smFree == old(smFree) && taken == old(taken)
      ensures r.Ok? ==> r.value !in Used(old(chunks)) && Used(chunks) == Used(old(chunks)) + {r.value}
      ensures r.Ok? ==> smFree == old(smFree) - 1 && taken == old(taken) + 1
      ensures r.Ok? ==>
                exists i, s: nat ::
                  0 <= i < |old(chunks)| && Took(old(chunks), chunks, i, s, 1) && r.value == old(chunks)[i].addr + s
      ensures r.Ok? ==> SameShape(chunks, old(chunks))
    {
      hide ChunksOk, TotalFree, Used, HasRun, RunAt, FirstFit, SameShape, Flip, Range, AllAre, ChunkOk, PoolOk,
           AllAnchored, BackedTo, Shaped;
      for i := 0 to |chunks|
        invariant Valid() && chunks == old(chunks) && smFree == old(smFree) && taken == old(taken)
        invariant forall j :: 0 <= j < i ==> !HasRun(chunks[j], 1)
      {
        var c := chunks[i];
        HasBits(disk, cibs, chunks, addrs, i);
        ChunkFacts(chunks, i);
        var found := FindRun(c.bitmap.value, c.blocks, 1);
        RunFacts(c, 1, found);
        if found.None? {
          continue;
        }
        FlipChunks(chunks, i, found.value, 1, true);
        ShapeKept(chunks, i, found.value, 1, true);
        FitFirst(chunks, i, found.value, 1);
        RangeOne(c.addr + found.value);
        var d := Flip(c, found.value, 1, true);
        FlipMarks(c, found.value);
        ChunkChanged(disk, cibs, chunks, addrs, i, d);
        assert Took(chunks, chunks[i := d], i, found.value, 1);
        chunks := chunks[i := d];
        smFree := smFree - 1;
        taken := taken + 1;
        return Ok(c.addr + found.value);
      }
      r := Err(NoSpace);
    }

    /** Takes the first free pool block and writes a metadata block there. */
    method Place(m: Meta) returns (r: Result<nat>)
      requires PoolOk(pool, poolBits, |ring.next|)
      modifies this`poolBits, this`disk
      ensures r.Ok? <==> exists p: nat :: PoolClear(pool, old(poolBits), p)
      ensures r.Err? ==> poolBits == old(poolBits) && disk == old(disk)
      ensures r.Ok? ==> PoolClear(pool, old(poolBits), r.value)
      ensures r.Ok? ==> poolBits == old(poolBits)[r.value - pool.base := true] && disk == old(disk)[r.value := m]
      ensures r.Ok? ==> forall p: nat :: p < r.value ==> !PoolClear(pool, old(poolBits), p)
    {
      for bit := 0 to pool.count
        invariant poolBits == old(poolBits) && disk == old(disk)
        invariant forall b :: 0 <= b < bit ==> poolBits[b]
      {
        if !poolBits[bit] {
          assert PoolClear(pool, poolBits, pool.base + bit);
          poolBits := poolBits[bit := true];
          disk := disk[pool.base + bit := m];
          return Ok(pool.base + bit);
        }
      }
      r := Err(NoSpace);
    }

    /** Writes the bitmap of every changed chunk to a new pool block; fails exactly when the pool is too full. */
    method WriteBitmaps() returns (r: Result<bool>, retired: seq<nat>, log: seq<nat>)
      requires Valid()
      modifies this`poolBits, this`disk, this`addrs
      ensures PoolOk(pool, poolBits, |ring.next|) && AllAnchored(pool, poolBits, |ring.next|, cibs, addrs)
      ensures Logged(pool, old(poolBits), poolBits, old(disk), disk, log)
      ensures r.Ok? <==> Dirty(chunks, |chunks|) <= CountClear(old(poolBits)[..Min(pool.count, |old(poolBits)|)])
      ensures r.Ok? ==> BackedTo(disk, cibs, chunks, addrs, |chunks|, 0) && |log| == Dirty(chunks, |chunks|)
      ensures r.Ok? ==> |old(addrs)| == |chunks| && retired == OldBitmaps(chunks, old(addrs), |chunks|)
    {
      hide ChunksOk, TotalFree, PoolOk, AllAnchored, BackedTo, Logged, IpRing.Partition, OldBitmaps, PoolClear,
           Anchored, Dirty, CountClear;
      SizesAgree(disk, cibs, chunks, addrs);
      ghost var addrs0, bits0, disk0 := addrs, poolBits, disk;
      retired, log := [], [];
      NothingLogged(pool, poolBits, |ring.next|, disk);
      NoOldBitmaps(chunks, addrs0);
      for k := 0 to |chunks|
        invariant PoolOk(pool, poolBits, |ring.next|) && AllAnchored(pool, poolBits, |ring.next|, cibs, addrs)
        invariant Logged(pool, bits0, poolBits, disk0, disk, log) && |log| == Dirty(chunks, k)
        invariant BackedTo(disk, cibs, chunks, addrs, k, 0)
        invariant |addrs| == |addrs0| == |chunks| && addrs[k..] == addrs0[k..] &&
                  retired == OldBitmaps(chunks, addrs0, k)
      {
        MoreOldBitmaps(chunks, addrs0, k);
        LogCount(pool, bits0, poolBits, disk0, disk, log);
        assert addrs[k] == addrs[k..][0] == addrs0[k];
        if !chunks[k].dirty {
          FrontierOn(disk, cibs, chunks, addrs, k);
          assert addrs[k + 1..] == addrs0[k + 1..];
          continue;
        }
        HasBitsAt(disk, cibs, chunks, addrs, k, k);
        ghost var bits, before := poolBits, disk;
        DirtyGrows(chunks, k + 1, |chunks|);
        var place := Place(BitmapBlock(chunks[k].bitmap.value));
        if place.Err? {
          return Err(place.error), retired, log;
        }
        var w := place.value;
        AnchoredMore(pool, bits, |ring.next|, cibs, addrs, w);
        AnchorAddr(pool, poolBits, |ring.next|, cibs, addrs, k, w);
        BitmapWritten(before, cibs, chunks, addrs, k, w);
        LogMore(pool, bits0, bits, disk0, before, log, w, BitmapBlock(chunks[k].bitmap.value));
        if addrs[k] != 0 {
          retired := retired + [addrs[k]];
        }
        addrs := addrs[k := w];
        assert addrs[k + 1..] == addrs0[k + 1..];
        log := log + [w];
      }
      LogCount(pool, bits0, poolBits, disk0, disk, log);
      r := Ok(true);
    }

    /** Writes every CIB with a changed chunk to a new pool block, in order. */
    method WriteCibs(ghost bits0: seq<bool>, ghost disk0: map<nat, Meta>, log0: seq<nat>)
      returns (r: Result<bool>, retired: seq<nat>, log: seq<nat>)
      requires PoolOk(pool, poolBits, |ring.next|) && AllAnchored(pool, poolBits, |ring.next|, cibs, addrs)
      requires BackedTo(disk, cibs, chunks, addrs, |chunks|, 0) && Logged(pool, bits0, poolBits, disk0, disk, log0)
      modifies this`poolBits, this`disk, this`cibs
      ensures PoolOk(pool, poolBits, |ring.next|) && Logged(pool, bits0, poolBits, disk0, disk, log)
      ensures r.Ok? <==> |log0| + DirtyCibs(chunks, |old(cibs)|) <= CountClear(bits0[..Min(pool.count, |bits0|)])
      ensures r.Ok? ==>
                BackedTo(disk, cibs, chunks, addrs, |chunks|, |cibs|) &&
                AllAnchored(pool, poolBits, |ring.next|, cibs, addrs)
      ensures r.Ok? ==> |cibs| == |old(cibs)| && retired == OldCibs(chunks, old(cibs), |cibs|)
    {
      hide PoolOk, AllAnchored, BackedTo, Logged, OldCibs, PoolClear, Anchored, DirtyCibs, Clean, CountClear, InfosOf;
      ghost var cibs0 := cibs;
      SizesAgreeAt(disk, cibs, chunks, addrs, |chunks|, 0);
      retired, log := [], log0;
      NoOldCibs(chunks, cibs0);
      for i := 0 to |cibs|
        invariant PoolOk(pool, poolBits, |ring.next|) && AllAnchored(pool, poolBits, |ring.next|, cibs, addrs)
        invariant Logged(pool, bits0, poolBits, disk0, disk, log) && |log| == |log0| + DirtyCibs(chunks, i)
        invariant BackedTo(disk, cibs, chunks, addrs, |chunks|, i)
        invariant |cibs| == |cibs0| && cibs[i..] == cibs0[i..] && retired == OldCibs(chunks, cibs0, i)
      {
        MoreOldCibs(chunks, cibs0, i);
        LogCount(pool, bits0, poolBits, disk0, disk, log);
        assert cibs[i] == cibs[i..][0] == cibs0[i];
        if Clean(chunks, i) {
          CibFrontierOn(disk, cibs, chunks, addrs, i);
          assert cibs[i + 1..] == cibs0[i + 1..];
          continue;
        }
        ghost var bits, before := poolBits, disk;
        DirtyCibsGrow(chunks, i + 1, |cibs|);
        var m := CibBlock(InfosOf(chunks, addrs, i));
        var place := Place(m);
        if place.Err? {
          return Err(place.error), retired, log;
        }
        var w := place.value;
        AnchoredMore(pool, bits, |ring.next|, cibs, addrs, w);
        AnchorCib(pool, poolBits, |ring.next|, cibs, addrs, i, w);
        CibWritten(before, cibs, chunks, addrs, i, w);
        LogMore(pool, bits0, bits, disk0, before, log, w, m);
        retired := retired + [cibs[i]];
        cibs := cibs[i := w];
        assert cibs[i + 1..] == cibs0[i + 1..];
        log := log + [w];
      }
      LogCount(pool, bits0, poolBits, disk0, disk, log);
      r := Ok(true);
    }

    /**
     * Writes all changed metadata to new places. Succeeds exactly when the pool has a free block
     * for every changed chunk and every CIB of one, and the ring has at least three slots. Every
     * block written is a free pool block, each once, or the ring slot that was next on the free
     * chain; afterwards the metadata on disk describes the current chunks and the live ring slot
     * holds the current pool bitmap.
     */
    method Commit() returns (r: Result<bool>, retired: seq<nat>, log: seq<nat>)
      requires Valid()
      modifies this`poolBits, this`disk, this`addrs, this`cibs, ring
      ensures r.Ok? <==> |old(ring.next)| >= 3 &&
                         Dirty(chunks, |chunks|) + DirtyCibs(chunks, |old(cibs)|) <=
                             CountClear(old(poolBits)[..Min(pool.count, |old(poolBits)|)])
      ensures r.Ok? ==> Backed(disk, cibs, chunks, addrs) && AllAnchored(pool, poolBits, |ring.next|, cibs, addrs)
      ensures r.Ok? ==>
                ring.Valid() && ring.live == old(ring.head) && ring.live != old(ring.live) &&
                |ring.next| == |old(ring.next)|
      ensures r.Ok? ==> pool.ringBase + ring.live in disk && disk[pool.ringBase + ring.live] == BitmapBlock(poolBits)
      ensures r.Ok? ==> CommitLog(pool, old(poolBits), old(ring.head), |ring.next|, old(disk), disk, log)
      ensures r.Ok? ==> |old(addrs)| == |chunks| &&
                        retired == OldBitmaps(chunks, old(addrs), |chunks|) + OldCibs(chunks, old(cibs), |old(cibs)|)
    {
      hide ChunksOk, TotalFree, PoolOk, AllAnchored, BackedTo, Backed, Logged, CommitLog, OldBitmaps, OldCibs, Dirty,
           DirtyCibs, CountClear, IpRing.Partition;
      ghost var bits0, disk0, slot := poolBits, disk, ring.head;
      var first, bitmaps, log1 := WriteBitmaps();
      r, retired, log := first, bitmaps, log1;
      if first.Err? {
        return;
      }
      var second, olds, log2 := WriteCibs(bits0, disk0, log1);
      r, retired, log := second, bitmaps + olds, log2;
      if second.Err? {
        return;
      }
      ghost var head := ring.head;
      HeadInRing(ring.next, ring.live, ring.head, ring.tail, ring.chain);
      var turned := ring.Rotate();
      if turned.Err? {
        r := Err(turned.error);
        return;
      }
      SlotWritten(pool, bits0, poolBits, disk0, disk, log, cibs, chunks, addrs, |ring.next|, turned.value);
      disk := disk[pool.ringBase + turned.value := BitmapBlock(poolBits)];
      AllBacked(disk, cibs, chunks, addrs);
      log := log + [pool.ringBase + turned.value];
      r := Ok(true);
    }
  }

  /** Everything a commit wrote: free pool blocks, then the ring slot; all different. */
  ghost predicate CommitLog(pool: Pool, before: seq<bool>, slot: nat, slots: nat, d1: map<nat, Meta>, d2: map<nat,
                            Meta>, log: seq<nat>)
  {
    && log != [] && log[|log| - 1] == pool.ringBase + slot && slot < slots && IpRing.Distinct(log) &&
       Elsewhere(d1, d2, log)
    && forall i :: 0 <= i < |log| - 1 ==> PoolClear(pool, before, log[i])
  }

  lemma SlotWritten(pool: Pool, before: seq<bool>, bits: seq<bool>, d1: map<nat, Meta>, d2: map<nat, Meta>,
                    log: seq<nat>, cibs: seq<nat>, chunks: seq<Chunk>, addrs: seq<nat>, slots: nat, slot: nat)
    requires PoolOk(pool, bits, slots) && AllAnchored(pool, bits, slots, cibs, addrs) && slot < slots
    requires Logged(pool, before, bits, d1, d2, log) && BackedTo(d2, cibs, chunks, addrs, |chunks|, |cibs|)
    ensures var m := BitmapBlock(bits);
            && CommitLog(pool, before, slot, slots, d1, d2[pool.ringBase + slot := m], log + [pool.ringBase + slot])
            && BackedTo(d2[pool.ringBase + slot := m], cibs, chunks, addrs, |chunks|, |cibs|)
  {
    hide CountClear, BackedTo;
    var w, m := pool.ringBase + slot, BitmapBlock(bits);
    forall i | 0 <= i < |cibs| ensures cibs[i] != w {
      assert Anchored(pool, bits, slots, cibs[i]);
    }
    forall k | 0 <= k < |addrs| ensures addrs[k] != w {
      assert addrs[k] == 0 || Anchored(pool, bits, slots, addrs[k]);
    }
    StillBacked(d2, cibs, chunks, addrs, |chunks|, |cibs|, w, m);
    IpRing.DistinctPush(log, w);
    assert forall i :: 0 <= i < |log| ==> log[i] in log;
  }

  lemma HeadInRing(next: seq<nat>, live: nat, head: nat, tail: nat, chain: seq<nat>)
    requires |next| <= IpRing.NIL && IpRing.Partition(next, [live], head, tail, chain)
    ensures |next| >= 3 ==> head < |next|
  {
    IpRing.RotateGuard(next, live, head, tail, chain);
  }

  /** The metadata a previous checkpoint points to survives a commit, and so does its pool bitmap. */
  lemma OldMetadataIntact(pool: Pool, before: seq<bool>, slot: nat, slots: nat, d1: map<nat, Meta>, d2: map<nat,
                          Meta>, log: seq<nat>, cibs: seq<nat>, chunks: seq<Chunk>, addrs: seq<nat>, live: nat)
    requires CommitLog(pool, before, slot, slots, d1, d2, log) && PoolOk(pool, before, slots)
    requires Backed(d1, cibs, chunks, addrs) && AllAnchored(pool, before, slots, cibs, addrs) && live < slots &&
             live != slot
    ensures Backed(d2, cibs, chunks, addrs)
    ensures pool.ringBase + live in d1 ==>
              pool.ringBase + live in d2 && d2[pool.ringBase + live] == d1[pool.ringBase + live]
  {
    hide InfosOf;
    forall w | w in log ensures PoolClear(pool, before, w) || w == pool.ringBase + slot {
      var i :| 0 <= i < |log| && log[i] == w;
    }
    forall k | 0 <= k < |chunks| ensures BitmapBacked(d2, chunks[k], addrs[k]) {
      assert BitmapBacked(d1, chunks[k], addrs[k]);
      assert addrs[k] == 0 || Anchored(pool, before, slots, addrs[k]);
    }
    forall i | 0 <= i < |cibs| ensures CibBacked(d2, cibs[i], chunks, addrs, i) {
      assert CibBacked(d1, cibs[i], chunks, addrs, i) && Anchored(pool, before, slots, cibs[i]);
    }
  }

  lemma HasBits(disk: map<nat, Meta>, cibs: seq<nat>, chunks: seq<Chunk>, addrs: seq<nat>, i: nat)
    requires BackedTo(disk, cibs, chunks, addrs, 0, 0) && i < |chunks|
    ensures chunks[i].bitmap.Some?
  {
    hide BitmapBacked, CibBacked, Clean;
  }

  lemma HasBitsAt(disk: map<nat, Meta>, cibs: seq<nat>, chunks: seq<Chunk>, addrs: seq<nat>, k: nat, i: nat)
    requires BackedTo(disk, cibs, chunks, addrs, k, 0) && i < |chunks|
    ensures chunks[i].bitmap.Some?
  {
    hide BitmapBacked, CibBacked, Clean;
  }

  lemma SizesAgree(disk: map<nat, Meta>, cibs: seq<nat>, chunks: seq<Chunk>, addrs: seq<nat>)
    requires BackedTo(disk, cibs, chunks, addrs, 0, 0)
    ensures |chunks| == |addrs|
  {
    hide BitmapBacked, CibBacked, Clean;
  }

  lemma FlipMarks(c: Chunk, s: nat)
    requires c.bitmap.Some? && s + 1 <= c.blocks <= |c.bitmap.value| && 1 <= c.free
    ensures var d := Flip(c, s, 1, true); d.dirty && d.cib == c.cib && d.bitmap.Some? && d.free == c.free - 1
  {
  }

  lemma LogCount(pool: Pool, before: seq<bool>, bits: seq<bool>, d1: map<nat, Meta>, d2: map<nat, Meta>, log: seq<nat>)
    requires Logged(pool, before, bits, d1, d2, log)
    ensures pool.count <= |before| && Min(pool.count, |before|) == pool.count && pool.count <= |bits|
    ensures CountClear(bits[..pool.count]) + |log| == CountClear(before[..pool.count])
    ensures (exists p: nat :: PoolClear(pool, bits, p)) <==> CountClear(bits[..pool.count]) > 0
  {
    PoolFreeIff(pool, bits);
  }

  lemma SizesAgreeAt(disk: map<nat, Meta>, cibs: seq<nat>, chunks: seq<Chunk>, addrs: seq<nat>, done: nat, written: nat)
    requires BackedTo(disk, cibs, chunks, addrs, done, written)
    ensures |chunks| == |addrs|
  {
    hide BitmapBacked, CibBacked, Clean;
  }

  lemma NoOldCibs(chunks: seq<Chunk>, cibs: seq<nat>)
    ensures OldCibs(chunks, cibs, 0) == [] && DirtyCibs(chunks, 0) == 0
  {
  }

  lemma MoreOldCibs(chunks: seq<Chunk>, cibs: seq<nat>, i: nat)
    requires i < |cibs|
    ensures OldCibs(chunks, cibs, i + 1) == OldCibs(chunks, cibs, i) + if Clean(chunks, i) then [] else [cibs[i]]
    ensures OldCibs(chunks, cibs, i) + [] == OldCibs(chunks, cibs, i)
    ensures DirtyCibs(chunks, i + 1) == DirtyCibs(chunks, i) + if Clean(chunks, i) then 0 else 1
  {
    hide Clean;
  }

  lemma NothingLogged(pool: Pool, bits: seq<bool>, slots: nat, disk: map<nat, Meta>)
    requires PoolOk(pool, bits, slots)
    ensures Logged(pool, bits, bits, disk, disk, [])
  {
  }

  lemma NoOldBitmaps(chunks: seq<Chunk>, addrs: seq<nat>)
    requires |chunks| == |addrs|
    ensures OldBitmaps(chunks, addrs, 0) == [] && Dirty(chunks, 0) == 0
  {
  }

  lemma MoreOldBitmaps(chunks: seq<Chunk>, addrs: seq<nat>, k: nat)
    requires k < |chunks| == |addrs|
    ensures OldBitmaps(chunks, addrs, k + 1) ==
            OldBitmaps(chunks, addrs, k) + if chunks[k].dirty && addrs[k] != 0 then [addrs[k]] else []
    ensures OldBitmaps(chunks, addrs, k) + [] == OldBitmaps(chunks, addrs, k)
    ensures Dirty(chunks, k + 1) == Dirty(chunks, k) + if chunks[k].dirty then 1 else 0
  {
  }
}

/**
 * First-fit run allocation over chunk bitmaps (src/apfs_update.rs `SpacemanContext`).
 * A bitmap is modelled as its bits, true for an allocated block.
 */
module SpaceManager {
  import opened Bytes

  /** One chunk of the device; a chunk without a bitmap block is entirely free. */
  datatype Chunk = Chunk(addr: nat, blocks: nat, free: nat, bitmap: Option<seq<bool>>, cib: nat, dirty: bool)

  /** A chunk record of a chunk-info block (CIB); bitmap block 0 means the chunk is all free. */
  datatype Info = Info(start: nat, count: nat, free: nat, bitmap: nat)

  function CountClear(bits: seq<bool>): (n: nat)
    ensures n <= |bits|
  {
    if bits == [] then 0 else CountClear(bits[..|bits| - 1]) + if bits[|bits| - 1] then 0 else 1
  }

  /** Counts the clear bits among the first `count`. */
  method CountFree(bits: seq<bool>, count: nat) returns (n: nat)
    requires count <= |bits|
    ensures n == CountClear(bits[..count])
  {
    n := 0;
    for i := 0 to count
      invariant n == CountClear(bits[..i])
    {
      assert bits[..i + 1][..i] == bits[..i];
      if !bits[i] {
        n := n + 1;
      }
    }
  }

  /** bits with [lo, lo + n) all set to v. */
  function SetRun(bits: seq<bool>, lo: nat, n: nat, v: bool): (r: seq<bool>)
    requires lo + n <= |bits|
    ensures |r| == |bits|
    ensures forall i :: 0 <= i < |bits| ==> r[i] == if lo <= i < lo + n then v else bits[i]
  {
    seq(|bits|, i requires 0 <= i < |bits| => if lo <= i < lo + n then v else bits[i])
  }

  /** bits[lo .. lo + n) all equal v. */
  predicate AllAre(bits: seq<bool>, lo: nat, n: nat, v: bool) {
    lo + n <= |bits| && forall i :: lo <= i < lo + n ==> bits[i] == v
  }

  lemma {:induction false} CountUpdate(bits: seq<bool>, i: nat, v: bool)
    requires i < |bits| && bits[i] != v
    ensures CountClear(bits[i := v]) == CountClear(bits) + (if v then -1 else 1)
  {
    var n := |bits| - 1;
    if i == n {
      assert bits[i := v][..n] == bits[..n];
    } else {
      CountUpdate(bits[..n], i, v);
      assert bits[i := v][..n] == bits[..n][i := v];
    }
  }

  /** Flipping a uniform run moves the count by its length. */
  lemma {:induction false} CountSetRun(bits: seq<bool>, lo: nat, n: nat, v: bool)
    requires AllAre(bits, lo, n, !v)
    ensures CountClear(SetRun(bits, lo, n, v)) == if v then CountClear(bits) - n else CountClear(bits) + n
  {
    if n == 0 {
      assert SetRun(bits, lo, 0, v) == bits;
    } else {
      CountSetRun(bits, lo, n - 1, v);
      var b := SetRun(bits, lo, n - 1, v);
      CountUpdate(b, lo + n - 1, v);
      assert b[lo + n - 1 := v] == SetRun(bits, lo, n, v);
    }
  }

  /** A clear run needs that many clear bits. */
  lemma RunNeedsClear(bits: seq<bool>, lo: nat, n: nat)
    requires AllAre(bits, lo, n, false)
    ensures n <= CountClear(bits)
  {
    CountSetRun(bits, lo, n, true);
  }

  /** Scans for the first clear run of n bits among the first `limit`. */
  method FindRun(bits: seq<bool>, limit: nat, n: nat) returns (found: Option<nat>)
    requires limit <= |bits|
    ensures found.Some? ==> n > 0 && AllAre(bits[..limit], found.value, n, false)
    ensures found.Some? ==> forall s :: 0 <= s < found.value ==> !AllAre(bits[..limit], s, n, false)
    ensures found.None? && n > 0 ==> forall s :: 0 <= s ==> !AllAre(bits[..limit], s, n, false)
  {
    ghost var b := bits[..limit];
    var run, start := 0, 0;
    for bit := 0 to limit
      invariant run <= bit && (n > 0 ==> run < n) && (run > 0 ==> start == bit - run)
      invariant forall i :: bit - run <= i < bit ==> !bits[i]
      invariant bit - run > 0 ==> bits[bit - run - 1]
      invariant n > 0 ==> forall s :: 0 <= s && s + n <= bit ==> !AllAre(b, s, n, false)
    {
      if bits[bit] {
        run := 0;
        forall s | 0 <= s && s + n <= bit + 1 && n > 0 ensures !AllAre(b, s, n, false) {
          if s + n == bit + 1 {
            assert b[bit];
          }
        }
      } else {
        if run == 0 {
          start := bit;
        }
        run := run + 1;
        if run == n {
          forall s | 0 <= s < start ensures !AllAre(b, s, n, false) {
            assert b[start - 1];
          }
          return Some(start);
        }
        forall s | 0 <= s && s + n <= bit + 1 && n > 0 ensures !AllAre(b, s, n, false) {
          if s + n == bit + 1 {
            assert b[bit - run];
          }
        }
      }
    }
    found := None;
  }

  // ---- chunks ---------------------------------------------------------------------------------

  /** The recorded free count is the number of clear bits. */
  predicate ChunkOk(c: Chunk) {
    match c.bitmap
    case Some(bits) => c.blocks <= |bits| && c.free == CountClear(bits[..c.blocks])
    case None => c.free == c.blocks
  }

  predicate Uses(c: Chunk, p: nat) {
    c.bitmap.Some? && c.addr <= p < c.addr + c.blocks <= c.addr + |c.bitmap.value| && c.bitmap.value[p - c.addr]
  }

  /** The chunks lie in ascending order without overlap, each with a true free count. */
  predicate ChunksOk(chunks: seq<Chunk>) {
    && (forall i :: 0 <= i < |chunks| ==> ChunkOk(chunks[i]))
    && (forall i, j :: 0 <= i < j < |chunks| ==> chunks[i].addr + chunks[i].blocks <= chunks[j].addr)
  }

  /** The allocated blocks. */
  ghost function Used(chunks: seq<Chunk>): set<nat> {
    set i, p | 0 <= i < |chunks| && chunks[i].addr <= p < chunks[i].addr + chunks[i].blocks && Uses(chunks[i], p) :: p
  }

  function TotalFree(chunks: seq<Chunk>): nat {
    if chunks == [] then 0 else TotalFree(chunks[..|chunks| - 1]) + chunks[|chunks| - 1].free
  }

  function Range(start: nat, n: nat): (r: set<nat>)
    ensures forall p: nat :: p in r <==> start <= p < start + n
  {
    if n == 0 then {} else Range(start, n - 1) + {start + n - 1}
  }

  /** The chunk with bits [lo, lo + n) set or cleared and the count moved accordingly. */
  function Flip(c: Chunk, lo: nat, n: nat, v: bool): (r: Chunk)
    requires c.bitmap.Some? && lo + n <= c.blocks <= |c.bitmap.value|
    requires v ==> n <= c.free
  {
    c.(bitmap := Some(SetRun(c.bitmap.value, lo, n, v)), free := if v then c.free - n else c.free + n, dirty := true)
  }

  lemma FlipOk(c: Chunk, lo: nat, n: nat, v: bool)
    requires ChunkOk(c) && c.bitmap.Some? && AllAre(c.bitmap.value[..c.blocks], lo, n, !v)
    ensures v ==> n <= c.free
    ensures ChunkOk(Flip(c, lo, n, v))
    ensures forall p: nat :: Uses(Flip(c, lo, n, v), p) <==>
              if c.addr + lo <= p < c.addr + lo + n then v else Uses(c, p)
  {
    var bits := c.bitmap.value[..c.blocks];
    CountSetRun(bits, lo, n, v);
    assert SetRun(c.bitmap.value, lo, n, v)[..c.blocks] == SetRun(bits, lo, n, v);
  }

  lemma {:induction false} TotalFreeUpdate(chunks: seq<Chunk>, i: nat, c: Chunk)
    requires i < |chunks|
    ensures TotalFree(chunks[i := c]) == TotalFree(chunks) - chunks[i].free + c.free
  {
    var n := |chunks| - 1;
    if i == n {
      assert chunks[i := c][..n] == chunks[..n];
    } else {
      TotalFreeUpdate(chunks[..n], i, c);
      assert chunks[i := c][..n] == chunks[..n][i := c];
    }
  }

  /** What flipping a uniform run in chunk i does to the whole map. */
  lemma FlipChunks(chunks: seq<Chunk>, i: nat, lo: nat, n: nat, v: bool)
    requires ChunksOk(chunks) && i < |chunks| && chunks[i].bitmap.Some?
    requires AllAre(chunks[i].bitmap.value[..Min(chunks[i].blocks, |chunks[i].bitmap.value|)], lo, n, !v)
    ensures ChunkOk(chunks[i]) && (v ==> n <= chunks[i].free) && lo + n <= chunks[i].blocks
    ensures var next := chunks[i := Flip(chunks[i], lo, n, v)];
            var run := Range(chunks[i].addr + lo, n);
            && ChunksOk(next)
            && TotalFree(next) == (if v then TotalFree(chunks) - n else TotalFree(chunks) + n)
            && (v ==> run !! Used(chunks) && Used(next) == Used(chunks) + run)
            && (!v ==> run <= Used(chunks) && Used(next) == Used(chunks) - run)
  {
    hide CountClear, SetRun;
    var c := chunks[i];
    assert ChunkOk(c);
    FlipOk(c, lo, n, v);
    TotalFreeUpdate(chunks, i, Flip(c, lo, n, v));
    FlippedOk(chunks, i, Flip(c, lo, n, v));
    UsedAfterFlip(chunks, i, lo, n, v);
  }

  lemma FlippedOk(chunks: seq<Chunk>, i: nat, c: Chunk)
    requires ChunksOk(chunks) && i < |chunks| && ChunkOk(c) && c.addr == chunks[i].addr && c.blocks == chunks[i].blocks
    ensures ChunksOk(chunks[i := c])
  {
    hide ChunkOk;
  }

  /** A block of chunk i is in use in no other chunk. */
  lemma OneChunk(chunks: seq<Chunk>, i: nat, p: nat)
    requires ChunksOk(chunks) && i < |chunks| && chunks[i].addr <= p < chunks[i].addr + chunks[i].blocks
    ensures forall j :: 0 <= j < |chunks| && j != i ==> !Uses(chunks[j], p)
    ensures p in Used(chunks) <==> Uses(chunks[i], p)
  {
    hide ChunkOk;
    forall j | 0 <= j < |chunks| && j != i ensures !Uses(chunks[j], p) {
      assert j < i || i < j;
    }
    UsedIs(chunks, p);
  }

  lemma UsedAfterFlip(chunks: seq<Chunk>, i: nat, lo: nat, n: nat, v: bool)
    requires ChunksOk(chunks) && i < |chunks| && chunks[i].bitmap.Some? && chunks[i].blocks <= |chunks[i].bitmap.value|
    requires AllAre(chunks[i].bitmap.value[..chunks[i].blocks], lo, n, !v) && (v ==> n <= chunks[i].free)
    requires forall p: nat :: Uses(Flip(chunks[i], lo, n, v), p) <==>
               if chunks[i].addr + lo <= p < chunks[i].addr + lo + n then v else Uses(chunks[i], p)
    requires ChunksOk(chunks[i := Flip(chunks[i], lo, n, v)])
    ensures var next := chunks[i := Flip(chunks[i], lo, n, v)];
            var run := Range(chunks[i].addr + lo, n);
            && (v ==> run !! Used(chunks) && Used(next) == Used(chunks) + run)
            && (!v ==> run <= Used(chunks) && Used(next) == Used(chunks) - run)
  {
    hide ChunkOk, ChunksOk, Used, Uses, AllAre;
    var c := chunks[i];
    RunInChunk(c, lo, n, v);
    var next := chunks[i := Flip(c, lo, n, v)];
    var run := Range(c.addr + lo, n);
    forall p | p in run ensures p in Used(chunks) <==> !v {
      OneChunk(chunks, i, p);
    }
    forall p | p in run ensures p in Used(next) <==> v {
      OneChunk(next, i, p);
    }
    forall p: nat | p !in run ensures p in Used(next) <==> p in Used(chunks) {
      UsedIs(chunks, p);
      UsedIs(next, p);
      forall j | 0 <= j < |chunks| ensures Uses(next[j], p) <==> Uses(chunks[j], p) {
        assert next[j] == if j == i then Flip(c, lo, n, v) else chunks[j];
      }
    }
  }

  lemma RunInChunk(c: Chunk, lo: nat, n: nat, v: bool)
    requires c.bitmap.Some? && c.blocks <= |c.bitmap.value| && AllAre(c.bitmap.value[..c.blocks], lo, n, !v)
    ensures lo + n <= c.blocks
    ensures forall p: nat :: c.addr + lo <= p < c.addr + lo + n ==> (Uses(c, p) <==> !v)
  {
    forall p: nat | c.addr + lo <= p < c.addr + lo + n ensures Uses(c, p) <==> !v {
      assert c.bitmap.value[..c.blocks][p - c.addr] == c.bitmap.value[p - c.addr];
    }
  }

  lemma UsedIs(chunks: seq<Chunk>, p: nat)
    ensures p in Used(chunks) <==> exists j :: 0 <= j < |chunks| && Uses(chunks[j], p)
  {
  }

  // ---- the allocator ---------------------------------------------------------------------------

  /** Chunk c has a bitmap with a clear run of n blocks at offset s. */
  predicate RunAt(c: Chunk, s: nat, n: nat) {
    c.bitmap.Some? && c.blocks <= |c.bitmap.value| && AllAre(c.bitmap.value[..c.blocks], s, n, false)
  }

  ghost predicate HasRun(c: Chunk, n: nat) {
    exists s: nat :: RunAt(c, s, n)
  }

  /** Chunk i, offset s is the first place with n clear blocks. */
  ghost predicate FirstFit(chunks: seq<Chunk>, i: int, s: nat, n: nat) {
    && 0 <= i < |chunks| && RunAt(chunks[i], s, n)
    && (forall k: nat :: k < s ==> !RunAt(chunks[i], k, n))
    && (forall j :: 0 <= j < i ==> !HasRun(chunks[j], n))
  }

  /** First fit took n blocks at offset s of chunk i. */
  ghost predicate Took(before: seq<Chunk>, after: seq<Chunk>, i: int, s: nat, n: nat) {
    && 0 <= i < |before| && FirstFit(before, i, s, n) && n <= before[i].free
    && after == before[i := Flip(before[i], s, n, true)]
  }

  /** Addresses, sizes and the presence of bitmaps stay as they are. */
  predicate SameShape(a: seq<Chunk>, b: seq<Chunk>) {
    |a| == |b| && forall i :: 0 <= i < |a| ==>
      && a[i].addr == b[i].addr && a[i].blocks == b[i].blocks && a[i].cib == b[i].cib &&
         a[i].bitmap.Some? == b[i].bitmap.Some?
      && (a[i].bitmap.Some? ==> |a[i].bitmap.value| == |b[i].bitmap.value|)
  }

  /** Every chunk that is not as it was is marked as changed, and so is its CIB. */
  predicate Tracked(before: seq<Chunk>, after: seq<Chunk>, dirty0: set<nat>, dirty: set<nat>) {
    && dirty0 <= dirty && SameShape(after, before)
    && forall k :: 0 <= k < |after| ==> after[k] == before[k] || (after[k].dirty && after[k].cib in dirty)
  }

  lemma TrackedSame(chunks: seq<Chunk>, dirty: set<nat>)
    ensures Tracked(chunks, chunks, dirty, dirty)
  {
  }

  lemma TrackedTrans(a: seq<Chunk>, b: seq<Chunk>, c: seq<Chunk>, da: set<nat>, db: set<nat>, dc: set<nat>)
    requires Tracked(a, b, da, db) && Tracked(b, c, db, dc)
    ensures Tracked(a, c, da, dc)
  {
  }

  lemma TrackedFlip(chunks: seq<Chunk>, i: nat, d: Chunk, dirty: set<nat>)
    requires i < |chunks| && SameShape(chunks[i := d], chunks) && d.dirty && d.cib == chunks[i].cib
    ensures Tracked(chunks, chunks[i := d], dirty, dirty + {chunks[i].cib})
  {
  }

  lemma FlipDirty(c: Chunk, lo: nat, n: nat, v: bool)
    requires c.bitmap.Some? && lo + n <= c.blocks <= |c.bitmap.value| && (v ==> n <= c.free)
    ensures Flip(c, lo, n, v).dirty && Flip(c, lo, n, v).cib == c.cib
  {
  }

  /** n blocks at paddr lie in the chunk its number points to, and all are allocated. */
  predicate Freeable(chunks: seq<Chunk>, perChunk: nat, paddr: nat, n: nat)
    requires perChunk > 0
  {
    && paddr / perChunk < |chunks|
    && var c := chunks[paddr / perChunk];
    && c.addr <= paddr && paddr - c.addr + n <= c.blocks
    && c.bitmap.Some? && c.blocks <= |c.bitmap.value|
    && AllAre(c.bitmap.value[..c.blocks], paddr - c.addr, n, true)
  }

  lemma TooFewFree(chunks: seq<Chunk>, i: nat, n: nat)
    requires ChunksOk(chunks) && i < |chunks| && chunks[i].free < n
    ensures !HasRun(chunks[i], n)
  {
    hide CountClear;
    var c := chunks[i];
    assert ChunkOk(c);
    forall s: nat ensures !RunAt(c, s, n) {
      if c.bitmap.Some? && AllAre(c.bitmap.value[..c.blocks], s, n, false) {
        RunNeedsClear(c.bitmap.value[..c.blocks], s, n);
      }
    }
  }

  lemma NoBitmap(c: Chunk, n: nat)
    requires c.bitmap.None?
    ensures !HasRun(c, n)
  {
  }

  lemma ChunkFacts(chunks: seq<Chunk>, i: nat)
    requires ChunksOk(chunks) && i < |chunks|
    ensures ChunkOk(chunks[i])
    ensures chunks[i].bitmap.Some? ==> chunks[i].blocks <= |chunks[i].bitmap.value|
    ensures chunks[i].bitmap.Some? ==> Min(chunks[i].blocks, |chunks[i].bitmap.value|) == chunks[i].blocks
  {
    hide CountClear;
  }

  lemma RunFacts(c: Chunk, n: nat, found: Option<nat>)
    requires c.bitmap.Some? && c.blocks <= |c.bitmap.value|
    requires found.Some? ==> n > 0 && AllAre(c.bitmap.value[..c.blocks], found.value, n, false)
    requires found.Some? ==> forall s :: 0 <= s < found.value ==> !AllAre(c.bitmap.value[..c.blocks], s, n, false)
    requires found.None? && n > 0 ==> forall s :: 0 <= s ==> !AllAre(c.bitmap.value[..c.blocks], s, n, false)
    ensures found.None? && n > 0 ==> !HasRun(c, n)
    ensures found.Some? ==> RunAt(c, found.value, n) && HasRun(c, n)
    ensures found.Some? ==> forall k: nat :: k < found.value ==> !RunAt(c, k, n)
  {
    hide AllAre;
    if found.Some? {
      assert RunAt(c, found.value, n);
    }
  }

  lemma FitFirst(chunks: seq<Chunk>, i: nat, s: nat, n: nat)
    requires i < |chunks| && RunAt(chunks[i], s, n) && forall k: nat :: k < s ==> !RunAt(chunks[i], k, n)
    requires forall j :: 0 <= j < i ==> !HasRun(chunks[j], n)
    ensures FirstFit(chunks, i, s, n)
  {
  }

  lemma ShapeKept(chunks: seq<Chunk>, i: nat, lo: nat, n: nat, v: bool)
    requires i < |chunks| && chunks[i].bitmap.Some? && lo + n <= chunks[i].blocks <= |chunks[i].bitmap.value|
    requires v ==> n <= chunks[i].free
    ensures SameShape(chunks[i := Flip(chunks[i], lo, n, v)], chunks)
  {
  }

  lemma BadSpot(chunks: seq<Chunk>, perChunk: nat, paddr: nat, n: nat)
    requires perChunk > 0
    ensures paddr / perChunk >= |chunks| ==> !Freeable(chunks, perChunk, paddr, n)
    ensures paddr / perChunk < |chunks| ==>
              var c := chunks[paddr / perChunk];
              (paddr < c.addr || paddr - c.addr + n > c.blocks || c.bitmap.None?) ==>
                    !Freeable(chunks, perChunk, paddr, n)
  {
  }

  lemma NotAllUsed(chunks: seq<Chunk>, perChunk: nat, paddr: nat, n: nat, k: nat)
    requires perChunk > 0 && paddr / perChunk < |chunks| && k < n
    requires var c := chunks[paddr / perChunk];
             c.addr <= paddr && paddr - c.addr + n <= c.blocks && c.bitmap.Some? && c.blocks <= |c.bitmap.value| &&
             !c.bitmap.value[paddr - c.addr + k]
    ensures !Freeable(chunks, perChunk, paddr, n)
  {
    var c := chunks[paddr / perChunk];
    assert c.bitmap.value[..c.blocks][paddr - c.addr + k] == c.bitmap.value[paddr - c.addr + k];
  }

  /** Clearing the bits one by one is flipping the run. */
  lemma FreedBits(chunks: seq<Chunk>, perChunk: nat, paddr: nat, n: nat, bits: seq<bool>)
    requires perChunk > 0 && paddr / perChunk < |chunks|
    requires var c := chunks[paddr / perChunk];
             c.addr <= paddr && paddr - c.addr + n <= c.blocks && c.bitmap.Some? &&
                 c.blocks <= |c.bitmap.value| == |bits|
    requires var c := chunks[paddr / perChunk];
             var lo := paddr - c.addr;
             && (forall j :: lo <= j < lo + n ==> c.bitmap.value[j] && !bits[j])
             && (forall j :: 0 <= j < |bits| && !(lo <= j < lo + n) ==> bits[j] == c.bitmap.value[j])
    ensures Freeable(chunks, perChunk, paddr, n)
    ensures var c := chunks[paddr / perChunk];
            AllAre(c.bitmap.value[..c.blocks], paddr - c.addr, n, true) &&
                bits == SetRun(c.bitmap.value, paddr - c.addr, n, false)
  {
    var c := chunks[paddr / perChunk];
    assert bits == SetRun(c.bitmap.value, paddr - c.addr, n, false);
  }

  predicate InOneChunk(chunks: seq<Chunk>, perChunk: nat, p: nat, n: nat) {
    && perChunk > 0 && p / perChunk < |chunks|
    && chunks[p / perChunk].addr <= p && p + n <= chunks[p / perChunk].addr + chunks[p / perChunk].blocks
    && chunks[p / perChunk].bitmap.Some?
  }

  /** A release that met a free block after k used ones: those k bits are clear, and nothing else has changed. */
  ghost predicate StoppedAt(before: seq<Chunk>, after: seq<Chunk>, perChunk: nat, paddr: nat, n: nat, k: nat) {
    && InOneChunk(before, perChunk, paddr, n) && k < n
    && var i, c := paddr / perChunk, before[paddr / perChunk];
       var lo := paddr - c.addr;
       && lo + n <= |c.bitmap.value|
       && (forall j :: lo <= j < lo + k ==> c.bitmap.value[j]) && !c.bitmap.value[lo + k]
       && after == before[i := c.(bitmap := Some(SetRun(c.bitmap.value, lo, k, false)))]
  }

  /** The bits a stopped release leaves. */
  lemma Stopped(chunks: seq<Chunk>, perChunk: nat, paddr: nat, n: nat, k: nat, bits: seq<bool>)
    requires ChunksOk(chunks) && InOneChunk(chunks, perChunk, paddr, n) && k < n
    requires var c := chunks[paddr / perChunk];
             var lo := paddr - c.addr;
             && |bits| == |c.bitmap.value| && lo + n <= |bits| && !bits[lo + k]
             && (forall j :: lo <= j < lo + k ==> c.bitmap.value[j] && !bits[j])
             && (forall j :: 0 <= j < |bits| && !(lo <= j < lo + k) ==> bits[j] == c.bitmap.value[j])
    ensures var i := paddr / perChunk;
            StoppedAt(chunks, chunks[i := chunks[i].(bitmap := Some(bits))], perChunk, paddr, n, k)
  {
    var c := chunks[paddr / perChunk];
    assert bits == SetRun(c.bitmap.value, paddr - c.addr, k, false);
  }

  /** What such a refusal means: k blocks are out of use but not counted, so it is harmless only if k is zero. */
  lemma StoppedMeans(before: seq<Chunk>, after: seq<Chunk>, perChunk: nat, paddr: nat, n: nat, k: nat)
    requires ChunksOk(before) && StoppedAt(before, after, perChunk, paddr, n, k)
    ensures Range(paddr, k) <= Used(before) && paddr + k !in Used(before) &&
            Used(after) == Used(before) - Range(paddr, k)
    ensures TotalFree(after) == TotalFree(before)
    ensures k == 0 <==> after == before
    ensures k == 0 <==> ChunksOk(after)
    ensures k == 0 <==> paddr !in Used(before)
  {
    StoppedUses(before, after, perChunk, paddr, n, k);
    StoppedCounts(before, after, perChunk, paddr, n, k);
    hide *;
  }

  lemma StoppedUses(before: seq<Chunk>, after: seq<Chunk>, perChunk: nat, paddr: nat, n: nat, k: nat)
    requires ChunksOk(before) && StoppedAt(before, after, perChunk, paddr, n, k)
    ensures Range(paddr, k) <= Used(before) && paddr + k !in Used(before) &&
            Used(after) == Used(before) - Range(paddr, k)
    ensures k == 0 <==> paddr !in Used(before)
  {
    hide CountClear, Used, ChunksOk, SetRun;
    var i, c := paddr / perChunk, before[paddr / perChunk];
    var lo := paddr - c.addr;
    ChunkFacts(before, i);
    FlipChunks(before, i, lo, k, false);
    SameUses(before[i := Flip(c, lo, k, false)], after);
    OneChunk(before, i, paddr + k);
    OneChunk(before, i, paddr);
  }

  lemma StoppedCounts(before: seq<Chunk>, after: seq<Chunk>, perChunk: nat, paddr: nat, n: nat, k: nat)
    requires ChunksOk(before) && StoppedAt(before, after, perChunk, paddr, n, k)
    ensures TotalFree(after) == TotalFree(before)
    ensures k == 0 <==> after == before
    ensures k == 0 <==> ChunksOk(after)
  {
    hide CountClear, ChunksOk, TotalFree;
    var i, c := paddr / perChunk, before[paddr / perChunk];
    var lo := paddr - c.addr;
    ChunkFacts(before, i);
    TotalFreeUpdate(before, i, after[i]);
    if k == 0 {
      assert SetRun(c.bitmap.value, lo, 0, false) == c.bitmap.value;
      assert after == before;
    } else {
      assert c.bitmap.value[lo] && !after[i].bitmap.value[lo];
      NotCounted(before, after, i, lo, k);
    }
  }

  lemma SameUses(a: seq<Chunk>, b: seq<Chunk>)
    requires |a| == |b|
    requires forall k :: 0 <= k < |a| ==>
               b[k].addr == a[k].addr && b[k].blocks == a[k].blocks && b[k].bitmap == a[k].bitmap
    ensures Used(a) == Used(b)
  {
    hide Used, Uses;
    forall p: nat ensures p in Used(a) <==> p in Used(b) {
      UsedIs(a, p);
      UsedIs(b, p);
      forall k | 0 <= k < |a| ensures Uses(a[k], p) <==> Uses(b[k], p) {
        SameBits(a[k], b[k], p);
      }
    }
  }

  lemma SameBits(a: Chunk, b: Chunk, p: nat)
    requires b.addr == a.addr && b.blocks == a.blocks && b.bitmap == a.bitmap
    ensures Uses(a, p) <==> Uses(b, p)
  {
  }

  lemma NotCounted(before: seq<Chunk>, after: seq<Chunk>, i: nat, lo: nat, k: nat)
    requires ChunksOk(before) && i < |before| == |after| && before[i].bitmap.Some? && k > 0
    requires var c := before[i];
             && lo + k <= c.blocks <= |c.bitmap.value| && AllAre(c.bitmap.value[..c.blocks], lo, k, true)
             && after[i] == c.(bitmap := Some(SetRun(c.bitmap.value, lo, k, false)))
    ensures !ChunksOk(after)
  {
    hide CountClear;
    var c := before[i];
    assert ChunkOk(c);
    FlipOk(c, lo, k, false);
    var d := Flip(c, lo, k, false);
    assert d.bitmap == after[i].bitmap && d.free == c.free + k;
    assert !ChunkOk(after[i]);
  }

  class SpacemanContext {
    const blocksPerChunk: nat
    var chunks: seq<Chunk>
    var dirtyCibs: set<nat>
    var freeDelta: int
    /** The chunks as they were loaded: what is no longer as it was is marked as changed. */
    ghost const loaded: seq<Chunk>

    ghost predicate Valid()
      reads this
    {
      && blocksPerChunk > 0 && ChunksOk(chunks) && TotalFree(chunks) == TotalFree(loaded) + freeDelta
      && Tracked(loaded, chunks, {}, dirtyCibs)
    }

    constructor (blocksPerChunk: nat, chunks: seq<Chunk>)
      requires blocksPerChunk > 0 && ChunksOk(chunks)
      ensures Valid() && this.chunks == chunks && freeDelta == 0 && this.blocksPerChunk == blocksPerChunk
      ensures loaded == chunks && dirtyCibs == {}
    {
      hide ChunksOk, TotalFree;
      this.blocksPerChunk, this.chunks, dirtyCibs, freeDelta := blocksPerChunk, chunks, {}, 0;
      loaded := chunks;
    }

    /**
     * Takes the first clear run of n blocks of the first chunk that has one. Fails, leaving
     * everything as it was, exactly when n is zero or no bitmap-carrying chunk has such a run.
     */
    method AllocRange(n: nat) returns (r: Result<nat>)
      requires Valid()
      modifies this`chunks, this`dirtyCibs, this`freeDelta
      ensures Valid()
      ensures r.Ok? <==> n > 0 && exists i :: 0 <= i < |old(chunks)| && HasRun(old(chunks)[i], n)
      ensures r.Err? ==> chunks == old(chunks) && freeDelta == old(freeDelta) && dirtyCibs == old(dirtyCibs)
      ensures r.Ok? ==> freeDelta == old(freeDelta) - n
      ensures r.Ok? ==> Range(r.value, n) !! Used(old(chunks)) && Used(chunks) == Used(old(chunks)) + Range(r.value, n)
      ensures r.Ok? ==>
                exists i, s: nat ::
                  0 <= i < |old(chunks)| && Took(old(chunks), chunks, i, s, n) && r.value == old(chunks)[i].addr + s
      ensures r.Ok? ==> SameShape(chunks, old(chunks)) && Tracked(old(chunks), chunks, old(dirtyCibs), dirtyCibs)
    {
      hide ChunksOk, TotalFree, Used, HasRun, RunAt, FirstFit, SameShape, Flip, Range, AllAre, ChunkOk, Tracked;
      for i := 0 to |chunks|
        invariant chunks == old(chunks) && freeDelta == old(freeDelta) && dirtyCibs == old(dirtyCibs)
        invariant forall j :: 0 <= j < i && n > 0 ==> !HasRun(chunks[j], n)
      {
        var c := chunks[i];
        if c.free < n {
          TooFewFree(chunks, i, n);
          continue;
        }
        if c.bitmap.None? {
          NoBitmap(c, n);
          continue;
        }
        ChunkFacts(chunks, i);
        var found := FindRun(c.bitmap.value, c.blocks, n);
        RunFacts(c, n, found);
        if found.None? {
          continue;
        }
        FlipChunks(chunks, i, found.value, n, true);
        ShapeKept(chunks, i, found.value, n, true);
        FitFirst(chunks, i, found.value, n);
        FlipDirty(c, found.value, n, true);
        TrackedFlip(chunks, i, Flip(c, found.value, n, true), dirtyCibs);
        TrackedTrans(loaded, chunks, chunks[i := Flip(c, found.value, n, true)], {}, dirtyCibs, dirtyCibs + {c.cib});
        assert Took(chunks, chunks[i := Flip(c, found.value, n, true)], i, found.value, n);
        chunks := chunks[i := Flip(c, found.value, n, true)];
        dirtyCibs := dirtyCibs + {c.cib};
        freeDelta := freeDelta - n;
        return Ok(c.addr + found.value);
      }
      r := Err(NoSpace);
    }

    /**
     * Frees n blocks at paddr, which must lie in one bitmap-carrying chunk and all be allocated.
     * A refusal changes no count. It is harmless exactly when the run lies in no such chunk or its
     * first block is free; otherwise the blocks before the first free one are cleared uncounted.
     */
    method FreeRange(paddr: nat, n: nat) returns (r: Result<bool>)
      requires Valid()
      modifies this`chunks, this`dirtyCibs, this`freeDelta
      ensures r.Ok? ==> Valid() && freeDelta == old(freeDelta) + n && SameShape(chunks, old(chunks))
      ensures r.Ok? ==> Tracked(old(chunks), chunks, old(dirtyCibs), dirtyCibs)
      ensures r.Ok? ==> Range(paddr, n) <= Used(old(chunks)) && Used(chunks) == Used(old(chunks)) - Range(paddr, n)
      ensures r.Err? ==> freeDelta == old(freeDelta) && dirtyCibs == old(dirtyCibs)
      ensures r.Err? && r.error != Underflow ==> chunks == old(chunks) && Valid()
      ensures r.Ok? <==> Freeable(old(chunks), blocksPerChunk, paddr, n)
      ensures r == Err(Underflow) ==>
                exists k: nat :: k < n && StoppedAt(old(chunks), chunks, blocksPerChunk, paddr, n, k)
      ensures r.Err? ==> (chunks == old(chunks) <==>
                            !InOneChunk(old(chunks), blocksPerChunk, paddr, n) || paddr !in Used(old(chunks)))
      ensures r.Err? ==> (Valid() <==> chunks == old(chunks))
    {
      hide ChunksOk, TotalFree, Used, SameShape, Range, Freeable, AllAre, ChunkOk, Tracked, StoppedAt;
      BadSpot(chunks, blocksPerChunk, paddr, n);
      if paddr / blocksPerChunk >= |chunks| {
        return Err(OutsideContainer);
      }
      var i := paddr / blocksPerChunk;
      var c := chunks[i];
      if paddr < c.addr || paddr - c.addr + n > c.blocks {
        return Err(Unsupported);
      }
      if c.bitmap.None? {
        return Err(Malformed);
      }
      ChunkFacts(chunks, i);
      var lo := paddr - c.addr;
      var bits := c.bitmap.value;
      for k := 0 to n
        invariant |bits| == |c.bitmap.value|
        invariant forall j :: lo <= j < lo + k ==> c.bitmap.value[j] && !bits[j]
        invariant forall j :: 0 <= j < |bits| && !(lo <= j < lo + k) ==> bits[j] == c.bitmap.value[j]
      {
        if !bits[lo + k] {
          NotAllUsed(chunks, blocksPerChunk, paddr, n, k);
          Stopped(chunks, blocksPerChunk, paddr, n, k, bits);
          StoppedMeans(chunks, chunks[i := c.(bitmap := Some(bits))], blocksPerChunk, paddr, n, k);
          chunks := chunks[i := c.(bitmap := Some(bits))];
          return Err(Underflow);
        }
        bits := bits[lo + k := false];
      }
      FreedBits(chunks, blocksPerChunk, paddr, n, bits);
      FlipChunks(chunks, i, lo, n, false);
      ShapeKept(chunks, i, lo, n, false);
      ghost var freed := chunks[i := c.(bitmap := Some(bits), free := c.free + n, dirty := true)];
      TrackedFlip(chunks, i, c.(bitmap := Some(bits), free := c.free + n, dirty := true), dirtyCibs);
      TrackedTrans(loaded, chunks, freed, {}, dirtyCibs, dirtyCibs + {c.cib});
      chunks := chunks[i := c.(bitmap := Some(bits), free := c.free + n, dirty := true)];
      dirtyCibs := dirtyCibs + {c.cib};
      freeDelta := freeDelta + n;
      r := Ok(true);
    }
  }

  /** A concrete refusal: block 0 in use, block 1 free, both released; block 0 ends up out of use and uncounted. */
  method RefusedRelease() returns (sm: SpacemanContext, r: Result<bool>)
    ensures r == Err(Underflow) && Used(sm.chunks) == {} && sm.freeDelta == 0 && TotalFree(sm.chunks) == 1 &&
            !sm.Valid()
  {
    var chunk := Chunk(0, 2, 1, Some([true, false]), 0, false);
    assert [true, false][..1] == [true] && [true][..0] == [];
    assert CountClear([true, false]) == 1;
    assert [true, false][..2] == [true, false];
    sm := new SpacemanContext(2, [chunk]);
    assert Uses(chunk, 0) && !Uses(chunk, 1);
    OneChunk(sm.chunks, 0, 0);
    OneChunk(sm.chunks, 0, 1);
    ghost var before := sm.chunks;
    assert !Freeable(before, 2, 0, 2) by { assert !AllAre([true, false][..2], 0, 2, true); }
    r := sm.FreeRange(0, 2);
  }

  // ---- whole runs of allocations and releases -----------------------------------------------------

  /** Every chunk starts at a multiple of the chunk size, as the verifier's tiling check demands. */
  predicate Tiled(chunks: seq<Chunk>, perChunk: nat) {
    forall i :: 0 <= i < |chunks| ==> chunks[i].addr == i * perChunk && chunks[i].blocks <= perChunk
  }

  /** A request: a run of n blocks, or the release of the k-th run still held. */
  datatype Op = Alloc(n: nat) | Release(k: nat)

  ghost function Held(runs: seq<(nat, nat)>): set<nat> {
    if runs == [] then {} else Held(runs[..|runs| - 1]) + Range(runs[|runs| - 1].0, runs[|runs| - 1].1)
  }

  function HeldSize(runs: seq<(nat, nat)>): nat {
    if runs == [] then 0 else HeldSize(runs[..|runs| - 1]) + runs[|runs| - 1].1
  }

  /** The held runs share no block, and each lies inside one bitmap-carrying chunk. */
  ghost predicate RunsOk(chunks: seq<Chunk>, perChunk: nat, runs: seq<(nat, nat)>) {
    && (forall i, j :: 0 <= i < j < |runs| ==> Range(runs[i].0, runs[i].1) !! Range(runs[j].0, runs[j].1))
    && (forall i :: 0 <= i < |runs| ==> InOneChunk(chunks, perChunk, runs[i].0, runs[i].1))
  }

  lemma FitInOneChunk(chunks: seq<Chunk>, perChunk: nat, i: int, s: nat, n: nat)
    requires perChunk > 0 && Tiled(chunks, perChunk) && n > 0 && FirstFit(chunks, i, s, n)
    ensures InOneChunk(chunks, perChunk, chunks[i].addr + s, n)
  {
    assert RunAt(chunks[i], s, n);
    DivMod(i, perChunk, s);
  }

  lemma ShapeInOneChunk(a: seq<Chunk>, b: seq<Chunk>, perChunk: nat, p: nat, n: nat)
    requires SameShape(a, b) && InOneChunk(b, perChunk, p, n)
    ensures InOneChunk(a, perChunk, p, n)
  {
  }

  /** A run inside one chunk whose blocks are all in use can be freed. */
  lemma UsedIsFreeable(chunks: seq<Chunk>, perChunk: nat, p: nat, n: nat)
    requires ChunksOk(chunks) && InOneChunk(chunks, perChunk, p, n) && Range(p, n) <= Used(chunks)
    ensures Freeable(chunks, perChunk, p, n)
  {
    hide Used, ChunkOk;
    var i := p / perChunk;
    ChunkFacts(chunks, i);
    var c := chunks[i];
    forall k | p - c.addr <= k < p - c.addr + n ensures c.bitmap.value[..c.blocks][k] {
      assert c.addr + k in Range(p, n);
      OneChunk(chunks, i, c.addr + k);
    }
  }

  lemma {:induction false} HeldHas(runs: seq<(nat, nat)>, k: nat)
    requires k < |runs|
    ensures Range(runs[k].0, runs[k].1) <= Held(runs)
  {
    if k < |runs| - 1 {
      HeldHas(runs[..|runs| - 1], k);
    }
  }

  lemma {:induction false} HeldWithout(runs: seq<(nat, nat)>, k: nat)
    requires k < |runs|
    requires forall i, j :: 0 <= i < j < |runs| ==> Range(runs[i].0, runs[i].1) !! Range(runs[j].0, runs[j].1)
    ensures Held(runs[..k] + runs[k + 1..]) == Held(runs) - Range(runs[k].0, runs[k].1)
    ensures HeldSize(runs[..k] + runs[k + 1..]) == HeldSize(runs) - runs[k].1
  {
    hide Range, Held, HeldSize;
    var n := |runs| - 1;
    HeldLast(runs[..n], runs[n], runs);
    var out, last := runs[..k] + runs[k + 1..], runs[n];
    assert forall i :: 0 <= i < n ==> runs[..n][i] == runs[i];
    if k == n {
      assert out == runs[..n];
      HeldApart(runs[..n], last);
    } else {
      HeldWithout(runs[..n], k);
      assert runs[..n][..k] + runs[..n][k + 1..] == out[..n - 1] && out[n - 1] == last;
      HeldLast(out[..n - 1], last, out);
      assert Range(runs[k].0, runs[k].1) !! Range(last.0, last.1);
    }
  }

  lemma HeldLast(front: seq<(nat, nat)>, last: (nat, nat), runs: seq<(nat, nat)>)
    requires runs == front + [last]
    ensures Held(runs) == Held(front) + Range(last.0, last.1) && HeldSize(runs) == HeldSize(front) + last.1
  {
    assert runs[..|runs| - 1] == front;
  }

  lemma {:induction false} HeldApart(runs: seq<(nat, nat)>, run: (nat, nat))
    requires forall i :: 0 <= i < |runs| ==> Range(runs[i].0, runs[i].1) !! Range(run.0, run.1)
    ensures Held(runs) !! Range(run.0, run.1)
  {
    hide Range;
    if runs != [] {
      HeldApart(runs[..|runs| - 1], run);
    }
  }

  lemma {:induction false} AllApart(runs: seq<(nat, nat)>, other: set<nat>)
    requires Held(runs) !! other
    ensures forall i :: 0 <= i < |runs| ==> Range(runs[i].0, runs[i].1) !! other
  {
    forall i | 0 <= i < |runs| ensures Range(runs[i].0, runs[i].1) !! other {
      HeldHas(runs, i);
    }
  }

  /** The account of a run: what was used at the start, plus what is held now, is what is used. */
  ghost predicate Account(used0: set<nat>, delta0: int, chunks: seq<Chunk>, perChunk: nat, delta: int,
                          runs: seq<(nat, nat)>)
  {
    && Tiled(chunks, perChunk) && RunsOk(chunks, perChunk, runs)
    && Held(runs) !! used0 && Used(chunks) == used0 + Held(runs)
    && delta == delta0 - HeldSize(runs)
  }

  lemma AccountAlloc(used0: set<nat>, delta0: int, chunks: seq<Chunk>, perChunk: nat, delta: int, runs: seq<(nat, nat)>,
                     next: seq<Chunk>, p: nat, n: nat)
    requires perChunk > 0 && Account(used0, delta0, chunks, perChunk, delta, runs) && SameShape(next, chunks)
    requires Range(p, n) !! Used(chunks) && Used(next) == Used(chunks) + Range(p, n) &&
             InOneChunk(chunks, perChunk, p, n)
    ensures Account(used0, delta0, next, perChunk, delta - n, runs + [(p, n)])
  {
    hide Range, Used;
    var more := runs + [(p, n)];
    assert more[..|runs|] == runs;
    AllApart(runs, Range(p, n));
    forall i | 0 <= i < |more| ensures InOneChunk(next, perChunk, more[i].0, more[i].1) {
      ShapeInOneChunk(next, chunks, perChunk, more[i].0, more[i].1);
    }
  }

  lemma AccountRelease(used0: set<nat>, delta0: int, chunks: seq<Chunk>, perChunk: nat, delta: int,
                       runs: seq<(nat, nat)>, next: seq<Chunk>, k: nat)
    requires perChunk > 0 && k < |runs| && Account(used0, delta0, chunks, perChunk, delta, runs) &&
             SameShape(next, chunks)
    requires Used(next) == Used(chunks) - Range(runs[k].0, runs[k].1)
    ensures Account(used0, delta0, next, perChunk, delta + runs[k].1, runs[..k] + runs[k + 1..])
  {
    hide Range, Used;
    var left := runs[..k] + runs[k + 1..];
    HeldWithout(runs, k);
    HeldHas(runs, k);
    forall i | 0 <= i < |left| ensures InOneChunk(next, perChunk, left[i].0, left[i].1) {
      assert left[i] == runs[if i < k then i else i + 1];
      ShapeInOneChunk(next, chunks, perChunk, left[i].0, left[i].1);
    }
    forall i, j | 0 <= i < j < |left| ensures Range(left[i].0, left[i].1) !! Range(left[j].0, left[j].1) {
      assert left[i] == runs[if i < k then i else i + 1] && left[j] == runs[if j < k then j else j + 1];
    }
  }

  /** One request, keeping the account. */
  method Perform(sm: SpacemanContext, op: Op, held: seq<(nat, nat)>, ghost used0: set<nat>, ghost delta0: int)
    returns (runs: seq<(nat, nat)>)
    requires sm.Valid() && Account(used0, delta0, sm.chunks, sm.blocksPerChunk, sm.freeDelta, held)
    modifies sm
    ensures sm.Valid() && Account(used0, delta0, sm.chunks, sm.blocksPerChunk, sm.freeDelta, runs)
    ensures op.Release? && op.k < |held| ==> runs == held[..op.k] + held[op.k + 1..]
    ensures op.Release? && op.k >= |held| ==> runs == held && sm.chunks == old(sm.chunks)
    ensures op.Alloc? ==> held <= runs && |runs| <= |held| + 1
    ensures op.Alloc? ==> (|runs| == |held| + 1 <==>
                           op.n > 0 && exists i :: 0 <= i < |old(sm.chunks)| && HasRun(old(sm.chunks)[i], op.n))
    ensures op.Alloc? && |runs| == |held| + 1 ==> runs[|held|].1 == op.n
    ensures Tracked(old(sm.chunks), sm.chunks, old(sm.dirtyCibs), sm.dirtyCibs)
  {
    hide Tracked, Account, Tiled, RunsOk, Used, Held, HeldSize, Range, Freeable, SameShape, InOneChunk, FirstFit,
         HasRun, ChunksOk, TotalFree, Flip;
    ghost var before, delta := sm.chunks, sm.freeDelta;
    TrackedSame(sm.chunks, sm.dirtyCibs);
    match op {
      case Alloc(n) =>
        var r := sm.AllocRange(n);
        if r.Err? {
          return held;
        }
        ghost var c, s: nat :| 0 <= c < |before| && Took(before, sm.chunks, c, s, n) && r.value == before[c].addr + s;
        TiledAccount(used0, delta0, before, sm.blocksPerChunk, delta, held);
        FitInOneChunk(before, sm.blocksPerChunk, c, s, n);
        AccountAlloc(used0, delta0, before, sm.blocksPerChunk, delta, held, sm.chunks, r.value, n);
        runs := held + [(r.value, n)];
      case Release(k) =>
        if k >= |held| {
          return held;
        }
        HeldFreeable(used0, delta0, before, sm.blocksPerChunk, delta, held, k);
        var r := sm.FreeRange(held[k].0, held[k].1);
        AccountRelease(used0, delta0, before, sm.blocksPerChunk, delta, held, sm.chunks, k);
        runs := held[..k] + held[k + 1..];
    }
  }

  /**
   * Any mix of allocations and releases: the runs held never share a block with each other or
   * with what was in use before, together with it they are exactly what is in use now, the free
   * counts stay true, the net change is what the delta says, and every release succeeds.
   */
  method Replay(sm: SpacemanContext, ops: seq<Op>) returns (runs: seq<(nat, nat)>)
    requires sm.Valid() && Tiled(sm.chunks, sm.blocksPerChunk)
    modifies sm
    ensures sm.Valid()
    ensures Account(Used(old(sm.chunks)), old(sm.freeDelta), sm.chunks, sm.blocksPerChunk, sm.freeDelta, runs)
    ensures Tracked(old(sm.chunks), sm.chunks, old(sm.dirtyCibs), sm.dirtyCibs)
  {
    hide Account, Tiled, Used, HasRun, ChunksOk, TotalFree, Tracked;
    TrackedSame(sm.chunks, sm.dirtyCibs);
    ghost var used0, delta0 := Used(sm.chunks), sm.freeDelta;
    runs := [];
    StartAccount(sm.chunks, sm.blocksPerChunk, delta0);
    for i := 0 to |ops|
      invariant sm.Valid() && Account(used0, delta0, sm.chunks, sm.blocksPerChunk, sm.freeDelta, runs)
      invariant Tracked(old(sm.chunks), sm.chunks, old(sm.dirtyCibs), sm.dirtyCibs)
    {
      ghost var before, dirty := sm.chunks, sm.dirtyCibs;
      runs := Perform(sm, ops[i], runs, used0, delta0);
      TrackedTrans(old(sm.chunks), before, sm.chunks, old(sm.dirtyCibs), dirty, sm.dirtyCibs);
    }
  }

  lemma StartAccount(chunks: seq<Chunk>, perChunk: nat, delta: int)
    requires Tiled(chunks, perChunk)
    ensures Account(Used(chunks), delta, chunks, perChunk, delta, [])
  {
  }

  lemma TiledAccount(used0: set<nat>, delta0: int, chunks: seq<Chunk>, perChunk: nat, delta: int, runs: seq<(nat, nat)>)
    requires Account(used0, delta0, chunks, perChunk, delta, runs)
    ensures Tiled(chunks, perChunk)
  {
  }

  lemma HeldFreeable(used0: set<nat>, delta0: int, chunks: seq<Chunk>, perChunk: nat, delta: int,
                     runs: seq<(nat, nat)>, k: nat)
    requires ChunksOk(chunks) && perChunk > 0 && Account(used0, delta0, chunks, perChunk, delta, runs) && k < |runs|
    ensures Freeable(chunks, perChunk, runs[k].0, runs[k].1)
  {
    hide Used, Range, InOneChunk, Freeable, ChunksOk;
    HeldHas(runs, k);
    UsedIsFreeable(chunks, perChunk, runs[k].0, runs[k].1);
  }
}

/**
 * The space manager of a new container (src/apfs_write.rs `build_spaceman` and the sizing of the
 * internal pool) against the checks of src/apfs_verify.rs `verify_spaceman`.
 */
module SpacemanBuild {
  import opened Bytes
  import opened SpaceManager
  import IpRing

  const STRUCT_SIZE: nat := 2520
  const CHUNK_INFO_BYTES: nat := 32
  const RING_BLOCKS: nat := 16
  const RING_LIVE: nat := 1

  /**
   * Metadata blocks: allocation bitmaps, chunk-info blocks and chunk-info address blocks, the last
   * two with their own index.
   */
  datatype Meta = Bitmap(bits: seq<bool>) | Cib(index: nat, infos: seq<Info>) | Cab(index: nat, entries: seq<nat>)

  type Disk = map<nat, Meta>

  /**
   * The space manager object, field by field. `addrs` is its address array: the chunk-info blocks
   * themselves or, in large containers, the address blocks that list them.
   */
  datatype Spaceman = Spaceman(
    size: nat, blockSize: nat, blocksPerChunk: nat, chunksPerCib: nat, structSize: nat, blockCount: nat,
    chunkCount: nat,
    cibCount: nat, cabCount: nat, cibsPerCab: nat, addrs: seq<nat>, free: nat, cibAddrOffset: nat,
    ipCount: nat, ipBase: nat, ipBmBase: nat, xidOffset: nat, bitmapOffset: nat, nextOffset: nat,
    xids: seq<nat>, live: seq<nat>, head: nat, tail: nat, next: seq<nat>)

  // ---- what the verifier demands -----------------------------------------------------------------------

  predicate CibGood(disk: Disk, cibs: seq<nat>, limit: nat, i: nat)
    requires i < |cibs|
  {
    cibs[i] in disk && disk[cibs[i]].Cib? && disk[cibs[i]].index == i && |disk[cibs[i]].infos| <= limit
  }

  predicate CibsGood(disk: Disk, cibs: seq<nat>, limit: nat)
    ensures CibsGood(disk, cibs, limit) ==> forall i :: 0 <= i < |cibs| ==> cibs[i] in disk && disk[cibs[i]].Cib?
  {
    assert forall i :: 0 <= i < |cibs| && CibGood(disk, cibs, limit, i) ==> cibs[i] in disk && disk[cibs[i]].Cib?;
    forall i :: 0 <= i < |cibs| ==> CibGood(disk, cibs, limit, i)
  }

  /** The chunk records of the first n chunk-info blocks. */
  function Records(disk: Disk, cibs: seq<nat>, n: nat): seq<Info>
    requires n <= |cibs| && forall i :: 0 <= i < n ==> cibs[i] in disk && disk[cibs[i]].Cib?
  {
    if n == 0 then [] else Records(disk, cibs, n - 1) + disk[cibs[n - 1]].infos
  }

  function Covered(infos: seq<Info>): nat {
    if infos == [] then 0 else Covered(infos[..|infos| - 1]) + infos[|infos| - 1].count
  }

  function FreeSum(infos: seq<Info>): nat {
    if infos == [] then 0 else FreeSum(infos[..|infos| - 1]) + infos[|infos| - 1].free
  }

  /** The record starts where the ones before end, and its free count is that of its bitmap. */
  predicate InfoGood(disk: Disk, perChunk: nat, info: Info, covered: nat) {
    && info.start == covered && info.count <= perChunk
    && if info.bitmap == 0 then info.free == info.count
       else
         && info.bitmap in disk && disk[info.bitmap].Bitmap? && |disk[info.bitmap].bits| == perChunk
         && info.free == CountClear(disk[info.bitmap].bits[..info.count])
  }

  predicate InfosGood(disk: Disk, perChunk: nat, infos: seq<Info>) {
    forall k :: 0 <= k < |infos| ==> InfoGood(disk, perChunk, infos[k], Covered(infos[..k]))
  }

  ghost predicate TableGood(disk: Disk, cibs: seq<nat>, limit: nat, perChunk: nat, blocks: nat, chunkCount: nat,
                            free: nat)
  {
    && CibsGood(disk, cibs, limit)
    && var infos := Records(disk, cibs, |cibs|);
    InfosGood(disk, perChunk, infos) && |infos| == chunkCount && Covered(infos) == blocks && FreeSum(infos) == free
  }

  /** The scalar fields, and the arrays behind the fixed structure one after the other. */
  predicate FieldsGood(sm: Spaceman, blocks: nat, bs: nat) {
    && sm.blockSize == bs && sm.blocksPerChunk == bs * 8 && bs > 0x28
    && 0 < sm.chunksPerCib <= (bs - 0x28) / CHUNK_INFO_BYTES && sm.structSize == STRUCT_SIZE && sm.blockCount == blocks
    && sm.ipBase + sm.ipCount <= blocks && sm.ipBmBase + |sm.next| <= blocks
    && STRUCT_SIZE <= sm.xidOffset && sm.bitmapOffset == Align8(sm.xidOffset + |sm.live| * 8)
    && sm.nextOffset == Align8(sm.bitmapOffset + |sm.live| * 2) && sm.nextOffset + |sm.next| * 2 <= sm.size
    && sm.cibAddrOffset == Align8(sm.nextOffset + |sm.next| * 2) && sm.cibAddrOffset + |sm.addrs| * 8 <= sm.size
  }

  /** How many entries address block c must have: all full, and the last one with the rest. */
  function CabSize(cibCount: nat, per: nat, c: nat): int {
    if (c + 1) * per < cibCount then per else cibCount - c * per
  }

  predicate CabGood(disk: Disk, cabs: seq<nat>, cibCount: nat, per: nat, bs: nat, c: nat)
    requires c < |cabs|
  {
    && cabs[c] in disk && disk[cabs[c]].Cab? && disk[cabs[c]].index == c
    && |disk[cabs[c]].entries| == CabSize(cibCount, per, c) && 0x28 + |disk[cabs[c]].entries| * 8 <= bs
  }

  predicate CabsGood(disk: Disk, cabs: seq<nat>, cibCount: nat, per: nat, bs: nat) {
    && per > 0 && |cabs| == DivCeil(cibCount, per)
    && forall c :: 0 <= c < |cabs| ==> CabGood(disk, cabs, cibCount, per, bs, c)
  }

  /** The entries of the first n address blocks, one after the other. */
  function Listed(disk: Disk, cabs: seq<nat>, n: nat): seq<nat>
    requires n <= |cabs|
  {
    if n == 0 then [] else
    Listed(disk, cabs, n - 1) + if cabs[n - 1] in disk && disk[cabs[n - 1]].Cab? then disk[cabs[n - 1]].entries else []
  }

  predicate AddrsGood(sm: Spaceman, disk: Disk, bs: nat) {
    sm.cabCount != 0 ==> CabsGood(disk, sm.addrs, sm.cibCount, sm.cibsPerCab, bs)
  }

  /** Where the chunk-info blocks are. */
  function CibList(sm: Spaceman, disk: Disk): seq<nat> {
    if sm.cabCount == 0 then sm.addrs else Listed(disk, sm.addrs, |sm.addrs|)
  }

  ghost predicate RingGood(sm: Spaceman, xid: nat) {
    && IpRing.RingShape(sm.live, sm.xids, |sm.next|, xid)
    && exists chain :: IpRing.Partition(sm.next, sm.live, sm.head, sm.tail, chain)
  }

  ghost predicate Acceptable(sm: Spaceman, disk: Disk, blocks: nat, bs: nat, xid: nat) {
    && FieldsGood(sm, blocks, bs) && RingGood(sm, xid) && AddrsGood(sm, disk, bs)
    && TableGood(disk, CibList(sm, disk), sm.chunksPerCib, bs * 8, blocks, sm.chunkCount, sm.free)
  }

  // ---- the verifier -----------------------------------------------------------------------------------

  lemma CoveredPush(infos: seq<Info>, info: Info)
    ensures Covered(infos + [info]) == Covered(infos) + info.count &&
            FreeSum(infos + [info]) == FreeSum(infos) + info.free
  {
    assert (infos + [info])[..|infos|] == infos;
  }

  /** The records taken in so far begin the whole list. */
  lemma {:induction false} RecordsPrefix(disk: Disk, cibs: seq<nat>, n: nat, m: nat)
    requires n <= m <= |cibs| && forall i :: 0 <= i < m ==> cibs[i] in disk && disk[cibs[i]].Cib?
    ensures Records(disk, cibs, n) <= Records(disk, cibs, m)
  {
    if n < m {
      RecordsPrefix(disk, cibs, n, m - 1);
    }
  }

  lemma GoodPrefix(disk: Disk, perChunk: nat, infos: seq<Info>, done: seq<Info>, info: Info)
    requires InfosGood(disk, perChunk, infos) && done + [info] <= infos
    ensures InfoGood(disk, perChunk, info, Covered(done))
  {
    hide InfoGood;
    assert infos[|done|] == (done + [info])[|done|] == info;
    assert infos[..|done|] == done;
  }

  lemma GoodPush(disk: Disk, perChunk: nat, done: seq<Info>, info: Info)
    requires InfosGood(disk, perChunk, done) && InfoGood(disk, perChunk, info, Covered(done))
    ensures InfosGood(disk, perChunk, done + [info])
  {
    hide InfoGood;
    var more := done + [info];
    forall k | 0 <= k < |more| ensures InfoGood(disk, perChunk, more[k], Covered(more[..k])) {
      assert more[..k] == done[..k];
      assert k == |done| ==> done[..k] == done;
    }
  }

  /** A bad record refutes the whole table. */
  lemma BadRecord(disk: Disk, cibs: seq<nat>, limit: nat, perChunk: nat, blocks: nat, chunkCount: nat, free: nat,
                  i: nat, slot: nat, done: seq<Info>)
    requires i < |cibs| && (forall k :: 0 <= k <= i ==> cibs[k] in disk && disk[cibs[k]].Cib?)
    requires slot < |disk[cibs[i]].infos| && done == Records(disk, cibs, i) + disk[cibs[i]].infos[..slot]
    requires !InfoGood(disk, perChunk, disk[cibs[i]].infos[slot], Covered(done))
    ensures !TableGood(disk, cibs, limit, perChunk, blocks, chunkCount, free)
  {
    hide InfoGood, CibGood;
    if CibsGood(disk, cibs, limit) {
      RecordsPrefix(disk, cibs, i + 1, |cibs|);
      var infos, part := Records(disk, cibs, |cibs|), disk[cibs[i]].infos;
      assert done + [part[slot]] == Records(disk, cibs, i) + part[..slot + 1];
      assert done + [part[slot]] <= Records(disk, cibs, i + 1);
      if InfosGood(disk, perChunk, infos) {
        GoodPrefix(disk, perChunk, infos, done, part[slot]);
      }
    }
  }

  method CheckInfo(disk: Disk, perChunk: nat, info: Info, covered: nat) returns (ok: bool)
    ensures ok <==> InfoGood(disk, perChunk, info, covered)
  {
    if info.start != covered || info.count > perChunk {
      return false;
    }
    if info.bitmap == 0 {
      return info.free == info.count;
    }
    if info.bitmap !in disk || !disk[info.bitmap].Bitmap? || |disk[info.bitmap].bits| != perChunk {
      return false;
    }
    var counted := CountFree(disk[info.bitmap].bits, info.count);
    ok := info.free == counted;
  }

  /** The walk over all chunk-info blocks; accepts exactly the good tables. */
  method VerifyTable(disk: Disk, cibs: seq<nat>, limit: nat, perChunk: nat, blocks: nat, chunkCount: nat, free: nat)
      returns (r: Result<seq<Info>>)
    ensures r.Ok? <==> TableGood(disk, cibs, limit, perChunk, blocks, chunkCount, free)
    ensures r.Ok? ==> CibsGood(disk, cibs, limit) && r.value == Records(disk, cibs, |cibs|)
  {
    hide InfoGood, CibGood, Covered, FreeSum;
    var done: seq<Info> := [];
    var covered, counted := 0, 0;
    NothingCovered(disk, perChunk);
    for i := 0 to |cibs|
      invariant forall k :: 0 <= k < i ==> cibs[k] in disk && disk[cibs[k]].Cib? && CibGood(disk, cibs, limit, k)
      invariant done == Records(disk, cibs, i) && InfosGood(disk, perChunk, done)
      invariant covered == Covered(done) && counted == FreeSum(done)
    {
      CibIs(disk, cibs, limit, i);
      if cibs[i] !in disk || !disk[cibs[i]].Cib? || disk[cibs[i]].index != i || |disk[cibs[i]].infos| > limit {
        return Err(Malformed);
      }
      var infos := disk[cibs[i]].infos;
      for slot := 0 to |infos|
        invariant done == Records(disk, cibs, i) + infos[..slot] && InfosGood(disk, perChunk, done)
        invariant covered == Covered(done) && counted == FreeSum(done)
      {
        var ok := CheckInfo(disk, perChunk, infos[slot], covered);
        if !ok {
          BadRecord(disk, cibs, limit, perChunk, blocks, chunkCount, free, i, slot, done);
          return Err(Malformed);
        }
        GoodPush(disk, perChunk, done, infos[slot]);
        CoveredPush(done, infos[slot]);
        assert infos[..slot + 1] == infos[..slot] + [infos[slot]];
        done := done + [infos[slot]];
        covered, counted := covered + infos[slot].count, counted + infos[slot].free;
      }
      assert infos[..|infos|] == infos;
    }
    if |done| != chunkCount || covered != blocks || counted != free {
      return Err(Malformed);
    }
    r := Ok(done);
  }

  lemma NothingCovered(disk: Disk, perChunk: nat)
    ensures Covered([]) == 0 && FreeSum([]) == 0 && InfosGood(disk, perChunk, [])
  {
  }

  lemma CibIs(disk: Disk, cibs: seq<nat>, limit: nat, i: nat)
    requires i < |cibs|
    ensures CibGood(disk, cibs, limit, i) <==>
            cibs[i] in disk && disk[cibs[i]].Cib? && disk[cibs[i]].index == i && |disk[cibs[i]].infos| <= limit
  {
  }

  /** The counting of full address blocks before the last. */
  lemma CabFull(cibCount: nat, per: nat, cabs: nat, c: nat)
    requires per > 0 && cabs == DivCeil(cibCount, per) && c < cabs
    ensures c + 1 < cabs ==> (c + 1) * per < cibCount
    ensures c + 1 == cabs ==> cibCount <= (c + 1) * per
    ensures 0 < CabSize(cibCount, per, c) <= per
  {
    hide DivCeil;
    CeilAbove(cibCount, per, c);
    CeilAbove(cibCount, per, c + 1);
    assert (c + 1) * per == c * per + per;
  }

  /** On good address blocks the list has one address per chunk-info block. */
  lemma {:induction false} ListedSize(disk: Disk, cabs: seq<nat>, cibCount: nat, per: nat, bs: nat, n: nat)
    requires CabsGood(disk, cabs, cibCount, per, bs) && n <= |cabs|
    ensures |Listed(disk, cabs, n)| == if n == |cabs| then cibCount else n * per
  {
    hide DivCeil;
    if n == 0 {
      NoCabs(cibCount, per, |cabs|);
    } else {
      ListedSize(disk, cabs, cibCount, per, bs, n - 1);
      CabFull(cibCount, per, |cabs|, n - 1);
      assert CabGood(disk, cabs, cibCount, per, bs, n - 1);
      assert n * per == (n - 1) * per + per;
    }
  }

  /** Number c * per + j in the list is entry j of address block c. */
  lemma {:induction false} ListedAt(disk: Disk, cabs: seq<nat>, cibCount: nat, per: nat, bs: nat, n: nat, c: nat,
                                    j: nat)
    requires CabsGood(disk, cabs, cibCount, per, bs) && c < n <= |cabs|
    requires cabs[c] in disk && disk[cabs[c]].Cab? && j < |disk[cabs[c]].entries|
    ensures c * per + j < |Listed(disk, cabs, n)| && Listed(disk, cabs, n)[c * per + j] == disk[cabs[c]].entries[j]
  {
    hide DivCeil, CabsGood, CabSize;
    if c < n - 1 {
      ListedAt(disk, cabs, cibCount, per, bs, n - 1, c, j);
    } else {
      ListedSize(disk, cabs, cibCount, per, bs, n - 1);
    }
  }

  lemma NoCabs(cibCount: nat, per: nat, cabs: nat)
    requires per > 0 && cabs == DivCeil(cibCount, per)
    ensures cabs == 0 <==> cibCount == 0
  {
    hide DivCeil;
    CeilAbove(cibCount, per, 0);
  }

  /** Reads the chunk-info addresses through the address blocks; fails exactly when one of them is bad. */
  method ReadCabs(disk: Disk, cabs: seq<nat>, cibCount: nat, per: nat, bs: nat) returns (r: Result<seq<nat>>)
    ensures r.Ok? <==> CabsGood(disk, cabs, cibCount, per, bs)
    ensures r.Ok? ==> r.value == Listed(disk, cabs, |cabs|) && |r.value| == cibCount
  {
    hide DivCeil;
    if per == 0 {
      return Err(Malformed);
    }
    if |cabs| != DivCeil(cibCount, per) {
      return Err(Malformed);
    }
    var addrs: seq<nat> := [];
    for c := 0 to |cabs|
      invariant addrs == Listed(disk, cabs, c)
      invariant forall k :: 0 <= k < c ==> CabGood(disk, cabs, cibCount, per, bs, k)
    {
      CabFull(cibCount, per, |cabs|, c);
      var expected := if c + 1 == |cabs| then cibCount - c * per else per;
      if cabs[c] !in disk || !disk[cabs[c]].Cab? || disk[cabs[c]].index != c {
        assert !CabGood(disk, cabs, cibCount, per, bs, c);
        return Err(Malformed);
      }
      var entries := disk[cabs[c]].entries;
      if |entries| != expected || 0x28 + |entries| * 8 > bs {
        assert !CabGood(disk, cabs, cibCount, per, bs, c);
        return Err(Malformed);
      }
      addrs := addrs + entries;
    }
    ListedSize(disk, cabs, cibCount, per, bs, |cabs|);
    r := Ok(addrs);
  }

  /** The verifier of a container's space manager; accepts exactly the acceptable ones. */
  method VerifySpaceman(sm: Spaceman, disk: Disk, blocks: nat, bs: nat, xid: nat) returns (r: Result<seq<Info>>)
    requires |sm.xids| == |sm.live| && |sm.addrs| == if sm.cabCount == 0 then sm.cibCount else sm.cabCount
    ensures r.Ok? <==> Acceptable(sm, disk, blocks, bs, xid)
    ensures r.Ok? ==>
              && |CibList(sm, disk)| == sm.cibCount && CibsGood(disk, CibList(sm, disk), sm.chunksPerCib)
              && r.value == Records(disk, CibList(sm, disk), sm.cibCount)
  {
    hide TableGood, CibsGood, CabsGood, Align8, Listed;
    if !FieldsGood(sm, blocks, bs) {
      return Err(Malformed);
    }
    var ring := IpRing.VerifyRing(sm.next, sm.live, sm.xids, sm.head, sm.tail, xid);
    if ring.Err? {
      return Err(Malformed);
    }
    var cibs := sm.addrs;
    if sm.cabCount != 0 {
      var listed := ReadCabs(disk, sm.addrs, sm.cibCount, sm.cibsPerCab, bs);
      if listed.Err? {
        return Err(Malformed);
      }
      cibs := listed.value;
    }
    r := VerifyTable(disk, cibs, sm.chunksPerCib, bs * 8, blocks, sm.chunkCount, sm.free);
  }

  // ---- the builder --------------------------------------------------------------------------------------

  /** What the builder is given: the device, the pool, the ring and how many blocks are in use. */
  datatype Plan = Plan(blocks: nat, bs: nat, chunksPerCib: nat, ipBase: nat, ipCount: nat, ipBmBase: nat,
                       reserve: nat, used: nat, xid: nat)

  function PerChunk(plan: Plan): nat {
    plan.bs * 8
  }

  function ChunkCount(plan: Plan): nat
    requires plan.bs > 0
  {
    DivCeil(plan.blocks, PerChunk(plan))
  }

  function CibCount(plan: Plan): nat
    requires plan.bs > 0 && plan.chunksPerCib > 0
  {
    DivCeil(ChunkCount(plan), plan.chunksPerCib)
  }

  /** The pool is the last thing allocated, after the ring; everything in use lies on the device. */
  predicate PlanOk(plan: Plan) {
    && plan.bs > 0x28 && 0 < plan.chunksPerCib <= (plan.bs - 0x28) / CHUNK_INFO_BYTES && plan.blocks > 0
    && plan.used == plan.ipBase + plan.ipCount <= plan.blocks
    && 0 < plan.ipBmBase && plan.ipBmBase + RING_BLOCKS <= plan.ipBase
  }

  function LeadingBits(n: nat, total: nat): (bits: seq<bool>)
    ensures |bits| == total && forall i :: 0 <= i < total ==> bits[i] == (i < n)
  {
    seq(total, i => i < n)
  }

  lemma {:induction false} LeadingClear(bits: seq<bool>, n: nat)
    requires forall i :: 0 <= i < |bits| ==> bits[i] == (i < n)
    ensures CountClear(bits) == |bits| - Min(n, |bits|)
  {
    if bits != [] {
      LeadingClear(bits[..|bits| - 1], n);
    }
  }

  /** The record of chunk i: its blocks, and a bitmap if any of them is in use. */
  function InfoOf(plan: Plan, bitmapBase: nat, i: nat): Info
    requires i * PerChunk(plan) <= plan.blocks
  {
    var addr := i * PerChunk(plan);
    var count := Min(PerChunk(plan), plan.blocks - addr);
    if addr >= plan.used then Info(addr, count, count, 0)
    else Info(addr, count, count - Min(plan.used - addr, count), bitmapBase + i)
  }

  /** The first n chunks have their records, and those in use their bitmaps. */
  ghost predicate Charted(plan: Plan, bitmapBase: nat, n: nat, infos: seq<Info>, disk: Disk) {
    && |infos| == n && n * PerChunk(plan) <= plan.blocks + PerChunk(plan)
    && (forall i: nat :: i < n ==> ChartedAt(plan, bitmapBase, i, infos, disk))
    && Covered(infos) == Min(n * PerChunk(plan), plan.blocks)
    && FreeSum(infos) == Covered(infos) - Min(plan.used, Covered(infos))
  }

  ghost predicate ChartedAt(plan: Plan, bitmapBase: nat, i: nat, infos: seq<Info>, disk: Disk) {
    && i < |infos| && i * PerChunk(plan) < plan.blocks && infos[i] == InfoOf(plan, bitmapBase, i)
    && (i * PerChunk(plan) < plan.used ==>
          bitmapBase + i in disk &&
              disk[bitmapBase + i] == Bitmap(LeadingBits(Min(plan.used - i * PerChunk(plan), infos[i].count),
                                                         PerChunk(plan))))
  }

  lemma ChartStarts(plan: Plan, bitmapBase: nat, disk: Disk)
    ensures Charted(plan, bitmapBase, 0, [], disk)
  {
    assert 0 * PerChunk(plan) == 0;
  }

  /** One more chunk. */
  lemma ChartNext(plan: Plan, bitmapBase: nat, n: nat, infos: seq<Info>, disk: Disk, after: Disk)
    requires Charted(plan, bitmapBase, n, infos, disk) && n * PerChunk(plan) < plan.blocks
    requires forall p :: p in disk && p < bitmapBase + n ==> p in after && after[p] == disk[p]
    requires n * PerChunk(plan) < plan.used ==>
               var count := Min(PerChunk(plan), plan.blocks - n * PerChunk(plan));
               bitmapBase + n in after &&
               after[bitmapBase + n] == Bitmap(LeadingBits(Min(plan.used - n * PerChunk(plan), count), PerChunk(plan)))
    ensures Charted(plan, bitmapBase, n + 1, infos + [InfoOf(plan, bitmapBase, n)], after)
  {
    hide Covered, FreeSum, LeadingBits, PerChunk;
    var info := InfoOf(plan, bitmapBase, n);
    var more := infos + [info];
    CoveredPush(infos, info);
    var per := PerChunk(plan);
    assert (n + 1) * per == n * per + per;
    forall i: nat | i < n + 1 ensures ChartedAt(plan, bitmapBase, i, more, after) {
      if i < n {
        assert ChartedAt(plan, bitmapBase, i, infos, disk);
      }
    }
  }

  /** Chunk records and bitmaps, one chunk at a time. */
  method BuildChunks(plan: Plan, bitmapBase: nat) returns (infos: seq<Info>, disk: Disk, slots: nat)
    requires PlanOk(plan)
    ensures Charted(plan, bitmapBase, ChunkCount(plan), infos, disk)
    ensures slots == DivCeil(plan.used, PerChunk(plan))
    ensures forall p :: p in disk ==> bitmapBase <= p < bitmapBase + slots
  {
    hide Charted, LeadingBits, DivCeil, PlanOk;
    PlanFacts(plan);
    var per, chunkCount := PerChunk(plan), ChunkCount(plan);
    infos, disk, slots := [], map[], 0;
    ChartStarts(plan, bitmapBase, disk);
    SlotsStart(plan);
    for chunk := 0 to chunkCount
      invariant Charted(plan, bitmapBase, chunk, infos, disk)
      invariant slots == Touched(plan, chunk) <= chunk && (chunk * per < plan.used ==> slots == chunk)
      invariant forall p :: p in disk ==> bitmapBase <= p < bitmapBase + slots
    {
      ChunkOnDevice(plan, chunk);
      SlotsNext(plan, chunk);
      var addr := chunk * per;
      var blocks := Min(per, plan.blocks - addr);
      ghost var before := disk;
      if addr < plan.used {
        var usedInChunk := Min(plan.used - addr, blocks);
        disk := disk[bitmapBase + slots := Bitmap(LeadingBits(usedInChunk, per))];
        slots := slots + 1;
      }
      ChartNext(plan, bitmapBase, chunk, infos, before, disk);
      infos := infos + [InfoOf(plan, bitmapBase, chunk)];
    }
    SlotsEnd(plan);
  }

  lemma PlanFacts(plan: Plan)
    requires PlanOk(plan)
    ensures plan.bs > 0 && PerChunk(plan) > 0 && plan.chunksPerCib > 0 && plan.used <= plan.blocks
  {
  }

  /** How many of the first n chunks have a block in use. */
  function Touched(plan: Plan, n: nat): nat {
    if n == 0 then 0 else Touched(plan, n - 1) + if (n - 1) * PerChunk(plan) < plan.used then 1 else 0
  }

  lemma SlotsStart(plan: Plan)
    ensures Touched(plan, 0) == 0 && 0 * PerChunk(plan) == 0
  {
  }

  lemma SlotsNext(plan: Plan, n: nat)
    ensures Touched(plan, n + 1) == Touched(plan, n) + (if n * PerChunk(plan) < plan.used then 1 else 0)
    ensures (n + 1) * PerChunk(plan) >= n * PerChunk(plan)
  {
    assert (n + 1) * PerChunk(plan) == n * PerChunk(plan) + PerChunk(plan);
  }

  lemma {:induction false} TouchedIs(plan: Plan, n: nat)
    requires PerChunk(plan) > 0
    ensures Touched(plan, n) == Min(n, DivCeil(plan.used, PerChunk(plan)))
  {
    hide PerChunk, DivCeil;
    if n > 0 {
      TouchedIs(plan, n - 1);
      CeilAbove(plan.used, PerChunk(plan), n - 1);
    }
  }

  /** k whole chunks fall short of a exactly when k is below the rounded-up quotient. */
  lemma CeilAbove(a: nat, b: nat, k: nat)
    requires b > 0
    ensures k * b < a <==> k < DivCeil(a, b)
  {
    var r := DivCeil(a, b);
    if k < r {
      MulMono(k, r - 1, b);
    } else {
      MulMono(r, k, b);
    }
  }

  lemma SlotsEnd(plan: Plan)
    requires PlanOk(plan)
    ensures Touched(plan, ChunkCount(plan)) == DivCeil(plan.used, PerChunk(plan))
  {
    hide DivCeil;
    TouchedIs(plan, ChunkCount(plan));
    CeilMono(plan.used, plan.blocks, PerChunk(plan));
  }

  lemma CeilMono(a: nat, c: nat, b: nat)
    requires b > 0 && a <= c
    ensures DivCeil(a, b) <= DivCeil(c, b)
  {
    hide DivCeil;
    if DivCeil(a, b) > 0 {
      CeilAbove(a, b, DivCeil(a, b) - 1);
      CeilAbove(c, b, DivCeil(a, b) - 1);
    }
  }

  lemma ChunkOnDevice(plan: Plan, i: nat)
    requires PlanOk(plan) && i < ChunkCount(plan)
    ensures i * PerChunk(plan) < plan.blocks
  {
    hide DivCeil;
    CeilAbove(plan.blocks, PerChunk(plan), i);
  }

  /** The table the chunks make is good, on any disk that still has their bitmaps. */
  lemma ChartGood(plan: Plan, bitmapBase: nat, infos: seq<Info>, disk: Disk, after: Disk)
    requires PlanOk(plan) && bitmapBase > 0 && Charted(plan, bitmapBase, ChunkCount(plan), infos, disk)
    requires forall p :: p in disk ==> p in after && after[p] == disk[p]
    ensures InfosGood(after, PerChunk(plan), infos) && |infos| == ChunkCount(plan)
    ensures Covered(infos) == plan.blocks && FreeSum(infos) == plan.blocks - plan.used
  {
    hide Covered, FreeSum, LeadingBits, DivCeil, InfoGood;
    var per, n := PerChunk(plan), ChunkCount(plan);
    EndsTheDevice(plan);
    forall k | 0 <= k < n ensures InfoGood(after, per, infos[k], Covered(infos[..k])) {
      CoveredFull(plan, bitmapBase, infos, disk, k);
      assert ChartedAt(plan, bitmapBase, k, infos, disk);
      GoodInfo(plan, bitmapBase, infos, disk, after, k);
    }
  }

  lemma EndsTheDevice(plan: Plan)
    requires PlanOk(plan)
    ensures ChunkCount(plan) * PerChunk(plan) >= plan.blocks
  {
  }

  /** The chunks before chunk k are all full. */
  lemma {:induction false} CoveredFull(plan: Plan, bitmapBase: nat, infos: seq<Info>, disk: Disk, k: nat)
    requires k < |infos| && forall i: nat :: i < |infos| ==> ChartedAt(plan, bitmapBase, i, infos, disk)
    ensures Covered(infos[..k]) == k * PerChunk(plan)
  {
    hide PerChunk, Covered, FreeSum, ChartedAt;
    NothingCovered(disk, 0);
    if k == 0 {
      assert 0 * PerChunk(plan) == 0;
    } else {
      CoveredFull(plan, bitmapBase, infos, disk, k - 1);
      assert infos[..k] == infos[..k - 1] + [infos[k - 1]];
      CoveredPush(infos[..k - 1], infos[k - 1]);
      assert ChartedAt(plan, bitmapBase, k, infos, disk) && ChartedAt(plan, bitmapBase, k - 1, infos, disk);
      FullBefore(plan, bitmapBase, infos, disk, k);
    }
  }

  /** A chunk with another one after it is full. */
  lemma FullBefore(plan: Plan, bitmapBase: nat, infos: seq<Info>, disk: Disk, k: nat)
    requires 0 < k && ChartedAt(plan, bitmapBase, k, infos, disk) && ChartedAt(plan, bitmapBase, k - 1, infos, disk)
    ensures infos[k - 1].count == PerChunk(plan) && k * PerChunk(plan) == (k - 1) * PerChunk(plan) + PerChunk(plan)
  {
    hide PerChunk, LeadingBits;
    var per := PerChunk(plan);
    assert k * per == (k - 1) * per + per;
  }

  lemma GoodInfo(plan: Plan, bitmapBase: nat, infos: seq<Info>, disk: Disk, after: Disk, k: nat)
    requires bitmapBase > 0 && ChartedAt(plan, bitmapBase, k, infos, disk)
    requires forall p :: p in disk ==> p in after && after[p] == disk[p]
    ensures InfoGood(after, PerChunk(plan), infos[k], k * PerChunk(plan))
  {
    hide LeadingBits, CountClear;
    var per, info := PerChunk(plan), infos[k];
    if k * per < plan.used {
      var n := Min(plan.used - k * per, info.count);
      var bits := LeadingBits(n, per);
      LeadingClear(bits[..info.count], n);
    }
  }

  // ---- chunk-info blocks ---------------------------------------------------------------------------------

  /** The first n chunk-info blocks are written, and hold the records in order. */
  ghost predicate Filed(plan: Plan, infos: seq<Info>, cibBase: nat, n: nat, disk: Disk)
    requires plan.chunksPerCib > 0
  {
    && var cibs := Addresses(cibBase, n);
    CibsGood(disk, cibs, plan.chunksPerCib) && Records(disk, cibs, n) == infos[..Min(n * plan.chunksPerCib, |infos|)]
  }

  function Addresses(base: nat, n: nat): (a: seq<nat>)
    ensures |a| == n && forall i :: 0 <= i < n ==> a[i] == base + i
  {
    seq(n, i => base + i)
  }

  lemma {:induction false} RecordsSame(d1: Disk, d2: Disk, a: seq<nat>, b: seq<nat>, n: nat)
    requires n <= |a| && n <= |b| && (forall i :: 0 <= i < n ==> a[i] == b[i] && a[i] in d1 && d1[a[i]].Cib?)
    requires forall i :: 0 <= i < n ==> b[i] in d2 && d2[b[i]] == d1[a[i]]
    ensures Records(d2, b, n) == Records(d1, a, n)
  {
    if n > 0 {
      RecordsSame(d1, d2, a, b, n - 1);
    }
  }

  lemma FileStarts(plan: Plan, infos: seq<Info>, cibBase: nat, disk: Disk)
    requires plan.chunksPerCib > 0
    ensures Filed(plan, infos, cibBase, 0, disk)
  {
    assert 0 * plan.chunksPerCib == 0;
  }

  lemma FileNext(plan: Plan, infos: seq<Info>, cibBase: nat, n: nat, disk: Disk)
    requires plan.chunksPerCib > 0 && Filed(plan, infos, cibBase, n, disk) && n * plan.chunksPerCib < |infos|
    ensures var start, end := n * plan.chunksPerCib, Min((n + 1) * plan.chunksPerCib, |infos|);
            start <= end && Filed(plan, infos, cibBase, n + 1, disk[cibBase + n := Cib(n, infos[start..end])])
  {
    var per := plan.chunksPerCib;
    assert (n + 1) * per == n * per + per;
    var start, end := n * per, Min((n + 1) * per, |infos|);
    var after := disk[cibBase + n := Cib(n, infos[start..end])];
    var cibs, more := Addresses(cibBase, n), Addresses(cibBase, n + 1);
    forall i | 0 <= i < n + 1 ensures CibGood(after, more, per, i) {
      assert i < n ==> CibGood(disk, cibs, per, i);
    }
    RecordsSame(disk, after, cibs, more, n);
    assert infos[..start] + infos[start..end] == infos[..end];
  }

  /** The chunk-info blocks of a list of chunks. */
  method BuildCibs(plan: Plan, infos: seq<Info>, cibBase: nat, disk0: Disk) returns (disk: Disk)
    requires plan.chunksPerCib > 0
    ensures Filed(plan, infos, cibBase, DivCeil(|infos|, plan.chunksPerCib), disk)
    ensures forall p :: p in disk0 && !(cibBase <= p < cibBase + DivCeil(|infos|, plan.chunksPerCib)) ==>
              p in disk && disk[p] == disk0[p]
  {
    hide Filed, DivCeil;
    disk := disk0;
    FileStarts(plan, infos, cibBase, disk);
    var cibCount := DivCeil(|infos|, plan.chunksPerCib);
    for index := 0 to cibCount
      invariant Filed(plan, infos, cibBase, index, disk)
      invariant forall p :: p in disk0 && !(cibBase <= p < cibBase + index) ==> p in disk && disk[p] == disk0[p]
    {
      CeilAbove(|infos|, plan.chunksPerCib, index);
      FileNext(plan, infos, cibBase, index, disk);
      var start, end := index * plan.chunksPerCib, Min((index + 1) * plan.chunksPerCib, |infos|);
      disk := disk[cibBase + index := Cib(index, infos[start..end])];
    }
  }

  // ---- the ring --------------------------------------------------------------------------------------------

  /** Slot 0 is live, every other slot points to the next, the last to nothing. */
  function FirstRing(slots: nat): (next: seq<nat>)
    ensures |next| == slots && forall s :: 0 <= s < slots ==>
              next[s] == if s < RING_LIVE || s == slots - 1 then IpRing.NIL else s + 1
  {
    seq(slots, s => if s < RING_LIVE || s == slots - 1 then IpRing.NIL else s + 1)
  }

  lemma FirstRingGood(slots: nat, next: seq<nat>, live: seq<nat>, tail: nat)
    requires 2 <= slots <= IpRing.NIL && next == FirstRing(slots) && live == [0] && tail == slots - 1
    ensures exists chain :: IpRing.Partition(next, live, RING_LIVE, tail, chain)
  {
    var chain := Addresses(1, slots - 1);
    forall i | 0 <= i < |chain| ensures next[chain[i]] == IpRing.After(chain, i, IpRing.NIL) {
    }
    forall s: nat | s < slots ensures s in [0] + chain {
      assert ([0] + chain)[s] == s;
    }
    assert IpRing.Partition(next, live, RING_LIVE, tail, chain);
  }

  // ---- the whole space manager -------------------------------------------------------------------------------

  const XID_OFFSET: nat := 2520
  const BITMAP_OFFSET: nat := 2528
  const NEXT_OFFSET: nat := 2536
  const CIB_ADDR_OFFSET: nat := 2568

  /** Below 64 MiB the writer knows no node limit for the main free queue. */
  const MIN_CONTAINER_BYTES: nat := 0x400_0000

  lemma Offsets()
    ensures BITMAP_OFFSET == Align8(XID_OFFSET + RING_LIVE * 8) && NEXT_OFFSET == Align8(BITMAP_OFFSET + RING_LIVE * 2)
    ensures CIB_ADDR_OFFSET == Align8(NEXT_OFFSET + RING_BLOCKS * 2)
  {
  }

  /** The bit is set in the bitmap of the chunk. */
  predicate Marked(disk: Disk, infos: seq<Info>, chunk: nat, bit: nat) {
    && chunk < |infos| && infos[chunk].bitmap != 0 && infos[chunk].bitmap in disk && disk[infos[chunk].bitmap].Bitmap?
    && bit < |disk[infos[chunk].bitmap].bits| && disk[infos[chunk].bitmap].bits[bit]
  }

  /** Block p is marked in the bitmap of the chunk it belongs to (`is_allocated`). */
  predicate IsAllocated(disk: Disk, perChunk: nat, infos: seq<Info>, p: nat)
    requires perChunk > 0
  {
    Marked(disk, infos, p / perChunk, p % perChunk)
  }

  lemma MarkedAt(plan: Plan, bitmapBase: nat, infos: seq<Info>, disk: Disk, after: Disk, chunk: nat, bit: nat)
    requires bitmapBase > 0 && ChartedAt(plan, bitmapBase, chunk, infos, disk) && bit < PerChunk(plan)
    requires chunk * PerChunk(plan) + bit < plan.blocks
    requires forall q :: q in disk ==> q in after && after[q] == disk[q]
    ensures Marked(after, infos, chunk, bit) <==> chunk * PerChunk(plan) + bit < plan.used
  {
    hide PerChunk;
  }

  /** Exactly the first `used` blocks are allocated. */
  lemma PrefixAllocated(plan: Plan, bitmapBase: nat, infos: seq<Info>, disk: Disk, after: Disk, p: nat)
    requires PlanOk(plan) && bitmapBase > 0 && Charted(plan, bitmapBase, ChunkCount(plan), infos, disk) &&
             p < plan.blocks
    requires forall q :: q in disk ==> q in after && after[q] == disk[q]
    ensures IsAllocated(after, PerChunk(plan), infos, p) <==> p < plan.used
  {
    hide DivCeil, Covered, FreeSum, LeadingBits, ChartedAt, Marked, PerChunk;
    PlanFacts(plan);
    var per := PerChunk(plan);
    var chunk, bit := p / per, p % per;
    assert p == chunk * per + bit;
    CeilAbove(plan.blocks, per, chunk);
    MarkedAt(plan, bitmapBase, infos, disk, after, chunk, bit);
  }

  /**
   * Builds the space manager. It fails exactly when the chunk-info addresses overflow the block,
   * the container is too small or more bitmaps are needed than were reserved; otherwise the
   * verifier accepts the result, and exactly the first `used` blocks of the device are allocated.
   */
  method Build(plan: Plan) returns (r: Result<(Spaceman, Disk)>, ghost infos: seq<Info>)
    requires PlanOk(plan)
    ensures r.Ok? <==>
              && CIB_ADDR_OFFSET + CibCount(plan) * 8 <= plan.bs && plan.bs * plan.blocks >= MIN_CONTAINER_BYTES
              && DivCeil(plan.used, PerChunk(plan)) <= plan.reserve
    ensures r.Ok? ==> Acceptable(r.value.0, r.value.1, plan.blocks, plan.bs, plan.xid)
    ensures r.Ok? ==> r.value.0.cabCount == 0 && r.value.0.cibCount == |r.value.0.addrs| == CibCount(plan)
    ensures r.Ok? ==> CibsGood(r.value.1, r.value.0.addrs, plan.chunksPerCib)
    ensures r.Ok? ==> infos == Records(r.value.1, r.value.0.addrs, |r.value.0.addrs|)
    ensures r.Ok? ==>
              forall p: nat :: p < plan.blocks ==> (IsAllocated(r.value.1, PerChunk(plan), infos, p) <==> p < plan.used)
  {
    hide Charted, Filed, DivCeil, PlanOk, TableGood, CibsGood, IsAllocated, InfosGood, FieldsGood, RingGood;
    PlanFacts(plan);
    var cibCount := CibCount(plan);
    var cibBase, bitmapBase := plan.ipBase, plan.ipBase + cibCount;
    BasePositive(plan);
    var chunks, disk1, slots := BuildChunks(plan, bitmapBase);
    infos := chunks;
    ghost var charted := disk1;
    var disk2 := disk1[plan.ipBmBase := Bitmap(LeadingBits(cibCount + slots, PerChunk(plan)))];
    RingBelow(plan);
    ChartSize(plan, bitmapBase, chunks, charted);
    var disk := BuildCibs(plan, chunks, cibBase, disk2);
    if CIB_ADDR_OFFSET + cibCount * 8 > plan.bs {
      return Err(Overflow), infos;
    }
    if plan.bs * plan.blocks < MIN_CONTAINER_BYTES {
      return Err(Unsupported), infos;
    }
    var sm := Spaceman(
      plan.bs,
      plan.bs, PerChunk(plan), plan.chunksPerCib, STRUCT_SIZE, plan.blocks, ChunkCount(plan),
      cibCount, 0, (plan.bs - 0x28) / 8, Addresses(cibBase,
                                                   cibCount), plan.blocks - plan.used, CIB_ADDR_OFFSET, plan.ipCount,
                                                   plan.ipBase, plan.ipBmBase,
      XID_OFFSET, BITMAP_OFFSET, NEXT_OFFSET,
      [plan.xid], [0], RING_LIVE, RING_BLOCKS - 1, FirstRing(RING_BLOCKS));
    if slots > plan.reserve {
      return Err(Capacity), infos;
    }
    BuiltFields(plan, sm);
    BuiltRing(plan, sm);
    ChartGood(plan, bitmapBase, chunks, charted, disk);
    BuiltTable(plan, chunks, cibBase, disk);
    forall p: nat | p < plan.blocks ensures IsAllocated(disk, PerChunk(plan), chunks, p) <==> p < plan.used {
      PrefixAllocated(plan, bitmapBase, chunks, charted, disk, p);
    }
    r := Ok((sm, disk));
  }

  lemma BasePositive(plan: Plan)
    requires PlanOk(plan)
    ensures plan.ipBase > 0
  {
  }

  lemma RingBelow(plan: Plan)
    requires PlanOk(plan)
    ensures plan.ipBmBase < plan.ipBase
  {
  }

  lemma ChartSize(plan: Plan, bitmapBase: nat, infos: seq<Info>, disk: Disk)
    requires PlanOk(plan) && Charted(plan, bitmapBase, ChunkCount(plan), infos, disk)
    ensures |infos| == ChunkCount(plan)
  {
    hide DivCeil;
  }

  lemma BuiltFields(plan: Plan, sm: Spaceman)
    requires PlanOk(plan) && CIB_ADDR_OFFSET + CibCount(plan) * 8 <= plan.bs
    requires sm.size == plan.bs && sm.blockSize == plan.bs && sm.blocksPerChunk == PerChunk(plan)
    requires sm.chunksPerCib == plan.chunksPerCib && sm.structSize == STRUCT_SIZE
    requires sm.blockCount == plan.blocks && |sm.addrs| == CibCount(plan) && sm.ipBase == plan.ipBase &&
             sm.ipCount == plan.ipCount
    requires sm.ipBmBase == plan.ipBmBase && |sm.next| == RING_BLOCKS && |sm.live| == RING_LIVE
    requires sm.xidOffset == XID_OFFSET && sm.bitmapOffset == BITMAP_OFFSET && sm.nextOffset == NEXT_OFFSET &&
             sm.cibAddrOffset == CIB_ADDR_OFFSET
    ensures FieldsGood(sm, plan.blocks, plan.bs)
  {
    hide DivCeil;
    Offsets();
  }

  lemma BuiltRing(plan: Plan, sm: Spaceman)
    requires sm.xids == [plan.xid] && sm.live == [0] && sm.head == RING_LIVE && sm.tail == RING_BLOCKS - 1 &&
             sm.next == FirstRing(RING_BLOCKS)
    ensures RingGood(sm, plan.xid)
  {
    hide FirstRing, IpRing.Partition;
    FirstRingGood(RING_BLOCKS, sm.next, sm.live, sm.tail);
  }

  lemma BuiltTable(plan: Plan, infos: seq<Info>, cibBase: nat, disk: Disk)
    requires PlanOk(plan) && |infos| == ChunkCount(plan) && Filed(plan, infos, cibBase, CibCount(plan), disk)
    requires InfosGood(disk, PerChunk(plan), infos) && Covered(infos) == plan.blocks &&
             FreeSum(infos) == plan.blocks - plan.used
    ensures var cibs := Addresses(cibBase, CibCount(plan));
            && CibsGood(disk, cibs, plan.chunksPerCib) && Records(disk, cibs, |cibs|) == infos
            && TableGood(disk, cibs, plan.chunksPerCib, PerChunk(plan), plan.blocks, ChunkCount(plan),
                         plan.blocks - plan.used)
  {
    hide CibsGood, InfosGood, Covered, FreeSum;
    var n := CibCount(plan);
    assert n * plan.chunksPerCib >= |infos|;
    assert infos[..|infos|] == infos;
  }

  // ---- sizing the pool ----------------------------------------------------------------------------------------

  /** How the pool is sized for a container with `used` blocks in use before it. */
  function Reserve(used: nat, perChunk: nat): nat
    requires perChunk > 0
  {
    Max(DivCeil(used, perChunk), 1) + 1
  }

  function PoolSize(used: nat, perChunk: nat, chunkCount: nat, cibCount: nat): nat
    requires perChunk > 0
  {
    Max(cibCount + Reserve(used, perChunk), 3 * chunkCount + 3)
  }

  /**
   * Whenever 3 * chunks + 3 blocks fit a chunk, the reserve covers every bitmap needed once the
   * pool itself is in use, and chunk-info blocks and bitmaps lie inside the pool.
   */
  lemma ReserveSuffices(used: nat, perChunk: nat, chunkCount: nat, cibCount: nat)
    requires perChunk > 0 && cibCount <= chunkCount && DivCeil(used, perChunk) <= chunkCount && chunkCount > 0
    requires 3 * chunkCount + 3 <= perChunk
    ensures var pool := PoolSize(used, perChunk, chunkCount, cibCount);
            && pool == 3 * chunkCount + 3
            && DivCeil(used + pool, perChunk) <= Reserve(used, perChunk)
            && cibCount + DivCeil(used + pool, perChunk) <= pool
  {
    hide DivCeil;
    var pool, touched := PoolSize(used, perChunk, chunkCount, cibCount), DivCeil(used, perChunk);
    CeilMono(used + pool, used + perChunk, perChunk);
    CeilShift(used, perChunk);
  }

  /** The reserve suffices exactly when the reserved bitmaps have a bit for every block up to the pool's end. */
  lemma ReserveExact(used: nat, perChunk: nat, chunkCount: nat, cibCount: nat)
    requires perChunk > 0
    ensures var pool, reserve := PoolSize(used, perChunk, chunkCount, cibCount), Reserve(used, perChunk);
            DivCeil(used + pool, perChunk) <= reserve <==> used + pool <= reserve * perChunk
  {
    hide DivCeil;
    CeilAbove(used + PoolSize(used, perChunk, chunkCount, cibCount), perChunk, Reserve(used, perChunk));
  }

  lemma CeilShift(a: nat, b: nat)
    requires b > 0
    ensures DivCeil(a + b, b) == DivCeil(a, b) + 1
  {
    hide DivCeil;
    var r := DivCeil(a, b);
    assert (r + 1) * b == r * b + b;
    CeilAbove(a + b, b, r + 1);
    CeilAbove(a + b, b, r);
    CeilAbove(a, b, r);
    if r > 0 {
      CeilAbove(a, b, r - 1);
      assert r * b == (r - 1) * b + b;
    }
  }

  /** With larger containers the reserve can fall short: a container whose first chunk is exactly full. */
  lemma ReserveFallsShort(perChunk: nat, chunkCount: nat, cibCount: nat)
    requires perChunk > 0 && 0 < cibCount <= chunkCount && 3 * chunkCount + 3 > perChunk
    ensures var pool := PoolSize(perChunk, perChunk, chunkCount, cibCount);
            DivCeil(perChunk + pool, perChunk) > Reserve(perChunk, perChunk)
  {
    hide DivCeil;
    var pool := PoolSize(perChunk, perChunk, chunkCount, cibCount);
    assert 1 * perChunk == perChunk && 0 * perChunk == 0 && 2 * perChunk == perChunk + perChunk;
    CeilAbove(perChunk, perChunk, 1);
    CeilAbove(perChunk, perChunk, 0);
    CeilAbove(perChunk + pool, perChunk, 2);
  }

  /** A plan sized that way never runs out of reserved bitmaps, and all metadata lies inside the pool. */
  lemma SizedPlanBuilds(plan: Plan)
    requires PlanOk(plan) && 3 * ChunkCount(plan) + 3 <= PerChunk(plan)
    requires plan.reserve == Reserve(plan.ipBase, PerChunk(plan))
    requires plan.ipCount == PoolSize(plan.ipBase, PerChunk(plan), ChunkCount(plan), CibCount(plan))
    ensures DivCeil(plan.used, PerChunk(plan)) <= plan.reserve
    ensures plan.ipBase + CibCount(plan) + DivCeil(plan.used, PerChunk(plan)) <= plan.ipBase + plan.ipCount
  {
    hide DivCeil;
    var n := ChunkCount(plan);
    CeilMono(plan.ipBase, plan.blocks, PerChunk(plan));
    CeilAbove(plan.blocks, PerChunk(plan), 0);
    FewerCibs(n, plan.chunksPerCib);
    ReserveSuffices(plan.ipBase, PerChunk(plan), n, CibCount(plan));
  }

  lemma FewerCibs(n: nat, per: nat)
    requires per > 0
    ensures DivCeil(n, per) <= n
  {
    hide DivCeil;
    CeilAbove(n, per, n);
    StepUp(n, per);
  }

  lemma StepUp(n: nat, per: nat)
    requires per > 0
    ensures n * per >= n
  {
  }
}

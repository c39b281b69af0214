/**
 * The copy-on-write transaction of a file replacement, up to publication (src/apfs_replace.rs,
 * the body of `replace_file_in_container`): data blocks and trees go to newly allocated blocks,
 * then the allocator commits its own metadata.
 */
module ReplaceTransaction {
  import opened Bytes
  import opened TreeNode
  import opened BTree
  import opened TreeWriter
  import opened SpaceManager
  import opened BlockSupply
  import opened TreePublish
  import opened BlockAllocator
  import opened AllocatorLoad
  import IpRing

  // ---- the transaction ------------------------------------------------------------------------------

  /** What the transaction writes, in order: data or header blocks, and whole trees. */
  datatype Step = Data(bytes: seq<byte>) | Plant(records: seq<Record>, layout: Layout, virtualRoot: Option<nat>,
                                                 firstOid: nat)

  predicate StepOk(step: Step, bs: nat) {
    match step
    case Data(bytes) => |bytes| <= bs
    case Plant(records, layout, virtualRoot, firstOid) =>
      Writable(bs, layout) && NoBlanks(records) && firstOid < U64 &&
          (virtualRoot.Some? ==> virtualRoot.value < firstOid)
  }

  /** The most blocks a step can take. */
  function Cost(step: Step): nat {
    match step
    case Data(_) => 1
    case Plant(records, _, _, _) => NodesNeeded(records)
  }

  function TotalCost(steps: seq<Step>): nat {
    if steps == [] then 0 else Cost(steps[0]) + TotalCost(steps[1..])
  }

  /** A tree whose records and object ids fit; data always does. */
  predicate Fits(step: Step, bs: nat) {
    step.Plant? ==>
      bs >= TOC_BASE &&
          Roomy(step.records, step.layout, bs, NodesNeeded(step.records), step.virtualRoot.Some?, step.firstOid)
  }

  /** What a step left behind. */
  datatype Outcome = Wrote(paddr: nat) | Planted(t: Tree, level: nat)

  function Padded(bytes: seq<byte>, bs: nat): (r: seq<byte>)
    requires |bytes| <= bs
    ensures |r| == bs && bytes <= r
  {
    bytes + Zeros(bs - |bytes|)
  }

  /** The block holds its data, or the tree is there with its records, within `cells`. */
  ghost predicate Done(step: Step, bs: nat, disk: Blocks, cells: set<nat>, outcome: Outcome) {
    match step
    case Data(bytes) =>
      |bytes| <= bs && outcome.Wrote? && outcome.paddr in cells && outcome.paddr in disk &&
          disk[outcome.paddr] == Padded(bytes, bs)
    case Plant(records, layout, _, _) =>
      outcome.Planted? && TreeHeld(disk, bs, layout, cells, outcome.t, outcome.level) && Records(outcome.t) == records
  }

  lemma DoneStays(step: Step, bs: nat, d1: Blocks, d2: Blocks, c1: set<nat>, c2: set<nat>, changed: set<nat>,
                  outcome: Outcome)
    requires Done(step, bs, d1, c1, outcome) && Only(d1, d2, changed) && changed !! c1 && c1 <= c2
    ensures Done(step, bs, d2, c2, outcome)
  {
    hide TreeHeld, Records;
    if step.Plant? {
      HeldStays(d1, d2, bs, step.layout, c1, c2, outcome.t, outcome.level);
    }
  }

  /** Draws n single blocks; they are the first n of the supply. */
  method DrawBlocks(al: Allocator, n: nat) returns (log: seq<nat>)
    requires al.Valid() && n <= |Supply(al.chunks)|
    modifies al`chunks, al`smFree, al`taken
    ensures al.Valid() && SameShape(al.chunks, old(al.chunks)) && al.taken == old(al.taken) + n
    ensures log == Supply(old(al.chunks))[..n] && Supply(al.chunks) == Supply(old(al.chunks))[n..]
    ensures Used(al.chunks) == Used(old(al.chunks)) + SetOf(log)
  {
    hide ChunkOk, Used, SameShape, TotalFree, Supply, HasRun, Took, BackedTo, PoolOk, AllAnchored, IpRing.Partition;
    ShapeSame(al.chunks);
    log := [];
    for i := 0 to n
      invariant al.Valid() && SameShape(al.chunks, old(al.chunks)) && al.taken == old(al.taken) + i
      invariant log == Supply(old(al.chunks))[..i] && Supply(al.chunks) == Supply(old(al.chunks))[i..]
      invariant Used(al.chunks) == Used(old(al.chunks)) + SetOf(log)
    {
      ghost var before := al.chunks;
      SupplyEmpty(before);
      var r := al.Allocate();
      ghost var c, s: nat :| 0 <= c < |before| && Took(before, al.chunks, c, s, 1) && r.value == before[c].addr + s;
      SupplyDraw(before, al.chunks, c, s);
      ShapeTrans(al.chunks, before, old(al.chunks));
      assert Supply(old(al.chunks))[..i + 1] == Supply(old(al.chunks))[..i] + [r.value];
      log := log + [r.value];
    }
  }

  /** The main-device blocks of a step: free before, in use after, each once, and the only ones changed. */
  ghost predicate StepLog(u1: set<nat>, u2: set<nat>, d1: Blocks, d2: Blocks, log: seq<nat>) {
    SetOf(log) !! u1 && u2 == u1 + SetOf(log) && IpRing.Distinct(log) && Only(d1, d2, SetOf(log))
  }

  /** One step: a data block or a tree. */
  method Perform(al: Allocator, disk: Blocks, bs: nat, step: Step)
      returns (r: Result<Blocks>, log: seq<nat>, ghost outcome: Outcome)
    requires al.Valid() && Bounded(al.chunks) && WholeBlocks(disk, bs) && StepOk(step, bs)
    modifies al`chunks, al`smFree, al`taken
    ensures r.Ok? ==> al.Valid() && Bounded(al.chunks) && WholeBlocks(r.value, bs) && al.taken == old(al.taken) + |log|
    ensures r.Ok? ==> StepLog(Used(old(al.chunks)), Used(al.chunks), disk, r.value, log)
    ensures r.Ok? ==> Done(step, bs, r.value, SetOf(log), outcome)
    ensures r.Ok? ==> SameShape(al.chunks, old(al.chunks)) && al.smFree + |log| == old(al.smFree)
    ensures Fits(step, bs) && Cost(step) <= old(al.smFree) ==> r.Ok? && |log| <= Cost(step)
  {
    hide Fits, Roomy, NodesNeeded;
    hide Used, ChunkOk, TotalFree, Bounded, WholeBlocks, Supply, SameShape, Fresh, NoBlanks, Writable, TreeWritten,
         TreeHeld, Records, Charted, BackedTo, PoolOk, AllAnchored, IpRing.Partition, StepLog, Done, HasRun, Took;
    ghost var chunks0 := al.chunks;
    log, outcome := [], Wrote(0);
    SupplyIs(al.disk, al.cibs, al.chunks, al.addrs);
    match step {
      case Data(bytes) =>
        SupplyEmpty(chunks0);
        var p := al.Allocate();
        if p.Err? {
          r := Err(p.error);
          return;
        }
        log, outcome := [p.value], Wrote(p.value);
        StillBounded(al.chunks, chunks0);
        DataWritten(step, bs, disk, Used(chunks0), Used(al.chunks), p.value);
        r := Ok(disk[p.value := Padded(bytes, bs)]);
      case Plant(records, layout, virtualRoot, firstOid) =>
        SupplyClear(chunks0);
        var store := new TreeStore(bs, disk, Supply(al.chunks));
        if Fits(step, bs) {
          FitsRoomy(step, bs, |Supply(al.chunks)|);
        }
        var made, next, t, level := WriteTree(store, records, layout, 0, virtualRoot, firstOid);
        if made.Err? {
          r := Err(made.error);
          return;
        }
        ghost var rootOid := if virtualRoot.Some? then virtualRoot.value else made.value.0;
        TreeAdded(disk, store.blocks, bs, chunks0, store.supply, layout, records, rootOid, virtualRoot, firstOid,
                  next, made.value.1, t, level);
        log := DrawBlocks(al, |made.value.1|);
        SupplyIs(al.disk, al.cibs, al.chunks, al.addrs);
        StillBounded(al.chunks, chunks0);
        outcome := Planted(t, level);
        TreePlanted(step, bs, disk, store.blocks, Supply(chunks0), Used(chunks0), Used(al.chunks), log, t, level);
        r := Ok(store.blocks);
    }
  }

  lemma SupplyIs(disk: map<nat, Meta>, cibs: seq<nat>, chunks: seq<Chunk>, addrs: seq<nat>)
    requires ChunksOk(chunks) && BackedTo(disk, cibs, chunks, addrs, 0, 0)
    ensures |Supply(chunks)| == TotalFree(chunks)
  {
    hide ChunkOk, BitmapBacked, CibBacked, Clean;
    SupplySize(chunks);
  }

  lemma FitsRoomy(step: Step, bs: nat, supply: nat)
    requires step.Plant? && Fits(step, bs)
    ensures Cost(step) <= supply ==>
              bs >= TOC_BASE && Roomy(step.records, step.layout, bs, supply, step.virtualRoot.Some?, step.firstOid)
  {
    hide SizesOk, NodeBytes, PairFits, MaxKey;
  }

  lemma DataWritten(step: Step, bs: nat, disk: Blocks, u1: set<nat>, u2: set<nat>, p: nat)
    requires step.Data? && |step.bytes| <= bs && WholeBlocks(disk, bs) && p !in u1 && u2 == u1 + {p}
    ensures var d2 := disk[p := Padded(step.bytes, bs)];
            WholeBlocks(d2, bs) && StepLog(u1, u2, disk, d2, [p]) && Done(step, bs, d2, SetOf([p]), Wrote(p))
  {
  }

  lemma TreePlanted(step: Step, bs: nat, d1: Blocks, d2: Blocks, supply: seq<nat>, u1: set<nat>, u2: set<nat>,
                    log: seq<nat>, t: Tree, level: nat)
    requires step.Plant? && |log| <= |supply| && log == supply[..|log|] && Fresh(supply) && u2 == u1 + SetOf(log)
    requires var drawn := set p | p in log;
             drawn !! u1 && Only(d1, d2, drawn) && TreeHeld(d2, bs, step.layout, drawn, t, level)
    requires Records(t) == step.records
    ensures StepLog(u1, u2, d1, d2, log) && Done(step, bs, d2, SetOf(log), Planted(t, level))
  {
    hide TreeHeld, Records, Only;
    forall i, j | 0 <= i < j < |log| ensures log[i] != log[j] {
      assert log[i] == supply[i] && log[j] == supply[j];
    }
  }

  /** Where a transaction may write: free main blocks, free pool blocks, and the next ring slot. */
  ghost predicate MayWrite(used: set<nat>, pool: Pool, poolBits: seq<bool>, slot: nat, w: nat) {
    w !in used || PoolClear(pool, poolBits, w) || w == pool.ringBase + slot
  }

  /** Pool and ring are set aside: the main bitmap marks them as in use. */
  ghost predicate SetAside(used: set<nat>, pool: Pool, slots: nat) {
    forall p: nat :: pool.base <= p < pool.base + pool.count || pool.ringBase <= p < pool.ringBase + slots ==> p in used
  }

  /**
   * One device told by role: `meta` the blocks with allocator metadata, all in use, and `disk` the
   * others, with pool and ring kept clear of them. A data block written over metadata, or metadata
   * written over data, would break this.
   */
  ghost predicate Split(disk: Blocks, meta: map<nat, Meta>, used: set<nat>, pool: Pool, slots: nat) {
    && SetAside(used, pool, slots) && (forall p :: p in meta ==> p in used)
    && forall p :: p in disk ==>
         p !in meta && !(pool.base <= p < pool.base + pool.count) && !(pool.ringBase <= p < pool.ringBase + slots)
  }

  /** The steps done so far, and the main-device blocks they took. */
  ghost predicate Progress(used0: set<nat>, used: set<nat>, disk0: Blocks, disk: Blocks, bs: nat, steps: seq<Step>,
                           log: seq<nat>, outcomes: seq<Outcome>)
  {
    && StepLog(used0, used, disk0, disk, log) && |outcomes| == |steps|
    && forall i :: 0 <= i < |steps| ==> Done(steps[i], bs, disk, SetOf(log), outcomes[i])
  }

  lemma NoProgress(used: set<nat>, disk: Blocks, bs: nat)
    ensures Progress(used, used, disk, disk, bs, [], [], [])
  {
    assert SetOf([]) == {};
  }

  lemma MoreProgress(used0: set<nat>, used1: set<nat>, used2: set<nat>, disk0: Blocks, disk1: Blocks, disk2: Blocks,
                     bs: nat, steps: seq<Step>, log: seq<nat>, outcomes: seq<Outcome>, step: Step, more: seq<nat>,
                     outcome: Outcome)
    requires Progress(used0, used1, disk0, disk1, bs, steps, log, outcomes)
    requires StepLog(used1, used2, disk1, disk2, more) && Done(step, bs, disk2, SetOf(more), outcome)
    ensures Progress(used0, used2, disk0, disk2, bs, steps + [step], log + more, outcomes + [outcome])
  {
    hide Done;
    assert SetOf(log + more) == SetOf(log) + SetOf(more);
    JoinDistinct(log, more);
    forall i | 0 <= i <= |steps|
      ensures Done((steps + [step])[i], bs, disk2, SetOf(log + more), (outcomes + [outcome])[i])
    {
      if i < |steps| {
        DoneStays(steps[i], bs, disk1, disk2, SetOf(log), SetOf(log + more), SetOf(more), outcomes[i]);
      } else {
        SameDisk(disk2);
        DoneStays(step, bs, disk2, disk2, SetOf(more), SetOf(log + more), {}, outcome);
      }
    }
  }

  lemma SameDisk(disk: Blocks)
    ensures Only(disk, disk, {})
  {
  }

  lemma JoinDistinct(a: seq<nat>, b: seq<nat>)
    requires IpRing.Distinct(a) && IpRing.Distinct(b) && SetOf(a) !! SetOf(b)
    ensures IpRing.Distinct(a + b)
  {
    forall i, j | 0 <= i < j < |a + b| ensures (a + b)[i] != (a + b)[j] {
      if i < |a| <= j {
        assert a[i] in SetOf(a) && b[j - |a|] in SetOf(b);
      }
    }
  }

  /** The free blocks cover every step. */
  predicate Affordable(steps: seq<Step>, bs: nat, free: nat) {
    TotalCost(steps) <= free && forall i :: 0 <= i < |steps| ==> Fits(steps[i], bs)
  }

  /** The ring can turn and the pool has room for `n` metadata blocks. */
  predicate PoolReady(pool: Pool, bits: seq<bool>, slots: nat, n: nat) {
    slots >= 3 && n <= CountClear(bits[..Min(pool.count, |bits|)])
  }

  lemma PayStep(steps: seq<Step>, bs: nat, free: nat)
    requires steps != [] && Affordable(steps, bs, free)
    ensures Fits(steps[0], bs) && Cost(steps[0]) <= free && Affordable(steps[1..], bs, free - Cost(steps[0]))
  {
    hide Fits;
  }

  lemma Paid(steps: seq<Step>, bs: nat, free: nat, more: nat)
    requires Affordable(steps, bs, free) && free <= more
    ensures Affordable(steps, bs, more)
  {
    hide Fits;
  }

  lemma {:induction false} DirtyBound(chunks: seq<Chunk>, k: nat)
    requires k <= |chunks|
    ensures Dirty(chunks, k) <= k
  {
    if k > 0 {
      DirtyBound(chunks, k - 1);
    }
  }

  lemma {:induction false} DirtyCibsBound(chunks: seq<Chunk>, i: nat)
    ensures DirtyCibs(chunks, i) <= i
  {
    if i > 0 {
      DirtyCibsBound(chunks, i - 1);
    }
  }

  lemma CommitAffords(pool: Pool, bits: seq<bool>, slots: nat, chunks: seq<Chunk>, chunks0: seq<Chunk>, cibs: nat)
    requires SameShape(chunks, chunks0)
    ensures PoolReady(pool, bits, slots, |chunks0| + cibs) ==>
              slots >= 3 &&
                  Dirty(chunks, |chunks|) + DirtyCibs(chunks, cibs) <= CountClear(bits[..Min(pool.count, |bits|)])
  {
    DirtyBound(chunks, |chunks|);
    DirtyCibsBound(chunks, cibs);
  }

  /**
   * A whole transaction, any list of steps followed by the commit. Every block it writes was
   * clear in the loaded main bitmap, or clear in the loaded pool bitmap, or is the next slot of
   * the bitmap ring, which is not the live one; no block is written twice; nothing else on the
   * device changes; no data goes over metadata and no metadata over data; all data and trees are
   * in place at the end. With `referenced` the ring slots
   * that checkpoints still on disk use, the slot overwritten is none of them. It succeeds whenever
   * the free count covers the steps and the pool covers the metadata, and then the next load finds
   * the allocator as this transaction left it.
   */
  method Transact(al: Allocator, disk: Blocks, bs: nat, steps: seq<Step>, referenced: set<nat>)
    returns (r: Result<Blocks>, log: seq<nat>, retired: seq<nat>, ghost outcomes: seq<Outcome>)
    requires al.Valid() && Bounded(al.chunks) && WholeBlocks(disk, bs)
    requires Split(disk, al.disk, Used(al.chunks), al.pool, |al.ring.next|)
    requires forall i :: 0 <= i < |steps| ==> StepOk(steps[i], bs)
    modifies al, al.ring
    ensures r.Ok? ==> IpRing.Distinct(log)
    ensures r.Ok? ==>
              forall w :: w in log ==> MayWrite(Used(old(al.chunks)), al.pool, old(al.poolBits), old(al.ring.head), w)
    ensures r.Ok? ==> old(al.ring.head) != old(al.ring.live) && old(al.ring.head) !in referenced
    ensures r.Ok? ==> Only(disk, r.value, SetOf(log)) && Elsewhere(old(al.disk), al.disk, log)
    ensures r.Ok? ==> SamePinned(disk, r.value, Used(old(al.chunks))) && Used(old(al.chunks)) <= Used(al.chunks)
    ensures r.Ok? ==> Split(r.value, al.disk, Used(al.chunks), al.pool, |al.ring.next|)
    ensures r.Ok? ==>
              |outcomes| == |steps| && forall i :: 0 <= i < |steps| ==>
                Done(steps[i], bs, r.value, SetOf(log), outcomes[i])
    ensures r.Ok? ==>
              ChunksOk(al.chunks) && al.smFree == TotalFree(al.chunks) && Backed(al.disk, al.cibs, al.chunks, al.addrs)
    ensures r.Ok? ==> forall blocks, bits :: Laid(old(al.chunks), blocks, bits) ==>
                        Recorded(al.disk, al.cibs, blocks, al.smFree, bits, Cleaned(al.chunks), al.addrs)
    ensures (&& old(al.ring.head) !in referenced && Affordable(steps, bs, old(al.smFree))
             && PoolReady(al.pool, old(al.poolBits), |old(al.ring.next)|, |old(al.chunks)| + |old(al.cibs)|)) ==>
              r.Ok?
  {
    hide SameShape, Affordable, PoolReady, Laid, Recorded, Cost, Fits;
    hide Used, ChunksOk, TotalFree, Bounded, WholeBlocks, Split, Progress, StepLog, Done, BackedTo, Backed, PoolOk,
         AllAnchored, IpRing.Partition, IpRing.Distinct, MayWrite, Only, Elsewhere, CommitLog, StepOk, Dirty,
         DirtyCibs, CountClear, OldBitmaps, OldCibs, SamePinned;
    ghost var used0, bits0, meta0, slot, slots := Used(al.chunks), al.poolBits, al.disk, al.ring.head, |al.ring.next|;
    log, retired, outcomes := [], [], [];
    if al.ring.head in referenced {
      r := Err(Unsupported);
      return;
    }
    var current := disk;
    NoProgress(used0, disk, bs);
    ShapeSame(al.chunks);
    assert steps[0..] == steps;
    ghost var chunks0, cibs0 := al.chunks, al.cibs;
    ghost var affordable := Affordable(steps, bs, al.smFree);
    for i := 0 to |steps|
      invariant al.Valid() && Bounded(al.chunks) && WholeBlocks(current, bs)
      invariant al.poolBits == bits0 && al.disk == meta0 && al.ring.head == slot && |al.ring.next| == slots &&
                al.ring.live == old(al.ring.live)
      invariant Progress(used0, Used(al.chunks), disk, current, bs, steps[..i], log, outcomes)
      invariant SameShape(al.chunks, chunks0) && al.cibs == cibs0 &&
                (affordable ==> Affordable(steps[i..], bs, al.smFree))
    {
      if affordable {
        PayStep(steps[i..], bs, al.smFree);
        assert steps[i..][0] == steps[i] && steps[i..][1..] == steps[i + 1..];
      }
      ghost var chunks1, free1 := al.chunks, al.smFree;
      ghost var used1, disk1 := Used(al.chunks), current;
      var next, more, outcome := Perform(al, current, bs, steps[i]);
      if next.Err? {
        r := Err(next.error);
        return;
      }
      MoreProgress(used0, used1, Used(al.chunks), disk, disk1, next.value, bs, steps[..i], log, outcomes, steps[i],
                   more, outcome);
      assert steps[..i + 1] == steps[..i] + [steps[i]];
      ShapeTrans(al.chunks, chunks1, chunks0);
      if affordable {
        Paid(steps[i + 1..], bs, free1 - Cost(steps[i]), al.smFree);
      }
      current, log, outcomes := next.value, log + more, outcomes + [outcome];
    }
    assert steps[..|steps|] == steps;
    CommitAffords(al.pool, al.poolBits, |al.ring.next|, al.chunks, chunks0, |al.cibs|);
    var committed, olds, meta := al.Commit();
    if committed.Err? {
      r := Err(committed.error);
      return;
    }
    retired := olds;
    forall blocks, bits | Laid(chunks0, blocks, bits)
      ensures Recorded(al.disk, al.cibs, blocks, al.smFree, bits, Cleaned(al.chunks), al.addrs)
    {
      LaidKept(al.chunks, chunks0, blocks, bits);
      BackedRecords(al.disk, al.cibs, al.chunks, al.addrs, blocks, bits);
    }
    Finished(used0, Used(al.chunks), disk, current, bs, steps, log, outcomes, al.pool, bits0, slot, slots, meta0,
             al.disk, meta);
    log := log + meta;
    r := Ok(current);
  }

  lemma Finished(used0: set<nat>, used: set<nat>, disk0: Blocks, disk: Blocks, bs: nat, steps: seq<Step>,
                 log: seq<nat>, outcomes: seq<Outcome>, pool: Pool, bits0: seq<bool>, slot: nat, slots: nat,
                 meta0: map<nat, Meta>, meta: map<nat, Meta>, written: seq<nat>)
    requires Progress(used0, used, disk0, disk, bs, steps, log, outcomes) && Split(disk0, meta0, used0, pool, slots)
    requires CommitLog(pool, bits0, slot, slots, meta0, meta, written)
    ensures IpRing.Distinct(log + written)
    ensures forall w :: w in log + written ==> MayWrite(used0, pool, bits0, slot, w)
    ensures Only(disk0, disk, SetOf(log + written)) && Elsewhere(meta0, meta, log + written)
    ensures Split(disk, meta, used, pool, slots) && SamePinned(disk0, disk, used0) && used0 <= used
    ensures |outcomes| == |steps| && forall i :: 0 <= i < |steps| ==>
              Done(steps[i], bs, disk, SetOf(log + written), outcomes[i])
  {
    hide Done;
    forall w | w in written ensures w in used0 && MayWrite(used0, pool, bits0, slot, w) {
      var i :| 0 <= i < |written| && written[i] == w;
    }
    forall w | w in log ensures MayWrite(used0, pool, bits0, slot, w) {
      assert w in SetOf(log);
    }
    assert SetOf(log + written) == SetOf(log) + SetOf(written);
    JoinDistinct(log, written);
    StillSplit(used0, used, disk0, disk, log, pool, bits0, slot, slots, meta0, meta, written);
    SameDisk(disk);
    forall i | 0 <= i < |steps| ensures Done(steps[i], bs, disk, SetOf(log + written), outcomes[i]) {
      DoneStays(steps[i], bs, disk, disk, SetOf(log), SetOf(log + written), {}, outcomes[i]);
    }
  }

  /** The steps write outside the metadata, the commit inside pool and ring. */
  lemma StillSplit(used0: set<nat>, used: set<nat>, disk0: Blocks, disk: Blocks, log: seq<nat>, pool: Pool,
                   bits0: seq<bool>, slot: nat, slots: nat, meta0: map<nat, Meta>, meta: map<nat, Meta>,
                   written: seq<nat>)
    requires StepLog(used0, used, disk0, disk, log) && Split(disk0, meta0, used0, pool, slots)
    requires CommitLog(pool, bits0, slot, slots, meta0, meta, written)
    ensures Split(disk, meta, used, pool, slots)
  {
    forall p | p in written
      ensures pool.base <= p < pool.base + pool.count || pool.ringBase <= p < pool.ringBase + slots
    {
      var i :| 0 <= i < |written| && written[i] == p;
    }
    forall p | p in disk
      ensures p !in meta && !(pool.base <= p < pool.base + pool.count) && !(pool.ringBase <= p < pool.ringBase + slots)
    {
      assert p in SetOf(log) || p in disk0;
    }
  }
}

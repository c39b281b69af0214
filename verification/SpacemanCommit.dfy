/**
 * The update's space manager on disk (src/apfs_update.rs `SpacemanContext::parse` and `commit`).
 * Only bitmaps and chunk-info blocks marked as changed are written, in place; after any mix of
 * allocations and releases that is enough for the next parse to find the state in memory.
 */
module SpacemanCommit {
  import opened Bytes
  import opened SpaceManager
  import opened SpaceBudget
  import opened BlockAllocator
  import opened AllocatorLoad

  /** A chunk without a bitmap block is all free and carries no bits. */
  ghost predicate BitsBacked(disk: map<nat, Meta>, c: Chunk, addr: nat) {
    if addr == 0 then c.bitmap.None? else c.bitmap.Some? && addr in disk && disk[addr] == BitmapBlock(c.bitmap.value)
  }

  /** The metadata on disk describes these chunks. */
  ghost predicate Described(disk: map<nat, Meta>, cibs: seq<nat>, chunks: seq<Chunk>, addrs: seq<nat>) {
    && |chunks| == |addrs| && Ordered(chunks)
    && (forall k :: 0 <= k < |chunks| ==> chunks[k].cib < |cibs| && BitsBacked(disk, chunks[k], addrs[k]))
    && (forall i :: 0 <= i < |cibs| ==> CibBacked(disk, cibs[i], chunks, addrs, i))
  }

  predicate Untouched(chunks: seq<Chunk>) {
    forall k :: 0 <= k < |chunks| ==> !chunks[k].dirty
  }

  // ---- parsing ----------------------------------------------------------------------------------------

  ghost predicate Parsing(disk: map<nat, Meta>, cibs: seq<nat>, chunks: seq<Chunk>, addrs: seq<nat>, index: nat,
                          infos: seq<Info>)
  {
    && |chunks| == |addrs| && Ordered(chunks) && Untouched(chunks)
    && (forall k :: 0 <= k < |chunks| ==>
          chunks[k].cib <= index && chunks[k].cib < |cibs| && BitsBacked(disk, chunks[k], addrs[k]))
    && (forall i :: 0 <= i < index && i < |cibs| ==> CibBacked(disk, cibs[i], chunks, addrs, i))
    && InfosOf(chunks, addrs, index) == infos
  }

  lemma ParseStarts(disk: map<nat, Meta>, cibs: seq<nat>)
    ensures Parsing(disk, cibs, [], [], 0, [])
  {
  }

  lemma ParseChunk(disk: map<nat, Meta>, cibs: seq<nat>, chunks: seq<Chunk>, addrs: seq<nat>, index: nat,
                   infos: seq<Info>, c: Chunk, a: nat)
    requires Parsing(disk, cibs, chunks, addrs, index, infos) && index < |cibs|
    requires c.cib == index && !c.dirty && BitsBacked(disk, c, a)
    ensures Parsing(disk, cibs, chunks + [c], addrs + [a], index, infos + [InfoOf(c, a)])
  {
    hide BitsBacked, InfosOf, CibBacked;
    InfosPush(chunks, addrs, c, a, index);
    forall i | 0 <= i < index && i < |cibs| ensures CibBacked(disk, cibs[i], chunks + [c], addrs + [a], i) {
      EarlierCib(disk, cibs[i], chunks, addrs, c, a, i);
    }
  }

  lemma ParseCibDone(disk: map<nat, Meta>, cibs: seq<nat>, chunks: seq<Chunk>, addrs: seq<nat>, index: nat,
                     infos: seq<Info>)
    requires Parsing(disk, cibs, chunks, addrs, index, infos) && index < |cibs|
    requires cibs[index] in disk && disk[cibs[index]] == CibBlock(infos)
    ensures Parsing(disk, cibs, chunks, addrs, index + 1, [])
  {
    hide BitsBacked, InfosOf;
    InfosNone(chunks, addrs, index + 1);
  }

  lemma Parsed(disk: map<nat, Meta>, cibs: seq<nat>, chunks: seq<Chunk>, addrs: seq<nat>)
    requires Parsing(disk, cibs, chunks, addrs, |cibs|, [])
    ensures Described(disk, cibs, chunks, addrs) && Untouched(chunks)
  {
    hide BitsBacked, CibBacked;
  }

  /** What the parse must return. */
  ghost predicate Wanted(disk: map<nat, Meta>, cibs: seq<nat>, count: nat, want: (seq<Chunk>, seq<nat>)) {
    Described(disk, cibs, want.0, want.1) && Untouched(want.0) && |want.0| == count
  }

  predicate Readable(disk: map<nat, Meta>, addr: nat) {
    addr == 0 || (addr in disk && disk[addr].BitmapBlock?)
  }

  function BitsAt(disk: map<nat, Meta>, addr: nat): Option<seq<bool>>
    requires Readable(disk, addr)
  {
    if addr == 0 then None else Some(disk[addr].bits)
  }

  lemma WantedStarts(disk: map<nat, Meta>, cibs: seq<nat>, count: nat, want: (seq<Chunk>, seq<nat>))
    requires Wanted(disk, cibs, count, want)
    ensures Matching([], [], want, Below(want.0, 0))
  {
    hide BitsBacked, CibBacked;
    NoneBelow(want.0);
  }

  lemma WantedCib(disk: map<nat, Meta>, cibs: seq<nat>, count: nat, want: (seq<Chunk>, seq<nat>), index: nat)
    requires Wanted(disk, cibs, count, want) && index < |cibs|
    ensures cibs[index] in disk && disk[cibs[index]].CibBlock?
    ensures Below(want.0, index) + |disk[cibs[index]].infos| == Below(want.0, index + 1)
  {
    hide BitsBacked, InfosOf;
    assert CibBacked(disk, cibs[index], want.0, want.1, index);
    InfosAt(want.0, want.1, index);
  }

  lemma WantedChunk(disk: map<nat, Meta>, cibs: seq<nat>, count: nat, want: (seq<Chunk>, seq<nat>), index: nat,
                    slot: nat, chunks: seq<Chunk>, addrs: seq<nat>)
    requires Wanted(disk, cibs, count, want) && index < |cibs|
    requires cibs[index] in disk && disk[cibs[index]].CibBlock? && slot < |disk[cibs[index]].infos|
    requires Matching(chunks, addrs, want, Below(want.0, index) + slot)
    ensures var info := disk[cibs[index]].infos[slot];
            && Readable(disk, info.bitmap)
            && Matching(chunks + [Chunk(info.start, info.count, info.free, BitsAt(disk, info.bitmap), index, false)],
                        addrs + [info.bitmap],
                        want, Below(want.0, index) + slot + 1)
  {
    hide InfosOf, Below;
    assert CibBacked(disk, cibs[index], want.0, want.1, index);
    InfosAt(want.0, want.1, index);
    var k := Below(want.0, index) + slot;
    assert BitsBacked(disk, want.0[k], want.1[k]);
    assert want.0[..k + 1] == want.0[..k] + [want.0[k]] && want.1[..k + 1] == want.1[..k] + [want.1[k]];
  }

  lemma WantedEnds(disk: map<nat, Meta>, cibs: seq<nat>, count: nat, want: (seq<Chunk>, seq<nat>), chunks: seq<Chunk>,
                   addrs: seq<nat>)
    requires Wanted(disk, cibs, count, want) && Matching(chunks, addrs, want, Below(want.0, |cibs|))
    ensures (chunks, addrs) == want && |chunks| == count
  {
    hide BitsBacked, CibBacked, Below;
    AllBelow(want.0, |cibs|);
    assert want.0[..|want.0|] == want.0 && want.1[..|want.1|] == want.1;
  }

  lemma BitsReadable(disk: map<nat, Meta>, info: Info, index: nat)
    requires Readable(disk, info.bitmap)
    ensures BitsBacked(disk, Chunk(info.start, info.count, info.free, BitsAt(disk, info.bitmap), index, false),
                       info.bitmap)
  {
  }

  /** Reads what the chunk-info blocks describe, and nothing else: free counts are taken as recorded. */
  method Parse(disk: map<nat, Meta>, cibs: seq<nat>, count: nat, ghost want: (seq<Chunk>, seq<nat>))
      returns (r: Result<(seq<Chunk>, seq<nat>)>)
    ensures r.Ok? ==> Wanted(disk, cibs, count, r.value)
    ensures Wanted(disk, cibs, count, want) ==> r == Ok(want)
  {
    hide Parsing, Described, Wanted, Matching, Below, BitsAt;
    ghost var known := Wanted(disk, cibs, count, want);
    var chunks, addrs := [], [];
    ParseStarts(disk, cibs);
    if known {
      WantedStarts(disk, cibs, count, want);
    }
    for index := 0 to |cibs|
      invariant Parsing(disk, cibs, chunks, addrs, index, [])
      invariant known ==> Matching(chunks, addrs, want, Below(want.0, index))
    {
      if known {
        WantedCib(disk, cibs, count, want, index);
      }
      if cibs[index] !in disk || !disk[cibs[index]].CibBlock? {
        return Err(BadChecksum);
      }
      var infos := disk[cibs[index]].infos;
      for slot := 0 to |infos|
        invariant Parsing(disk, cibs, chunks, addrs, index, infos[..slot])
        invariant known ==> Matching(chunks, addrs, want, Below(want.0, index) + slot)
      {
        var info := infos[slot];
        if known {
          WantedChunk(disk, cibs, count, want, index, slot, chunks, addrs);
        }
        if !Readable(disk, info.bitmap) {
          return Err(OutsideContainer);
        }
        var c := Chunk(info.start, info.count, info.free, BitsAt(disk, info.bitmap), index, false);
        BitsReadable(disk, info, index);
        ParseChunk(disk, cibs, chunks, addrs, index, infos[..slot], c, info.bitmap);
        assert infos[..slot + 1] == infos[..slot] + [InfoOf(c, info.bitmap)];
        chunks, addrs := chunks + [c], addrs + [info.bitmap];
      }
      assert infos[..|infos|] == infos;
      ParseCibDone(disk, cibs, chunks, addrs, index, infos);
    }
    if known {
      WantedEnds(disk, cibs, count, want, chunks, addrs);
    }
    if |chunks| != count {
      return Err(Malformed);
    }
    Parsed(disk, cibs, chunks, addrs);
    WantedIs(disk, cibs, count, chunks, addrs);
    r := Ok((chunks, addrs));
  }

  lemma WantedIs(disk: map<nat, Meta>, cibs: seq<nat>, count: nat, chunks: seq<Chunk>, addrs: seq<nat>)
    requires Described(disk, cibs, chunks, addrs) && Untouched(chunks) && |chunks| == count
    ensures Wanted(disk, cibs, count, (chunks, addrs))
  {
    hide Described, Untouched;
  }

  // ---- committing -------------------------------------------------------------------------------------

  /** Bitmaps and chunk-info blocks each have a block of their own. */
  predicate Separate(cibs: seq<nat>, addrs: seq<nat>) {
    && (forall i, j :: 0 <= i < j < |cibs| ==> cibs[i] != cibs[j])
    && (forall k, l :: 0 <= k < l < |addrs| && addrs[k] != 0 ==> addrs[k] != addrs[l])
    && (forall i, k :: 0 <= i < |cibs| && 0 <= k < |addrs| && addrs[k] != 0 ==> cibs[i] != addrs[k])
  }

  /** The chunks as the tables in memory show them once the first k have been brought up to date. */
  function Mixed(chunks0: seq<Chunk>, chunks: seq<Chunk>, k: nat): (r: seq<Chunk>)
    requires k <= |chunks| == |chunks0|
    ensures |r| == |chunks|
  {
    chunks[..k] + chunks0[k..]
  }

  /** The blocks a commit may write. */
  ghost predicate MayTouch(cibs: seq<nat>, chunks: seq<Chunk>, addrs: seq<nat>, dirty: set<nat>, p: nat) {
    || (exists k :: 0 <= k < |chunks| && k < |addrs| && chunks[k].dirty && addrs[k] != 0 && addrs[k] == p)
    || (exists i :: 0 <= i < |cibs| && i in dirty && cibs[i] == p)
  }

  ghost predicate OnlyTouched(d1: map<nat, Meta>, d2: map<nat, Meta>, cibs: seq<nat>, chunks: seq<Chunk>,
                              addrs: seq<nat>, dirty: set<nat>)
  {
    forall p :: !MayTouch(cibs, chunks, addrs, dirty, p) ==> (p in d1 <==> p in d2) && (p in d1 ==> d2[p] == d1[p])
  }

  /** Halfway through: k chunks have their bitmaps written and their counts in the tables. */
  ghost predicate Writing(disk: map<nat, Meta>, cibs: seq<nat>, chunks0: seq<Chunk>, chunks: seq<Chunk>,
                          addrs: seq<nat>, tables: seq<seq<Info>>, k: nat)
  {
    && k <= |chunks| == |chunks0| == |addrs| && |tables| == |cibs|
    && (forall j :: 0 <= j < |chunks| ==> BitsBacked(disk, Mixed(chunks0, chunks, k)[j], addrs[j]))
    && (forall i :: 0 <= i < |cibs| ==> tables[i] == InfosOf(Mixed(chunks0, chunks, k), addrs, i))
    && (forall i :: 0 <= i < |cibs| ==> CibBacked(disk, cibs[i], chunks0, addrs, i))
  }

  lemma {:induction false} BelowSame(a: seq<Chunk>, b: seq<Chunk>, index: nat)
    requires |a| == |b| && forall k :: 0 <= k < |a| ==> a[k].cib == b[k].cib
    ensures Below(a, index) == Below(b, index)
  {
    if a != [] {
      BelowSame(a[..|a| - 1], b[..|b| - 1], index);
    }
  }

  /** Changing one chunk changes one record of its CIB. */
  lemma InfosUpdate(chunks: seq<Chunk>, addrs: seq<nat>, k: nat, c: Chunk)
    requires |chunks| == |addrs| && k < |chunks| && Ordered(chunks) && c.cib == chunks[k].cib
    ensures var lo := Below(chunks, c.cib);
            var infos := InfosOf(chunks, addrs, c.cib);
            && lo <= k < lo + |infos| && infos[k - lo] == InfoOf(chunks[k], addrs[k])
            && InfosOf(chunks[k := c], addrs, c.cib) == infos[k - lo := InfoOf(c, addrs[k])]
  {
    hide InfosOf, Below;
    var i := c.cib;
    InfosAt(chunks, addrs, i);
    InfosAt(chunks[k := c], addrs, i);
    BelowSame(chunks, chunks[k := c], i);
    BelowSame(chunks, chunks[k := c], i + 1);
    BelowSplits(chunks, i);
    BelowSplits(chunks, i + 1);
    var lo, hi := Below(chunks, i), Below(chunks, i + 1);
    var before, after := InfosOf(chunks, addrs, i), InfosOf(chunks[k := c], addrs, i);
    forall j | 0 <= j < hi - lo ensures after[j] == before[k - lo := InfoOf(c, addrs[k])][j] {
      assert before[lo + j - lo] == InfoOf(chunks[lo + j], addrs[lo + j]) &&
             after[lo + j - lo] == InfoOf(chunks[k := c][lo + j], addrs[lo + j]);
    }
  }

  lemma {:induction false} InfosSame(a: seq<Chunk>, b: seq<Chunk>, addrs: seq<nat>, index: nat)
    requires |a| == |b| == |addrs| && forall k :: 0 <= k < |a| ==>
               a[k].cib == b[k].cib && (a[k].cib == index ==> a[k] == b[k])
    ensures InfosOf(a, addrs, index) == InfosOf(b, addrs, index)
  {
    if a != [] {
      InfosSame(a[..|a| - 1], b[..|b| - 1], addrs[..|a| - 1], index);
    }
  }

  lemma WriteStarts(disk: map<nat, Meta>, cibs: seq<nat>, chunks0: seq<Chunk>, chunks: seq<Chunk>, addrs: seq<nat>,
                    tables: seq<seq<Info>>)
    requires Described(disk, cibs, chunks0, addrs) && |chunks| == |chunks0| && |tables| == |cibs|
    requires forall i :: 0 <= i < |cibs| ==> tables[i] == InfosOf(chunks0, addrs, i)
    ensures Writing(disk, cibs, chunks0, chunks, addrs, tables, 0)
  {
    hide BitsBacked, CibBacked, InfosOf;
    assert Mixed(chunks0, chunks, 0) == chunks0;
  }

  lemma MixedStep(chunks0: seq<Chunk>, chunks: seq<Chunk>, k: nat)
    requires k < |chunks| == |chunks0|
    ensures Mixed(chunks0, chunks, k + 1) == Mixed(chunks0, chunks, k)[k := chunks[k]] &&
            Mixed(chunks0, chunks, k)[k] == chunks0[k]
  {
  }

  lemma MixedOrdered(chunks0: seq<Chunk>, chunks: seq<Chunk>, k: nat)
    requires k <= |chunks| && SameShape(chunks, chunks0) && Ordered(chunks0)
    ensures Ordered(Mixed(chunks0, chunks, k))
    ensures forall j :: 0 <= j < |chunks| ==> Mixed(chunks0, chunks, k)[j].cib == chunks0[j].cib
  {
  }

  lemma SkipChunk(disk: map<nat, Meta>, cibs: seq<nat>, chunks0: seq<Chunk>, chunks: seq<Chunk>, addrs: seq<nat>,
                  tables: seq<seq<Info>>, k: nat)
    requires Writing(disk, cibs, chunks0, chunks, addrs, tables, k) && k < |chunks| && chunks[k] == chunks0[k]
    ensures Writing(disk, cibs, chunks0, chunks, addrs, tables, k + 1)
  {
    hide BitsBacked, CibBacked, InfosOf;
    MixedStep(chunks0, chunks, k);
    assert Mixed(chunks0, chunks, k + 1) == Mixed(chunks0, chunks, k);
  }

  /** Where a chunk's record is in its CIB. */
  function SlotOf(chunks: seq<Chunk>, k: nat): int
    requires k < |chunks|
  {
    k - Below(chunks, chunks[k].cib)
  }

  lemma SlotThere(disk: map<nat, Meta>, cibs: seq<nat>, chunks0: seq<Chunk>, chunks: seq<Chunk>, addrs: seq<nat>,
                  tables: seq<seq<Info>>, k: nat)
    requires Writing(disk, cibs, chunks0, chunks, addrs, tables, k) && k < |chunks| && SameShape(chunks, chunks0) &&
             Ordered(chunks0)
    requires chunks0[k].cib < |cibs|
    ensures chunks[k].cib < |tables| && 0 <= SlotOf(chunks, k) < |tables[chunks[k].cib]|
    ensures tables[chunks[k].cib][SlotOf(chunks, k)] == InfoOf(chunks0[k], addrs[k])
    ensures var i := chunks[k].cib;
            tables[i][SlotOf(chunks, k) := InfoOf(chunks[k], addrs[k])] ==
                InfosOf(Mixed(chunks0, chunks, k + 1), addrs, i)
  {
    hide BitsBacked, CibBacked, InfosOf, Below;
    var mixed := Mixed(chunks0, chunks, k);
    MixedOrdered(chunks0, chunks, k);
    MixedStep(chunks0, chunks, k);
    InfosUpdate(mixed, addrs, k, chunks[k]);
    BelowSame(mixed, chunks, chunks[k].cib);
  }

  /** One changed chunk written: its bitmap to its block, its count to its record. */
  lemma WriteChunk(disk: map<nat, Meta>, cibs: seq<nat>, chunks0: seq<Chunk>, chunks: seq<Chunk>, addrs: seq<nat>,
                   tables: seq<seq<Info>>, k: nat, next: map<nat, Meta>)
    requires Writing(disk, cibs, chunks0, chunks, addrs, tables, k) && k < |chunks| && SameShape(chunks, chunks0) &&
             Ordered(chunks0)
    requires Separate(cibs, addrs) && chunks0[k].cib < |cibs|
    requires next == if chunks[k].bitmap.Some? then disk[addrs[k] := BitmapBlock(chunks[k].bitmap.value)] else disk
    ensures chunks[k].cib < |tables| && 0 <= SlotOf(chunks, k) < |tables[chunks[k].cib]|
    ensures var i, slot := chunks[k].cib, SlotOf(chunks, k);
            Writing(next, cibs, chunks0, chunks, addrs,
                    tables[i := tables[i][slot := tables[i][slot].(free := chunks[k].free)]], k + 1)
  {
    hide InfosOf, Below;
    SlotThere(disk, cibs, chunks0, chunks, addrs, tables, k);
    var i, slot := chunks[k].cib, SlotOf(chunks, k);
    var mixed, after := Mixed(chunks0, chunks, k), Mixed(chunks0, chunks, k + 1);
    MixedStep(chunks0, chunks, k);
    assert InfoOf(chunks0[k], addrs[k]).(free := chunks[k].free) == InfoOf(chunks[k], addrs[k]);
    forall j | 0 <= j < |cibs| && j != i ensures tables[j] == InfosOf(after, addrs, j) {
      InfosChunk(mixed, addrs, k, chunks[k], j);
    }
    assert BitsBacked(disk, mixed[k], addrs[k]);
    forall j | 0 <= j < |chunks| ensures BitsBacked(next, after[j], addrs[j]) {
      assert BitsBacked(disk, mixed[j], addrs[j]);
      assert j != k ==> after[j] == mixed[j];
    }
    forall j | 0 <= j < |cibs| ensures CibBacked(next, cibs[j], chunks0, addrs, j) {
      assert CibBacked(disk, cibs[j], chunks0, addrs, j);
    }
  }

  /** All bitmaps written; the first `m` changed CIBs too. */
  ghost predicate Sealing(disk: map<nat, Meta>, cibs: seq<nat>, chunks0: seq<Chunk>, chunks: seq<Chunk>,
                          addrs: seq<nat>, dirty: set<nat>, m: nat)
  {
    && |chunks| == |chunks0| == |addrs|
    && (forall j :: 0 <= j < |chunks| ==> BitsBacked(disk, chunks[j], addrs[j]))
    && (forall i :: 0 <= i < |cibs| ==>
          CibBacked(disk, cibs[i], if i < m && i in dirty then chunks else chunks0, addrs, i))
  }

  lemma SealStarts(disk: map<nat, Meta>, cibs: seq<nat>, chunks0: seq<Chunk>, chunks: seq<Chunk>, addrs: seq<nat>,
                   tables: seq<seq<Info>>, dirty: set<nat>)
    requires Writing(disk, cibs, chunks0, chunks, addrs, tables, |chunks|)
    ensures Sealing(disk, cibs, chunks0, chunks, addrs, dirty, 0)
    ensures |tables| == |cibs| && forall i :: 0 <= i < |cibs| ==> tables[i] == InfosOf(chunks, addrs, i)
  {
    hide BitsBacked, CibBacked, InfosOf;
    assert Mixed(chunks0, chunks, |chunks|) == chunks;
  }

  lemma SealCib(disk: map<nat, Meta>, cibs: seq<nat>, chunks0: seq<Chunk>, chunks: seq<Chunk>, addrs: seq<nat>,
                dirty: set<nat>, m: nat)
    requires Sealing(disk, cibs, chunks0, chunks, addrs, dirty, m) && m < |cibs| && Separate(cibs, addrs)
    ensures cibs[m] in disk
    ensures var next := if m in dirty then disk[cibs[m] := CibBlock(InfosOf(chunks, addrs, m))] else disk;
            Sealing(next, cibs, chunks0, chunks, addrs, dirty, m + 1)
  {
    hide InfosOf;
    assert CibBacked(disk, cibs[m], chunks0, addrs, m);
    var next := if m in dirty then disk[cibs[m] := CibBlock(InfosOf(chunks, addrs, m))] else disk;
    forall j | 0 <= j < |chunks| ensures BitsBacked(next, chunks[j], addrs[j]) {
      assert BitsBacked(disk, chunks[j], addrs[j]);
    }
    forall i | 0 <= i < |cibs|
      ensures CibBacked(next, cibs[i], if i < m + 1 && i in dirty then chunks else chunks0, addrs, i)
    {
      assert CibBacked(disk, cibs[i], if i < m && i in dirty then chunks else chunks0, addrs, i);
      assert i != m ==> cibs[i] != cibs[m];
    }
  }

  lemma Sealed(disk: map<nat, Meta>, cibs: seq<nat>, chunks0: seq<Chunk>, chunks: seq<Chunk>, addrs: seq<nat>,
               dirty: set<nat>)
    requires Sealing(disk, cibs, chunks0, chunks, addrs, dirty, |cibs|) && Ordered(chunks0)
    requires Tracked(chunks0, chunks, {}, dirty) && forall k :: 0 <= k < |chunks0| ==> chunks0[k].cib < |cibs|
    ensures Described(disk, cibs, chunks, addrs)
  {
    hide BitsBacked, InfosOf;
    forall i | 0 <= i < |cibs| ensures CibBacked(disk, cibs[i], chunks, addrs, i) {
      assert CibBacked(disk, cibs[i], if i < |cibs| && i in dirty then chunks else chunks0, addrs, i);
      if i !in dirty {
        InfosSame(chunks, chunks0, addrs, i);
      }
    }
  }

  lemma TouchedStep(d1: map<nat, Meta>, d2: map<nat, Meta>, cibs: seq<nat>, chunks: seq<Chunk>, addrs: seq<nat>,
                    dirty: set<nat>, p: nat, m: Meta)
    requires OnlyTouched(d1, d2, cibs, chunks, addrs, dirty) && MayTouch(cibs, chunks, addrs, dirty, p)
    ensures OnlyTouched(d1, d2[p := m], cibs, chunks, addrs, dirty)
  {
    hide MayTouch;
  }

  /**
   * Writes back what changed since the parse. Given the state the context was parsed from, the
   * commit fails exactly when the free count would go negative; afterwards the metadata describes
   * the chunks in memory and only blocks of changed chunks and CIBs have been written.
   */
  method Commit(disk: map<nat, Meta>, cibs: seq<nat>, tables0: seq<seq<Info>>, chunks: seq<Chunk>, addrs: seq<nat>,
                dirty: set<nat>, smFree: nat, freeDelta: int, ghost chunks0: seq<Chunk>)
      returns (r: Result<(map<nat, Meta>, nat)>)
    requires Described(disk, cibs, chunks0, addrs) && Untouched(chunks0) && Tracked(chunks0, chunks, {}, dirty) &&
             Separate(cibs, addrs)
    requires |tables0| == |cibs| && forall i :: 0 <= i < |cibs| ==> tables0[i] == InfosOf(chunks0, addrs, i)
    ensures r.Ok? <==> smFree + freeDelta >= 0
    ensures r.Ok? ==> r.value.1 == smFree + freeDelta && Described(r.value.0, cibs, chunks, addrs)
    ensures r.Ok? ==> OnlyTouched(disk, r.value.0, cibs, chunks, addrs, dirty)
  {
    hide Described, Writing, Sealing, Separate, Tracked, SlotOf, OnlyTouched, MayTouch, InfosOf, Ordered, SameShape;
    var current: map<nat, Meta>, tables := disk, tables0;
    CommitFacts(disk, cibs, chunks0, chunks, addrs, dirty);
    WriteStarts(disk, cibs, chunks0, chunks, addrs, tables);
    NothingTouched(disk, cibs, chunks, addrs, dirty);
    for k := 0 to |chunks|
      invariant Writing(current, cibs, chunks0, chunks, addrs, tables, k)
      invariant OnlyTouched(disk, current, cibs, chunks, addrs, dirty)
    {
      if !chunks[k].dirty {
        CleanSame(chunks0, chunks, dirty, k);
        SkipChunk(current, cibs, chunks0, chunks, addrs, tables, k);
        continue;
      }
      ghost var before := current;
      if chunks[k].bitmap.Some? {
        BitmapThere(current, cibs, chunks0, chunks, addrs, tables, k, dirty);
        if addrs[k] !in current {
          return Err(OutsideContainer);
        }
        TouchedStep(disk, current, cibs, chunks, addrs, dirty, addrs[k], BitmapBlock(chunks[k].bitmap.value));
        current := current[addrs[k] := BitmapBlock(chunks[k].bitmap.value)];
      }
      WriteChunk(before, cibs, chunks0, chunks, addrs, tables, k, current);
      var i, slot := chunks[k].cib, SlotOf(chunks, k);
      tables := tables[i := tables[i][slot := tables[i][slot].(free := chunks[k].free)]];
    }
    SealStarts(current, cibs, chunks0, chunks, addrs, tables, dirty);
    for i := 0 to |cibs|
      invariant Sealing(current, cibs, chunks0, chunks, addrs, dirty, i)
      invariant OnlyTouched(disk, current, cibs, chunks, addrs, dirty)
    {
      SealCib(current, cibs, chunks0, chunks, addrs, dirty, i);
      if i !in dirty {
        continue;
      }
      if cibs[i] !in current {
        return Err(OutsideContainer);
      }
      CibTouched(cibs, chunks, addrs, dirty, i);
      TouchedStep(disk, current, cibs, chunks, addrs, dirty, cibs[i], CibBlock(tables[i]));
      current := current[cibs[i] := CibBlock(tables[i])];
    }
    Sealed(current, cibs, chunks0, chunks, addrs, dirty);
    if smFree + freeDelta < 0 {
      return Err(Underflow);
    }
    r := Ok((current, smFree + freeDelta));
  }

  lemma CommitFacts(disk: map<nat, Meta>, cibs: seq<nat>, chunks0: seq<Chunk>, chunks: seq<Chunk>, addrs: seq<nat>,
                    dirty: set<nat>)
    requires Described(disk, cibs, chunks0, addrs) && Tracked(chunks0, chunks, {}, dirty)
    ensures |chunks| == |chunks0| == |addrs| && SameShape(chunks, chunks0) && Ordered(chunks0)
    ensures forall k :: 0 <= k < |chunks| ==> chunks0[k].cib < |cibs|
  {
    hide BitsBacked, CibBacked;
  }

  lemma NothingTouched(disk: map<nat, Meta>, cibs: seq<nat>, chunks: seq<Chunk>, addrs: seq<nat>, dirty: set<nat>)
    ensures OnlyTouched(disk, disk, cibs, chunks, addrs, dirty)
  {
    hide MayTouch;
  }

  lemma CleanSame(chunks0: seq<Chunk>, chunks: seq<Chunk>, dirty: set<nat>, k: nat)
    requires Tracked(chunks0, chunks, {}, dirty) && k < |chunks| && !chunks[k].dirty
    ensures |chunks0| == |chunks| && chunks[k] == chunks0[k]
  {
  }

  lemma BitmapThere(disk: map<nat, Meta>, cibs: seq<nat>, chunks0: seq<Chunk>, chunks: seq<Chunk>, addrs: seq<nat>,
                    tables: seq<seq<Info>>, k: nat, dirty: set<nat>)
    requires Writing(disk, cibs, chunks0, chunks, addrs, tables, k) && SameShape(chunks, chunks0) && k < |chunks|
    requires chunks[k].dirty && chunks[k].bitmap.Some?
    ensures addrs[k] in disk && MayTouch(cibs, chunks, addrs, dirty, addrs[k])
  {
    hide CibBacked, InfosOf;
    MixedStep(chunks0, chunks, k);
    assert BitsBacked(disk, Mixed(chunks0, chunks, k)[k], addrs[k]);
  }

  lemma CibTouched(cibs: seq<nat>, chunks: seq<Chunk>, addrs: seq<nat>, dirty: set<nat>, i: nat)
    requires i < |cibs| && i in dirty
    ensures MayTouch(cibs, chunks, addrs, dirty, cibs[i])
  {
  }

  // ---- a whole session --------------------------------------------------------------------------------

  function TablesOf(chunks: seq<Chunk>, addrs: seq<nat>, n: nat): (r: seq<seq<Info>>)
    requires |chunks| == |addrs|
    ensures |r| == n && forall i :: 0 <= i < n ==> r[i] == InfosOf(chunks, addrs, i)
  {
    seq(n, i requires 0 <= i < n => InfosOf(chunks, addrs, i))
  }

  lemma CleanedDescribed(disk: map<nat, Meta>, cibs: seq<nat>, chunks: seq<Chunk>, addrs: seq<nat>)
    requires Described(disk, cibs, chunks, addrs)
    ensures Wanted(disk, cibs, |chunks|, (Cleaned(chunks), addrs))
  {
    hide InfosOf;
    forall i | 0 <= i < |cibs| ensures CibBacked(disk, cibs[i], Cleaned(chunks), addrs, i) {
      assert CibBacked(disk, cibs[i], chunks, addrs, i);
      CleanedInfos(chunks, addrs, i);
    }
    forall k | 0 <= k < |chunks| ensures BitsBacked(disk, Cleaned(chunks)[k], addrs[k]) {
      assert BitsBacked(disk, chunks[k], addrs[k]);
    }
  }

  /** Container metadata as the verifier accepts it. */
  ghost predicate Sane(disk: map<nat, Meta>, cibs: seq<nat>, count: nat, perChunk: nat, smFree: nat,
                       want: (seq<Chunk>, seq<nat>))
  {
    && Wanted(disk, cibs, count, want) && Separate(cibs, want.1)
    && perChunk > 0 && ChunksOk(want.0) && Tiled(want.0, perChunk) && TotalFree(want.0) == smFree
  }

  /**
   * Parse, any mix of allocations and releases, commit, parse again. On sane metadata nothing
   * fails, the second parse finds exactly what was in memory, the recorded free count is the
   * number of clear blocks, and what is in use is what was in use before plus the runs still held.
   */
  method Session(disk: map<nat, Meta>, cibs: seq<nat>, count: nat, perChunk: nat, smFree: nat, ops: seq<Op>,
                 ghost want: (seq<Chunk>, seq<nat>))
    returns (r: Result<(map<nat, Meta>, nat)>, runs: seq<(nat, nat)>, again: Result<(seq<Chunk>, seq<nat>)>)
    requires Sane(disk, cibs, count, perChunk, smFree, want)
    ensures r.Ok? && again.Ok? && again.value.1 == want.1 &&
            Sane(r.value.0, cibs, count, perChunk, r.value.1, again.value)
    ensures Held(runs) !! Used(want.0) && Used(again.value.0) == Used(want.0) + Held(runs)
    ensures r.value.1 + HeldSize(runs) == smFree
  {
    hide Sane, Wanted, Separate, ChunksOk, TotalFree, Tiled, Used, Account, Described, Untouched, Tracked,
         OnlyTouched, Held, HeldSize, InfosOf;
    SaneFacts(disk, cibs, count, perChunk, smFree, want);
    var parsed := Parse(disk, cibs, count, want);
    var chunks, addrs := parsed.value.0, parsed.value.1;
    var sm := new SpacemanContext(perChunk, chunks);
    runs := Replay(sm, ops);
    r := Commit(disk, cibs, TablesOf(chunks, addrs, |cibs|), sm.chunks, addrs, sm.dirtyCibs, smFree, sm.freeDelta,
                chunks);
    CommitFacts(disk, cibs, chunks, sm.chunks, addrs, sm.dirtyCibs);
    CleanedDescribed(r.value.0, cibs, sm.chunks, addrs);
    SessionKeeps(r.value.0, cibs, count, perChunk, smFree, chunks, addrs, sm.chunks, sm.freeDelta, sm.dirtyCibs, runs);
    again := Parse(r.value.0, cibs, count, (Cleaned(sm.chunks), addrs));
  }

  lemma SaneFacts(disk: map<nat, Meta>, cibs: seq<nat>, count: nat, perChunk: nat, smFree: nat,
                  want: (seq<Chunk>, seq<nat>))
    requires Sane(disk, cibs, count, perChunk, smFree, want)
    ensures Wanted(disk, cibs, count, want) && Separate(cibs, want.1)
    ensures perChunk > 0 && ChunksOk(want.0) && Tiled(want.0, perChunk) && TotalFree(want.0) == smFree
    ensures Described(disk, cibs, want.0, want.1) && Untouched(want.0) && |want.0| == count == |want.1|
  {
    hide BitsBacked, CibBacked, Separate, ChunksOk, TotalFree, Tiled;
  }

  lemma {:induction false} CleanedUsed(chunks: seq<Chunk>)
    ensures Used(Cleaned(chunks)) == Used(chunks)
  {
    hide Used, Cleaned;
    forall p: nat ensures p in Used(Cleaned(chunks)) <==> p in Used(chunks) {
      UsedIs(chunks, p);
      UsedIs(Cleaned(chunks), p);
      forall k | 0 <= k < |chunks| ensures Uses(Cleaned(chunks)[k], p) <==> Uses(chunks[k], p) {
      }
    }
  }

  lemma SessionKeeps(disk: map<nat, Meta>, cibs: seq<nat>, count: nat, perChunk: nat, smFree: nat,
                     chunks0: seq<Chunk>, addrs: seq<nat>, chunks: seq<Chunk>, freeDelta: int, dirty: set<nat>,
                     runs: seq<(nat, nat)>)
    requires Wanted(disk, cibs, |chunks|, (Cleaned(chunks), addrs)) && Separate(cibs, addrs) && |chunks| == count
    requires perChunk > 0 && ChunksOk(chunks) && Tracked(chunks0, chunks, {}, dirty) &&
             TotalFree(chunks) == smFree + freeDelta
    requires Account(Used(chunks0), 0, chunks, perChunk, freeDelta, runs)
    ensures Sane(disk, cibs, count, perChunk, smFree + freeDelta, (Cleaned(chunks), addrs))
    ensures Held(runs) !! Used(chunks0) && Used(Cleaned(chunks)) == Used(chunks0) + Held(runs) &&
            freeDelta + HeldSize(runs) == 0
  {
    hide *;
    CleanedUsed(chunks);
    CleanedSums(chunks);
    CleanedOk(chunks);
    AccountFacts(Used(chunks0), chunks, perChunk, freeDelta, runs);
    CleanedTiled(chunks, perChunk);
    SaneIs(disk, cibs, count, perChunk, smFree + freeDelta, Cleaned(chunks), addrs);
  }

  lemma AccountFacts(used0: set<nat>, chunks: seq<Chunk>, perChunk: nat, freeDelta: int, runs: seq<(nat, nat)>)
    requires Account(used0, 0, chunks, perChunk, freeDelta, runs)
    ensures Tiled(chunks, perChunk) && Held(runs) !! used0 && Used(chunks) == used0 + Held(runs) &&
            freeDelta + HeldSize(runs) == 0
  {
    hide Tiled, Held, Used, HeldSize, RunsOk;
  }

  lemma CleanedTiled(chunks: seq<Chunk>, perChunk: nat)
    requires Tiled(chunks, perChunk)
    ensures Tiled(Cleaned(chunks), perChunk)
  {
  }

  lemma SaneIs(disk: map<nat, Meta>, cibs: seq<nat>, count: nat, perChunk: nat, smFree: nat, chunks: seq<Chunk>,
               addrs: seq<nat>)
    requires Wanted(disk, cibs, count, (chunks, addrs)) && Separate(cibs, addrs)
    requires perChunk > 0 && ChunksOk(chunks) && Tiled(chunks, perChunk) && TotalFree(chunks) == smFree
    ensures Sane(disk, cibs, count, perChunk, smFree, (chunks, addrs))
  {
    hide Wanted, Separate, ChunksOk, TotalFree, Tiled;
  }

  /** After a commit the metadata is sane again: whatever was allocated or released, it records it. */
  lemma SaneAgain(disk: map<nat, Meta>, cibs: seq<nat>, count: nat, perChunk: nat, smFree: nat, chunks0: seq<Chunk>,
                  addrs: seq<nat>, chunks: seq<Chunk>, freeDelta: int, dirty: set<nat>)
    requires Described(disk, cibs, chunks, addrs) && Separate(cibs, addrs) && |chunks| == count && perChunk > 0
    requires ChunksOk(chunks) && Tracked(chunks0, chunks, {}, dirty) && Tiled(chunks0, perChunk)
    requires TotalFree(chunks) == smFree + freeDelta
    ensures smFree + freeDelta >= 0 && Wanted(disk, cibs, count, (Cleaned(chunks), addrs))
    ensures Sane(disk, cibs, count, perChunk, smFree + freeDelta, (Cleaned(chunks), addrs))
    ensures Used(Cleaned(chunks)) == Used(chunks)
  {
    hide Described, Separate, ChunksOk, TotalFree, Tiled, SameShape, Used, Cleaned, Sane, Wanted;
    CleanedDescribed(disk, cibs, chunks, addrs);
    CleanedUsed(chunks);
    CleanedSums(chunks);
    CleanedOk(chunks);
    ShapeTiled(chunks, chunks0, perChunk);
    CleanedTiled(chunks, perChunk);
    SaneIs(disk, cibs, count, perChunk, smFree + freeDelta, Cleaned(chunks), addrs);
  }
}

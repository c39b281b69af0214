/**
 * Reading the allocator back from disk (src/apfs_replace.rs `Allocator::load`). Loading accepts
 * exactly the metadata that describes some set of chunks tiling the device, and returns that set;
 * what a commit leaves is such metadata, so the next transaction starts from the state the last
 * one ended in.
 */
module AllocatorLoad {
  import opened Bytes
  import opened SpaceManager
  import opened BlockAllocator
  import IpRing

  function SpanOf(chunks: seq<Chunk>): nat {
    if chunks == [] then 0 else SpanOf(chunks[..|chunks| - 1]) + chunks[|chunks| - 1].blocks
  }

  /** Each chunk starts where the ones before it end. */
  predicate Tiles(chunks: seq<Chunk>) {
    forall k :: 0 <= k < |chunks| ==> chunks[k].addr == SpanOf(chunks[..k])
  }

  predicate Ordered(chunks: seq<Chunk>) {
    forall i, j :: 0 <= i < j < |chunks| ==> chunks[i].cib <= chunks[j].cib
  }

  /** The chunks cover `blocks` blocks, CIB by CIB, each with a whole bitmap. */
  ghost predicate Laid(chunks: seq<Chunk>, blocks: nat, bitsPerBlock: nat) {
    && Tiles(chunks) && SpanOf(chunks) == blocks && Ordered(chunks)
    && forall k :: 0 <= k < |chunks| ==> chunks[k].bitmap.Some? && |chunks[k].bitmap.value| == bitsPerBlock
  }

  /** The metadata on disk records exactly these chunks, none of them changed since. */
  ghost predicate Recorded(disk: map<nat, Meta>, cibs: seq<nat>, blocks: nat, smFree: nat, bitsPerBlock: nat,
                           chunks: seq<Chunk>, addrs: seq<nat>)
  {
    && Backed(disk, cibs, chunks, addrs) && ChunksOk(chunks) && TotalFree(chunks) == smFree &&
       Laid(chunks, blocks, bitsPerBlock)
    && forall k :: 0 <= k < |chunks| ==> !chunks[k].dirty
  }

  /** The state of loading: everything before record `slot` of CIB `index` has been taken in. */
  ghost predicate Loading(disk: map<nat, Meta>, cibs: seq<nat>, chunks: seq<Chunk>, addrs: seq<nat>, covered: nat,
                          free: nat, index: nat, infos: seq<Info>, bitsPerBlock: nat)
  {
    && Ordered(chunks) &&
       (forall k :: 0 <= k < |chunks| ==> chunks[k].bitmap.Some? && |chunks[k].bitmap.value| == bitsPerBlock)
    && Shaped(cibs, chunks, addrs) && ChunksOk(chunks) && TotalFree(chunks) == free && Tiles(chunks) &&
       SpanOf(chunks) == covered
    && (forall k :: 0 <= k < |chunks| ==>
          chunks[k].cib <= index && !chunks[k].dirty && BitmapBacked(disk, chunks[k], addrs[k]))
    && (forall k :: 0 <= k < |chunks| ==> chunks[k].addr + chunks[k].blocks <= covered)
    && (forall i :: 0 <= i < index && i < |cibs| ==> CibBacked(disk, cibs[i], chunks, addrs, i))
    && InfosOf(chunks, addrs, index) == infos
  }

  lemma InfosPush(chunks: seq<Chunk>, addrs: seq<nat>, c: Chunk, a: nat, index: nat)
    requires |chunks| == |addrs|
    ensures InfosOf(chunks + [c], addrs + [a], index) ==
            InfosOf(chunks, addrs, index) + if c.cib == index then [Info(c.addr, c.blocks, c.free, a)] else []
  {
    assert (chunks + [c])[..|chunks|] == chunks && (addrs + [a])[..|addrs|] == addrs;
  }

  lemma {:induction false} InfosNone(chunks: seq<Chunk>, addrs: seq<nat>, index: nat)
    requires |chunks| == |addrs| && forall k :: 0 <= k < |chunks| ==> chunks[k].cib != index
    ensures InfosOf(chunks, addrs, index) == []
  {
    if chunks != [] {
      InfosNone(chunks[..|chunks| - 1], addrs[..|chunks| - 1], index);
    }
  }

  lemma LoadStarts(disk: map<nat, Meta>, cibs: seq<nat>, bitsPerBlock: nat)
    ensures Loading(disk, cibs, [], [], 0, 0, 0, [], bitsPerBlock)
  {
  }

  /** One more chunk whose start, size, bitmap and free count check out. */
  lemma LoadChunk(disk: map<nat, Meta>, cibs: seq<nat>, chunks: seq<Chunk>, addrs: seq<nat>, covered: nat, free: nat,
                  index: nat, infos: seq<Info>, info: Info, bits: seq<bool>)
    requires Loading(disk, cibs, chunks, addrs, covered, free, index, infos, |bits|) && index < |cibs|
    requires info.start == covered && info.count <= |bits| && CountClear(bits[..info.count]) == info.free
    requires var c := Chunk(info.start, info.count, info.free, Some(bits), index, false);
             BitmapBacked(disk, c, info.bitmap)
    ensures var c := Chunk(info.start, info.count, info.free, Some(bits), index, false);
            Loading(disk, cibs, chunks + [c], addrs + [info.bitmap], covered + info.count, free + info.free, index,
                    infos + [info], |bits|)
  {
    hide BitmapBacked, InfosOf, Tiles, SpanOf, ChunksOk, ChunkOk, CibBacked;
    var c := Chunk(info.start, info.count, info.free, Some(bits), index, false);
    ChunkCounts(c, bits);
    var more, at := chunks + [c], addrs + [info.bitmap];
    assert more[..|chunks|] == chunks;
    TilesPush(chunks, c);
    ChunksPush(chunks, c);
    InfosPush(chunks, addrs, c, info.bitmap, index);
    forall i | 0 <= i < index && i < |cibs| ensures CibBacked(disk, cibs[i], more, at, i) {
      EarlierCib(disk, cibs[i], chunks, addrs, c, info.bitmap, i);
    }
  }

  lemma ChunkCounts(c: Chunk, bits: seq<bool>)
    requires c.bitmap == Some(bits) && c.blocks <= |bits| && CountClear(bits[..c.blocks]) == c.free
    ensures ChunkOk(c)
  {
  }

  lemma TilesPush(chunks: seq<Chunk>, c: Chunk)
    requires Tiles(chunks) && c.addr == SpanOf(chunks)
    ensures Tiles(chunks + [c]) && SpanOf(chunks + [c]) == SpanOf(chunks) + c.blocks
  {
    var more := chunks + [c];
    assert more[..|chunks|] == chunks;
    forall k | 0 <= k < |more| ensures more[k].addr == SpanOf(more[..k]) {
      assert more[..k] == chunks[..k];
    }
  }

  lemma ChunksPush(chunks: seq<Chunk>, c: Chunk)
    requires ChunksOk(chunks) && ChunkOk(c) && forall k :: 0 <= k < |chunks| ==>
               chunks[k].addr + chunks[k].blocks <= c.addr
    ensures ChunksOk(chunks + [c]) && TotalFree(chunks + [c]) == TotalFree(chunks) + c.free
  {
    hide ChunkOk;
    var all := chunks + [c];
    assert all[..|chunks|] == chunks && all[|chunks|] == c;
    assert TotalFree(all) == TotalFree(all[..|all| - 1]) + all[|all| - 1].free;
    hide TotalFree;
    assert forall k :: 0 <= k < |chunks| ==> all[k] == chunks[k];
  }

  lemma EarlierCib(disk: map<nat, Meta>, cib: nat, chunks: seq<Chunk>, addrs: seq<nat>, c: Chunk, a: nat, i: nat)
    requires |chunks| == |addrs| && CibBacked(disk, cib, chunks, addrs, i) && c.cib != i
    ensures CibBacked(disk, cib, chunks + [c], addrs + [a], i)
  {
    InfosPush(chunks, addrs, c, a, i);
    assert InfosOf(chunks, addrs, i) + [] == InfosOf(chunks, addrs, i);
  }

  lemma LoadCibDone(disk: map<nat, Meta>, cibs: seq<nat>, chunks: seq<Chunk>, addrs: seq<nat>, covered: nat,
                    free: nat, index: nat, infos: seq<Info>, bitsPerBlock: nat)
    requires Loading(disk, cibs, chunks, addrs, covered, free, index, infos, bitsPerBlock) && index < |cibs|
    requires cibs[index] in disk && disk[cibs[index]] == CibBlock(infos)
    ensures Loading(disk, cibs, chunks, addrs, covered, free, index + 1, [], bitsPerBlock)
  {
    hide BitmapBacked, InfosOf;
    InfosNone(chunks, addrs, index + 1);
  }

  lemma Loaded(disk: map<nat, Meta>, cibs: seq<nat>, chunks: seq<Chunk>, addrs: seq<nat>, covered: nat, free: nat,
               bitsPerBlock: nat)
    requires Loading(disk, cibs, chunks, addrs, covered, free, |cibs|, [], bitsPerBlock)
    ensures Recorded(disk, cibs, covered, free, bitsPerBlock, chunks, addrs)
  {
    hide BitmapBacked, InfosOf;
  }

  function NoBits(n: nat): (bits: seq<bool>)
    ensures |bits| == n && forall i :: 0 <= i < n ==> !bits[i]
  {
    seq(n, i => false)
  }

  lemma BitsThere(disk: map<nat, Meta>, info: Info, bits: seq<bool>, index: nat)
    requires if info.bitmap == 0 then forall i :: 0 <= i < |bits| ==> !bits[i]
             else info.bitmap in disk && disk[info.bitmap].BitmapBlock? && disk[info.bitmap].bits == bits
    ensures BitmapBacked(disk, Chunk(info.start, info.count, info.free, Some(bits), index, false), info.bitmap)
  {
  }

  // ---- what is recorded is what is loaded ------------------------------------------------------------

  /** How many chunks the CIBs before `index` describe. */
  function Below(chunks: seq<Chunk>, index: nat): (n: nat)
    ensures n <= |chunks|
  {
    if chunks == [] then 0 else Below(chunks[..|chunks| - 1], index) + if chunks[|chunks| - 1].cib < index then 1 else 0
  }

  lemma {:induction false} BelowSplits(chunks: seq<Chunk>, index: nat)
    requires Ordered(chunks)
    ensures forall k :: 0 <= k < |chunks| ==> (chunks[k].cib < index <==> k < Below(chunks, index))
  {
    if chunks != [] {
      var n := |chunks| - 1;
      BelowSplits(chunks[..n], index);
      if chunks[n].cib < index {
        AllBelow(chunks[..n], index);
      }
      assert forall k :: 0 <= k < n ==> chunks[..n][k] == chunks[k];
    }
  }

  lemma {:induction false} AllBelow(chunks: seq<Chunk>, index: nat)
    requires forall k :: 0 <= k < |chunks| ==> chunks[k].cib < index
    ensures Below(chunks, index) == |chunks|
  {
    if chunks != [] {
      AllBelow(chunks[..|chunks| - 1], index);
    }
  }

  /** The records of one CIB are those of its chunks, which lie together. */
  lemma {:induction false} InfosAt(chunks: seq<Chunk>, addrs: seq<nat>, index: nat)
    requires |chunks| == |addrs| && Ordered(chunks)
    ensures var lo, hi := Below(chunks, index), Below(chunks, index + 1);
            && lo <= hi && |InfosOf(chunks, addrs, index)| == hi - lo
            && forall k :: lo <= k < hi ==>
                 InfosOf(chunks, addrs, index)[k - lo] == InfoOf(chunks[k], addrs[k]) && chunks[k].cib == index
  {
    hide Ordered;
    if chunks != [] {
      var n := |chunks| - 1;
      var c, a := chunks[..n], addrs[..n];
      FrontOrdered(chunks, n);
      InfosAt(c, a, index);
      if chunks[n].cib <= index {
        AllBelow(c, index + 1);
      }
      if chunks[n].cib < index {
        AllBelow(c, index);
      }
      var lo, hi := Below(chunks, index), Below(chunks, index + 1);
      forall k | lo <= k < hi
        ensures InfosOf(chunks, addrs, index)[k - lo] == InfoOf(chunks[k], addrs[k]) && chunks[k].cib == index
      {
        if k < n {
          assert c[k] == chunks[k] && a[k] == addrs[k];
          assert InfosOf(c, a, index)[k - lo] == InfoOf(c[k], a[k]) && c[k].cib == index;
        }
      }
    }
  }

  /** All but the last are in order, and at most in the last's block. */
  lemma FrontOrdered(chunks: seq<Chunk>, n: nat)
    requires Ordered(chunks) && |chunks| == n + 1
    ensures Ordered(chunks[..n]) && forall k :: 0 <= k < n ==> chunks[..n][k].cib <= chunks[n].cib
  {
  }

  function InfoOf(c: Chunk, addr: nat): Info {
    Info(c.addr, c.blocks, c.free, addr)
  }

  /** The chunks taken in so far are the first of those recorded. */
  ghost predicate Matching(chunks: seq<Chunk>, addrs: seq<nat>, want: (seq<Chunk>, seq<nat>), n: nat) {
    n <= |want.0| == |want.1| && chunks == want.0[..n] && addrs == want.1[..n]
  }

  lemma {:induction false} NoneBelow(chunks: seq<Chunk>)
    ensures Below(chunks, 0) == 0
  {
    if chunks != [] {
      NoneBelow(chunks[..|chunks| - 1]);
    }
  }

  lemma WantStarts(disk: map<nat, Meta>, cibs: seq<nat>, blocks: nat, smFree: nat, bitsPerBlock: nat,
                   want: (seq<Chunk>, seq<nat>))
    requires Recorded(disk, cibs, blocks, smFree, bitsPerBlock, want.0, want.1)
    ensures Matching([], [], want, Below(want.0, 0))
  {
    hide BitmapBacked, CibBacked, Tiles, SpanOf, ChunksOk, TotalFree;
    NoneBelow(want.0);
  }

  lemma WantCib(disk: map<nat, Meta>, cibs: seq<nat>, blocks: nat, smFree: nat, bitsPerBlock: nat,
                want: (seq<Chunk>, seq<nat>), index: nat)
    requires Recorded(disk, cibs, blocks, smFree, bitsPerBlock, want.0, want.1) && index < |cibs|
    ensures cibs[index] in disk && disk[cibs[index]].CibBlock?
    ensures Below(want.0, index) + |disk[cibs[index]].infos| == Below(want.0, index + 1)
  {
    hide BitmapBacked, Tiles, SpanOf, ChunksOk, TotalFree, InfosOf;
    assert CibBacked(disk, cibs[index], want.0, want.1, index);
    InfosAt(want.0, want.1, index);
  }

  /** A recorded chunk passes every test of the loader. */
  lemma WantChunk(disk: map<nat, Meta>, cibs: seq<nat>, blocks: nat, smFree: nat, bitsPerBlock: nat,
                  want: (seq<Chunk>, seq<nat>), index: nat, slot: nat, chunks: seq<Chunk>, addrs: seq<nat>,
                  covered: nat)
    requires Recorded(disk, cibs, blocks, smFree, bitsPerBlock, want.0, want.1) && index < |cibs|
    requires cibs[index] in disk && disk[cibs[index]].CibBlock? && slot < |disk[cibs[index]].infos|
    requires Matching(chunks, addrs, want, Below(want.0, index) + slot) && SpanOf(chunks) == covered
    ensures var info := disk[cibs[index]].infos[slot];
            var k := Below(want.0, index) + slot;
            && info.start == covered && info.count <= bitsPerBlock && BitmapReadable(disk, info.bitmap, bitsPerBlock)
            && var bits := BitmapAt(disk, info.bitmap, bitsPerBlock);
               && CountClear(bits[..info.count]) == info.free
               && Matching(chunks + [Chunk(info.start, info.count, info.free, Some(bits), index, false)],
                           addrs + [info.bitmap], want, k + 1)
  {
    hide InfosOf, ChunksOk, TotalFree, Below, SpanOf;
    assert CibBacked(disk, cibs[index], want.0, want.1, index);
    InfosAt(want.0, want.1, index);
    var k := Below(want.0, index) + slot;
    var c := want.0[k];
    assert BitmapBacked(disk, c, want.1[k]);
    ChunkFacts(want.0, k);
    var bits := BitmapAt(disk, want.1[k], bitsPerBlock);
    assert bits == c.bitmap.value;
    assert want.0[..k + 1] == want.0[..k] + [c] && want.1[..k + 1] == want.1[..k] + [want.1[k]];
  }

  lemma WantEnds(disk: map<nat, Meta>, cibs: seq<nat>, blocks: nat, smFree: nat, bitsPerBlock: nat,
                 want: (seq<Chunk>, seq<nat>), chunks: seq<Chunk>, addrs: seq<nat>)
    requires Recorded(disk, cibs, blocks, smFree, bitsPerBlock, want.0, want.1) &&
             Matching(chunks, addrs, want, Below(want.0, |cibs|))
    ensures (chunks, addrs) == want && SpanOf(chunks) == blocks && TotalFree(chunks) == smFree
  {
    hide BitmapBacked, CibBacked, Tiles, SpanOf, ChunksOk, TotalFree, Below;
    AllBelow(want.0, |cibs|);
    assert want.0[..|want.0|] == want.0 && want.1[..|want.1|] == want.1;
  }

  predicate BitmapReadable(disk: map<nat, Meta>, addr: nat, bitsPerBlock: nat) {
    addr == 0 || (addr in disk && disk[addr].BitmapBlock? && |disk[addr].bits| == bitsPerBlock)
  }

  function BitmapAt(disk: map<nat, Meta>, addr: nat, bitsPerBlock: nat): (bits: seq<bool>)
    requires BitmapReadable(disk, addr, bitsPerBlock)
    ensures |bits| == bitsPerBlock
  {
    if addr == 0 then NoBits(bitsPerBlock) else disk[addr].bits
  }

  lemma LoadFacts(disk: map<nat, Meta>, cibs: seq<nat>, chunks: seq<Chunk>, addrs: seq<nat>, covered: nat, free: nat,
                  index: nat, infos: seq<Info>, bitsPerBlock: nat)
    requires Loading(disk, cibs, chunks, addrs, covered, free, index, infos, bitsPerBlock)
    ensures SpanOf(chunks) == covered && TotalFree(chunks) == free
  {
    hide BitmapBacked, InfosOf, Tiles, SpanOf, ChunksOk, TotalFree, Ordered;
  }

  /**
   * Reads the chunk-info blocks and bitmaps back. What it accepts is a set of chunks that tile
   * the device from block 0, with every recorded free count equal to the clear bits; and if the
   * metadata records such a set `want`, the load succeeds and returns it.
   */
  method Load(disk: map<nat, Meta>, cibs: seq<nat>, blocks: nat, smFree: nat, bitsPerBlock: nat,
              ghost want: (seq<Chunk>, seq<nat>))
    returns (r: Result<(seq<Chunk>, seq<nat>)>)
    ensures r.Ok? ==> Recorded(disk, cibs, blocks, smFree, bitsPerBlock, r.value.0, r.value.1)
    ensures Recorded(disk, cibs, blocks, smFree, bitsPerBlock, want.0, want.1) ==> r == Ok(want)
  {
    hide Loading, Recorded, TotalFree, SpanOf, CountClear, BitmapBacked, Matching, Below, BitmapAt;
    ghost var known := Recorded(disk, cibs, blocks, smFree, bitsPerBlock, want.0, want.1);
    var chunks, addrs, covered: nat, free: nat := [], [], 0, 0;
    LoadStarts(disk, cibs, bitsPerBlock);
    if known {
      WantStarts(disk, cibs, blocks, smFree, bitsPerBlock, want);
    }
    for index := 0 to |cibs|
      invariant Loading(disk, cibs, chunks, addrs, covered, free, index, [], bitsPerBlock)
      invariant known ==> Matching(chunks, addrs, want, Below(want.0, index))
    {
      if known {
        WantCib(disk, cibs, blocks, smFree, bitsPerBlock, want, index);
      }
      if cibs[index] !in disk || !disk[cibs[index]].CibBlock? {
        return Err(BadChecksum);
      }
      var infos := disk[cibs[index]].infos;
      for slot := 0 to |infos|
        invariant Loading(disk, cibs, chunks, addrs, covered, free, index, infos[..slot], bitsPerBlock)
        invariant known ==> Matching(chunks, addrs, want, Below(want.0, index) + slot)
      {
        var info := infos[slot];
        LoadFacts(disk, cibs, chunks, addrs, covered, free, index, infos[..slot], bitsPerBlock);
        if known {
          WantChunk(disk, cibs, blocks, smFree, bitsPerBlock, want, index, slot, chunks, addrs, covered);
        }
        if info.start != covered || info.count > bitsPerBlock {
          return Err(Malformed);
        }
        if !BitmapReadable(disk, info.bitmap, bitsPerBlock) {
          return Err(OutsideContainer);
        }
        var bits := BitmapAt(disk, info.bitmap, bitsPerBlock);
        var counted := CountFree(bits, info.count);
        if counted != info.free {
          return Err(Malformed);
        }
        BitsRead(disk, info, bits, bitsPerBlock, index);
        LoadChunk(disk, cibs, chunks, addrs, covered, free, index, infos[..slot], info, bits);
        assert infos[..slot + 1] == infos[..slot] + [info];
        chunks := chunks + [Chunk(info.start, info.count, info.free, Some(bits), index, false)];
        addrs := addrs + [info.bitmap];
        covered, free := covered + info.count, free + info.free;
      }
      assert infos[..|infos|] == infos;
      LoadCibDone(disk, cibs, chunks, addrs, covered, free, index, infos, bitsPerBlock);
    }
    LoadFacts(disk, cibs, chunks, addrs, covered, free, |cibs|, [], bitsPerBlock);
    if known {
      WantEnds(disk, cibs, blocks, smFree, bitsPerBlock, want, chunks, addrs);
    }
    if covered != blocks || free != smFree {
      return Err(Malformed);
    }
    Loaded(disk, cibs, chunks, addrs, covered, free, bitsPerBlock);
    r := Ok((chunks, addrs));
  }

  lemma BitsRead(disk: map<nat, Meta>, info: Info, bits: seq<bool>, bitsPerBlock: nat, index: nat)
    requires BitmapReadable(disk, info.bitmap, bitsPerBlock) && bits == BitmapAt(disk, info.bitmap, bitsPerBlock)
    ensures BitmapBacked(disk, Chunk(info.start, info.count, info.free, Some(bits), index, false), info.bitmap)
  {
    BitsThere(disk, info, bits, index);
  }

  // ---- what a commit leaves ---------------------------------------------------------------------------

  /** The same chunks, with nothing marked as changed. */
  function Cleaned(chunks: seq<Chunk>): (r: seq<Chunk>)
    ensures |r| == |chunks| && forall k :: 0 <= k < |chunks| ==> r[k] == chunks[k].(dirty := false)
  {
    seq(|chunks|, k requires 0 <= k < |chunks| => chunks[k].(dirty := false))
  }

  lemma {:induction false} CleanedSums(chunks: seq<Chunk>)
    ensures TotalFree(Cleaned(chunks)) == TotalFree(chunks) && SpanOf(Cleaned(chunks)) == SpanOf(chunks)
  {
    if chunks != [] {
      var n := |chunks| - 1;
      CleanedSums(chunks[..n]);
      assert Cleaned(chunks)[..n] == Cleaned(chunks[..n]);
    }
  }

  lemma {:induction false} CleanedInfos(chunks: seq<Chunk>, addrs: seq<nat>, index: nat)
    requires |chunks| == |addrs|
    ensures InfosOf(Cleaned(chunks), addrs, index) == InfosOf(chunks, addrs, index)
  {
    if chunks != [] {
      var n := |chunks| - 1;
      CleanedInfos(chunks[..n], addrs[..n], index);
      assert Cleaned(chunks)[..n] == Cleaned(chunks[..n]);
    }
  }

  lemma CleanedLaid(chunks: seq<Chunk>, blocks: nat, bitsPerBlock: nat)
    requires Laid(chunks, blocks, bitsPerBlock)
    ensures Laid(Cleaned(chunks), blocks, bitsPerBlock)
  {
    hide SpanOf;
    CleanedSums(chunks);
    var clean := Cleaned(chunks);
    forall k | 0 <= k < |clean| ensures clean[k].addr == SpanOf(clean[..k]) {
      CleanedSums(chunks[..k]);
      assert clean[..k] == Cleaned(chunks[..k]);
    }
  }

  /** Metadata that describes the chunks in memory records them. */
  lemma BackedRecords(disk: map<nat, Meta>, cibs: seq<nat>, chunks: seq<Chunk>, addrs: seq<nat>, blocks: nat,
                      bitsPerBlock: nat)
    requires Backed(disk, cibs, chunks, addrs) && ChunksOk(chunks) && Laid(chunks, blocks, bitsPerBlock)
    ensures Recorded(disk, cibs, blocks, TotalFree(chunks), bitsPerBlock, Cleaned(chunks), addrs)
  {
    hide InfosOf, TotalFree, Laid, CountClear;
    CleanedLaid(chunks, blocks, bitsPerBlock);
    CleanedSums(chunks);
    forall i | 0 <= i < |cibs| ensures CibBacked(disk, cibs[i], Cleaned(chunks), addrs, i) {
      assert CibBacked(disk, cibs[i], chunks, addrs, i);
      CleanedInfos(chunks, addrs, i);
    }
    forall k | 0 <= k < |chunks| ensures BitmapBacked(disk, Cleaned(chunks)[k], addrs[k]) {
      assert BitmapBacked(disk, chunks[k], addrs[k]);
    }
    CleanedOk(chunks);
  }

  lemma CleanedOk(chunks: seq<Chunk>)
    requires ChunksOk(chunks)
    ensures ChunksOk(Cleaned(chunks))
  {
    hide CountClear;
    forall k | 0 <= k < |chunks| ensures ChunkOk(Cleaned(chunks)[k]) {
      assert ChunkOk(chunks[k]);
    }
  }

  lemma {:induction false} SameSpan(a: seq<Chunk>, b: seq<Chunk>)
    requires SameShape(a, b)
    ensures SpanOf(a) == SpanOf(b)
  {
    if a != [] {
      SameSpan(a[..|a| - 1], b[..|b| - 1]);
    }
  }

  /** Allocating changes bits only. */
  lemma LaidKept(a: seq<Chunk>, b: seq<Chunk>, blocks: nat, bitsPerBlock: nat)
    requires SameShape(a, b) && Laid(b, blocks, bitsPerBlock)
    ensures Laid(a, blocks, bitsPerBlock)
  {
    hide SpanOf;
    SameSpan(a, b);
    forall k | 0 <= k < |a| ensures a[k].addr == SpanOf(a[..k]) {
      SameSpan(a[..k], b[..k]);
    }
  }

  /** Loading right after a commit gives back the allocator's state. */
  method CommitThenLoad(al: Allocator, blocks: nat, bitsPerBlock: nat)
      returns (committed: bool, loaded: Result<(seq<Chunk>, seq<nat>)>)
    requires al.Valid() && Laid(al.chunks, blocks, bitsPerBlock)
    modifies al, al.ring
    ensures committed ==> loaded == Ok((Cleaned(old(al.chunks)), al.addrs))
    ensures committed <==>
            |old(al.ring.next)| >= 3 &&
            Dirty(old(al.chunks), |old(al.chunks)|) + DirtyCibs(old(al.chunks), |old(al.cibs)|) <=
            CountClear(old(al.poolBits)[..Min(al.pool.count, |old(al.poolBits)|)])
  {
    hide Laid, ChunksOk, TotalFree, Backed, Recorded, BackedTo, PoolOk, AllAnchored, IpRing.Partition, CommitLog,
         OldBitmaps, OldCibs, Dirty, DirtyCibs, CountClear;
    var r, retired, log := al.Commit();
    committed, loaded := r.Ok?, Err(NoSpace);
    if r.Ok? {
      BackedRecords(al.disk, al.cibs, al.chunks, al.addrs, blocks, bitsPerBlock);
      loaded := Load(al.disk, al.cibs, blocks, al.smFree, bitsPerBlock, (Cleaned(al.chunks), al.addrs));
    }
  }
}

/**
 * The block store an update writes its trees through (src/apfs_update.rs `UpdateTreeStore`):
 * single blocks drawn from the space manager come out in one fixed order, which is what the
 * tree writer's store assumes of its allocator.
 */
module BlockSupply {
  import opened Bytes
  import opened SpaceManager
  import TreeWriter

  /** The clear blocks of a chunk from offset k on, in order. */
  function ClearFrom(c: Chunk, k: nat): seq<nat>
    requires c.bitmap.Some? ==> c.blocks <= |c.bitmap.value|
    decreases c.blocks - k
  {
    if c.bitmap.None? || k >= c.blocks then []
    else if c.bitmap.value[k] then ClearFrom(c, k + 1)
    else [c.addr + k] + ClearFrom(c, k + 1)
  }

  /** Every clear block of a bitmap-carrying chunk, in the order first fit hands them out. */
  function Supply(chunks: seq<Chunk>): seq<nat>
    requires forall i :: 0 <= i < |chunks| ==> ChunkOk(chunks[i])
  {
    if chunks == [] then [] else
    assert ChunkOk(chunks[0]);
    ClearFrom(chunks[0], 0) + Supply(chunks[1..])
  }

  predicate Ascending(s: seq<nat>, lo: nat, hi: nat) {
    && (forall i :: 0 <= i < |s| ==> lo <= s[i] < hi)
    && forall i, j :: 0 <= i < j < |s| ==> s[i] < s[j]
  }

  lemma {:induction false} ClearAscending(c: Chunk, k: nat)
    requires c.bitmap.Some? ==> c.blocks <= |c.bitmap.value|
    ensures Ascending(ClearFrom(c, k), c.addr + k, c.addr + c.blocks)
    ensures forall p :: p in ClearFrom(c, k) ==> !Uses(c, p)
    decreases c.blocks - k
  {
    if c.bitmap.Some? && k < c.blocks {
      ClearAscending(c, k + 1);
    }
  }

  /** A clear bit is the first of the supply when none before it is. */
  lemma {:induction false} ClearFirst(c: Chunk, k: nat, s: nat)
    requires c.bitmap.Some? && k <= s < c.blocks <= |c.bitmap.value| && !c.bitmap.value[s]
    requires forall j :: k <= j < s ==> c.bitmap.value[j]
    ensures ClearFrom(c, k) == [c.addr + s] + ClearFrom(c, s + 1)
    decreases s - k
  {
    if k < s {
      ClearFirst(c, k + 1, s);
    }
  }

  lemma {:induction false} ClearNone(c: Chunk, k: nat)
    requires c.bitmap.Some? ==> c.blocks <= |c.bitmap.value| && forall j :: k <= j < c.blocks ==> c.bitmap.value[j]
    ensures ClearFrom(c, k) == []
    decreases c.blocks - k
  {
    if c.bitmap.Some? && k < c.blocks {
      ClearNone(c, k + 1);
    }
  }

  /** The supply from k on sees only the bits from k on. */
  lemma {:induction false} ClearSame(c: Chunk, d: Chunk, k: nat)
    requires c.bitmap.Some? && d.bitmap.Some? && c.addr == d.addr && c.blocks == d.blocks
    requires c.blocks <= |c.bitmap.value| == |d.bitmap.value| && forall j :: k <= j < c.blocks ==>
               c.bitmap.value[j] == d.bitmap.value[j]
    ensures ClearFrom(c, k) == ClearFrom(d, k)
    decreases c.blocks - k
  {
    if k < c.blocks {
      ClearSame(c, d, k + 1);
    }
  }

  lemma RunOfOne(c: Chunk, s: nat)
    ensures RunAt(c, s, 1) <==> c.bitmap.Some? && s < c.blocks <= |c.bitmap.value| && !c.bitmap.value[s]
  {
    if c.bitmap.Some? && s < c.blocks <= |c.bitmap.value| {
      assert c.bitmap.value[..c.blocks][s] == c.bitmap.value[s];
    }
  }

  /** Within one chunk, taking the first clear block takes the head of its supply. */
  lemma ChunkDraw(c: Chunk, s: nat)
    requires ChunkOk(c) && RunAt(c, s, 1) && 1 <= c.free && forall k: nat :: k < s ==> !RunAt(c, k, 1)
    ensures s < c.blocks && c.bitmap.Some? && c.blocks <= |c.bitmap.value|
    ensures ClearFrom(c, 0) == [c.addr + s] + ClearFrom(Flip(c, s, 1, true), 0)
  {
    RunOfOne(c, s);
    forall j | 0 <= j < s ensures c.bitmap.value[j] {
      RunOfOne(c, j);
    }
    ClearFirst(c, 0, s);
    var d := Flip(c, s, 1, true);
    ClearSame(c, d, s + 1);
    SkipUsed(d, 0, s + 1);
  }

  lemma {:induction false} SkipUsed(c: Chunk, k: nat, s: nat)
    requires c.bitmap.Some? && k <= s <= c.blocks <= |c.bitmap.value| && forall j :: k <= j < s ==> c.bitmap.value[j]
    ensures ClearFrom(c, k) == ClearFrom(c, s)
    decreases s - k
  {
    if k < s {
      SkipUsed(c, k + 1, s);
    }
  }

  lemma NoRunNoSupply(c: Chunk)
    requires ChunkOk(c) && !HasRun(c, 1)
    ensures ClearFrom(c, 0) == []
  {
    if c.bitmap.Some? {
      forall j | 0 <= j < c.blocks ensures c.bitmap.value[j] {
        RunOfOne(c, j);
        assert !RunAt(c, j, 1);
      }
    }
    ClearNone(c, 0);
  }

  /** Every clear bit of a chunk is in its supply. */
  lemma {:induction false} ClearCounted(c: Chunk, k: nat)
    requires c.bitmap.Some? && k <= c.blocks <= |c.bitmap.value|
    ensures |ClearFrom(c, k)| + CountClear(c.bitmap.value[..k]) == CountClear(c.bitmap.value[..c.blocks])
    decreases c.blocks - k
  {
    if k < c.blocks {
      ClearCounted(c, k + 1);
      assert c.bitmap.value[..k + 1][..k] == c.bitmap.value[..k];
    }
  }

  lemma {:induction false} FreeFirst(chunks: seq<Chunk>)
    requires chunks != []
    ensures TotalFree(chunks) == chunks[0].free + TotalFree(chunks[1..])
  {
    if |chunks| > 1 {
      var n := |chunks| - 1;
      FreeFirst(chunks[..n]);
      assert chunks[..n][1..] == chunks[1..][..n - 1];
    }
  }

  /** With a bitmap for every chunk, the supply is as long as the free count says. */
  lemma {:induction false} SupplySize(chunks: seq<Chunk>)
    requires forall i :: 0 <= i < |chunks| ==> ChunkOk(chunks[i]) && chunks[i].bitmap.Some?
    ensures |Supply(chunks)| == TotalFree(chunks)
  {
    if chunks != [] {
      hide TotalFree, CountClear;
      assert ChunkOk(chunks[0]);
      SupplySize(chunks[1..]);
      FreeFirst(chunks);
      ClearCounted(chunks[0], 0);
      NoneClear(chunks[0].bitmap.value);
    } else {
      assert TotalFree(chunks) == 0;
    }
  }

  lemma NoneClear(bits: seq<bool>)
    ensures CountClear(bits[..0]) == 0
  {
  }

  /** First fit for one block takes the head of the supply and leaves the rest. */
  lemma {:induction false} SupplyDraw(chunks: seq<Chunk>, next: seq<Chunk>, i: nat, s: nat)
    requires forall j :: 0 <= j < |chunks| ==> ChunkOk(chunks[j])
    requires Took(chunks, next, i, s, 1) && forall j :: 0 <= j < |next| ==> ChunkOk(next[j])
    ensures Supply(chunks) == [chunks[i].addr + s] + Supply(next)
    decreases |chunks|
  {
    hide ChunkOk, RunAt, Flip, HasRun;
    if i == 0 {
      ChunkDraw(chunks[0], s);
      assert next[1..] == chunks[1..];
      ChunkSized(next[0]);
      ConcatAssoc([chunks[0].addr + s], ClearFrom(next[0], 0), Supply(chunks[1..]));
    } else {
      NoRunNoSupply(chunks[0]);
      assert next[0] == chunks[0];
      TookTail(chunks, next, i, s);
      SupplyDraw(chunks[1..], next[1..], i - 1, s);
    }
  }

  lemma TookTail(chunks: seq<Chunk>, next: seq<Chunk>, i: nat, s: nat)
    requires i > 0 && Took(chunks, next, i, s, 1)
    ensures Took(chunks[1..], next[1..], i - 1, s, 1)
  {
    hide RunAt, Flip, HasRun;
    assert next[1..] == chunks[1..][i - 1 := next[i]];
    forall j | 0 <= j < i - 1 ensures !HasRun(chunks[1..][j], 1) {
      assert chunks[1..][j] == chunks[j + 1];
    }
  }

  /** No chunk has a clear block exactly when the supply is empty. */
  lemma {:induction false} SupplyEmpty(chunks: seq<Chunk>)
    requires forall j :: 0 <= j < |chunks| ==> ChunkOk(chunks[j])
    ensures Supply(chunks) == [] <==> forall i :: 0 <= i < |chunks| ==> !HasRun(chunks[i], 1)
  {
    hide ChunkOk, HasRun;
    if chunks != [] {
      SupplyEmpty(chunks[1..]);
      if !HasRun(chunks[0], 1) {
        NoRunNoSupply(chunks[0]);
        assert forall i :: 1 <= i < |chunks| ==> chunks[i] == chunks[1..][i - 1];
      } else {
        HasRunSupplies(chunks[0]);
      }
    }
  }

  lemma HasRunSupplies(c: Chunk)
    requires ChunkOk(c) && HasRun(c, 1)
    ensures ClearFrom(c, 0) != []
  {
    var s: nat :| RunAt(c, s, 1);
    RunOfOne(c, s);
    var t := LeastClear(c, 0, s);
    ClearFirst(c, 0, t);
  }

  lemma {:induction false} LeastClear(c: Chunk, k: nat, s: nat) returns (t: nat)
    requires c.bitmap.Some? && k <= s < c.blocks <= |c.bitmap.value| && !c.bitmap.value[s]
    ensures k <= t <= s && !c.bitmap.value[t] && forall j :: k <= j < t ==> c.bitmap.value[j]
    decreases s - k
  {
    if c.bitmap.value[k] {
      t := LeastClear(c, k + 1, s);
    } else {
      t := k;
    }
  }

  /** The supply is ascending, and none of it is in use. */
  lemma {:induction false} SupplyFacts(chunks: seq<Chunk>, lo: nat, hi: nat)
    requires ChunksOk(chunks) && forall i :: 0 <= i < |chunks| ==>
               lo <= chunks[i].addr && chunks[i].addr + chunks[i].blocks <= hi
    ensures Ascending(Supply(chunks), lo, hi)
    ensures forall p :: p in Supply(chunks) ==> p !in Used(chunks)
    decreases |chunks|
  {
    hide ChunkOk, Uses, Used;
    if chunks != [] {
      var c, rest := chunks[0], chunks[1..];
      ChunkSized(c);
      ClearAscending(c, 0);
      SupplyFacts(rest, c.addr + c.blocks, Max(hi, c.addr + c.blocks));
      forall p | p in Supply(chunks) ensures p !in Used(chunks) {
        if p in ClearFrom(c, 0) {
          OneChunk(chunks, 0, p);
        } else {
          assert p in Supply(rest);
          UsedTail(chunks, p);
        }
      }
    }
  }

  lemma ChunkSized(c: Chunk)
    requires ChunkOk(c)
    ensures c.bitmap.Some? ==> c.blocks <= |c.bitmap.value|
  {
  }

  lemma UsedTail(chunks: seq<Chunk>, p: nat)
    requires chunks != [] && p >= chunks[0].addr + chunks[0].blocks && p !in Used(chunks[1..])
    ensures p !in Used(chunks)
  {
    hide Used;
    UsedIs(chunks, p);
    UsedIs(chunks[1..], p);
    forall j | 0 <= j < |chunks| ensures !Uses(chunks[j], p) {
      if j > 0 {
        assert chunks[1..][j - 1] == chunks[j];
      }
    }
  }

  /** Ascending addresses below 2^64 are what the tree writer's store needs. */
  lemma SupplyFresh(chunks: seq<Chunk>)
    requires ChunksOk(chunks) && forall i :: 0 <= i < |chunks| ==> chunks[i].addr + chunks[i].blocks <= U64
    ensures TreeWriter.Fresh(Supply(chunks)) && forall p :: p in Supply(chunks) ==> p !in Used(chunks)
  {
    hide ChunkOk, Used;
    SupplyFacts(chunks, 0, U64);
  }

  lemma ShapeSame(a: seq<Chunk>)
    ensures SameShape(a, a)
  {
  }

  lemma ShapeTrans(a: seq<Chunk>, b: seq<Chunk>, c: seq<Chunk>)
    requires SameShape(a, b) && SameShape(b, c)
    ensures SameShape(a, c)
  {
  }

  lemma RangeOne(p: nat)
    ensures Range(p, 1) == {p}
  {
  }
}

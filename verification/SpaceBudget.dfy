/**
 * What a run of first-fit allocations costs (src/apfs_update.rs `alloc_range`, `free_range`): a
 * long clear run shrinks by no more than what was taken, wherever it was taken.
 */
module SpaceBudget {
  import opened Bytes
  import opened SpaceManager
  import opened BlockSupply

  /** The blocks single draws can still get. */
  ghost function Stock(chunks: seq<Chunk>): nat {
    if ChunksOk(chunks) then |Supply(chunks)| else 0
  }

  lemma StockIs(chunks: seq<Chunk>)
    requires ChunksOk(chunks)
    ensures Stock(chunks) == |Supply(chunks)|
  {
    hide Supply, ChunkOk;
  }

  /** Blocks of chunks without a bitmap: counted as free, and never handed out. */
  function Bare(chunks: seq<Chunk>): nat {
    if chunks == [] then 0 else (if chunks[0].bitmap.None? then chunks[0].blocks else 0) + Bare(chunks[1..])
  }

  lemma {:induction false} StockCount(chunks: seq<Chunk>)
    requires forall i :: 0 <= i < |chunks| ==> ChunkOk(chunks[i])
    ensures |Supply(chunks)| + Bare(chunks) == TotalFree(chunks)
  {
    if chunks != [] {
      hide TotalFree, CountClear;
      assert ChunkOk(chunks[0]);
      StockCount(chunks[1..]);
      FreeFirst(chunks);
      if chunks[0].bitmap.Some? {
        ClearCounted(chunks[0], 0);
        NoneClear(chunks[0].bitmap.value);
      } else {
        ClearNone(chunks[0], 0);
      }
    } else {
      assert TotalFree(chunks) == 0;
    }
  }

  lemma {:induction false} BareSame(a: seq<Chunk>, b: seq<Chunk>)
    requires SameShape(a, b)
    ensures Bare(a) == Bare(b)
  {
    if a != [] {
      forall i | 0 <= i < |a| - 1 ensures a[1..][i] == a[i + 1] && b[1..][i] == b[i + 1] {
      }
      BareSame(a[1..], b[1..]);
    }
  }

  /** The stock moves as the free count does. */
  lemma StockMoves(before: seq<Chunk>, after: seq<Chunk>)
    requires ChunksOk(before) && ChunksOk(after) && SameShape(after, before)
    ensures Stock(after) - Stock(before) == TotalFree(after) - TotalFree(before)
  {
    hide TotalFree, ChunkOk, SameShape, Supply, Bare;
    StockCount(before);
    StockCount(after);
    BareSame(after, before);
  }

  /** Some chunk has n clear blocks in a row. */
  ghost predicate LongRun(chunks: seq<Chunk>, n: nat) {
    n == 0 || exists i :: 0 <= i < |chunks| && HasRun(chunks[i], n)
  }

  lemma ShorterRun(chunks: seq<Chunk>, n: nat, m: nat)
    requires LongRun(chunks, n) && m <= n
    ensures LongRun(chunks, m)
  {
    if m > 0 {
      var i :| 0 <= i < |chunks| && HasRun(chunks[i], n);
      var s: nat :| RunAt(chunks[i], s, n);
      assert RunAt(chunks[i], s, m);
    }
  }

  /** Clear runs stay clear when blocks are only released. */
  lemma RunStays(before: seq<Chunk>, after: seq<Chunk>, n: nat)
    requires ChunksOk(before) && ChunksOk(after) && SameShape(after, before) && Used(after) <= Used(before)
    requires exists i :: 0 <= i < |before| && HasRun(before[i], n)
    ensures exists i :: 0 <= i < |after| && HasRun(after[i], n)
  {
    hide Used, ChunksOk;
    var i :| 0 <= i < |before| && HasRun(before[i], n);
    var s: nat :| RunAt(before[i], s, n);
    var b, a := before[i], after[i];
    ChunkFacts(after, i);
    forall k | s <= k < s + n ensures !a.bitmap.value[..a.blocks][k] {
      assert !b.bitmap.value[..b.blocks][k];
      OneChunk(before, i, b.addr + k);
      OneChunk(after, i, a.addr + k);
    }
    assert RunAt(a, s, n);
  }

  /** First fit takes the earliest place, so of a longer run at least the difference is left. */
  lemma RunLeft(before: seq<Chunk>, after: seq<Chunk>, c: nat, s: nat, n: nat, total: nat)
    requires Took(before, after, c, s, n) && LongRun(before, total) && 0 < n <= total
    ensures LongRun(after, total - n)
  {
    if total > n {
      var i :| 0 <= i < |before| && HasRun(before[i], total);
      var at: nat :| RunAt(before[i], at, total);
      if i != c {
        RunWithin(before[i], at, total, at, total - n);
        assert after[i] == before[i];
        HasRunAt(after[i], at, total - n);
      } else {
        RunWithin(before[c], at, total, at, n);
        assert s <= at;
        var from := Max(at, s + n);
        RunWithin(before[c], at, total, from, total - n);
        RunUntouched(before[c], s, n, from, total - n);
        HasRunAt(after[c], from, total - n);
      }
    }
  }

  lemma HasRunAt(c: Chunk, s: nat, n: nat)
    requires RunAt(c, s, n)
    ensures HasRun(c, n)
  {
  }

  lemma RunWithin(c: Chunk, at: nat, total: nat, from: nat, n: nat)
    requires RunAt(c, at, total) && at <= from && from + n <= at + total
    ensures RunAt(c, from, n)
  {
  }

  lemma RunUntouched(c: Chunk, s: nat, n: nat, from: nat, m: nat)
    requires c.bitmap.Some? && s + n <= c.blocks <= |c.bitmap.value| && n <= c.free && RunAt(c, from, m) &&
             s + n <= from
    ensures RunAt(Flip(c, s, n, true), from, m)
  {
    var d := Flip(c, s, n, true);
    forall k | from <= k < from + m ensures !d.bitmap.value[..d.blocks][k] {
      assert !c.bitmap.value[..c.blocks][k];
    }
  }

  /** In chunks of equal size side by side, a run taken from a chunk is found there by its number. */
  lemma TakenInOne(before: seq<Chunk>, after: seq<Chunk>, perChunk: nat, c: nat, s: nat, n: nat)
    requires perChunk > 0 && Tiled(before, perChunk) && Took(before, after, c, s, n) && n > 0 &&
             SameShape(after, before)
    ensures InOneChunk(after, perChunk, before[c].addr + s, n)
  {
    hide HasRun;
    assert RunAt(before[c], s, n);
    DivMod(c, perChunk, s);
  }

  lemma ShapeTiled(a: seq<Chunk>, b: seq<Chunk>, perChunk: nat)
    requires SameShape(a, b) && Tiled(b, perChunk)
    ensures Tiled(a, perChunk)
  {
  }

  lemma ShapeInOne(a: seq<Chunk>, b: seq<Chunk>, perChunk: nat, p: nat, n: nat)
    requires SameShape(a, b) && InOneChunk(b, perChunk, p, n)
    ensures InOneChunk(a, perChunk, p, n)
  {
  }

  /**
   * What moving a file to the n blocks at p cost: the shape of the chunks is kept, the stock has
   * lost n blocks at most, and of every clear run that was long enough all but n are left.
   */
  ghost predicate Spent(before: seq<Chunk>, after: seq<Chunk>, perChunk: nat, p: nat, n: nat) {
    && SameShape(after, before) && Stock(before) <= Stock(after) + n
    && (forall total: nat :: n <= total && LongRun(before, total) ==> LongRun(after, total - n))
    && (perChunk > 0 && Tiled(before, perChunk) ==> InOneChunk(after, perChunk, p, n))
  }

  /** What drawing n blocks cost: the same, wherever they lie. */
  ghost predicate Shrunk(before: seq<Chunk>, after: seq<Chunk>, n: nat) {
    && SameShape(after, before) && Stock(before) <= Stock(after) + n
    && (forall total: nat :: n <= total && LongRun(before, total) ==> LongRun(after, total - n))
  }

  lemma ShrunkNone(chunks: seq<Chunk>)
    ensures Shrunk(chunks, chunks, 0)
  {
    hide Stock, LongRun;
    ShapeSame(chunks);
  }

  lemma ShrunkThrough(a: seq<Chunk>, b: seq<Chunk>, c: seq<Chunk>, n: nat, m: nat)
    requires Shrunk(a, b, n) && Shrunk(b, c, m)
    ensures Shrunk(a, c, n + m)
  {
    hide Stock, LongRun, SameShape;
    ShapeTrans(c, b, a);
    forall total: nat | n + m <= total && LongRun(a, total) ensures LongRun(c, total - (n + m)) {
      assert LongRun(b, total - n);
      assert LongRun(c, total - n - m);
    }
  }

  lemma ShrunkMore(before: seq<Chunk>, after: seq<Chunk>, n: nat, m: nat)
    requires Shrunk(before, after, n) && n <= m
    ensures Shrunk(before, after, m)
  {
    hide Stock, SameShape;
    forall total: nat | m <= total && LongRun(before, total) ensures LongRun(after, total - m) {
      ShorterRun(after, total - n, total - m);
    }
  }

  /** One block by first fit. */
  lemma ShrunkOne(before: seq<Chunk>, after: seq<Chunk>, c: nat, s: nat)
    requires ChunksOk(before) && ChunksOk(after) && SameShape(after, before) && Took(before, after, c, s, 1)
    requires |Supply(after)| + 1 == |Supply(before)|
    ensures Shrunk(before, after, 1)
  {
    hide Supply, ChunkOk, SameShape, Took;
    forall total: nat | 1 <= total && LongRun(before, total) ensures LongRun(after, total - 1) {
      RunLeft(before, after, c, s, 1, total);
    }
  }

  /** Draws n single blocks; they are the first n of the supply. */
  method Draw(sm: SpacemanContext, n: nat)
    requires sm.Valid() && n <= |Supply(sm.chunks)|
    modifies sm
    ensures sm.Valid() && SameShape(sm.chunks, old(sm.chunks))
    ensures Supply(sm.chunks) == Supply(old(sm.chunks))[n..]
    ensures Used(sm.chunks) == Used(old(sm.chunks)) + set p | p in Supply(old(sm.chunks))[..n]
    ensures Shrunk(old(sm.chunks), sm.chunks, n)
  {
    hide ChunkOk, Used, SameShape, TotalFree, Supply, HasRun, Took, Range, Shrunk, Tracked;
    ShapeSame(sm.chunks);
    ShrunkNone(sm.chunks);
    for i := 0 to n
      invariant sm.Valid() && SameShape(sm.chunks, old(sm.chunks))
      invariant Supply(sm.chunks) == Supply(old(sm.chunks))[i..]
      invariant Used(sm.chunks) == Used(old(sm.chunks)) + set p | p in Supply(old(sm.chunks))[..i]
      invariant Shrunk(old(sm.chunks), sm.chunks, i)
    {
      ghost var before := sm.chunks;
      SupplyEmpty(before);
      var r := sm.AllocRange(1);
      ghost var c, s: nat :| 0 <= c < |before| && Took(before, sm.chunks, c, s, 1) && r.value == before[c].addr + s;
      SupplyDraw(before, sm.chunks, c, s);
      ShapeTrans(sm.chunks, before, old(sm.chunks));
      ShrunkOne(before, sm.chunks, c, s);
      ShrunkThrough(old(sm.chunks), before, sm.chunks, i, 1);
      RangeOne(r.value);
      assert Supply(old(sm.chunks))[..i + 1] == Supply(old(sm.chunks))[..i] + [r.value];
    }
  }

  /** Releasing some blocks, then taking n. */
  lemma MoveSpent(before: seq<Chunk>, between: seq<Chunk>, after: seq<Chunk>, perChunk: nat, c: nat, s: nat, n: nat)
    requires ChunksOk(before) && ChunksOk(between) && ChunksOk(after) && n > 0
    requires SameShape(between, before) && Used(between) <= Used(before) && TotalFree(before) <= TotalFree(between)
    requires Took(between, after, c, s, n) && SameShape(after, between) && TotalFree(after) == TotalFree(between) - n
    ensures Spent(before, after, perChunk, between[c].addr + s, n)
  {
    hide ChunksOk, Used, TotalFree, Took, Tiled, InOneChunk, HasRun;
    StockMoves(before, between);
    StockMoves(between, after);
    forall total: nat | n <= total && LongRun(before, total) ensures LongRun(after, total - n) {
      RunStays(before, between, total);
      RunLeft(between, after, c, s, n, total);
    }
    if perChunk > 0 && Tiled(before, perChunk) {
      ShapeTiled(between, before, perChunk);
      TakenInOne(between, after, perChunk, c, s, n);
    }
    ShapeTrans(after, between, before);
  }
}

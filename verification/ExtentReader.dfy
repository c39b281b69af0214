/**
 * Reading a file through its extents: the windowed reader (src/apfs_read.rs `stream_spans`) and
 * the whole-file reader (`read_data_stream`), against the meaning of an extent list byte by byte.
 */
module ExtentReader {
  import opened Bytes

  /** `length` bytes of the file from `logical` are at block `physical`; physical 0 is a hole. */
  datatype Span = Span(logical: nat, length: nat, physical: nat)

  const STREAM_RUN_BLOCKS: nat := 1024

  type Disk = map<nat, seq<byte>>

  predicate WholeDisk(disk: Disk, bs: nat) {
    forall b :: b in disk ==> |disk[b]| == bs
  }

  /** Byte `off` of the run of blocks that begins at `block`. */
  function DiskByte(disk: Disk, bs: nat, block: nat, off: nat): byte
    requires bs > 0
  {
    var b, o := block + off / bs, off % bs;
    if b in disk && o < |disk[b]| then disk[b][o] else 0
  }

  /** Where a span ends, cut at the end of the file. */
  function SpanEnd(s: Span, size: nat): nat {
    if s.logical < size then s.logical + Min(s.length, size - s.logical) else s.logical
  }

  predicate Covers(s: Span, size: nat, b: nat) {
    s.physical != 0 && s.logical <= b < SpanEnd(s, size)
  }

  /** The first span that covers byte b. */
  function First(spans: seq<Span>, size: nat, b: nat): Option<nat> {
    if spans == [] then None else
    var earlier := First(spans[..|spans| - 1], size, b);
    if earlier.Some? then earlier else if Covers(spans[|spans| - 1], size, b) then Some(|spans| - 1) else None
  }

  /** The last span that covers byte b. */
  function Last(spans: seq<Span>, size: nat, b: nat): Option<nat> {
    if spans == [] then None
    else if Covers(spans[|spans| - 1], size, b) then Some(|spans| - 1)
    else Last(spans[..|spans| - 1], size, b)
  }

  lemma {:induction false} FirstIs(spans: seq<Span>, size: nat, b: nat)
    ensures match First(spans, size, b)
            case None => forall i :: 0 <= i < |spans| ==> !Covers(spans[i], size, b)
            case Some(k) =>
              k < |spans| && Covers(spans[k], size, b) && forall i :: 0 <= i < k ==> !Covers(spans[i], size, b)
  {
    if spans != [] {
      FirstIs(spans[..|spans| - 1], size, b);
    }
  }

  lemma {:induction false} LastIs(spans: seq<Span>, size: nat, b: nat)
    ensures match Last(spans, size, b)
            case None => forall i :: 0 <= i < |spans| ==> !Covers(spans[i], size, b)
            case Some(k) =>
              k < |spans| && Covers(spans[k], size, b) && forall i :: k < i < |spans| ==> !Covers(spans[i], size, b)
  {
    if spans != [] {
      LastIs(spans[..|spans| - 1], size, b);
    }
  }

  /** The byte a span gives for position b. */
  function SpanByte(disk: Disk, bs: nat, s: Span, b: nat): byte
    requires bs > 0 && s.logical <= b
  {
    DiskByte(disk, bs, s.physical, b - s.logical)
  }

  /** What the windowed reader should give at b: the first covering span's byte, or zero. */
  function FirstByte(spans: seq<Span>, size: nat, disk: Disk, bs: nat, b: nat): byte
    requires bs > 0
  {
    FirstIs(spans, size, b);
    match First(spans, size, b)
    case None => 0
    case Some(k) => SpanByte(disk, bs, spans[k], b)
  }

  /** What the whole-file reader gives at b: the last covering span's byte, or zero. */
  function LastByte(spans: seq<Span>, size: nat, disk: Disk, bs: nat, b: nat): byte
    requires bs > 0
  {
    LastIs(spans, size, b);
    match Last(spans, size, b)
    case None => 0
    case Some(k) => SpanByte(disk, bs, spans[k], b)
  }

  // ---- arithmetic of runs --------------------------------------------------------------------------------

  /** Off by whole blocks is the same byte of a later block. */
  lemma ShiftBlocks(disk: Disk, bs: nat, block: nat, q: nat, m: nat)
    requires bs > 0
    ensures DiskByte(disk, bs, block, q * bs + m) == DiskByte(disk, bs, block + q, m)
  {
    var d, r := m / bs, m % bs;
    assert m == d * bs + r;
    DivMod(d, bs, r);
    assert (q + d) * bs == q * bs + d * bs;
    DivMod(q + d, bs, r);
  }

  /** The blocks [block, block + n), one after the other. */
  function Run(disk: Disk, block: nat, n: nat): seq<byte>
    requires forall k :: block <= k < block + n ==> k in disk
  {
    if n == 0 then [] else Run(disk, block, n - 1) + disk[block + n - 1]
  }

  lemma {:induction false} RunBytes(disk: Disk, bs: nat, block: nat, n: nat)
    requires bs > 0 && WholeDisk(disk, bs) && forall k :: block <= k < block + n ==> k in disk
    ensures |Run(disk, block, n)| == n * bs
    ensures forall k :: 0 <= k < n * bs ==> Run(disk, block, n)[k] == DiskByte(disk, bs, block, k)
  {
    if n > 0 {
      RunBytes(disk, bs, block, n - 1);
      assert n * bs == (n - 1) * bs + bs;
      forall k | 0 <= k < n * bs ensures Run(disk, block, n)[k] == DiskByte(disk, bs, block, k) {
        if k >= (n - 1) * bs {
          var m := k - (n - 1) * bs;
          InBlock(disk, bs, block, n - 1, m);
        }
      }
    }
  }

  lemma InBlock(disk: Disk, bs: nat, block: nat, q: nat, m: nat)
    requires m < bs && WholeDisk(disk, bs) && block + q in disk
    ensures DiskByte(disk, bs, block, q * bs + m) == disk[block + q][m]
  {
    DivMod(q, bs, m);
  }

  /** Reads a run of blocks; fails exactly when one of them is outside the container. */
  method ReadRun(disk: Disk, bs: nat, block: nat, n: nat) returns (r: Result<seq<byte>>)
    requires bs > 0 && WholeDisk(disk, bs)
    ensures r.Ok? <==> forall k :: block <= k < block + n ==> k in disk
    ensures r.Ok? ==> |r.value| == n * bs && forall k :: 0 <= k < n * bs ==> r.value[k] == DiskByte(disk, bs, block, k)
  {
    hide DiskByte, WholeDisk;
    var into: seq<byte> := [];
    for i := 0 to n
      invariant forall k :: block <= k < block + i ==> k in disk
      invariant into == Run(disk, block, i)
    {
      if block + i !in disk {
        return Err(OutsideContainer);
      }
      into := into + disk[block + i];
    }
    RunBytes(disk, bs, block, n);
    r := Ok(into);
  }

  /** The block that holds position b of a span. */
  function SpanBlock(s: Span, bs: nat, b: nat): nat
    requires bs > 0 && s.logical <= b
  {
    s.physical + (b - s.logical) / bs
  }

  ghost predicate Present(disk: Disk, bs: nat, s: Span, from: nat, to: nat)
    requires bs > 0 && s.logical <= from
  {
    forall b: nat :: from <= b < to ==> SpanBlock(s, bs, b) in disk
  }

  /** What one run read for position `at` gives, and which blocks it needed. */
  lemma ChunkBytes(disk: Disk, bs: nat, s: Span, at: nat, n: nat, k: nat)
    requires bs > 0 && s.logical <= at
    requires var skip := (at - s.logical) % bs; skip + k < n * bs
    ensures var q, skip := (at - s.logical) / bs, (at - s.logical) % bs;
            && DiskByte(disk, bs, s.physical + q, skip + k) == SpanByte(disk, bs, s, at + k)
            && s.physical + q <= SpanBlock(s, bs, at + k) < s.physical + q + n
  {
    hide DiskByte;
    var within := at - s.logical;
    var q, skip := within / bs, within % bs;
    assert within == q * bs + skip;
    ShiftBlocks(disk, bs, s.physical, q, skip + k);
    BlockOf(q, bs, skip + k, n);
  }

  lemma BlockOf(q: nat, bs: nat, m: nat, n: nat)
    requires bs > 0 && m < n * bs
    ensures q <= (q * bs + m) / bs < q + n
  {
    var d, r := m / bs, m % bs;
    assert m == d * bs + r;
    assert (q + d) * bs == q * bs + d * bs;
    DivMod(q + d, bs, r);
    if d >= n {
      MulMono(n, d, bs);
    }
  }

  /** A missing block of the run holds a byte that is wanted. */
  lemma MissingNeeded(bs: nat, s: Span, at: nat, wanted: nat, j: nat)
    requires bs > 0 && s.logical <= at && wanted > 0 && j < DivCeil((at - s.logical) % bs + wanted, bs)
    ensures exists b: nat :: at <= b < at + wanted && SpanBlock(s, bs, b) == s.physical + (at - s.logical) / bs + j
  {
    hide DivCeil, SpanBlock;
    var within := at - s.logical;
    NeededAt(bs, s, at, wanted, j, within / bs, within % bs);
  }

  lemma NeededAt(bs: nat, s: Span, at: nat, wanted: nat, j: nat, q: nat, skip: nat)
    requires bs > 0 && s.logical <= at && wanted > 0 && skip < bs && at - s.logical == q * bs + skip
    requires j < DivCeil(skip + wanted, bs)
    ensures exists b: nat :: at <= b < at + wanted && SpanBlock(s, bs, b) == s.physical + q + j
  {
    hide DivCeil;
    var k: nat := 0;
    if j == 0 {
      DivMod(q, bs, skip);
    } else {
      k := LaterBlock(skip, wanted, bs, j, q);
    }
    BlockNumber(s, bs, at + k, q * bs + skip + k);
    assert SpanBlock(s, bs, at + k) == s.physical + q + j;
  }

  lemma BlockNumber(s: Span, bs: nat, b: nat, within: nat)
    requires bs > 0 && s.logical <= b && within == b - s.logical
    ensures SpanBlock(s, bs, b) == s.physical + within / bs
  {
  }

  lemma LaterBlock(skip: nat, wanted: nat, bs: nat, j: nat, q: nat) returns (k: nat)
    requires skip < bs && 0 < j < DivCeil(skip + wanted, bs)
    ensures k < wanted && (q * bs + skip + k) / bs == q + j
  {
    var total := DivCeil(skip + wanted, bs);
    MulMono(j, total - 1, bs);
    StepOver(j, bs);
    k := j * bs - skip;
    assert q * bs + skip + k == (q + j) * bs + 0;
    DivMod(q + j, bs, 0);
  }

  /** How far into its block position b is. */
  function Skip(s: Span, bs: nat, b: nat): (r: nat)
    requires bs > 0 && s.logical <= b
    ensures r < bs
  {
    (b - s.logical) % bs
  }

  /** One run: as many positions from `at` on as fit a buffer of a thousand blocks. */
  method StreamRun(disk: Disk, bs: nat, s: Span, at: nat, to: nat) returns (r: Result<seq<byte>>)
    requires bs > 0 && WholeDisk(disk, bs) && s.logical <= at < to
    ensures r.Err? ==> !Present(disk, bs, s, at, to)
    ensures r.Ok? ==> 0 < |r.value| <= to - at && Present(disk, bs, s, at, at + |r.value|)
    ensures r.Ok? ==> forall b: nat :: at <= b < at + |r.value| ==> r.value[b - at] == SpanByte(disk, bs, s, b)
  {
    hide DiskByte, WholeDisk, SpanByte, DivCeil, SpanBlock, Skip, Present;
    var block, skip, wanted := SpanBlock(s, bs, at), Skip(s, bs, at), to - at;
    var n := Min(DivCeil(skip + wanted, bs), STREAM_RUN_BLOCKS);
    RunSize(skip, wanted, bs, n);
    var run := ReadRun(disk, bs, block, n);
    if run.Err? {
      RunMissing(disk, bs, s, at, to, n);
      return Err(run.error);
    }
    var take := Min(wanted, n * bs - skip);
    RunSlice(disk, bs, s, at, n, run.value, take);
    r := Ok(run.value[skip..skip + take]);
  }

  lemma RunSlice(disk: Disk, bs: nat, s: Span, at: nat, n: nat, run: seq<byte>, take: nat)
    requires bs > 0 && s.logical <= at && |run| == n * bs && Skip(s, bs, at) + take <= n * bs
    requires forall k :: 0 <= k < n * bs ==> run[k] == DiskByte(disk, bs, SpanBlock(s, bs, at), k)
    requires forall k :: SpanBlock(s, bs, at) <= k < SpanBlock(s, bs, at) + n ==> k in disk
    ensures Present(disk, bs, s, at, at + take)
    ensures var bytes := run[Skip(s, bs, at)..Skip(s, bs, at) + take];
            forall b: nat :: at <= b < at + take ==> bytes[b - at] == SpanByte(disk, bs, s, b)
  {
    hide DiskByte, SpanByte;
    var skip, first := Skip(s, bs, at), SpanBlock(s, bs, at);
    forall b: nat | at <= b < at + take
      ensures run[skip..skip + take][b - at] == SpanByte(disk, bs, s, b) && SpanBlock(s, bs, b) in disk
    {
      ChunkBytes(disk, bs, s, at, n, b - at);
      assert run[skip..skip + take][b - at] == run[skip + (b - at)];
    }
  }

  /** Copies positions [from, to) of a span, run by run. */
  method StreamSpan(disk: Disk, bs: nat, s: Span, from: nat, to: nat) returns (r: Result<seq<byte>>)
    requires bs > 0 && WholeDisk(disk, bs) && s.logical <= from <= to
    ensures r.Ok? <==> Present(disk, bs, s, from, to)
    ensures r.Ok? ==>
              |r.value| == to - from && forall b: nat :: from <= b < to ==>
                r.value[b - from] == SpanByte(disk, bs, s, b)
  {
    hide WholeDisk, SpanByte, SpanBlock;
    var out: seq<byte> := [];
    var at := from;
    while at < to
      invariant from <= at <= to && |out| == at - from && Present(disk, bs, s, from, at)
      invariant forall b: nat :: from <= b < at ==> out[b - from] == SpanByte(disk, bs, s, b)
    {
      var run := StreamRun(disk, bs, s, at, to);
      if run.Err? {
        return Err(run.error);
      }
      ghost var before := out;
      out := out + run.value;
      forall b: nat | from <= b < at + |run.value| ensures out[b - from] == SpanByte(disk, bs, s, b) {
        if b < at {
          assert out[b - from] == before[b - from];
        } else {
          assert out[b - from] == run.value[b - at];
        }
      }
      at := at + |run.value|;
    }
    r := Ok(out);
  }

  lemma RunSize(skip: nat, wanted: nat, bs: nat, n: nat)
    requires skip < bs && wanted > 0 && n == Min(DivCeil(skip + wanted, bs), STREAM_RUN_BLOCKS)
    ensures 1 <= n <= DivCeil(skip + wanted, bs) && n * bs > skip
  {
    var total := DivCeil(skip + wanted, bs);
    assert total * bs >= 1 && 0 * bs == 0;
    StepOver(n, bs);
  }

  lemma RunMissing(disk: Disk, bs: nat, s: Span, at: nat, to: nat, n: nat)
    requires bs > 0 && s.logical <= at < to && n <= DivCeil(Skip(s, bs, at) + (to - at), bs)
    requires exists k :: SpanBlock(s, bs, at) <= k < SpanBlock(s, bs, at) + n && k !in disk
    ensures !Present(disk, bs, s, at, to)
  {
    hide DivCeil;
    var first := SpanBlock(s, bs, at);
    var k :| first <= k < first + n && k !in disk;
    MissingNeeded(bs, s, at, to - at, k - first);
  }

  // ---- the windowed reader ---------------------------------------------------------------------------------

  predicate InOrder(spans: seq<Span>) {
    forall i, j :: 0 <= i < j < |spans| ==> spans[i].logical <= spans[j].logical
  }

  /** How many bytes of [start, end) no span covers. */
  function Holes(spans: seq<Span>, size: nat, start: nat, end: nat): nat
    decreases end
  {
    if start >= end then 0 else Holes(spans, size, start, end - 1) + if First(spans, size, end - 1).None? then 1 else 0
  }

  lemma {:induction false} AllHoles(spans: seq<Span>, size: nat, start: nat, from: nat, limit: nat)
    requires start <= from <= limit && forall b: nat :: from <= b < limit ==> First(spans, size, b).None?
    ensures Holes(spans, size, start, limit) == Holes(spans, size, start, from) + (limit - from)
    decreases limit
  {
    if from < limit {
      AllHoles(spans, size, start, from, limit - 1);
    }
  }

  lemma {:induction false} NoHoles(spans: seq<Span>, size: nat, start: nat, from: nat, limit: nat)
    requires start <= from <= limit && forall b: nat :: from <= b < limit ==> First(spans, size, b).Some?
    ensures Holes(spans, size, start, limit) == Holes(spans, size, start, from)
    decreases limit
  {
    if from < limit {
      NoHoles(spans, size, start, from, limit - 1);
    }
  }

  lemma FirstAt(spans: seq<Span>, size: nat, b: nat, i: nat)
    requires i < |spans| && Covers(spans[i], size, b) && forall j :: 0 <= j < i ==> !Covers(spans[j], size, b)
    ensures First(spans, size, b) == Some(i)
  {
    hide Covers;
    FirstIs(spans, size, b);
  }

  lemma FirstNone(spans: seq<Span>, size: nat, b: nat)
    requires forall j :: 0 <= j < |spans| ==> !Covers(spans[j], size, b)
    ensures First(spans, size, b).None?
  {
    hide Covers;
    FirstIs(spans, size, b);
  }

  /** Everything before the cursor is written as it should be, and no span before i reaches past it. */
  ghost predicate Streamed(spans: seq<Span>, size: nat, start: nat, end: nat, disk: Disk, bs: nat, i: nat,
                           cursor: nat, out: seq<byte>, sparse: nat)
    requires bs > 0
  {
    && start <= cursor <= end && |out| == cursor - start && i <= |spans|
    && (forall b: nat :: start <= b < cursor ==> out[b - start] == FirstByte(spans, size, disk, bs, b))
    && sparse == Holes(spans, size, start, cursor)
    && (forall j, b: nat :: 0 <= j < i && cursor <= b < end ==> !Covers(spans[j], size, b))
  }

  lemma StreamStart(spans: seq<Span>, size: nat, start: nat, end: nat, disk: Disk, bs: nat)
    requires bs > 0 && start <= end
    ensures Streamed(spans, size, start, end, disk, bs, 0, start, [], 0)
  {
  }

  /** A stretch no span covers, filled with zeroes. */
  lemma StreamZeros(spans: seq<Span>, size: nat, start: nat, end: nat, disk: Disk, bs: nat, i: nat, cursor: nat,
                    out: seq<byte>, sparse: nat, to: nat, zeros: seq<byte>)
    requires bs > 0 && Streamed(spans, size, start, end, disk, bs, i, cursor, out, sparse) && InOrder(spans)
    requires cursor <= to <= end && (i < |spans| ==> to <= spans[i].logical)
    requires |zeros| == to - cursor && forall k :: 0 <= k < |zeros| ==> zeros[k] == 0
    ensures Streamed(spans, size, start, end, disk, bs, i, to, out + zeros, sparse + (to - cursor))
  {
    hide SpanByte, Holes, First;
    forall b: nat | cursor <= b < to ensures First(spans, size, b).None? {
      forall j | 0 <= j < |spans| ensures !Covers(spans[j], size, b) {
        assert j >= i ==> spans[i].logical <= spans[j].logical;
      }
      FirstNone(spans, size, b);
    }
    AllHoles(spans, size, start, cursor, to);
  }

  /** The part of span i that lies past the cursor. */
  lemma StreamData(spans: seq<Span>, size: nat, start: nat, end: nat, disk: Disk, bs: nat, i: nat, cursor: nat,
                   out: seq<byte>, sparse: nat, to: nat, data: seq<byte>)
    requires bs > 0 && Streamed(spans, size, start, end, disk, bs, i, cursor, out, sparse) && i < |spans|
    requires var s := spans[i];
             s.physical != 0 && s.logical < size && s.logical <= cursor <= to && to == Min(end, SpanEnd(s, size))
    requires |data| == to - cursor && forall b: nat :: cursor <= b < to ==>
               data[b - cursor] == SpanByte(disk, bs, spans[i], b)
    ensures Streamed(spans, size, start, end, disk, bs, i + 1, to, out + data, sparse)
  {
    hide SpanByte, Holes, First;
    forall b: nat | cursor <= b < to ensures First(spans, size, b) == Some(i) {
      FirstAt(spans, size, b, i);
    }
    NoHoles(spans, size, start, cursor, to);
  }

  /** A span with nothing past the cursor. */
  lemma StreamSkip(spans: seq<Span>, size: nat, start: nat, end: nat, disk: Disk, bs: nat, i: nat, cursor: nat,
                   out: seq<byte>, sparse: nat)
    requires bs > 0 && Streamed(spans, size, start, end, disk, bs, i, cursor, out, sparse) && i < |spans|
    requires var s := spans[i];
             s.physical == 0 || s.logical >= size || Max(cursor, s.logical) >= Min(end, SpanEnd(s, size))
    ensures Streamed(spans, size, start, end, disk, bs, i + 1, cursor, out, sparse)
  {
    hide FirstByte, Holes;
  }

  /** Some byte of the window lies in a block that is not there. */
  ghost predicate Missing(spans: seq<Span>, size: nat, start: nat, end: nat, disk: Disk, bs: nat)
    requires bs > 0
  {
    exists b: nat :: start <= b < end && Lost(spans, size, disk, bs, b)
  }

  ghost predicate Lost(spans: seq<Span>, size: nat, disk: Disk, bs: nat, b: nat)
    requires bs > 0
  {
    FirstIs(spans, size, b);
    First(spans, size, b).Some? && SpanBlock(spans[First(spans, size, b).value], bs, b) !in disk
  }

  lemma StreamLost(spans: seq<Span>, size: nat, start: nat, end: nat, disk: Disk, bs: nat, i: nat, cursor: nat,
                   out: seq<byte>, sparse: nat, to: nat)
    requires bs > 0 && Streamed(spans, size, start, end, disk, bs, i, cursor, out, sparse) && i < |spans|
    requires var s := spans[i];
             s.physical != 0 && s.logical < size && s.logical <= cursor <= to && to == Min(end, SpanEnd(s, size))
    requires !Present(disk, bs, spans[i], cursor, to)
    ensures Missing(spans, size, start, end, disk, bs)
  {
    hide SpanByte, Holes, First, SpanBlock;
    var b: nat :| cursor <= b < to && SpanBlock(spans[i], bs, b) !in disk;
    FirstAt(spans, size, b, i);
    assert Lost(spans, size, disk, bs, b);
  }

  /** No byte of the stretch is lost. */
  ghost predicate NoneLost(spans: seq<Span>, size: nat, disk: Disk, bs: nat, lo: nat, hi: nat)
    requires bs > 0
  {
    forall b: nat :: lo <= b < hi ==> !Lost(spans, size, disk, bs, b)
  }

  lemma GapNotLost(spans: seq<Span>, size: nat, start: nat, end: nat, disk: Disk, bs: nat, i: nat, cursor: nat,
                   out: seq<byte>, sparse: nat, to: nat)
    requires bs > 0 && Streamed(spans, size, start, end, disk, bs, i, cursor, out, sparse) && InOrder(spans)
    requires cursor <= to <= end && (i < |spans| ==> to <= spans[i].logical) &&
             NoneLost(spans, size, disk, bs, start, cursor)
    ensures NoneLost(spans, size, disk, bs, start, to)
  {
    hide SpanByte, Holes, First, FirstByte, SpanBlock;
    forall b: nat | start <= b < to ensures !Lost(spans, size, disk, bs, b) {
      if cursor <= b {
        forall j | 0 <= j < |spans| ensures !Covers(spans[j], size, b) {
          assert j >= i ==> spans[i].logical <= spans[j].logical;
        }
        FirstNone(spans, size, b);
      }
    }
  }

  lemma DataNotLost(spans: seq<Span>, size: nat, start: nat, end: nat, disk: Disk, bs: nat, i: nat, cursor: nat,
                    out: seq<byte>, sparse: nat, to: nat)
    requires bs > 0 && Streamed(spans, size, start, end, disk, bs, i, cursor, out, sparse) && i < |spans|
    requires var s := spans[i];
             s.physical != 0 && s.logical < size && s.logical <= cursor <= to && to == Min(end, SpanEnd(s, size))
    requires Present(disk, bs, spans[i], cursor, to) && NoneLost(spans, size, disk, bs, start, cursor)
    ensures NoneLost(spans, size, disk, bs, start, to)
  {
    hide SpanByte, Holes, First, FirstByte, SpanBlock;
    forall b: nat | start <= b < to ensures !Lost(spans, size, disk, bs, b) {
      if cursor <= b {
        FirstAt(spans, size, b, i);
      }
    }
  }

  lemma NoneMissing(spans: seq<Span>, size: nat, start: nat, end: nat, disk: Disk, bs: nat)
    requires bs > 0 && NoneLost(spans, size, disk, bs, start, end)
    ensures !Missing(spans, size, start, end, disk, bs)
  {
    hide Lost;
  }

  /**
   * Writes the bytes [start, end) of a file. Each is the byte of the first span that covers it,
   * or zero if none does; `sparse` counts exactly the latter. It fails exactly when a byte of the
   * window lies in a block outside the container.
   */
  method StreamSpans(spans: seq<Span>, size: nat, start: nat, end: nat, disk: Disk, bs: nat)
      returns (r: Result<(seq<byte>, nat)>)
    requires bs > 0 && WholeDisk(disk, bs) && InOrder(spans) && start <= end <= size
    ensures r.Ok? ==> |r.value.0| == end - start && r.value.1 == Holes(spans, size, start, end)
    ensures r.Ok? ==> forall b: nat :: start <= b < end ==> r.value.0[b - start] == FirstByte(spans, size, disk, bs, b)
    ensures r.Err? <==> Missing(spans, size, start, end, disk, bs)
  {
    hide WholeDisk, InOrder, Streamed, FirstByte, Holes, Present, SpanByte, Missing, Covers, Lost;
    var cursor: nat, sparse: nat, out: seq<byte> := start, 0, [];
    StreamStart(spans, size, start, end, disk, bs);
    for i := 0 to |spans|
      invariant start <= cursor <= end && Streamed(spans, size, start, end, disk, bs, i, cursor, out, sparse)
      invariant NoneLost(spans, size, disk, bs, start, cursor)
    {
      var s := spans[i];
      if cursor >= end {
        StreamSkip(spans, size, start, end, disk, bs, i, cursor, out, sparse);
        continue;
      }
      if s.physical == 0 || s.logical >= size {
        StreamSkip(spans, size, start, end, disk, bs, i, cursor, out, sparse);
        continue;
      }
      var spanEnd := s.logical + Min(s.length, size - s.logical);
      var from, to := Max(cursor, s.logical), Min(end, spanEnd);
      if from >= to {
        StreamSkip(spans, size, start, end, disk, bs, i, cursor, out, sparse);
        continue;
      }
      if from > cursor {
        GapNotLost(spans, size, start, end, disk, bs, i, cursor, out, sparse, from);
        StreamZeros(spans, size, start, end, disk, bs, i, cursor, out, sparse, from, Zeros(from - cursor));
        out := out + Zeros(from - cursor);
        sparse := sparse + (from - cursor);
      }
      var data := StreamSpan(disk, bs, s, from, to);
      if data.Err? {
        StreamLost(spans, size, start, end, disk, bs, i, from, out, sparse, to);
        return Err(data.error);
      }
      DataNotLost(spans, size, start, end, disk, bs, i, from, out, sparse, to);
      StreamData(spans, size, start, end, disk, bs, i, from, out, sparse, to, data.value);
      out := out + data.value;
      cursor := to;
    }
    GapNotLost(spans, size, start, end, disk, bs, |spans|, cursor, out, sparse, end);
    NoneMissing(spans, size, start, end, disk, bs);
    StreamZeros(spans, size, start, end, disk, bs, |spans|, cursor, out, sparse, end, Zeros(end - cursor));
    out := out + Zeros(end - cursor);
    sparse := sparse + (end - cursor);
    StreamDone(spans, size, start, end, disk, bs, out, sparse);
    r := Ok((out, sparse));
  }

  lemma StreamDone(spans: seq<Span>, size: nat, start: nat, end: nat, disk: Disk, bs: nat, out: seq<byte>, sparse: nat)
    requires bs > 0 && Streamed(spans, size, start, end, disk, bs, |spans|, end, out, sparse)
    ensures |out| == end - start && sparse == Holes(spans, size, start, end)
    ensures forall b: nat :: start <= b < end ==> out[b - start] == FirstByte(spans, size, disk, bs, b)
  {
  }

  /** The window [start, end) of a file. */
  function Window(spans: seq<Span>, size: nat, disk: Disk, bs: nat, start: nat, end: nat): (w: seq<byte>)
    requires bs > 0 && start <= end
    ensures |w| == end - start
    decreases end
  {
    if start == end then []
    else Window(spans, size, disk, bs, start, end - 1) + [FirstByte(spans, size, disk, bs, end - 1)]
  }

  lemma {:induction false} WindowAt(spans: seq<Span>, size: nat, disk: Disk, bs: nat, start: nat, end: nat, b: nat)
    requires bs > 0 && start <= b < end
    ensures Window(spans, size, disk, bs, start, end)[b - start] == FirstByte(spans, size, disk, bs, b)
    decreases end
  {
    hide FirstByte;
    if b < end - 1 {
      WindowAt(spans, size, disk, bs, start, end - 1, b);
    }
  }

  /** Adjacent windows join to the larger window, and so do their counts of uncovered bytes. */
  lemma {:induction false} WindowsJoin(spans: seq<Span>, size: nat, disk: Disk, bs: nat, start: nat, mid: nat, end: nat)
    requires bs > 0 && start <= mid <= end
    ensures Window(spans, size, disk, bs, start, mid) + Window(spans, size, disk, bs, mid, end) ==
            Window(spans, size, disk, bs, start, end)
    ensures Holes(spans, size, start, mid) + Holes(spans, size, mid, end) == Holes(spans, size, start, end)
    decreases end
  {
    hide FirstByte, First;
    if mid < end {
      WindowsJoin(spans, size, disk, bs, start, mid, end - 1);
    } else {
      assert Window(spans, size, disk, bs, start, mid) + [] == Window(spans, size, disk, bs, start, mid);
    }
  }

  // ---- the whole-file reader ----------------------------------------------------------------------------------

  /** The buffer after the first n spans: each byte is the last covering span's. */
  ghost predicate Overlaid(spans: seq<Span>, n: nat, size: nat, disk: Disk, bs: nat, out: seq<byte>)
    requires bs > 0
  {
    n <= |spans| && |out| == size && forall b: nat :: b < size ==> out[b] == LastByte(spans[..n], size, disk, bs, b)
  }

  lemma LastNext(spans: seq<Span>, n: nat, size: nat, disk: Disk, bs: nat, b: nat)
    requires bs > 0 && n < |spans|
    ensures LastByte(spans[..n + 1], size, disk, bs, b) ==
            if Covers(spans[n], size, b) then SpanByte(disk, bs, spans[n], b)
            else LastByte(spans[..n], size, disk, bs, b)
  {
    hide SpanByte, Covers;
    LastIs(spans[..n], size, b);
    assert spans[..n + 1][..n] == spans[..n];
  }

  /** Copies one span into the buffer, block by block. */
  method CopySpan(out: array<byte>, s: Span, disk: Disk, bs: nat) returns (r: Result<bool>)
    requires bs > 0 && WholeDisk(disk, bs) && s.physical != 0 && s.logical < out.Length
    modifies out
    ensures r.Ok? ==> forall b: nat :: b < out.Length ==>
              out[b] == if s.logical <= b < SpanEnd(s, out.Length) then SpanByte(disk, bs, s, b) else old(out[b])
    ensures r.Ok? <==> Present(disk, bs, s, s.logical, SpanEnd(s, out.Length))
  {
    hide WholeDisk, SpanByte, DivCeil, SpanBlock;
    var wanted := Min(s.length, out.Length - s.logical);
    var done := 0;
    var index := 0;
    while done < wanted
      invariant 0 <= done <= wanted && (done < wanted ==> done == index * bs)
      invariant forall b: nat :: b < out.Length ==>
                  out[b] == if s.logical <= b < s.logical + done then SpanByte(disk, bs, s, b) else old(out[b])
      invariant Present(disk, bs, s, s.logical, s.logical + done)
      decreases wanted - done
    {
      BlockIn(s, bs, index);
      if s.physical + index !in disk {
        assert SpanBlock(s, bs, s.logical + done) == s.physical + index;
        return Err(OutsideContainer);
      }
      var block, at, take := disk[s.physical + index], s.logical + done, Min(wanted - done, bs);
      BlockLength(disk, bs, s.physical + index);
      forall k | 0 <= k < take ensures SpanByte(disk, bs, s, at + k) == block[k] {
        SpanInBlock(disk, bs, s, index, k);
      }
      forall k | 0 <= k < take {
        out[at + k] := block[k];
      }
      done := done + take;
      index := index + 1;
      assert index * bs == (index - 1) * bs + bs;
    }
    r := Ok(true);
  }

  lemma BlockIn(s: Span, bs: nat, index: nat)
    requires bs > 0
    ensures forall b: nat :: s.logical + index * bs <= b < s.logical + index * bs + bs ==>
              SpanBlock(s, bs, b) == s.physical + index
  {
    var first := s.logical + index * bs;
    forall b: nat | first <= b < first + bs ensures SpanBlock(s, bs, b) == s.physical + index {
      DivMod(index, bs, b - first);
    }
  }

  lemma BlockLength(disk: Disk, bs: nat, block: nat)
    requires WholeDisk(disk, bs) && block in disk
    ensures |disk[block]| == bs
  {
  }

  lemma SpanInBlock(disk: Disk, bs: nat, s: Span, index: nat, k: nat)
    requires WholeDisk(disk, bs) && k < bs && s.physical + index in disk
    ensures SpanByte(disk, bs, s, s.logical + index * bs + k) == disk[s.physical + index][k]
  {
    hide DiskByte, WholeDisk;
    InBlock(disk, bs, s.physical, index, k);
  }

  /** Every block the span needs for a file of this size is there. */
  ghost predicate Fetched(s: Span, size: nat, disk: Disk, bs: nat)
    requires bs > 0
  {
    s.physical == 0 || s.logical >= size || Present(disk, bs, s, s.logical, SpanEnd(s, size))
  }

  ghost predicate AllPresent(spans: seq<Span>, size: nat, disk: Disk, bs: nat)
    requires bs > 0
  {
    forall i :: 0 <= i < |spans| ==> Fetched(spans[i], size, disk, bs)
  }

  /**
   * Reads a whole file into one buffer, span after span, so where spans overlap the last one
   * wins. Refused exactly for a file larger than the container, for a non-empty file without
   * spans, and when a block of some span is outside the container.
   */
  method ReadDataStream(spans: seq<Span>, size: nat, containerBytes: nat, disk: Disk, bs: nat)
      returns (r: Result<seq<byte>>)
    requires bs > 0 && WholeDisk(disk, bs)
    ensures r.Ok? <==> size <= containerBytes && (spans == [] ==> size == 0) && AllPresent(spans, size, disk, bs)
    ensures r.Ok? ==> |r.value| == size
    ensures r.Ok? ==> forall b: nat :: b < size ==> r.value[b] == LastByte(spans, size, disk, bs, b)
  {
    hide WholeDisk, LastByte, SpanByte, SpanEnd, Covers, Present;
    if size > containerBytes {
      return Err(TooLarge);
    }
    if spans == [] && size != 0 {
      return Err(NotFound);
    }
    var out := new byte[size](_ => 0);
    OverlaidNone(spans, size, disk, bs, out[..]);
    for i := 0 to |spans|
      invariant Overlaid(spans, i, size, disk, bs, out[..])
      invariant forall j :: 0 <= j < i ==> Fetched(spans[j], size, disk, bs)
    {
      var s := spans[i];
      ghost var before := out[..];
      if s.physical == 0 || s.logical >= size {
        OverlaidSkip(spans, i, size, disk, bs, before);
        continue;
      }
      var copied := CopySpan(out, s, disk, bs);
      if copied.Err? {
        return Err(copied.error);
      }
      OverlaidNext(spans, i, size, disk, bs, before, out[..]);
    }
    assert spans[..|spans|] == spans;
    r := Ok(out[..]);
  }

  lemma OverlaidNone(spans: seq<Span>, size: nat, disk: Disk, bs: nat, out: seq<byte>)
    requires bs > 0 && |out| == size && forall b :: 0 <= b < size ==> out[b] == 0
    ensures Overlaid(spans, 0, size, disk, bs, out)
  {
  }

  lemma OverlaidSkip(spans: seq<Span>, n: nat, size: nat, disk: Disk, bs: nat, out: seq<byte>)
    requires bs > 0 && n < |spans| && Overlaid(spans, n, size, disk, bs, out) &&
             (spans[n].physical == 0 || spans[n].logical >= size)
    ensures Overlaid(spans, n + 1, size, disk, bs, out)
  {
    hide LastByte, SpanByte;
    forall b: nat | b < size ensures out[b] == LastByte(spans[..n + 1], size, disk, bs, b) {
      LastNext(spans, n, size, disk, bs, b);
    }
  }

  lemma OverlaidNext(spans: seq<Span>, n: nat, size: nat, disk: Disk, bs: nat, before: seq<byte>, out: seq<byte>)
    requires bs > 0 && n < |spans| && Overlaid(spans, n, size, disk, bs, before) && |out| == size &&
             spans[n].physical != 0
    requires var s := spans[n];
             forall b: nat :: b < size ==>
               out[b] == if s.logical <= b < SpanEnd(s, size) then SpanByte(disk, bs, s, b) else before[b]
    ensures Overlaid(spans, n + 1, size, disk, bs, out)
  {
    hide LastByte, SpanByte, SpanEnd;
    forall b: nat | b < size ensures out[b] == LastByte(spans[..n + 1], size, disk, bs, b) {
      LastNext(spans, n, size, disk, bs, b);
    }
  }

  // ---- the two readers compared ------------------------------------------------------------------------------

  /** No byte is covered twice. */
  ghost predicate Separate(spans: seq<Span>, size: nat) {
    forall i, j, b: nat :: 0 <= i < j < |spans| ==> !(Covers(spans[i], size, b) && Covers(spans[j], size, b))
  }

  /** The disk location a span gives for position b. */
  function Location(s: Span, bs: nat, b: nat): (nat, nat)
    requires bs > 0 && s.logical <= b
  {
    (SpanBlock(s, bs, b), Skip(s, bs, b))
  }

  /** The first and the last covering span of a byte name the same location. */
  ghost predicate SameSource(spans: seq<Span>, size: nat, bs: nat, b: nat)
    requires bs > 0
  {
    FirstIs(spans, size, b);
    LastIs(spans, size, b);
    First(spans, size, b).Some? ==>
      Last(spans, size, b).Some? &&
      Location(spans[First(spans, size, b).value], bs, b) == Location(spans[Last(spans, size, b).value], bs, b)
  }

  lemma SeparateSame(spans: seq<Span>, size: nat, bs: nat, b: nat)
    requires bs > 0 && Separate(spans, size)
    ensures SameSource(spans, size, bs, b)
  {
    hide Covers;
    FirstIs(spans, size, b);
    LastIs(spans, size, b);
  }

  /** On spans without overlap, the window equals the slice of the whole file. */
  lemma WindowIsSlice(spans: seq<Span>, size: nat, disk: Disk, bs: nat, b: nat)
    requires bs > 0 && Separate(spans, size)
    ensures FirstByte(spans, size, disk, bs, b) == LastByte(spans, size, disk, bs, b)
  {
    SeparateSame(spans, size, bs, b);
    SameSourceBytes(spans, size, disk, bs, b);
  }

  lemma SameSourceBytes(spans: seq<Span>, size: nat, disk: Disk, bs: nat, b: nat)
    requires bs > 0 && SameSource(spans, size, bs, b)
    ensures FirstByte(spans, size, disk, bs, b) == LastByte(spans, size, disk, bs, b)
  {
    hide Covers;
    FirstIs(spans, size, b);
    LastIs(spans, size, b);
  }

  /** A disk on which two locations hold different bytes. */
  lemma TellApart(bs: nat, x: (nat, nat), y: (nat, nat)) returns (disk: Disk)
    requires x != y && x.1 < bs && y.1 < bs
    ensures WholeDisk(disk, bs) && x.0 in disk && y.0 in disk && disk[x.0][x.1] == 1 && disk[y.0][y.1] == 0
  {
    var marked := Zeros(bs)[x.1 := 1];
    disk := map[y.0 := Zeros(bs)][x.0 := marked];
  }

  /** The two readers agree on byte b of every disk exactly when its covering spans name one location. */
  lemma ReadersAgree(spans: seq<Span>, size: nat, bs: nat, b: nat)
    requires bs > 0
    ensures (forall disk: Disk :: WholeDisk(disk, bs) ==>
               FirstByte(spans, size, disk, bs, b) == LastByte(spans, size, disk, bs, b)) <==>
            SameSource(spans, size, bs, b)
  {
    FirstIs(spans, size, b);
    LastIs(spans, size, b);
    if SameSource(spans, size, bs, b) {
      forall disk: Disk | WholeDisk(disk, bs)
        ensures FirstByte(spans, size, disk, bs, b) == LastByte(spans, size, disk, bs, b)
      {
        SameSourceBytes(spans, size, disk, bs, b);
      }
    } else {
      var x, y := Location(spans[First(spans, size, b).value], bs, b), Location(spans[Last(spans, size, b).value], bs,
          b);
      var disk := TellApart(bs, x, y);
      assert FirstByte(spans, size, disk, bs, b) == 1 && LastByte(spans, size, disk, bs, b) == 0;
    }
  }

  /** Two spans over the same stretch in different places: the readers differ. */
  lemma OverlapDiffers(bs: nat, p: nat, q: nat)
    requires bs > 0 && 0 < p < q
    ensures !SameSource([Span(0, bs, p), Span(0, bs, q)], bs, bs, 0)
  {
    var spans := [Span(0, bs, p), Span(0, bs, q)];
    assert Covers(spans[0], bs, 0) && Covers(spans[1], bs, 0);
    FirstIs(spans, bs, 0);
    LastIs(spans, bs, 0);
    DivMod(0, bs, 0);
  }
}

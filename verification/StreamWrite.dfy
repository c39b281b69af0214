/**
 * The new data of a file that is replaced (src/apfs_replace.rs `replace_file_in_container`): it goes
 * to newly allocated blocks, joined into runs; the runs become extents and references, and the
 * stream then reads as the data.
 */
module StreamWrite {
  import opened Bytes
  import opened BTree
  import opened SpaceManager
  import opened TreePublish
  import opened StreamDetach
  import ExtentReader
  import T = ReplaceTransaction
  import BlockAllocator
  import IpRing
  import BlockSupply

  // ---- what a stream reads as --------------------------------------------------------------------------------------

  /** The extent says where byte b of the stream is. */
  predicate Gives(r: Rec, stream: nat, b: nat) {
    Placed(r, stream) && r.logical <= b < r.logical + r.length
  }

  /** At the place the extent gives, byte b is v. */
  predicate Shows(r: Rec, disk: Blocks, bs: nat, b: nat, v: byte)
    requires bs > 0 && r.Extent? && r.logical <= b
  {
    var p, o := r.paddr + (b - r.logical) / bs, (b - r.logical) % bs;
    p in disk && o < |disk[p]| && disk[p][o] == v
  }

  /** Whichever extent is consulted, byte b is v; a byte no extent gives is zero. */
  ghost predicate ByteIs(records: seq<Rec>, stream: nat, disk: Blocks, bs: nat, b: nat, v: byte)
    requires bs > 0
  {
    && (forall r :: r in records && Gives(r, stream, b) ==> Shows(r, disk, bs, b, v))
    && ((forall r :: r in records ==> !Gives(r, stream, b)) ==> v == 0)
  }

  ghost predicate Reads(records: seq<Rec>, stream: nat, disk: Blocks, bs: nat, data: seq<byte>)
    requires bs > 0
  {
    forall b: nat :: b < |data| ==> ByteIs(records, stream, disk, bs, b, data[b])
  }

  /** The spans both readers are given: the stream's extents, in any order. */
  ghost predicate SpansOf(spans: seq<ExtentReader.Span>, records: seq<Rec>, stream: nat) {
    && (forall i :: 0 <= i < |spans| && spans[i].physical != 0 ==> IsSpan(spans[i], records, stream))
    && (forall r :: r in records && Placed(r, stream) ==> SpanOf(r) in spans)
  }

  function SpanOf(r: Rec): ExtentReader.Span
    requires r.Extent?
  {
    ExtentReader.Span(r.logical, r.length, r.paddr)
  }

  ghost predicate IsSpan(s: ExtentReader.Span, records: seq<Rec>, stream: nat) {
    exists r :: r in records && Placed(r, stream) && s == SpanOf(r)
  }

  /** Both readers give what the stream reads as. */
  lemma ReadersGive(records: seq<Rec>, stream: nat, disk: Blocks, bs: nat, data: seq<byte>,
                    spans: seq<ExtentReader.Span>, b: nat)
    requires bs > 0 && Reads(records, stream, disk, bs, data) && SpansOf(spans, records, stream) && b < |data|
    ensures ExtentReader.FirstByte(spans, |data|, disk, bs, b) == data[b]
    ensures ExtentReader.LastByte(spans, |data|, disk, bs, b) == data[b]
  {
    assert ByteIs(records, stream, disk, bs, b, data[b]);
    ExtentReader.FirstIs(spans, |data|, b);
    ExtentReader.LastIs(spans, |data|, b);
    if ExtentReader.First(spans, |data|, b).None? {
      NoneGives(records, stream, |data|, spans, b);
    } else {
      SpanGives(records, stream, disk, bs, data, spans, b, ExtentReader.First(spans, |data|, b).value);
      SpanGives(records, stream, disk, bs, data, spans, b, ExtentReader.Last(spans, |data|, b).value);
    }
  }

  lemma NoneGives(records: seq<Rec>, stream: nat, size: nat, spans: seq<ExtentReader.Span>, b: nat)
    requires SpansOf(spans, records, stream) && b < size
    requires forall i :: 0 <= i < |spans| ==> !ExtentReader.Covers(spans[i], size, b)
    ensures forall r :: r in records ==> !Gives(r, stream, b)
  {
    forall r | r in records ensures !Gives(r, stream, b) {
      if Placed(r, stream) {
        var i :| 0 <= i < |spans| && spans[i] == SpanOf(r);
        assert !ExtentReader.Covers(spans[i], size, b);
      }
    }
  }

  lemma SpanGives(records: seq<Rec>, stream: nat, disk: Blocks, bs: nat, data: seq<byte>,
                  spans: seq<ExtentReader.Span>, b: nat, k: nat)
    requires bs > 0 && SpansOf(spans, records, stream) && b < |data| && k < |spans|
    requires ByteIs(records, stream, disk, bs, b, data[b]) && ExtentReader.Covers(spans[k], |data|, b)
    ensures ExtentReader.SpanByte(disk, bs, spans[k], b) == data[b]
  {
    assert IsSpan(spans[k], records, stream);
    var r :| r in records && Placed(r, stream) && spans[k] == SpanOf(r);
    assert Gives(r, stream, b);
  }

  /** A stream reads the same from any catalog with the same extents of it, while their blocks stay as they were. */
  lemma ReadsSame(r1: seq<Rec>, r2: seq<Rec>, stream: nat, d1: Blocks, d2: Blocks, bs: nat, data: seq<byte>)
    requires bs > 0 && Reads(r1, stream, d1, bs, data)
    requires forall x :: Placed(x, stream) ==> (x in r1 <==> x in r2)
    requires forall x, p :: x in r1 && Placed(x, stream) && p in CellsOf(x, bs) && p in d1 ==> p in d2 && d2[p] == d1[p]
    requires forall x :: x in r1 && Placed(x, stream) ==> x.length % bs == 0
    ensures Reads(r2, stream, d2, bs, data)
  {
    forall b: nat | b < |data| ensures ByteIs(r2, stream, d2, bs, b, data[b]) {
      assert ByteIs(r1, stream, d1, bs, b, data[b]);
      forall r | r in r2 && Gives(r, stream, b) ensures Shows(r, d2, bs, b, data[b]) {
        assert Shows(r, d1, bs, b, data[b]);
        InCells(r, bs, b);
      }
      if forall r :: r in r2 ==> !Gives(r, stream, b) {
        assert forall r :: r in r1 ==> !Gives(r, stream, b);
      }
    }
  }

  lemma InCells(r: Rec, bs: nat, b: nat)
    requires bs > 0 && r.Extent? && r.length % bs == 0 && r.logical <= b < r.logical + r.length
    ensures r.paddr + (b - r.logical) / bs in CellsOf(r, bs)
  {
    Divides(r.length, bs);
    Quotient(b - r.logical, r.length / bs, bs);
  }

  lemma Quotient(x: nat, n: nat, m: nat)
    requires m > 0 && x < n * m
    ensures x / m < n
  {
    if x / m >= n {
      Times(n, x / m, m);
      assert false;
    }
  }

  lemma Times(a: nat, b: nat, m: nat)
    requires a <= b
    ensures a * m <= b * m
  {
  }

  // ---- writing the data --------------------------------------------------------------------------------------------

  /** Blocks one after the other, from block `first` of the file on. */
  datatype Run = Run(first: nat, paddr: nat, blocks: nat)

  /** Block k of the file at p: the last run grows, or a new one begins. */
  function Joined(runs: seq<Run>, k: nat, p: nat): (r: seq<Run>)
    ensures r != []
  {
    var n := |runs| - 1;
    if runs != [] && runs[n].paddr + runs[n].blocks == p then runs[n := runs[n].(blocks := runs[n].blocks + 1)]
    else runs + [Run(k, p, 1)]
  }

  /** Consecutive blocks joined into runs. */
  function RunsOf(log: seq<nat>): seq<Run> {
    if log == [] then [] else Joined(RunsOf(log[..|log| - 1]), |log| - 1, log[|log| - 1])
  }

  /** The runs name the blocks in order: each run its own stretch, and together all of them. */
  ghost predicate Follow(runs: seq<Run>, log: seq<nat>) {
    && (forall k :: 0 <= k < |runs| ==> runs[k].blocks > 0 && Names(runs[k], log))
    && (forall j, k :: 0 <= j < k < |runs| ==> End(runs[j]) <= runs[k].first)
    && (forall m :: 0 <= m < |log| ==> InRun(runs, m))
    && (runs != [] ==> End(runs[|runs| - 1]) == |log|)
  }

  ghost predicate InRun(runs: seq<Run>, m: nat) {
    exists k :: 0 <= k < |runs| && Spans(runs[k], m)
  }

  predicate Spans(r: Run, m: nat) {
    r.first <= m < End(r)
  }

  predicate Names(r: Run, log: seq<nat>) {
    End(r) <= |log| && forall m :: r.first <= m < End(r) ==> log[m] == r.paddr + (m - r.first)
  }

  function End(r: Run): nat {
    r.first + r.blocks
  }

  lemma {:induction false} RunsFollow(log: seq<nat>)
    ensures Follow(RunsOf(log), log)
  {
    hide Follow, Joined;
    if log == [] {
      FollowNone();
    } else {
      var front, p := log[..|log| - 1], log[|log| - 1];
      assert front + [p] == log && RunsOf(log) == Joined(RunsOf(front), |front|, p);
      RunsFollow(front);
      FollowOn(RunsOf(front), front, p);
    }
  }

  lemma FollowNone()
    ensures Follow([], [])
  {
  }

  lemma FollowOn(runs: seq<Run>, log: seq<nat>, p: nat)
    requires Follow(runs, log)
    ensures Follow(Joined(runs, |log|, p), log + [p])
  {
    hide Follow;
    if runs != [] && runs[|runs| - 1].paddr + runs[|runs| - 1].blocks == p {
      FollowGrown(runs, log, p);
    } else {
      FollowNew(runs, log, p);
    }
  }

  lemma FollowGrown(runs: seq<Run>, log: seq<nat>, p: nat)
    requires Follow(runs, log) && runs != [] && runs[|runs| - 1].paddr + runs[|runs| - 1].blocks == p
    ensures Follow(runs[|runs| - 1 := runs[|runs| - 1].(blocks := runs[|runs| - 1].blocks + 1)], log + [p])
  {
    hide Names;
    var n := |runs| - 1;
    var after, more := runs[n := runs[n].(blocks := runs[n].blocks + 1)], log + [p];
    forall k | 0 <= k < |after| ensures after[k].blocks > 0 && Names(after[k], more) {
      NamesOn(runs[k], log, p);
    }
    forall m | 0 <= m < |more| ensures InRun(after, m) {
      if m < |log| {
        assert InRun(runs, m);
        var k :| 0 <= k < |runs| && Spans(runs[k], m);
        assert Spans(after[k], m);
      } else {
        assert Spans(after[n], m);
      }
    }
  }

  lemma FollowNew(runs: seq<Run>, log: seq<nat>, p: nat)
    requires Follow(runs, log)
    ensures Follow(runs + [Run(|log|, p, 1)], log + [p])
  {
    hide Names;
    var after, more := runs + [Run(|log|, p, 1)], log + [p];
    NamesLast(log, p);
    forall k | 0 <= k < |after| ensures after[k].blocks > 0 && Names(after[k], more) {
      if k < |runs| {
        NamesOn(runs[k], log, p);
      }
    }
    forall k | 0 <= k < |runs| ensures End(after[k]) <= |log| {
      assert runs[k].blocks > 0;
      NamesEnd(runs[k], log);
    }
    forall m | 0 <= m < |more| ensures InRun(after, m) {
      if m < |log| {
        assert InRun(runs, m);
        var k :| 0 <= k < |runs| && Spans(runs[k], m);
        assert Spans(after[k], m);
      } else {
        assert Spans(after[|runs|], m);
      }
    }
  }

  lemma NamesEnd(r: Run, log: seq<nat>)
    requires Names(r, log)
    ensures End(r) <= |log|
  {
  }

  lemma NamesOn(r: Run, log: seq<nat>, p: nat)
    requires Names(r, log)
    ensures Names(r, log + [p])
    ensures End(r) == |log| && r.paddr + r.blocks == p ==> Names(r.(blocks := r.blocks + 1), log + [p])
  {
  }

  lemma NamesLast(log: seq<nat>, p: nat)
    ensures Names(Run(|log|, p, 1), log + [p])
  {
  }

  /** Bytes of block k of the file. */
  function Piece(data: seq<byte>, bs: nat, k: nat): (r: seq<byte>)
    requires bs > 0 && k * bs <= |data|
    ensures |r| <= bs
  {
    data[k * bs..Min(k * bs + bs, |data|)]
  }

  /** The blocks of the log hold the data, piece by piece. */
  ghost predicate Carries(disk: Blocks, bs: nat, data: seq<byte>, log: seq<nat>) {
    bs > 0 && forall k :: 0 <= k < |log| ==>
      k * bs < |data| && log[k] in disk && disk[log[k]] == T.Padded(Piece(data, bs, k), bs)
  }

  /** What has been written: blocks that were free, holding the data so far, joined into runs. */
  ghost predicate Written(u0: set<nat>, u: set<nat>, d0: Blocks, d: Blocks, bs: nat, data: seq<byte>, log: seq<nat>,
                          runs: seq<Run>)
  {
    T.StepLog(u0, u, d0, d, log) && Carries(d, bs, data, log) && runs == RunsOf(log)
  }

  /** Writes the data block by block, each to a block that was free, and joins the blocks into runs. */
  method WriteData(al: BlockAllocator.Allocator, disk: Blocks, bs: nat, data: seq<byte>)
      returns (r: Result<(Blocks, seq<Run>)>, ghost log: seq<nat>)
    requires al.Valid() && Bounded(al.chunks) && WholeBlocks(disk, bs) && bs > 0
    modifies al`chunks, al`smFree, al`taken
    ensures r.Ok? ==> al.Valid() && Bounded(al.chunks) && WholeBlocks(r.value.0, bs)
    ensures r.Ok? ==>
              Written(Used(old(al.chunks)), Used(al.chunks), disk, r.value.0, bs, data, log, r.value.1)
    ensures r.Ok? ==> SameShape(al.chunks, old(al.chunks)) && al.smFree + |log| == old(al.smFree)
    ensures r.Ok? ==> |log| == DivCeil(|data|, bs)
    ensures DivCeil(|data|, bs) <= old(al.smFree) ==> r.Ok?
  {
    hide BlockAllocator.AllAnchored, BlockAllocator.PoolOk, BlockAllocator.BackedTo, IpRing.Partition, Used, ChunksOk,
         TotalFree, Bounded, WholeBlocks, SameShape, T.StepLog, Written, T.Done, Joined, DivCeil;
    log := [];
    var current, runs := disk, [];
    LogStarts(Used(al.chunks), disk, bs, data);
    BlockSupply.ShapeSame(al.chunks);
    var n := DivCeil(|data|, bs);
    for k := 0 to n
      invariant al.Valid() && Bounded(al.chunks) && WholeBlocks(current, bs) && |log| == k
      invariant Written(Used(old(al.chunks)), Used(al.chunks), disk, current, bs, data, log, runs)
      invariant SameShape(al.chunks, old(al.chunks)) && al.smFree + k == old(al.smFree)
    {
      Times(k, n - 1, bs);
      ghost var chunks1, disk1 := al.chunks, current;
      var step := T.Data(Piece(data, bs, k));
      var written, taken, outcome := T.Perform(al, current, bs, step);
      if written.Err? {
        return Err(written.error), log;
      }
      OneTaken(step, bs, written.value, taken, outcome);
      assert taken == [taken[0]];
      LogOn(Used(old(al.chunks)), Used(chunks1), Used(al.chunks), disk, disk1, written.value, bs, data, log, runs,
            taken[0]);
      BlockSupply.ShapeTrans(al.chunks, chunks1, old(al.chunks));
      log := log + [taken[0]];
      current, runs := written.value, Joined(runs, k, taken[0]);
    }
    r := Ok((current, runs));
  }

  lemma LogStarts(used: set<nat>, disk: Blocks, bs: nat, data: seq<byte>)
    requires bs > 0
    ensures Written(used, used, disk, disk, bs, data, [], [])
  {
    assert SetOf([]) == {};
  }

  lemma OneTaken(step: T.Step, bs: nat, disk: Blocks, taken: seq<nat>, outcome: T.Outcome)
    requires step.Data? && T.Done(step, bs, disk, SetOf(taken), outcome) && |taken| <= 1
    ensures |taken| == 1 && |step.bytes| <= bs && taken[0] in disk && disk[taken[0]] == T.Padded(step.bytes, bs)
  {
  }

  lemma LogOn(u0: set<nat>, u1: set<nat>, u2: set<nat>, d0: Blocks, d1: Blocks, d2: Blocks, bs: nat, data: seq<byte>,
              log: seq<nat>, runs: seq<Run>, p: nat)
    requires Written(u0, u1, d0, d1, bs, data, log, runs) && T.StepLog(u1, u2, d1, d2, [p])
    requires bs > 0 && |log| * bs < |data| && p in d2 && d2[p] == T.Padded(Piece(data, bs, |log|), bs)
    ensures Written(u0, u2, d0, d2, bs, data, log + [p], Joined(runs, |log|, p))
  {
    hide Joined, T.StepLog, Carries;
    var more := log + [p];
    assert more[..|more| - 1] == log;
    TakenOn(u0, u1, u2, d0, d1, d2, log, p);
    CarriesOn(u0, u1, u2, d0, d1, d2, bs, data, log, p);
  }

  lemma TakenOn(u0: set<nat>, u1: set<nat>, u2: set<nat>, d0: Blocks, d1: Blocks, d2: Blocks, log: seq<nat>, p: nat)
    requires T.StepLog(u0, u1, d0, d1, log) && T.StepLog(u1, u2, d1, d2, [p])
    ensures T.StepLog(u0, u2, d0, d2, log + [p])
  {
    var more := log + [p];
    assert SetOf([p]) == {p} && SetOf(more) == SetOf(log) + {p};
    assert p !in SetOf(log);
  }

  lemma CarriesOn(u0: set<nat>, u1: set<nat>, u2: set<nat>, d0: Blocks, d1: Blocks, d2: Blocks, bs: nat,
                  data: seq<byte>, log: seq<nat>, p: nat)
    requires T.StepLog(u0, u1, d0, d1, log) && T.StepLog(u1, u2, d1, d2, [p]) && Carries(d1, bs, data, log)
    requires bs > 0 && |log| * bs < |data| && p in d2 && d2[p] == T.Padded(Piece(data, bs, |log|), bs)
    ensures Carries(d2, bs, data, log + [p])
  {
    hide T.Padded, Piece, IpRing.Distinct;
    var more := log + [p];
    forall k | 0 <= k < |more|
      ensures k * bs < |data| && more[k] in d2 && d2[more[k]] == T.Padded(Piece(data, bs, k), bs)
    {
      if k < |log| {
        assert more[k] == log[k] && log[k] in SetOf(log) && log[k] in u1 && log[k] !in SetOf([p]);
      }
    }
  }

  // ---- the new extents and references ------------------------------------------------------------------------------

  function NewExtents(runs: seq<Run>, id: nat, bs: nat): (r: seq<Rec>)
    ensures |r| == |runs| && forall i :: 0 <= i < |r| ==> r[i] == ExtentOf(runs[i], id, bs)
  {
    seq(|runs|, i requires 0 <= i < |runs| => ExtentOf(runs[i], id, bs))
  }

  function ExtentOf(r: Run, id: nat, bs: nat): Rec {
    Extent(id, r.first * bs, r.blocks * bs, r.paddr, true)
  }

  function NewRefs(runs: seq<Run>, file: nat): (r: seq<Ref>)
    ensures |r| == |runs| && forall i :: 0 <= i < |r| ==> r[i] == Ref(runs[i].paddr, runs[i].blocks, file, 1)
  {
    seq(|runs|, i requires 0 <= i < |runs| => Ref(runs[i].paddr, runs[i].blocks, file, 1))
  }

  /** Byte o of block m of the file through the run that has its block. */
  lemma RunShows(run: Run, id: nat, disk: Blocks, bs: nat, data: seq<byte>, log: seq<nat>, b: nat, m: nat, o: nat)
    requires Carries(disk, bs, data, log) && Names(run, log) && b < |data| && b == m * bs + o && o < bs && Spans(run, m)
    ensures run.first * bs <= b && Shows(ExtentOf(run, id, bs), disk, bs, b, data[b])
  {
    hide Piece, T.Padded;
    BlockOf(b, m, o, run.first, bs);
    assert log[m] == run.paddr + (m - run.first);
    InPiece(data, bs, m, o);
  }

  /** A byte lies in a run's stretch exactly when its block does. */
  lemma ByteInRun(run: Run, m: nat, o: nat, bs: nat)
    requires o < bs
    ensures Spans(run, m) <==> run.first * bs <= m * bs + o < run.first * bs + run.blocks * bs
  {
    assert End(run) * bs == run.first * bs + run.blocks * bs;
    InStretch(run.first, m, o, bs);
    InStretch(End(run), m, o, bs);
  }

  lemma InStretch(n: nat, m: nat, o: nat, bs: nat)
    requires o < bs
    ensures n * bs <= m * bs + o <==> n <= m
  {
    if n <= m {
      Times(n, m, bs);
    } else {
      Times(m + 1, n, bs);
      assert (m + 1) * bs == m * bs + bs;
    }
  }

  lemma BlockOf(b: nat, m: nat, o: nat, first: nat, bs: nat)
    requires bs > 0 && b == m * bs + o && o < bs && first <= m
    ensures b >= first * bs && (b - first * bs) / bs == m - first && (b - first * bs) % bs == o
  {
    Times(first, m, bs);
    assert b - first * bs == (m - first) * bs + o;
    DivMod(m - first, bs, o);
  }

  lemma InPiece(data: seq<byte>, bs: nat, m: nat, o: nat)
    requires bs > 0 && o < bs && m * bs + o < |data|
    ensures |Piece(data, bs, m)| <= bs && o < |Piece(data, bs, m)|
    ensures T.Padded(Piece(data, bs, m), bs)[o] == data[m * bs + o]
  {
  }

  /** The new stream reads as the data. */
  lemma NewReads(records: seq<Rec>, id: nat, disk: Blocks, bs: nat, data: seq<byte>, log: seq<nat>, runs: seq<Run>)
    requires Carries(disk, bs, data, log) && |log| == DivCeil(|data|, bs) && Follow(runs, log) && 0 !in log
    requires forall x :: Placed(x, id) ==> (x in records <==> x in NewExtents(runs, id, bs))
    ensures Reads(records, id, disk, bs, data)
  {
    hide Carries, Names, Shows, DivCeil;
    forall b: nat | b < |data| ensures ByteIs(records, id, disk, bs, b, data[b]) {
      var m, o := b / bs, b % bs;
      assert b == m * bs + o;
      forall r | r in records && Gives(r, id, b) ensures Shows(r, disk, bs, b, data[b]) {
        var k :| 0 <= k < |runs| && NewExtents(runs, id, bs)[k] == r;
        RunPlaced(runs, log, k);
        ByteInRun(runs[k], m, o, bs);
        RunShows(runs[k], id, disk, bs, data, log, b, m, o);
      }
      var e := SomeGives(runs, log, id, bs, |data|, b, m, o);
      assert e in records && Gives(e, id, b);
    }
  }

  lemma RunPlaced(runs: seq<Run>, log: seq<nat>, k: nat)
    requires Follow(runs, log) && 0 !in log && k < |runs|
    ensures Names(runs[k], log) && runs[k].paddr != 0 && runs[k].paddr in log
  {
    assert log[runs[k].first] == runs[k].paddr;
  }

  lemma SomeGives(runs: seq<Run>, log: seq<nat>, id: nat, bs: nat, size: nat, b: nat, m: nat, o: nat) returns (r: Rec)
    requires bs > 0 && |log| == DivCeil(size, bs) && Follow(runs, log) && 0 !in log
    requires b < size && b == m * bs + o && o < bs
    ensures r in NewExtents(runs, id, bs) && Gives(r, id, b)
  {
    hide Names, DivCeil;
    InStretch(|log|, m, o, bs);
    assert InRun(runs, m);
    var k :| 0 <= k < |runs| && Spans(runs[k], m);
    RunPlaced(runs, log, k);
    ByteInRun(runs[k], m, o, bs);
    r := NewExtents(runs, id, bs)[k];
  }

  // ---- the catalog with the new extents is matched -----------------------------------------------------------------

  /** Every reference lies in blocks in use. */
  ghost predicate RefsUsed(refs: seq<Ref>, used: set<nat>) {
    forall k :: 0 <= k < |refs| ==> RefUsed(refs[k], used)
  }

  ghost predicate RefUsed(x: Ref, used: set<nat>) {
    (!x.BadRef? ==> x.paddr in used) && (x.Ref? ==> Range(x.paddr, x.blocks) <= used)
  }

  /** The blocks of a run, by number and by place in the log. */
  lemma RunBlock(run: Run, log: seq<nat>, y: nat) returns (m: nat)
    requires Names(run, log) && y in Range(run.paddr, run.blocks)
    ensures Spans(run, m) && m < |log| && log[m] == y
  {
    m := run.first + (y - run.paddr);
  }

  lemma NewApart(runs: seq<Run>, log: seq<nat>, file: nat, i: nat, j: nat)
    requires Follow(runs, log) && IpRing.Distinct(log) && i < j < |runs|
    ensures RefsApart(NewRefs(runs, file)[i], NewRefs(runs, file)[j])
  {
    hide Range, InRun;
    var a, b := runs[i], runs[j];
    assert End(a) <= b.first && Names(a, log) && Names(b, log) && a.blocks > 0 && b.blocks > 0;
    assert log[a.first] == a.paddr && log[b.first] == b.paddr;
    forall y | y in Range(a.paddr, a.blocks) ensures y !in Range(b.paddr, b.blocks) {
      var m := RunBlock(a, log, y);
      if y in Range(b.paddr, b.blocks) {
        var n := RunBlock(b, log, y);
        assert false;
      }
    }
  }

  lemma NewAway(runs: seq<Run>, log: seq<nat>, file: nat, used: set<nat>, x: Ref, j: nat)
    requires Follow(runs, log) && SetOf(log) !! used && RefUsed(x, used) && j < |runs|
    ensures RefsApart(x, NewRefs(runs, file)[j])
  {
    hide Range, InRun;
    var b := runs[j];
    assert Names(b, log) && b.blocks > 0;
    assert log[b.first] == b.paddr && b.paddr in SetOf(log);
    if x.Ref? {
      forall y | y in Range(b.paddr, b.blocks) ensures y !in Range(x.paddr, x.blocks) {
        var m := RunBlock(b, log, y);
        assert log[m] in SetOf(log);
      }
    }
  }

  lemma NewUnique(refs: seq<Ref>, runs: seq<Run>, log: seq<nat>, file: nat, used: set<nat>)
    requires UniqueRefs(refs) && RefsUsed(refs, used) && SetOf(log) !! used && IpRing.Distinct(log) && Follow(runs, log)
    ensures UniqueRefs(refs + NewRefs(runs, file))
  {
    hide RefsApart, Follow, RefUsed;
    var more := NewRefs(runs, file);
    var all := refs + more;
    forall i, j | 0 <= i < j < |all| ensures RefsApart(all[i], all[j]) {
      if j < |refs| {
        assert all[i] == refs[i] && all[j] == refs[j];
      } else if i < |refs| {
        assert all[i] == refs[i] && all[j] == more[j - |refs|];
        NewAway(runs, log, file, used, refs[i], j - |refs|);
      } else {
        assert all[i] == more[i - |refs|] && all[j] == more[j - |refs|];
        NewApart(runs, log, file, i - |refs|, j - |refs|);
      }
    }
  }

  lemma {:induction false} TallyConcat(a: seq<Rec>, b: seq<Rec>, hit: Rec -> bool)
    ensures Tally(a + b, hit) == Tally(a, hit) + Tally(b, hit)
  {
    if b == [] {
      assert a + b == a;
    } else {
      TallyConcat(a, b[..|b| - 1], hit);
      assert (a + b)[..|a + b| - 1] == a + b[..|b| - 1];
    }
  }

  lemma {:induction false} TallyNone(records: seq<Rec>, hit: Rec -> bool)
    requires forall r :: r in records ==> !hit(r)
    ensures Tally(records, hit) == 0
  {
    if records != [] {
      TallyNone(records[..|records| - 1], hit);
    }
  }

  lemma {:induction false} CountApart(records: seq<Rec>, p: nat)
    requires AllExtents(records) && forall i, j :: 0 <= i < j < |records| ==> records[i].paddr != records[j].paddr
    ensures CountAt(records, p) <= 1
  {
    if records != [] {
      var front, r := records[..|records| - 1], records[|records| - 1];
      CountApart(front, p);
      if r.paddr == p {
        TallyNone(front, AtBlock(p));
      }
    }
  }

  /** No two of the new extents begin at one block. */
  lemma CountNew(runs: seq<Run>, log: seq<nat>, id: nat, bs: nat, p: nat)
    requires Follow(runs, log) && IpRing.Distinct(log)
    ensures CountAt(NewExtents(runs, id, bs), p) <= 1
    ensures (forall k :: 0 <= k < |runs| ==> runs[k].paddr != p) ==> CountAt(NewExtents(runs, id, bs), p) == 0
  {
    hide Follow, Tally;
    var recent := NewExtents(runs, id, bs);
    forall i, j | 0 <= i < j < |recent| ensures recent[i].paddr != recent[j].paddr {
      Places(runs, log, i, j);
    }
    CountApart(recent, p);
    if forall k :: 0 <= k < |runs| ==> runs[k].paddr != p {
      TallyNone(recent, AtBlock(p));
    }
  }

  lemma Places(runs: seq<Run>, log: seq<nat>, i: nat, j: nat)
    requires Follow(runs, log) && IpRing.Distinct(log) && i < j < |runs|
    ensures runs[i].paddr != runs[j].paddr
  {
    hide RefsApart, Follow;
    NewApart(runs, log, 0, i, j);
    assert RefsApart(NewRefs(runs, 0)[i], NewRefs(runs, 0)[j]);
    OtherAddress(NewRefs(runs, 0)[i], NewRefs(runs, 0)[j]);
  }

  lemma OtherAddress(a: Ref, b: Ref)
    requires RefsApart(a, b) && a.Ref? && b.Ref?
    ensures a.paddr != b.paddr
  {
    hide Range;
  }

  /** With the new extents and their references a matched catalog stays matched. */
  lemma AddMatched(records: seq<Rec>, refs: seq<Ref>, bs: nat, id: nat, file: nat, runs: seq<Run>, log: seq<nat>,
                   used: set<nat>)
    requires bs > 0 && Matched(records, refs, bs) && RefsUsed(refs, used) && SetOf(log) !! used
    requires IpRing.Distinct(log) && Follow(runs, log)
    ensures Matched(records + [StreamId(id, Some(1))] + NewExtents(runs, id, bs), refs + NewRefs(runs, file), bs)
  {
    hide UniqueRefs, Tally, Follow, RefsUsed;
    var middle, recent := records + [StreamId(id, Some(1))], NewExtents(runs, id, bs);
    var all, allRefs := middle + recent, refs + NewRefs(runs, file);
    MatchedUnique(records, refs, bs);
    NewUnique(refs, runs, log, file, used);
    forall i | 0 <= i < |all| && Lies(all[i]) ensures Backed(all[i], allRefs, bs) {
      if i < |records| {
        StillBacked(records[i], refs, NewRefs(runs, file), bs);
      } else {
        var k := i - |middle|;
        assert all[i] == recent[k];
        assert RefFor(allRefs[|refs| + k], all[i], bs);
      }
    }
    forall k | 0 <= k < |allRefs| && allRefs[k].Ref? ensures CountAt(all, allRefs[k].paddr) <= allRefs[k].count {
      CountAll(records, refs, bs, id, file, runs, log, used, k);
    }
  }

  lemma StillBacked(r: Rec, refs: seq<Ref>, more: seq<Ref>, bs: nat)
    requires Lies(r) && Backed(r, refs, bs)
    ensures Backed(r, refs + more, bs)
  {
    var k :| 0 <= k < |refs| && RefFor(refs[k], r, bs);
    assert (refs + more)[k] == refs[k];
  }

  lemma CountAll(records: seq<Rec>, refs: seq<Ref>, bs: nat, id: nat, file: nat, runs: seq<Run>, log: seq<nat>,
                 used: set<nat>, k: nat)
    requires bs > 0 && Matched(records, refs, bs) && RefsUsed(refs, used) && SetOf(log) !! used
    requires IpRing.Distinct(log) && Follow(runs, log) && k < |refs| + |runs|
    ensures var all, x := records + [StreamId(id, Some(1))] + NewExtents(runs, id, bs), (refs + NewRefs(runs, file))[k];
            x.Ref? ==> CountAt(all, x.paddr) <= x.count
  {
    hide UniqueRefs, Tally, Follow;
    var mid, recent, x := [StreamId(id, Some(1))], NewExtents(runs, id, bs), (refs + NewRefs(runs, file))[k];
    if x.Ref? {
      TallyConcat(records, mid, AtBlock(x.paddr));
      TallyConcat(records + mid, recent, AtBlock(x.paddr));
      TallyNone(mid, AtBlock(x.paddr));
      CountNew(runs, log, id, bs, x.paddr);
      if k < |refs| {
        assert x == refs[k] && RefUsed(refs[k], used);
        NotNew(runs, log, used, x.paddr);
      } else {
        NewBlock(runs, log, k - |refs|);
        OldPlaces(records, refs, bs, used, x.paddr);
      }
    }
  }

  lemma NotNew(runs: seq<Run>, log: seq<nat>, used: set<nat>, p: nat)
    requires Follow(runs, log) && SetOf(log) !! used && p in used
    ensures forall k :: 0 <= k < |runs| ==> runs[k].paddr != p
  {
    hide Follow;
    forall k | 0 <= k < |runs| ensures runs[k].paddr != p {
      NewBlock(runs, log, k);
    }
  }

  lemma NewBlock(runs: seq<Run>, log: seq<nat>, k: nat)
    requires Follow(runs, log) && k < |runs|
    ensures runs[k].paddr in SetOf(log)
  {
    assert log[runs[k].first] == runs[k].paddr;
  }

  lemma OldPlaces(records: seq<Rec>, refs: seq<Ref>, bs: nat, used: set<nat>, p: nat)
    requires Matched(records, refs, bs) && RefsUsed(refs, used) && p !in used
    ensures CountAt(records, p) == 0
  {
    hide UniqueRefs, Tally, Matched;
    forall r | r in records && Lies(r) ensures r.paddr != p {
      var y := BackedBy(records, refs, bs, r);
      var k :| 0 <= k < |refs| && refs[k] == y;
      assert RefUsed(refs[k], used);
    }
    TallyNone(records, AtBlock(p));
  }

  // ---- sorting -----------------------------------------------------------------------------------------------------

  function Insert<T>(s: seq<T>, x: T, rank: T -> int): seq<T> {
    if s == [] || rank(s[|s| - 1]) <= rank(x) then s + [x] else Insert(s[..|s| - 1], x, rank) + [s[|s| - 1]]
  }

  /** The stable sort by key; `rank` is the position the key gives. */
  function SortBy<T>(s: seq<T>, rank: T -> int): seq<T> {
    if s == [] then [] else Insert(SortBy(s[..|s| - 1], rank), s[|s| - 1], rank)
  }

  lemma TallyPush(s: seq<Rec>, x: Rec, hit: Rec -> bool)
    ensures Tally(s + [x], hit) == Tally(s, hit) + if hit(x) then 1 else 0
    ensures forall y :: y in s + [x] <==> y in s || y == x
  {
    assert (s + [x])[..|s|] == s;
  }

  lemma {:induction false} InsertRec(s: seq<Rec>, x: Rec, rank: Rec -> int, hit: Rec -> bool)
    ensures forall y :: y in Insert(s, x, rank) <==> y in s || y == x
    ensures Tally(Insert(s, x, rank), hit) == Tally(s, hit) + if hit(x) then 1 else 0
  {
    hide Tally;
    if s == [] || rank(s[|s| - 1]) <= rank(x) {
      TallyPush(s, x, hit);
    } else {
      var front, last := s[..|s| - 1], s[|s| - 1];
      InsertRec(front, x, rank, hit);
      TallyPush(front, last, hit);
      TallyPush(Insert(front, x, rank), last, hit);
      assert s == front + [last];
    }
  }

  lemma {:induction false} SortRecs(s: seq<Rec>, rank: Rec -> int, hit: Rec -> bool)
    ensures forall y :: y in SortBy(s, rank) <==> y in s
    ensures Tally(SortBy(s, rank), hit) == Tally(s, hit)
  {
    hide Tally, Insert;
    if s != [] {
      var front, last := s[..|s| - 1], s[|s| - 1];
      SortRecs(front, rank, hit);
      InsertRec(SortBy(front, rank), last, rank, hit);
      TallyPush(front, last, hit);
      assert s == front + [last];
    }
  }

  ghost predicate AllApart(s: seq<Ref>, x: Ref) {
    forall y :: y in s ==> RefsApart(y, x)
  }

  lemma UniquePush(s: seq<Ref>, x: Ref)
    ensures UniqueRefs(s + [x]) <==> UniqueRefs(s) && AllApart(s, x)
    ensures forall y :: y in s + [x] <==> y in s || y == x
  {
    hide RefsApart;
    var more := s + [x];
    if UniqueRefs(more) {
      forall i, j | 0 <= i < j < |s| ensures RefsApart(s[i], s[j]) {
        assert more[i] == s[i] && more[j] == s[j];
      }
      forall y | y in s ensures RefsApart(y, x) {
        var i :| 0 <= i < |s| && s[i] == y;
        assert more[i] == y && more[|s|] == x;
      }
    }
    if UniqueRefs(s) && AllApart(s, x) {
      forall i, j | 0 <= i < j < |more| ensures RefsApart(more[i], more[j]) {
        assert more[i] == s[i] && more[i] in s;
      }
    }
  }

  lemma {:induction false} InsertRef(s: seq<Ref>, x: Ref, rank: Ref -> int)
    requires UniqueRefs(s) && AllApart(s, x)
    ensures UniqueRefs(Insert(s, x, rank)) && forall y :: y in Insert(s, x, rank) <==> y in s || y == x
  {
    hide RefsApart, UniqueRefs;
    if s == [] || rank(s[|s| - 1]) <= rank(x) {
      UniquePush(s, x);
    } else {
      var front, last := s[..|s| - 1], s[|s| - 1];
      assert s == front + [last];
      UniquePush(front, last);
      InsertRef(front, x, rank);
      ApartBoth(last, x);
      UniquePush(Insert(front, x, rank), last);
    }
  }

  lemma ApartBoth(a: Ref, b: Ref)
    requires RefsApart(a, b)
    ensures RefsApart(b, a)
  {
    hide Range;
  }

  lemma {:induction false} SortRefs(s: seq<Ref>, rank: Ref -> int)
    requires UniqueRefs(s)
    ensures UniqueRefs(SortBy(s, rank)) && forall y :: y in SortBy(s, rank) <==> y in s
  {
    hide RefsApart, UniqueRefs, Insert;
    if s == [] {
      assert SortBy(s, rank) == s;
    } else {
      var front, last := s[..|s| - 1], s[|s| - 1];
      assert s == front + [last];
      UniquePush(front, last);
      SortRefs(front, rank);
      InsertRef(SortBy(front, rank), last, rank);
    }
  }

  lemma SortMatched(records: seq<Rec>, refs: seq<Ref>, bs: nat, rank: Rec -> int, rankRef: Ref -> int)
    requires Matched(records, refs, bs)
    ensures Matched(SortBy(records, rank), SortBy(refs, rankRef), bs)
  {
    hide UniqueRefs, Tally;
    var rs, fs := SortBy(records, rank), SortBy(refs, rankRef);
    SortRefs(refs, rankRef);
    forall i | 0 <= i < |rs| && Lies(rs[i]) ensures Backed(rs[i], fs, bs) {
      SortRecs(records, rank, AtBlock(0));
      assert rs[i] in rs;
      var y := BackedBy(records, refs, bs, rs[i]);
      var k :| 0 <= k < |fs| && fs[k] == y;
    }
    forall k | 0 <= k < |fs| && fs[k].Ref? ensures CountAt(rs, fs[k].paddr) <= fs[k].count {
      SortRecs(records, rank, AtBlock(fs[k].paddr));
      assert fs[k] in fs;
      var j :| 0 <= j < |refs| && refs[j] == fs[k];
    }
  }
}

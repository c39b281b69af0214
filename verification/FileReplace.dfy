/**
 * Replacing one file (src/apfs_replace.rs `replace_file_in_container`): its old streams are detached,
 * the new data written, catalog and extent references rewritten, and the trees planted. The file then
 * reads as the new data, every other file reads as before, and what is retired is exactly what
 * nothing refers to any more.
 */
module FileReplace {
  import opened Bytes
  import opened TreeNode
  import opened BTree
  import opened TreeWriter
  import opened SpaceManager
  import opened TreePublish
  import opened StreamDetach
  import opened StreamWrite
  import T = ReplaceTransaction
  import BlockAllocator
  import IpRing

  /** Object ids have 60 bits. */
  const ID_MASK: nat := 0x0FFF_FFFF_FFFF_FFFF

  // ---- what a replacement relies on and keeps ----------------------------------------------------------------------

  /** All ids are below the next one, and an inode with a size has a stream of its own. */
  predicate Known(r: Rec, next: nat) {
    && (!r.Bad? ==> r.id < next) && (r.Inode? ==> r.stream < next && (r.size.Some? ==> r.fields))
    && (r.Xattr? && r.value.Streamed? ==> r.value.stream < next)
  }

  function InodeOf(id: nat): Rec -> bool {
    (r: Rec) => r.Inode? && r.id == id
  }

  ghost predicate Sound(records: seq<Rec>, refs: seq<Ref>, bs: nat, used: set<nat>, next: nat) {
    && bs > 0 && Matched(records, refs, bs) && RefsUsed(refs, used) && 0 in used
    && (forall r :: r in records ==> Known(r, next)) && (forall id :: Tally(records, InodeOf(id)) <= 1)
  }

  /** The first inode of the file. */
  method FindInode(records: seq<Rec>, file: nat) returns (r: Option<nat>)
    ensures r.Some? ==> FirstInode(records, file, r.value)
    ensures r.None? ==> forall x :: x in records ==> !(x.Inode? && x.id == file)
  {
    for i := 0 to |records|
      invariant forall k :: 0 <= k < i ==> !(records[k].Inode? && records[k].id == file)
    {
      if records[i].Inode? && records[i].id == file {
        return Some(i);
      }
    }
    r := None;
  }

  /** The new record of the inode: its own stream of the new size. */
  function NewInode(file: nat, id: nat, size: nat): Rec {
    Inode(file, id, Some(size), true)
  }

  /** The catalog with the inode rewritten and the new stream added. */
  function Assembled(records: seq<Rec>, index: nat, inode: Rec, id: nat, runs: seq<Run>, bs: nat): seq<Rec>
    requires index < |records|
  {
    records[index := inode] + [StreamId(id, Some(1))] + NewExtents(runs, id, bs)
  }

  // ---- other files keep their streams ------------------------------------------------------------------------------

  /** A stream the file owns alone is no other inode's. */
  lemma OtherStream(records: seq<Rec>, file: nat, own: Rec, stream: nat, g: Rec)
    requires own in records && Owns(own, stream) && own.id == file && Tally(records, OwnerOf(stream)) == 1
    requires g in records && g.Inode? && g.id != file && g.fields
    ensures g.stream != stream
  {
    if g.stream == stream {
      TallyTwo(records, OwnerOf(stream), own, g);
    }
  }

  /** What the selection gave: each stream is owned by the file, and by nothing else. */
  ghost predicate OwnStreams(records: seq<Rec>, file: nat, streams: seq<nat>) {
    forall i :: 0 <= i < |streams| ==> Tally(records, OwnerOf(streams[i])) == 1 && HasOwner(records, file, streams[i])
  }

  ghost predicate HasOwner(records: seq<Rec>, file: nat, stream: nat) {
    exists own :: own in records && Owns(own, stream) && own.id == file
  }

  lemma OthersSpared(records: seq<Rec>, file: nat, streams: seq<nat>, g: Rec)
    requires OwnStreams(records, file, streams) && g in records && g.Inode? && g.id != file && g.fields
    ensures g.stream !in streams
  {
    forall i | 0 <= i < |streams| ensures streams[i] != g.stream {
      assert HasOwner(records, file, streams[i]);
      var own :| own in records && Owns(own, streams[i]) && own.id == file;
      OtherStream(records, file, own, streams[i], g);
    }
  }

  /** The streams selected are the file's: its inode names one, its attributes the others. */
  lemma Selected(records: seq<Rec>, file: nat, fork: bool, inode: Rec, next: nat, stream: nat)
    requires inode in records && inode.Inode? && inode.id == file && Known(inode, next)
    requires stream in AttrStreams(records, file, fork) + if inode.size.Some? then {inode.stream} else {}
    ensures HasOwner(records, file, stream)
  {
    if stream in AttrStreams(records, file, fork) {
      var i :| 0 <= i < |records| && PickedStream(records[i], file, fork) && records[i].value.stream == stream;
      assert Owns(records[i], stream) && records[i].id == file;
    } else {
      assert Owns(inode, stream);
    }
  }

  // ---- what the rewritten catalog holds ----------------------------------------------------------------------------

  function PickedOf(file: nat, fork: bool): Rec -> bool {
    r => Picked(r, file, fork)
  }

  /** All that goes into a rewritten catalog. */
  datatype Plan = Plan(file: nat, fork: bool, streams: seq<nat>, id: nat, size: nat, runs: seq<Run>)

  /** What stays of the old catalog: neither the attributes picked nor the streams detached. */
  function Remains(records: seq<Rec>, q: Plan): seq<Rec> {
    Keep(Keep(records, PickedOf(q.file, q.fork)), OfOne(q.streams))
  }

  lemma RemainsIs(records: seq<Rec>, q: Plan, x: Rec)
    ensures x in Remains(records, q) <==> x in records && !Picked(x, q.file, q.fork) && !OfAny(x, q.streams)
  {
  }

  /** The new catalog before it is sorted. */
  function Composed(records: seq<Rec>, q: Plan, index: nat, bs: nat): seq<Rec>
    requires index < |Remains(records, q)|
  {
    Assembled(Remains(records, q), index, NewInode(q.file, q.id, q.size), q.id, q.runs, bs)
  }

  lemma AssembledHas(records: seq<Rec>, index: nat, inode: Rec, id: nat, runs: seq<Run>, bs: nat, x: Rec)
    requires index < |records|
    ensures inode in Assembled(records, index, inode, id, runs, bs)
    ensures x != records[index] && x != inode ==>
              (x in Assembled(records, index, inode, id, runs, bs) <==>
               x in records || x == StreamId(id, Some(1)) || x in NewExtents(runs, id, bs))
    ensures x in Assembled(records, index, inode, id, runs, bs) ==>
              x in records || x == inode || x == StreamId(id, Some(1)) || x in NewExtents(runs, id, bs)
  {
    hide NewExtents;
    var swapped := records[index := inode];
    assert swapped[index] == inode;
    if x in swapped && x != inode {
      var i :| 0 <= i < |swapped| && swapped[i] == x;
      assert records[i] == x;
    }
    if x in records && x != records[index] {
      var i :| 0 <= i < |records| && records[i] == x;
      assert swapped[i] == x;
    }
  }

  /** A record that is no inode of the file is in the new catalog if it stays, or belongs to the new stream. */
  lemma ComposedHas(records: seq<Rec>, q: Plan, index: nat, bs: nat, x: Rec)
    requires index < |Remains(records, q)|
    requires var r := Remains(records, q)[index]; r.Inode? && r.id == q.file
    requires !(x.Inode? && x.id == q.file)
    ensures x in Composed(records, q, index, bs) <==>
            (x in records && !Picked(x, q.file, q.fork) && !OfAny(x, q.streams)) || x == StreamId(q.id, Some(1)) ||
                                               x in NewExtents(q.runs, q.id, bs)
  {
    hide NewExtents, Assembled, Remains;
    RemainsIs(records, q, x);
    AssembledHas(Remains(records, q), index, NewInode(q.file, q.id, q.size), q.id, q.runs, bs, x);
  }

  /** The extents of any other stream are those there were. */
  lemma OtherExtents(records: seq<Rec>, q: Plan, index: nat, bs: nat, stream: nat, x: Rec)
    requires index < |Remains(records, q)|
    requires var r := Remains(records, q)[index]; r.Inode? && r.id == q.file
    requires stream !in q.streams && stream != q.id && Placed(x, stream)
    ensures x in Composed(records, q, index, bs) <==> x in records
  {
    hide Composed, Remains;
    ComposedHas(records, q, index, bs, x);
    assert x !in NewExtents(q.runs, q.id, bs);
  }

  /** The extents of the new stream are the new ones. */
  lemma NewStreamExtents(records: seq<Rec>, q: Plan, index: nat, bs: nat, next: nat, x: Rec)
    requires index < |Remains(records, q)|
    requires var r := Remains(records, q)[index]; r.Inode? && r.id == q.file
    requires (forall r :: r in records ==> Known(r, next)) && q.id == next && Placed(x, q.id)
    ensures x in Composed(records, q, index, bs) <==> x in NewExtents(q.runs, q.id, bs)
  {
    hide Composed, Remains, NewExtents;
    ComposedHas(records, q, index, bs, x);
  }

  // ---- which blocks it refers to -----------------------------------------------------------------------------------

  /** Catalogs with the same extents refer to the same blocks. */
  lemma SameCells(a: seq<Rec>, b: seq<Rec>, bs: nat)
    requires bs > 0 && forall x :: Lies(x) ==> (x in a <==> x in b)
    ensures CatCells(a, bs) == CatCells(b, bs)
  {
    hide CatCells;
    forall y ensures y in CatCells(a, bs) <==> y in CatCells(b, bs) {
      if y in CatCells(a, bs) {
        CatIn(b, bs, CatAt(a, bs, y), y);
      }
      if y in CatCells(b, bs) {
        CatIn(a, bs, CatAt(b, bs, y), y);
      }
    }
  }

  lemma JoinedCells(a: seq<Rec>, b: seq<Rec>, bs: nat)
    requires bs > 0
    ensures CatCells(a + b, bs) == CatCells(a, bs) + CatCells(b, bs)
  {
    hide CatCells;
    forall y ensures y in CatCells(a + b, bs) <==> y in CatCells(a, bs) + CatCells(b, bs) {
      if y in CatCells(a + b, bs) {
        var x := CatAt(a + b, bs, y);
        CatIn(if x in a then a else b, bs, x, y);
      }
      if y in CatCells(a, bs) {
        CatIn(a + b, bs, CatAt(a, bs, y), y);
      }
      if y in CatCells(b, bs) {
        CatIn(a + b, bs, CatAt(b, bs, y), y);
      }
    }
  }

  /** The blocks of the new extents are those written. */
  lemma NewCells(runs: seq<Run>, log: seq<nat>, id: nat, bs: nat)
    requires bs > 0 && Follow(runs, log) && 0 !in log
    ensures CatCells(NewExtents(runs, id, bs), bs) == SetOf(log)
  {
    hide CatCells, Range, Follow;
    var recent := NewExtents(runs, id, bs);
    forall y ensures y in CatCells(recent, bs) <==> y in SetOf(log) {
      if y in CatCells(recent, bs) {
        var x := CatAt(recent, bs, y);
        var k :| 0 <= k < |recent| && recent[k] == x;
        RunPlaced(runs, log, k);
        RunLength(runs[k], id, bs);
        var m := RunBlock(runs[k], log, y);
      }
      if y in SetOf(log) {
        var m :| 0 <= m < |log| && log[m] == y;
        var k := LogRun(runs, log, m);
        RunPlaced(runs, log, k);
        RunLength(runs[k], id, bs);
        CatIn(recent, bs, recent[k], y);
      }
    }
  }

  lemma RunLength(run: Run, id: nat, bs: nat)
    requires bs > 0
    ensures CellsOf(ExtentOf(run, id, bs), bs) == Range(run.paddr, run.blocks)
  {
    DivMod(run.blocks, bs, 0);
  }

  lemma LogRun(runs: seq<Run>, log: seq<nat>, m: nat) returns (k: nat)
    requires Follow(runs, log) && m < |log|
    ensures k < |runs| && log[m] in Range(runs[k].paddr, runs[k].blocks)
  {
    assert InRun(runs, m);
    k :| 0 <= k < |runs| && Spans(runs[k], m);
    assert Names(runs[k], log);
  }

  /** The references of the new runs are to the blocks written. */
  lemma NewRefCells(refs: seq<Ref>, runs: seq<Run>, log: seq<nat>, file: nat)
    requires Follow(runs, log)
    ensures RefCells(refs + NewRefs(runs, file)) == RefCells(refs) + SetOf(log)
  {
    hide Range, Follow;
    var more, all := NewRefs(runs, file), refs + NewRefs(runs, file);
    forall y | y in RefCells(all) ensures y in RefCells(refs) + SetOf(log) {
      var i :| 0 <= i < |all| && all[i].Ref? && y in Range(all[i].paddr, all[i].blocks);
      if i < |refs| {
        assert refs[i] == all[i];
      } else {
        var k := i - |refs|;
        assert all[i] == more[k];
        RunNames(runs, log, k);
        var m := RunBlock(runs[k], log, y);
      }
    }
    forall y | y in RefCells(refs) + SetOf(log) ensures y in RefCells(all) {
      if y in RefCells(refs) {
        var i :| 0 <= i < |refs| && refs[i].Ref? && y in Range(refs[i].paddr, refs[i].blocks);
        assert all[i] == refs[i];
      } else {
        var m :| 0 <= m < |log| && log[m] == y;
        var k := LogRun(runs, log, m);
        assert all[|refs| + k] == more[k];
      }
    }
  }

  lemma RunNames(runs: seq<Run>, log: seq<nat>, k: nat)
    requires Follow(runs, log) && k < |runs|
    ensures Names(runs[k], log)
  {
    hide Names;
  }

  lemma SameRefCells(a: seq<Ref>, b: seq<Ref>)
    requires forall x :: x in a <==> x in b
    ensures RefCells(a) == RefCells(b)
  {
    hide Range;
    forall y ensures y in RefCells(a) <==> y in RefCells(b) {
      if y in RefCells(a) {
        var i :| 0 <= i < |a| && a[i].Ref? && y in Range(a[i].paddr, a[i].blocks);
        assert a[i] in b;
        var j :| 0 <= j < |b| && b[j] == a[i];
      }
      if y in RefCells(b) {
        var i :| 0 <= i < |b| && b[i].Ref? && y in Range(b[i].paddr, b[i].blocks);
        assert b[i] in a;
        var j :| 0 <= j < |a| && a[j] == b[i];
      }
    }
  }

  /** Extents of a matched catalog lie in its references, and those in blocks in use. */
  lemma CellsUsed(records: seq<Rec>, refs: seq<Ref>, bs: nat, used: set<nat>)
    requires bs > 0 && Matched(records, refs, bs) && RefsUsed(refs, used)
    ensures CatCells(records, bs) <= RefCells(refs) <= used
  {
    hide Matched, CatCells, Range;
    forall y | y in CatCells(records, bs) ensures y in RefCells(refs) {
      var x := CatAt(records, bs, y);
      var z := BackedBy(records, refs, bs, x);
      Whole(z, x, bs);
      var k :| 0 <= k < |refs| && refs[k] == z;
    }
    forall y | y in RefCells(refs) ensures y in used {
      var i :| 0 <= i < |refs| && refs[i].Ref? && y in Range(refs[i].paddr, refs[i].blocks);
      assert RefUsed(refs[i], used);
    }
  }

  // ---- the rewritten catalog is sound ------------------------------------------------------------------------------

  lemma {:induction false} TallySwap(records: seq<Rec>, i: nat, r: Rec, hit: Rec -> bool)
    requires i < |records|
    ensures Tally(records[i := r], hit) ==
            Tally(records, hit) - (if hit(records[i]) then 1 else 0) + if hit(r) then 1 else 0
  {
    var n := |records| - 1;
    var swapped := records[i := r];
    if i == n {
      assert swapped[..n] == records[..n];
    } else {
      TallySwap(records[..n], i, r, hit);
      assert swapped[..n] == records[..n][i := r];
    }
  }

  lemma SwapMatched(records: seq<Rec>, refs: seq<Ref>, bs: nat, i: nat, r: Rec)
    requires Matched(records, refs, bs) && i < |records| && records[i].Inode? && r.Inode?
    ensures Matched(records[i := r], refs, bs)
  {
    hide UniqueRefs, Tally, Backed;
    forall k | 0 <= k < |refs| && refs[k].Ref? ensures CountAt(records[i := r], refs[k].paddr) <= refs[k].count {
      TallySwap(records, i, r, AtBlock(refs[k].paddr));
    }
  }

  /** What stands between the old catalog and the new one. */
  ghost predicate Prepared(records: seq<Rec>, refs: seq<Ref>, bs: nat, used: set<nat>, next: nat, q: Plan, index: nat,
                           left: seq<Ref>, retired: seq<(nat, nat)>, retained: bool, log: seq<nat>)
  {
    && Sound(records, refs, bs, used, next) && q.id == next && q.file < next && OwnStreams(records, q.file, q.streams)
    && Detached(Keep(records, PickedOf(q.file, q.fork)), refs, Remains(records, q), left, retired, bs, retained)
    && index < |Remains(records, q)| && Remains(records, q)[index].Inode? && Remains(records, q)[index].id == q.file
    && Follow(q.runs, log) && IpRing.Distinct(log) && SetOf(log) !! used && 0 !in log
  }

  lemma ComposedMatched(records: seq<Rec>, refs: seq<Ref>, bs: nat, used: set<nat>, next: nat, q: Plan, index: nat,
                        left: seq<Ref>, retired: seq<(nat, nat)>, retained: bool, log: seq<nat>)
    requires Prepared(records, refs, bs, used, next, q, index, left, retired, retained, log)
    ensures Matched(Composed(records, q, index, bs), left + NewRefs(q.runs, q.file), bs)
    ensures RefsUsed(left, used)
  {
    hide Matched, Follow, RefUsed, CatCells, RefCells, RunCells, NewExtents, NewRefs, Remains, OwnStreams, Tally;
    var r1, inode := Remains(records, q), NewInode(q.file, q.id, q.size);
    SwapMatched(r1, left, bs, index, inode);
    forall k | 0 <= k < |left| ensures RefUsed(left[k], used) {
      assert left[k] in left;
      var j :| 0 <= j < |refs| && refs[j] == left[k];
    }
    AddMatched(r1[index := inode], left, bs, q.id, q.file, q.runs, log, used);
  }

  lemma ComposedKnown(records: seq<Rec>, q: Plan, index: nat, bs: nat, next: nat)
    requires (forall r :: r in records ==> Known(r, next)) && index < |Remains(records, q)| && q.id == next
    requires q.file < next
    ensures forall r :: r in Composed(records, q, index, bs) ==> Known(r, next + 1)
  {
    hide Remains, Assembled;
    forall r | r in Composed(records, q, index, bs) ensures Known(r, next + 1) {
      AssembledHas(Remains(records, q), index, NewInode(q.file, q.id, q.size), q.id, q.runs, bs, r);
      RemainsIs(records, q, r);
    }
  }

  lemma ComposedInodes(records: seq<Rec>, q: Plan, index: nat, bs: nat, id: nat)
    requires index < |Remains(records, q)| && Tally(records, InodeOf(id)) <= 1
    requires Remains(records, q)[index].Inode? && Remains(records, q)[index].id == q.file
    ensures Tally(Composed(records, q, index, bs), InodeOf(id)) <= 1
  {
    hide Tally, Keep, NewExtents;
    var hit, r1, inode := InodeOf(id), Remains(records, q), NewInode(q.file, q.id, q.size);
    var mid, recent := [StreamId(q.id, Some(1))], NewExtents(q.runs, q.id, bs);
    TallyKeep(records, PickedOf(q.file, q.fork), hit);
    TallyKeep(Keep(records, PickedOf(q.file, q.fork)), OfOne(q.streams), hit);
    TallySwap(r1, index, inode, hit);
    TallyConcat(r1[index := inode], mid, hit);
    TallyConcat(r1[index := inode] + mid, recent, hit);
    TallyNone(mid, hit);
    NoInodes(q.runs, q.id, bs, hit);
  }

  lemma NoInodes(runs: seq<Run>, id: nat, bs: nat, hit: Rec -> bool)
    requires forall r :: hit(r) ==> r.Inode?
    ensures Tally(NewExtents(runs, id, bs), hit) == 0
  {
    TallyNone(NewExtents(runs, id, bs), hit);
  }

  /** The rewritten catalog and references, sorted, are what the next replacement relies on. */
  lemma SoundAgain(records: seq<Rec>, refs: seq<Ref>, bs: nat, used: set<nat>, next: nat, q: Plan, index: nat,
                   left: seq<Ref>, retired: seq<(nat, nat)>, retained: bool, log: seq<nat>, rank: Rec -> int,
                   rankRef: Ref -> int)
    requires Prepared(records, refs, bs, used, next, q, index, left, retired, retained, log)
    ensures Sound(SortBy(Composed(records, q, index, bs), rank), SortBy(left + NewRefs(q.runs, q.file), rankRef), bs,
                  used + SetOf(log), next + 1)
  {
    hide Matched, Follow, Detached, Composed, Tally, OwnStreams, NewRefs, RefsUsed;
    var rs, fs := Composed(records, q, index, bs), left + NewRefs(q.runs, q.file);
    ComposedMatched(records, refs, bs, used, next, q, index, left, retired, retained, log);
    SortMatched(rs, fs, bs, rank, rankRef);
    ComposedKnown(records, q, index, bs, next);
    MatchedUnique(rs, fs, bs);
    SortRefs(fs, rankRef);
    AllUsed(left, q.runs, q.file, log, used);
    SameUsed(fs, SortBy(fs, rankRef), used + SetOf(log));
    SortRecs(rs, rank, AtBlock(0));
    forall id ensures Tally(SortBy(rs, rank), InodeOf(id)) <= 1 {
      ComposedInodes(records, q, index, bs, id);
      SortRecs(rs, rank, InodeOf(id));
    }
  }

  lemma AllUsed(left: seq<Ref>, runs: seq<Run>, file: nat, log: seq<nat>, used: set<nat>)
    requires RefsUsed(left, used) && Follow(runs, log)
    ensures RefsUsed(left + NewRefs(runs, file), used + SetOf(log))
  {
    hide Range, Follow;
    var all := left + NewRefs(runs, file);
    forall k | 0 <= k < |all| ensures RefUsed(all[k], used + SetOf(log)) {
      if k < |left| {
        assert RefUsed(left[k], used);
      } else {
        var j := k - |left|;
        NewBlock(runs, log, j);
        RunNames(runs, log, j);
        forall y | y in Range(runs[j].paddr, runs[j].blocks) ensures y in SetOf(log) {
          var m := RunBlock(runs[j], log, y);
        }
      }
    }
  }

  lemma SameUsed(a: seq<Ref>, b: seq<Ref>, used: set<nat>)
    requires RefsUsed(a, used) && forall x :: x in a <==> x in b
    ensures RefsUsed(b, used)
  {
    hide RefUsed;
    forall k | 0 <= k < |b| ensures RefUsed(b[k], used) {
      assert b[k] in b;
      var j :| 0 <= j < |a| && a[j] == b[k];
    }
  }

  // ---- what a replacement does -------------------------------------------------------------------------------------

  /** The catalog, the references and the device at one moment. */
  datatype State = State(records: seq<Rec>, refs: seq<Ref>, disk: Blocks)

  /** The file has one inode, of a stream of its own that reads as the data. */
  ghost predicate FileReads(t: State, bs: nat, file: nat, id: nat, data: seq<byte>)
    requires bs > 0
  {
    NewInode(file, id, |data|) in t.records && Reads(t.records, id, t.disk, bs, data)
  }

  /** Every other file keeps its inode and reads as it did. */
  ghost predicate OthersRead(s: State, t: State, bs: nat, file: nat)
    requires bs > 0
  {
    forall g :: g in s.records && g.Inode? && g.id != file ==> g in t.records && (g.fields ==> SameContent(s, t, bs, g))
  }

  ghost predicate SameContent(s: State, t: State, bs: nat, g: Rec)
    requires bs > 0 && g.Inode?
  {
    forall content ::
      Reads(s.records, g.stream, s.disk, bs, content) ==> Reads(t.records, g.stream, t.disk, bs, content)
  }

  /**
   * Without a snapshot the blocks retired are exactly those the catalog no longer refers to, and no
   * reference covers them; with one, nothing is retired and every reference is kept.
   */
  ghost predicate RetiredRight(s: State, t: State, bs: nat, retired: seq<(nat, nat)>, retained: bool)
    requires bs > 0
  {
    if retained then retired == [] && forall x :: x in s.refs ==> x in t.refs
    else
      RunCells(retired) == CatCells(s.records, bs) - CatCells(t.records, bs) && RunCells(retired) !! RefCells(t.refs)
  }

  lemma OthersStill(s: State, bs: nat, used: set<nat>, next: nat, q: Plan, index: nat, left: seq<Ref>,
                    retired: seq<(nat, nat)>, retained: bool, log: seq<nat>, disk: Blocks, after: seq<Rec>, g: Rec)
    requires Prepared(s.records, s.refs, bs, used, next, q, index, left, retired, retained, log)
    requires forall x :: x in after <==> x in Composed(s.records, q, index, bs)
    requires Only(s.disk, disk, SetOf(log)) && g in s.records && g.Inode? && g.id != q.file
    ensures g in after
    ensures g.fields ==> SameContent(s, State(after, [], disk), bs, g)
  {
    hide Matched, Follow, Detached, Composed, Tally, Remains, Reads, OwnStreams, NewExtents, CatCells, RefCells;
    ComposedHas(s.records, q, index, bs, g);
    if g.fields {
      OthersSpared(s.records, q.file, q.streams, g);
      assert Known(g, next);
      forall x | Placed(x, g.stream) ensures x in s.records <==> x in after {
        OtherExtents(s.records, q, index, bs, g.stream, x);
      }
      CellsUsed(s.records, s.refs, bs, used);
      forall x | x in s.records && Placed(x, g.stream)
        ensures x.length % bs == 0
        ensures forall p :: p in CellsOf(x, bs) && p in s.disk ==> p in disk && disk[p] == s.disk[p]
      {
        ExtentWhole(s.records, s.refs, bs, x);
        forall p | p in CellsOf(x, bs) && p in s.disk ensures p in disk && disk[p] == s.disk[p] {
          CatIn(s.records, bs, x, p);
        }
      }
      forall content | Reads(s.records, g.stream, s.disk, bs, content)
        ensures Reads(after, g.stream, disk, bs, content)
      {
        ReadsSame(s.records, after, g.stream, s.disk, disk, bs, content);
      }
    }
  }

  lemma ExtentWhole(records: seq<Rec>, refs: seq<Ref>, bs: nat, x: Rec)
    requires bs > 0 && Matched(records, refs, bs) && x in records && Lies(x)
    ensures x.length % bs == 0
  {
    hide Matched;
    var y := BackedBy(records, refs, bs, x);
    DivMod(y.blocks, bs, 0);
  }

  lemma RetiredStill(s: State, bs: nat, used: set<nat>, next: nat, q: Plan, index: nat, left: seq<Ref>,
                     retired: seq<(nat, nat)>, retained: bool, log: seq<nat>, t: State)
    requires Prepared(s.records, s.refs, bs, used, next, q, index, left, retired, retained, log)
    requires forall x :: x in t.records <==> x in Composed(s.records, q, index, bs)
    requires forall x :: x in t.refs <==> x in left + NewRefs(q.runs, q.file)
    ensures RetiredRight(s, t, bs, retired, retained)
  {
    hide Matched, Follow, Tally, OwnStreams, CatCells, RefCells, RunCells, Remains, Composed, NewRefs;
    if retained {
      forall x | x in s.refs ensures x in t.refs {
        assert x in left;
      }
    } else {
      PickedCells(s.records, bs, q.file, q.fork);
      ComposedCells(s.records, q, index, bs, log);
      SameCells(t.records, Composed(s.records, q, index, bs), bs);
      SameRefCells(t.refs, left + NewRefs(q.runs, q.file));
      NewRefCells(left, q.runs, log, q.file);
      CellsUsed(s.records, s.refs, bs, used);
    }
  }

  /** Dropping attributes drops no extent. */
  lemma PickedCells(records: seq<Rec>, bs: nat, file: nat, fork: bool)
    requires bs > 0
    ensures CatCells(Keep(records, PickedOf(file, fork)), bs) == CatCells(records, bs)
  {
    SameCells(Keep(records, PickedOf(file, fork)), records, bs);
  }

  lemma ComposedCells(records: seq<Rec>, q: Plan, index: nat, bs: nat, log: seq<nat>)
    requires bs > 0 && index < |Remains(records, q)| && Remains(records, q)[index].Inode?
    requires Follow(q.runs, log) && 0 !in log
    ensures CatCells(Composed(records, q, index, bs), bs) == CatCells(Remains(records, q), bs) + SetOf(log)
  {
    hide CatCells, Follow, Remains, NewExtents;
    var r1, inode := Remains(records, q), NewInode(q.file, q.id, q.size);
    var swapped, mid, recent := r1[index := inode], [StreamId(q.id, Some(1))], NewExtents(q.runs, q.id, bs);
    JoinedCells(swapped + mid, recent, bs);
    NewCells(q.runs, log, q.id, bs);
    forall x | Lies(x) ensures x in swapped + mid <==> x in r1 {
      if x in r1 {
        var i :| 0 <= i < |r1| && r1[i] == x;
        assert swapped[i] == x;
      }
      if x in swapped {
        var i :| 0 <= i < |swapped| && swapped[i] == x;
        assert r1[i] == x;
      }
    }
    SameCells(swapped + mid, r1, bs);
  }

  // ---- the replacement ---------------------------------------------------------------------------------------------

  /** What is left when the file's streams are gone: catalog, references, blocks retired, and the streams. */
  datatype Stripped = Stripped(records: seq<Rec>, refs: seq<Ref>, retired: seq<(nat, nat)>, streams: seq<nat>)

  /** Drops the records at which the selection looked; they are told by what they are. */
  method DropPicked(records: seq<Rec>, file: nat, fork: bool) returns (r: seq<Rec>)
    ensures r == Keep(records, PickedOf(file, fork))
  {
    r := [];
    for i := 0 to |records|
      invariant r == Keep(records[..i], PickedOf(file, fork))
    {
      assert records[..i + 1][..i] == records[..i];
      if !Picked(records[i], file, fork) {
        r := r + [records[i]];
      }
    }
    assert records[..|records|] == records;
  }

  /** The numbers of the set, ascending. */
  ghost predicate Ascends(list: seq<nat>, s: set<nat>) {
    (forall x :: x in list <==> x in s) && forall i, j :: 0 <= i < j < |list| ==> list[i] < list[j]
  }

  lemma {:induction false} AscendsOnce(a: seq<nat>, b: seq<nat>, s: set<nat>)
    requires Ascends(a, s) && Ascends(b, s)
    ensures a == b
    decreases |a|
  {
    if a == [] {
      assert s == {};
      if b != [] {
        LastGreatest(b, s);
        assert false;
      }
    } else {
      var n, m := |a| - 1, |b| - 1;
      assert a[n] in s;
      assert b != [];
      LastGreatest(a, s);
      LastGreatest(b, s);
      FrontAscends(a, s);
      FrontAscends(b, s);
      AscendsOnce(a[..n], b[..m], s - {a[n]});
      assert a == a[..n] + [a[n]] && b == b[..m] + [b[m]];
    }
  }

  lemma LastGreatest(a: seq<nat>, s: set<nat>)
    requires Ascends(a, s) && a != []
    ensures a[|a| - 1] in s && forall x :: x in s ==> x <= a[|a| - 1]
  {
    forall x | x in s ensures x <= a[|a| - 1] {
      var i :| 0 <= i < |a| && a[i] == x;
    }
    assert a[|a| - 1] in a;
  }

  lemma FrontAscends(a: seq<nat>, s: set<nat>)
    requires Ascends(a, s) && a != []
    ensures Ascends(a[..|a| - 1], s - {a[|a| - 1]})
  {
    var n := |a| - 1;
    forall x ensures x in a[..n] <==> x in s - {a[n]} {
      if x in a[..n] {
        var i :| 0 <= i < n && a[..n][i] == x;
        assert a[i] == x && a[i] in a;
      }
      if x in s - {a[n]} {
        var i :| 0 <= i < |a| && a[i] == x;
        assert a[..n][i] == x;
      }
    }
  }

  /** The streams that go with the content of the file whose inode this is. */
  ghost function Chosen(records: seq<Rec>, fork: bool, inode: Rec): set<nat>
    requires inode.Inode?
  {
    AttrStreams(records, inode.id, fork) + if inode.size.Some? then {inode.stream} else {}
  }

  /** The file can be stripped: an inode, records that can be read, and streams nothing else owns. */
  ghost predicate Strippable(records: seq<Rec>, refs: seq<Ref>, file: nat, fork: bool, bs: nat, retained: bool)
    requires bs > 0
  {
    exists i, streams :: StripsBy(records, refs, file, fork, bs, retained, i, streams)
  }

  ghost predicate StripsBy(records: seq<Rec>, refs: seq<Ref>, file: nat, fork: bool, bs: nat, retained: bool, i: int,
                           streams: seq<nat>)
    requires bs > 0
  {
    && FirstInode(records, file, i) && (forall k :: 0 <= k < |records| ==> Legible(records[k], file, fork))
    && Ascends(streams, Chosen(records, fork, records[i]))
    && (forall k :: 0 <= k < |streams| ==> Tally(records, OwnerOf(streams[k])) == 1)
    && AllDetachable(Keep(records, PickedOf(file, fork)), refs, streams, file, bs, retained)
  }

  ghost predicate FirstInode(records: seq<Rec>, file: nat, i: int) {
    && 0 <= i < |records| && records[i].Inode? && records[i].id == file
    && forall k :: 0 <= k < i ==> !(records[k].Inode? && records[k].id == file)
  }

  /**
   * Finds the file's inode and the streams that go with its content, refuses any that something else
   * owns too, and detaches them. Refused exactly when the file cannot be stripped.
   */
  method Strip(records: seq<Rec>, refs: seq<Ref>, file: nat, fork: bool, bs: nat, retained: bool, ghost next: nat)
      returns (r: Result<Stripped>)
    requires bs > 0
    ensures r.Ok? <==> Strippable(records, refs, file, fork, bs, retained)
    ensures r.Ok? ==> r.value.records == Keep(Keep(records, PickedOf(file, fork)), OfOne(r.value.streams))
    ensures r.Ok? && Matched(records, refs, bs) ==>
              Detached(Keep(records, PickedOf(file, fork)), refs, r.value.records, r.value.refs, r.value.retired, bs,
                       retained)
    ensures r.Ok? && (forall x :: x in records ==> Known(x, next)) ==> OwnStreams(records, file, r.value.streams)
    ensures r.Ok? ==> exists x :: x in r.value.records && x.Inode? && x.id == file
  {
    hide Matched, Detached, AttrStreams, Tally, Known, Legible, AllDetachable, Strippable, OwnStreams, OwnerOf;
    var found := FindInode(records, file);
    if found.None? {
      NotStripped(records, refs, file, fork, bs, retained);
      return Err(NotFound);
    }
    var inode := records[found.value];
    var chosen := SelectStreams(records, file, fork, if inode.size.Some? then Some(inode.stream) else None);
    if chosen.Err? {
      NotStripped(records, refs, file, fork, bs, retained);
      return Err(chosen.error);
    }
    var streams := Ascending(chosen.value);
    StrippedBy(records, refs, file, fork, bs, retained, found.value, streams);
    var lone := EachOwned(records, streams);
    if !lone {
      return Err(Unsupported);
    }
    var kept := DropPicked(records, file, fork);
    if Matched(records, refs, bs) {
      KeepMatched(records, refs, bs, PickedOf(file, fork));
    }
    var gone := DetachAll(kept, refs, streams, file, bs, retained);
    if gone.Err? {
      return Err(gone.error);
    }
    if Known(inode, next) {
      SelectedAll(records, file, fork, inode, next, streams);
    }
    assert inode in records && inode in kept && inode in gone.value.0;
    r := Ok(Stripped(gone.value.0, gone.value.1, gone.value.2, streams));
  }

  /** Every stream has one owner. */
  method EachOwned(records: seq<Rec>, streams: seq<nat>) returns (ok: bool)
    ensures ok <==> forall k :: 0 <= k < |streams| ==> Tally(records, OwnerOf(streams[k])) == 1
  {
    for i := 0 to |streams|
      invariant forall k :: 0 <= k < i ==> Tally(records, OwnerOf(streams[k])) == 1
    {
      var n := CountOwners(records, streams[i]);
      if n != 1 {
        return false;
      }
    }
    ok := true;
  }

  lemma SelectedAll(records: seq<Rec>, file: nat, fork: bool, inode: Rec, next: nat, streams: seq<nat>)
    requires inode in records && inode.Inode? && inode.id == file && Known(inode, next)
    requires Ascends(streams, Chosen(records, fork, inode))
    requires forall k :: 0 <= k < |streams| ==> Tally(records, OwnerOf(streams[k])) == 1
    ensures OwnStreams(records, file, streams)
  {
    hide Tally, AttrStreams, HasOwner;
    forall i | 0 <= i < |streams| ensures HasOwner(records, file, streams[i]) {
      assert streams[i] in streams;
      Selected(records, file, fork, inode, next, streams[i]);
    }
  }

  lemma NotStripped(records: seq<Rec>, refs: seq<Ref>, file: nat, fork: bool, bs: nat, retained: bool)
    requires bs > 0
    requires (forall x :: x in records ==> !(x.Inode? && x.id == file)) ||
             exists k :: 0 <= k < |records| && !Legible(records[k], file, fork)
    ensures !Strippable(records, refs, file, fork, bs, retained)
  {
    hide AllDetachable, Legible, Tally;
  }

  /** Inode and streams are what they are, so the file can be stripped exactly if it can by these. */
  lemma StrippedBy(records: seq<Rec>, refs: seq<Ref>, file: nat, fork: bool, bs: nat, retained: bool, i: nat,
                   streams: seq<nat>)
    requires bs > 0 && FirstInode(records, file, i) && Ascends(streams, Chosen(records, fork, records[i]))
    requires forall k :: 0 <= k < |records| ==> Legible(records[k], file, fork)
    ensures Strippable(records, refs, file, fork, bs, retained) <==>
            (forall k :: 0 <= k < |streams| ==> Tally(records, OwnerOf(streams[k])) == 1) &&
            AllDetachable(Keep(records, PickedOf(file, fork)), refs, streams, file, bs, retained)
  {
    hide AllDetachable, Legible, Tally, Chosen, Ascends;
    if Strippable(records, refs, file, fork, bs, retained) {
      var j, list :| StripsBy(records, refs, file, fork, bs, retained, j, list);
      assert j == i;
      AscendsOnce(list, streams, Chosen(records, fork, records[i]));
    }
    if (forall k :: 0 <= k < |streams| ==> Tally(records, OwnerOf(streams[k])) == 1) &&
       AllDetachable(Keep(records, PickedOf(file, fork)), refs, streams, file, bs, retained)
    {
      assert StripsBy(records, refs, file, fork, bs, retained, i, streams);
    }
  }

  /** What a replacement left: the new state, what it retired, and the next id. */
  datatype Done = Done(state: State, retired: seq<(nat, nat)>, next: nat)

  /** All that is promised of it. */
  ghost predicate Replaced(s: State, d: Done, bs: nat, file: nat, id: nat, data: seq<byte>, retained: bool,
                           used: set<nat>, used2: set<nat>)
  {
    && Sound(d.state.records, d.state.refs, bs, used2, d.next) && FileReads(d.state, bs, file, id, data)
    && OthersRead(s, d.state, bs, file) && RetiredRight(s, d.state, bs, d.retired, retained) && used <= used2
  }

  /**
   * The records and the data of a replacement: strips the file of its streams, writes the new data to
   * blocks that were free, and rewrites catalog and references for it. It succeeds whenever the file
   * can be stripped, an id is left and the free blocks cover the data.
   */
  method Rewrite(al: BlockAllocator.Allocator, s: State, bs: nat, file: nat, fork: bool, data: seq<byte>, id: nat,
                 retained: bool, rank: Rec -> int, rankRef: Ref -> int)
      returns (r: Result<Done>, ghost log: seq<nat>)
    requires al.Valid() && Bounded(al.chunks) && WholeBlocks(s.disk, bs) && bs > 0
    modifies al`chunks, al`smFree, al`taken
    ensures r.Ok? ==> Strippable(s.records, s.refs, file, fork, bs, retained) && id < ID_MASK
    ensures Strippable(s.records, s.refs, file, fork, bs, retained) && id < ID_MASK &&
            DivCeil(|data|, bs) <= old(al.smFree) ==>
              r.Ok?
    ensures r.Ok? ==> al.Valid() && Bounded(al.chunks) && WholeBlocks(r.value.state.disk, bs)
    ensures r.Ok? ==> T.StepLog(Used(old(al.chunks)), Used(al.chunks), s.disk, r.value.state.disk, log)
    ensures r.Ok? ==> SameShape(al.chunks, old(al.chunks)) && al.smFree + |log| == old(al.smFree)
    ensures r.Ok? && Sound(s.records, s.refs, bs, Used(old(al.chunks)), id) ==>
              Replaced(s, r.value, bs, file, id, data, retained, Used(old(al.chunks)), Used(al.chunks))
  {
    hide BlockAllocator.AllAnchored, BlockAllocator.PoolOk, BlockAllocator.BackedTo, IpRing.Partition, Used, ChunksOk,
         TotalFree, Bounded, WholeBlocks, SameShape, T.StepLog, Written, DivCeil, Sound, Replaced, Matched, Detached,
         Known, OwnStreams, NewRefs, Strippable, Assembled, SortBy, Keep;
    log := [];
    var bare := Strip(s.records, s.refs, file, fork, bs, retained, id);
    if bare.Err? {
      return Err(bare.error), log;
    }
    if id + 1 > ID_MASK {
      return Err(Overflow), log;
    }
    var written;
    written, log := WriteData(al, s.disk, bs, data);
    if written.Err? {
      return Err(written.error), log;
    }
    var b, runs := bare.value, written.value.1;
    var index := FindInode(b.records, file);
    var records := Assembled(b.records, index.value, NewInode(file, id, |data|), id, runs, bs);
    var state := State(SortBy(records, rank), SortBy(b.refs + NewRefs(runs, file), rankRef), written.value.0);
    r := Ok(Done(state, b.retired, id + 1));
    if Sound(s.records, s.refs, bs, Used(old(al.chunks)), id) {
      var plan := Plan(file, fork, b.streams, id, |data|, runs);
      Concluded(s, bs, Used(old(al.chunks)), Used(al.chunks), plan, index.value, b, retained, log, data,
                written.value.0, rank, rankRef);
    }
    WrittenLog(Used(old(al.chunks)), Used(al.chunks), s.disk, written.value.0, bs, data, log, runs);
  }

  lemma WrittenLog(u0: set<nat>, u: set<nat>, d0: Blocks, d: Blocks, bs: nat, data: seq<byte>, log: seq<nat>,
                   runs: seq<Run>)
    requires Written(u0, u, d0, d, bs, data, log, runs)
    ensures T.StepLog(u0, u, d0, d, log)
  {
    hide Carries, T.StepLog;
  }

  lemma Concluded(s: State, bs: nat, used: set<nat>, used2: set<nat>, q: Plan, index: nat, b: Stripped, retained: bool,
                  log: seq<nat>, data: seq<byte>, disk: Blocks, rank: Rec -> int, rankRef: Ref -> int)
    requires Sound(s.records, s.refs, bs, used, q.id) && b.records == Remains(s.records, q) && q.streams == b.streams
    requires Matched(s.records, s.refs, bs) ==>
               Detached(Keep(s.records, PickedOf(q.file, q.fork)), s.refs, b.records, b.refs, b.retired, bs, retained)
    requires (forall x :: x in s.records ==> Known(x, q.id)) ==> OwnStreams(s.records, q.file, q.streams)
    requires index < |b.records| && b.records[index].Inode? && b.records[index].id == q.file && q.size == |data|
    requires Written(used, used2, s.disk, disk, bs, data, log, q.runs) && |log| == DivCeil(|data|, bs)
    ensures var records := Composed(s.records, q, index, bs);
            var state := State(SortBy(records, rank), SortBy(b.refs + NewRefs(q.runs, q.file), rankRef), disk);
            Replaced(s, Done(state, b.retired, q.id + 1), bs, q.file, q.id, data, retained, used, used2)
  {
    hide Sound, Matched, Detached, OwnStreams, Composed, Remains, NewExtents, NewRefs, Written, DivCeil, Follow,
         FileReads, OthersRead, RetiredRight;
    Ready(s, bs, used, used2, q, index, b, retained, log, data, disk);
    var records, refs := Composed(s.records, q, index, bs), b.refs + NewRefs(q.runs, q.file);
    var t := State(SortBy(records, rank), SortBy(refs, rankRef), disk);
    SoundAgain(s.records, s.refs, bs, used, q.id, q, index, b.refs, b.retired, retained, log, rank, rankRef);
    SortRecs(records, rank, AtBlock(0));
    ComposedMatched(s.records, s.refs, bs, used, q.id, q, index, b.refs, b.retired, retained, log);
    MatchedUnique(records, refs, bs);
    SortRefs(refs, rankRef);
    NewContent(s, bs, used, used2, q, index, b, retained, log, data, t);
    OthersAll(s, bs, used, used2, q, index, b, retained, log, data, t);
    RetiredStill(s, bs, used, q.id, q, index, b.refs, b.retired, retained, log, t);
    UsedThen(used, used2, s.disk, disk, bs, data, log, q.runs);
  }

  lemma UsedThen(u0: set<nat>, u: set<nat>, d0: Blocks, d: Blocks, bs: nat, data: seq<byte>, log: seq<nat>,
                 runs: seq<Run>)
    requires Written(u0, u, d0, d, bs, data, log, runs)
    ensures u == u0 + SetOf(log) && Only(d0, d, SetOf(log)) && SetOf(log) !! u0 && IpRing.Distinct(log)
    ensures Follow(runs, log) && Carries(d, bs, data, log)
  {
    hide Carries, Follow, Only;
    RunsFollow(log);
  }

  /** All that the parts have shown, together. */
  lemma Ready(s: State, bs: nat, used: set<nat>, used2: set<nat>, q: Plan, index: nat, b: Stripped, retained: bool,
              log: seq<nat>, data: seq<byte>, disk: Blocks)
    requires Sound(s.records, s.refs, bs, used, q.id) && b.records == Remains(s.records, q) && q.streams == b.streams
    requires Matched(s.records, s.refs, bs) ==>
               Detached(Keep(s.records, PickedOf(q.file, q.fork)), s.refs, b.records, b.refs, b.retired, bs, retained)
    requires (forall x :: x in s.records ==> Known(x, q.id)) ==> OwnStreams(s.records, q.file, q.streams)
    requires index < |b.records| && b.records[index].Inode? && b.records[index].id == q.file
    requires Written(used, used2, s.disk, disk, bs, data, log, q.runs)
    ensures Prepared(s.records, s.refs, bs, used, q.id, q, index, b.refs, b.retired, retained, log)
  {
    hide Matched, Detached, OwnStreams, Written, Follow, Tally, RefsUsed, Keep;
    UsedThen(used, used2, s.disk, disk, bs, data, log, q.runs);
    assert b.records[index] in b.records;
    RemainsIs(s.records, q, b.records[index]);
    assert Known(b.records[index], q.id);
    assert 0 !in SetOf(log);
  }

  lemma NewContent(s: State, bs: nat, used: set<nat>, used2: set<nat>, q: Plan, index: nat, b: Stripped, retained: bool,
                   log: seq<nat>, data: seq<byte>, t: State)
    requires Prepared(s.records, s.refs, bs, used, q.id, q, index, b.refs, b.retired, retained, log)
    requires Written(used, used2, s.disk, t.disk, bs, data, log, q.runs) && |log| == DivCeil(|data|, bs)
    requires forall x :: x in t.records <==> x in Composed(s.records, q, index, bs)
    requires q.size == |data|
    ensures FileReads(t, bs, q.file, q.id, data)
  {
    hide Matched, Detached, OwnStreams, Remains, NewExtents, Written, DivCeil, Follow, Tally, Assembled, Carries;
    UsedThen(used, used2, s.disk, t.disk, bs, data, log, q.runs);
    AssembledHas(Remains(s.records, q), index, NewInode(q.file, q.id, q.size), q.id, q.runs, bs, Bad);
    forall x | Placed(x, q.id) ensures x in t.records <==> x in NewExtents(q.runs, q.id, bs) {
      NewStreamExtents(s.records, q, index, bs, q.id, x);
    }
    NewReads(t.records, q.id, t.disk, bs, data, log, q.runs);
  }

  lemma OthersAll(s: State, bs: nat, used: set<nat>, used2: set<nat>, q: Plan, index: nat, b: Stripped, retained: bool,
                  log: seq<nat>, data: seq<byte>, t: State)
    requires Prepared(s.records, s.refs, bs, used, q.id, q, index, b.refs, b.retired, retained, log)
    requires Written(used, used2, s.disk, t.disk, bs, data, log, q.runs)
    requires forall x :: x in t.records <==> x in Composed(s.records, q, index, bs)
    ensures OthersRead(s, t, bs, q.file)
  {
    hide Prepared, Composed, Written, Only, Reads;
    UsedThen(used, used2, s.disk, t.disk, bs, data, log, q.runs);
    forall g | g in s.records && g.Inode? && g.id != q.file
      ensures g in t.records && (g.fields ==> SameContent(s, t, bs, g))
    {
      OthersStill(s, bs, used, q.id, q, index, b.refs, b.retired, retained, log, t.disk, t.records, g);
    }
  }

  // ---- the whole transaction ---------------------------------------------------------------------------------------

  /** What was promised still holds when nothing in use has changed on the device. */
  lemma ReplacedOn(s: State, d: Done, bs: nat, file: nat, id: nat, data: seq<byte>, retained: bool, used: set<nat>,
                   used2: set<nat>, used3: set<nat>, disk: Blocks)
    requires Replaced(s, d, bs, file, id, data, retained, used, used2)
    requires SamePinned(d.state.disk, disk, used2) && used2 <= used3
    ensures Replaced(s, d.(state := d.state.(disk := disk)), bs, file, id, data, retained, used, used3)
  {
    hide Matched, Reads, CatCells, RefCells, RunCells, Tally, RefUsed;
    forall k | 0 <= k < |d.state.refs| ensures RefUsed(d.state.refs[k], used3) {
      UsedWider(d.state.refs[k], used2, used3);
    }
    var t, t2 := d.state, d.state.(disk := disk);
    ReadsOn(t, bs, used2, id, data, disk);
    forall g | g in s.records && g.Inode? && g.id != file && g.fields ensures SameContent(s, t2, bs, g) {
      assert SameContent(s, t, bs, g);
      forall content | Reads(s.records, g.stream, s.disk, bs, content)
        ensures Reads(t.records, g.stream, disk, bs, content)
      {
        ReadsOn(t, bs, used2, g.stream, content, disk);
      }
    }
  }

  lemma UsedWider(x: Ref, used: set<nat>, more: set<nat>)
    requires RefUsed(x, used) && used <= more
    ensures RefUsed(x, more)
  {
    hide Range;
  }

  lemma ReadsOn(t: State, bs: nat, used: set<nat>, stream: nat, data: seq<byte>, disk: Blocks)
    requires bs > 0 && Matched(t.records, t.refs, bs) && RefsUsed(t.refs, used)
    requires forall p :: p in used && p in t.disk ==> p in disk && disk[p] == t.disk[p]
    requires Reads(t.records, stream, t.disk, bs, data)
    ensures Reads(t.records, stream, disk, bs, data)
  {
    hide Matched, Reads, CatCells, RefCells, RefsUsed;
    CellsUsed(t.records, t.refs, bs, used);
    forall x | x in t.records && Placed(x, stream)
      ensures x.length % bs == 0
      ensures forall p :: p in CellsOf(x, bs) && p in t.disk ==> p in disk && disk[p] == t.disk[p]
    {
      ExtentWhole(t.records, t.refs, bs, x);
      forall p | p in CellsOf(x, bs) && p in t.disk ensures p in disk && disk[p] == t.disk[p] {
        CatIn(t.records, bs, x, p);
      }
    }
    ReadsSame(t.records, t.records, stream, t.disk, disk, bs, data);
  }

  /** Data written to free blocks stays clear of the allocator's metadata. */
  lemma SplitOn(d0: Blocks, d1: Blocks, meta: map<nat, BlockAllocator.Meta>, u0: set<nat>, u1: set<nat>,
                pool: BlockAllocator.Pool, slots: nat, log: seq<nat>)
    requires T.Split(d0, meta, u0, pool, slots) && T.StepLog(u0, u1, d0, d1, log)
    ensures T.Split(d1, meta, u1, pool, slots)
  {
    forall p | p in d1 && p !in d0 ensures p !in u0 {
      assert p in SetOf(log);
    }
  }

  /** How records and references become bytes, and where their trees go. */
  datatype Form = Form(encode: Rec -> Record, encodeRef: Ref -> Record, catalog: Layout, extents: Layout, root: nat,
                       oid: nat)

  ghost predicate FormOk(f: Form, bs: nat) {
    && (forall x :: f.encode(x).key != []) && (forall x :: f.encodeRef(x).key != [])
    && Writable(bs, f.catalog) && Writable(bs, f.extents) && f.root < f.oid < U64
  }

  function Encoded(records: seq<Rec>, f: Form): seq<Record> {
    seq(|records|, i requires 0 <= i < |records| => f.encode(records[i]))
  }

  function EncodedRefs(refs: seq<Ref>, f: Form): seq<Record> {
    seq(|refs|, i requires 0 <= i < |refs| => f.encodeRef(refs[i]))
  }

  /** The steps of the transaction: catalog, object map, references, and the blocks and trees behind them. */
  function Steps(t: State, f: Form, objects: T.Step, headers: seq<T.Step>): seq<T.Step> {
    [T.Plant(Encoded(t.records, f), f.catalog, Some(f.root), f.oid), objects,
     T.Plant(EncodedRefs(t.refs, f), f.extents, None, f.oid)] + headers
  }

  lemma StepsOk(t: State, f: Form, bs: nat, objects: T.Step, headers: seq<T.Step>)
    requires FormOk(f, bs) && T.StepOk(objects, bs) && forall i :: 0 <= i < |headers| ==> T.StepOk(headers[i], bs)
    ensures forall i :: 0 <= i < |Steps(t, f, objects, headers)| ==> T.StepOk(Steps(t, f, objects, headers)[i], bs)
  {
    hide Writable;
    var steps := Steps(t, f, objects, headers);
    forall i | 0 <= i < |steps| ensures T.StepOk(steps[i], bs) {
      if i >= 3 {
        assert steps[i] == headers[i - 3];
      }
    }
  }

  /** The tree planted for the catalog holds the new records, that for the references the new references. */
  ghost predicate TreesHold(t: State, f: Form, bs: nat, disk: Blocks, cells: set<nat>, catalog: T.Outcome,
                            extents: T.Outcome)
  {
    && catalog.Planted? && TreeHeld(disk, bs, f.catalog, cells, catalog.t, catalog.level)
    && Records(catalog.t) == Encoded(t.records, f)
    && extents.Planted? && TreeHeld(disk, bs, f.extents, cells, extents.t, extents.level)
    && Records(extents.t) == EncodedRefs(t.refs, f)
  }

  /**
   * The replacement up to publication. If it succeeds, the file reads as the new data, every other
   * file reads as before, exactly the blocks the catalog no longer refers to are retired, catalog and
   * references are planted as trees, and what the next replacement relies on holds again.
   */
  method ReplaceFile(al: BlockAllocator.Allocator, s: State, bs: nat, file: nat, fork: bool, data: seq<byte>, id: nat,
                     retained: bool, rank: Rec -> int, rankRef: Ref -> int, f: Form, objects: T.Step,
                     headers: seq<T.Step>, referenced: set<nat>)
      returns (r: Result<Done>, ghost catalog: T.Outcome, ghost extents: T.Outcome, ghost cells: set<nat>)
    requires al.Valid() && Bounded(al.chunks) && WholeBlocks(s.disk, bs) && bs > 0 && FormOk(f, bs)
    requires T.Split(s.disk, al.disk, Used(al.chunks), al.pool, |al.ring.next|)
    requires T.StepOk(objects, bs) && forall i :: 0 <= i < |headers| ==> T.StepOk(headers[i], bs)
    modifies al, al.ring
    ensures r.Ok? && Sound(s.records, s.refs, bs, Used(old(al.chunks)), id) ==>
              Replaced(s, r.value, bs, file, id, data, retained, Used(old(al.chunks)), Used(al.chunks))
    ensures r.Ok? ==> TreesHold(r.value.state, f, bs, r.value.state.disk, cells, catalog, extents)
    ensures r.Ok? ==> SamePinned(s.disk, r.value.state.disk, Used(old(al.chunks)))
  {
    hide BlockAllocator.AllAnchored, BlockAllocator.PoolOk, BlockAllocator.BackedTo, IpRing.Partition, Used, ChunksOk,
         TotalFree, Bounded, WholeBlocks, SameShape, T.StepLog, Sound, Replaced, T.Split, T.Done, T.StepOk, Only,
         SamePinned, FormOk, TreesHold, T.MayWrite;
    catalog, extents, cells := T.Wrote(0), T.Wrote(0), {};
    ghost var used := Used(al.chunks);
    var done, log := Rewrite(al, s, bs, file, fork, data, id, retained, rank, rankRef);
    if done.Err? {
      r := Err(done.error);
      return;
    }
    ghost var used1 := Used(al.chunks);
    var t := done.value.state;
    SplitOn(s.disk, t.disk, al.disk, used, used1, al.pool, |al.ring.next|, log);
    StepsOk(t, f, bs, objects, headers);
    var written, all, olds, outcomes := T.Transact(al, t.disk, bs, Steps(t, f, objects, headers), referenced);
    if written.Err? {
      r := Err(written.error);
      return;
    }
    catalog, extents, cells := outcomes[0], outcomes[2], SetOf(all);
    Planted(t, f, bs, written.value, cells, objects, headers, outcomes);
    LogPinned(s.disk, t.disk, used, used1, log);
    PinnedPart(t.disk, written.value, used1, used);
    PinnedTrans(s.disk, t.disk, written.value, used);
    if Sound(s.records, s.refs, bs, used, id) {
      ReplacedOn(s, done.value, bs, file, id, data, retained, used, used1, Used(al.chunks), written.value);
    }
    r := Ok(done.value.(state := t.(disk := written.value)));
  }

  lemma Planted(t: State, f: Form, bs: nat, disk: Blocks, cells: set<nat>, objects: T.Step, headers: seq<T.Step>,
                outcomes: seq<T.Outcome>)
    requires |outcomes| == |headers| + 3
    requires forall i :: 0 <= i < |outcomes| ==> T.Done(Steps(t, f, objects, headers)[i], bs, disk, cells, outcomes[i])
    ensures TreesHold(t.(disk := disk), f, bs, disk, cells, outcomes[0], outcomes[2])
  {
    hide TreeHeld, Records, Encoded, EncodedRefs;
    var steps := Steps(t, f, objects, headers);
    assert T.Done(steps[0], bs, disk, cells, outcomes[0]) && T.Done(steps[2], bs, disk, cells, outcomes[2]);
  }

  lemma LogPinned(d0: Blocks, d1: Blocks, u0: set<nat>, u1: set<nat>, log: seq<nat>)
    requires T.StepLog(u0, u1, d0, d1, log)
    ensures SamePinned(d0, d1, u0) && u0 <= u1
  {
  }

}

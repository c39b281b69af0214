/**
 * Whole runs of updates of a volume's files (src/apfs_update.rs `update_volume_files`, called once
 * per batch of changes): what every path ever written leads to in the end, and what every
 * catalog published on the way still says.
 */
module VolumeRun {
  import opened Bytes
  import opened TreeNode
  import opened BTree
  import opened DirectoryKey
  import opened SpaceManager
  import opened SpaceBudget
  import opened TreePublish
  import opened VolumeUpdate
  import R = CatalogRecords
  import W = CatalogWalk
  import P = PathSet
  import S = SnapshotUpdate

  /** One update: the changes, and the headers it rewrites in place. */
  datatype Batch = Batch(changes: seq<Change>, rewritten: Blocks)

  /** The layout can read every name in the batches. */
  predicate AllReadable(layout: KeyLayout, hash: seq<byte> -> nat, batches: seq<Batch>) {
    forall i :: 0 <= i < |batches| ==> Readable(layout, hash, batches[i].changes)
  }

  /** The changes of all batches, in order. */
  ghost function AllChanges(batches: seq<Batch>): seq<Change> {
    if batches == [] then [] else AllChanges(batches[..|batches| - 1]) + batches[|batches| - 1].changes
  }

  ghost function AllFiles(done: seq<seq<nat>>): seq<nat> {
    if done == [] then [] else AllFiles(done[..|done| - 1]) + done[|done| - 1]
  }

  /** By this catalog the paths of one batch lead to these files. */
  ghost predicate LeadTo(changes: seq<Change>, files: seq<nat>, records: seq<R.Rec>) {
    |files| == |changes| && forall i :: 0 <= i < |changes| ==> R.Resolve(records, R.ROOT, changes[i].0) == Ok(files[i])
  }

  /** Every catalog published leads the paths of its batch to the files that were written. */
  ghost predicate AllLead(batches: seq<Batch>, done: seq<seq<nat>>, published: seq<seq<Record>>,
                          decode: Record -> R.Rec)
  {
    && |done| == |published| == |batches|
    && forall i :: 0 <= i < |batches| ==> LeadTo(batches[i].changes, done[i], Decoded(published[i], decode))
  }

  /** The catalog and the device at one moment. */
  datatype Moment = Moment(records: seq<R.Rec>, disk: Blocks)

  /** All changes so far are stored, names lead where they did, and other files hold what they held. */
  ghost predicate Stored(start: Moment, now: Moment, batches: seq<Batch>, done: seq<seq<nat>>, bs: nat) {
    && R.Keeps(start.records, now.records)
    && EachStored(AllChanges(batches), AllFiles(done), now.records, now.disk, bs)
    && ContentKept(start.records, start.disk, now.records, now.disk, bs, SetOf(AllFiles(done)))
  }

  lemma StoredStarts(start: Moment, bs: nat)
    requires bs > 0
    ensures Stored(start, start, [], [], bs)
  {
    hide EachStored, ContentKept, R.Keeps;
    NothingStored([], start.records, start.disk, bs, {});
  }

  /** Two lists of changes one after the other: a later change of a file decides what it holds. */
  lemma StoredAfter(c1: seq<Change>, f1: seq<nat>, r1: seq<R.Rec>, d1: Blocks, c2: seq<Change>, f2: seq<nat>,
                    r2: seq<R.Rec>, d2: Blocks, bs: nat)
    requires EachStored(c1, f1, r1, d1, bs) && EachStored(c2, f2, r2, d2, bs)
    requires R.Keeps(r1, r2) && ContentKept(r1, d1, r2, d2, bs, SetOf(f2))
    ensures EachStored(c1 + c2, f1 + f2, r2, d2, bs)
  {
    hide Content, R.Resolve, R.Keeps, ContentKept;
    var all, files := c1 + c2, f1 + f2;
    forall i | 0 <= i < |all|
      ensures R.Resolve(r2, R.ROOT, all[i].0) == Ok(files[i])
      ensures files[i] !in files[i + 1..] ==> Content(r2, d2, bs, files[i]) == Ok(all[i].1)
    {
      if i < |c1| {
        assert all[i] == c1[i] && files[i] == f1[i] && files[i + 1..] == f1[i + 1..] + f2;
        EarlierChange(c1, f1, r1, d1, f2, r2, d2, bs, i);
      } else {
        var k := i - |c1|;
        assert all[i] == c2[k] && files[i] == f2[k] && files[i + 1..] == f2[k + 1..];
        StoredAt(c2, f2, r2, d2, bs, k);
      }
    }
  }

  lemma StoredAt(c: seq<Change>, f: seq<nat>, r: seq<R.Rec>, d: Blocks, bs: nat, k: nat)
    requires EachStored(c, f, r, d, bs) && k < |c|
    ensures R.Resolve(r, R.ROOT, c[k].0) == Ok(f[k])
    ensures f[k] !in f[k + 1..] ==> Content(r, d, bs, f[k]) == Ok(c[k].1)
  {
    hide Content, R.Resolve;
  }

  /** What was stored before stays unless its file is written again. */
  lemma EarlierChange(c1: seq<Change>, f1: seq<nat>, r1: seq<R.Rec>, d1: Blocks, f2: seq<nat>, r2: seq<R.Rec>,
                      d2: Blocks, bs: nat, i: nat)
    requires EachStored(c1, f1, r1, d1, bs) && i < |c1| && R.Keeps(r1, r2) &&
             ContentKept(r1, d1, r2, d2, bs, SetOf(f2))
    ensures R.Resolve(r2, R.ROOT, c1[i].0) == Ok(f1[i])
    ensures f1[i] !in f1[i + 1..] + f2 ==> Content(r2, d2, bs, f1[i]) == Ok(c1[i].1)
  {
    hide Content, R.Resolve, R.Keeps, ContentKept, EachStored;
    EachLength(c1, f1, r1, d1, bs);
    StoredAt(c1, f1, r1, d1, bs, i);
    R.PathsKept(r1, r2, R.ROOT, c1[i].0);
    if f1[i] !in f1[i + 1..] && f1[i] !in f2 {
      KeptUnlisted(r1, d1, r2, d2, bs, f2, f1[i]);
    }
  }

  lemma EachLength(c: seq<Change>, f: seq<nat>, r: seq<R.Rec>, d: Blocks, bs: nat)
    requires EachStored(c, f, r, d, bs)
    ensures |f| == |c|
  {
    hide Content, R.Resolve;
  }

  lemma KeptUnlisted(r1: seq<R.Rec>, d1: Blocks, r2: seq<R.Rec>, d2: Blocks, bs: nat, files: seq<nat>, g: nat)
    requires ContentKept(r1, d1, r2, d2, bs, SetOf(files)) && g !in files && Content(r1, d1, bs, g).Ok?
    ensures Content(r2, d2, bs, g) == Content(r1, d1, bs, g)
  {
    hide Content;
  }

  lemma StoredOn(start: Moment, before: Moment, now: Moment, batches: seq<Batch>, done: seq<seq<nat>>, bs: nat,
                 b: Batch, files: seq<nat>)
    requires bs > 0 && Stored(start, before, batches, done, bs)
    requires EachStored(b.changes, files, now.records, now.disk, bs) && R.Keeps(before.records, now.records)
    requires ContentKept(before.records, before.disk, now.records, now.disk, bs, SetOf(files))
    ensures Stored(start, now, batches + [b], done + [files], bs)
  {
    hide EachStored, ContentKept, R.Keeps;
    var bs2, done2 := batches + [b], done + [files];
    assert bs2[..|bs2| - 1] == batches && done2[..|done2| - 1] == done;
    StoredAfter(AllChanges(batches), AllFiles(done), before.records, before.disk, b.changes, files, now.records,
                now.disk, bs);
    KeptTwice(start.records, before.records, now.records, start.disk, before.disk, now.disk, bs, SetOf(AllFiles(done)),
              SetOf(files));
    assert SetOf(AllFiles(done) + files) == SetOf(AllFiles(done)) + SetOf(files);
    R.KeepsTrans(start.records, before.records, now.records);
  }

  lemma LeadOn(batches: seq<Batch>, done: seq<seq<nat>>, published: seq<seq<Record>>, decode: Record -> R.Rec,
               b: Batch, files: seq<nat>, catalog: seq<Record>, records: seq<R.Rec>, disk: Blocks, bs: nat)
    requires AllLead(batches, done, published, decode) && Decoded(catalog, decode) == records
    requires EachStored(b.changes, files, records, disk, bs)
    ensures AllLead(batches + [b], done + [files], published + [catalog], decode)
  {
    hide Content, R.Resolve, Decoded;
    var bs2, done2, pub2 := batches + [b], done + [files], published + [catalog];
    forall i | 0 <= i < |bs2| ensures LeadTo(bs2[i].changes, done2[i], Decoded(pub2[i], decode)) {
      if i < |batches| {
        assert bs2[i] == batches[i] && done2[i] == done[i] && pub2[i] == published[i];
      }
    }
  }

  // ---- when a run succeeds -----------------------------------------------------------------------------------

  /** The paths of all batches, in order. */
  ghost function PathsOf(batches: seq<Batch>): seq<seq<seq<byte>>> {
    if batches == [] then [] else Paths(batches[0].changes) + PathsOf(batches[1..])
  }

  /** The most blocks the batches can take, starting from n records, m references and a map of `mapped` entries. */
  ghost function BatchesCost(batches: seq<Batch>, n: nat, m: nat, mapped: nat, bs: nat): nat
    requires bs > 0
  {
    if batches == [] then 0
    else
      var b := batches[0];
      var n1, m1 := n + Growth(b.changes), m + |b.changes|;
      BlocksOf(b.changes, bs) + TreesCost(n1, m1, mapped) + BatchesCost(batches[1..], n1, m1, mapped + 3 * n1 + 1, bs)
  }

  /** The most ids they can take. */
  ghost function BatchesIds(batches: seq<Batch>, n: nat): nat {
    if batches == [] then 0
    else
      var n1 := n + Growth(batches[0].changes);
      P.NameCount(Paths(batches[0].changes)) + 3 * n1 + 1 + BatchesIds(batches[1..], n1)
  }

  ghost predicate AllBatchesFit(batches: seq<Batch>, bs: nat) {
    forall i :: 0 <= i < |batches| ==> AllFit(batches[i].changes, bs)
  }

  /**
   * Enough for a whole run: all its paths open and none in another's way, one clear run of all the
   * blocks content and trees can take, transaction numbers and ids, and records that fit.
   */
  ghost predicate RunReady(s: Scene, xid: nat, batches: seq<Batch>, bs: nat, encode: R.Rec -> Record,
                           encodeRef: Ref -> Record)
    requires bs > 0
  {
    var cost := BatchesCost(batches, |s.records|, s.refs, s.mapped, bs);
    && Prospect(s, PathsOf(batches), cost) && cost <= Min(Stock(s.chunks), U64 - 1)
    && s.next + BatchesIds(batches, |s.records|) < U64 && xid + |batches| < U64
    && W.AllStorable(s.records) && AllBatchesFit(batches, bs) && Compact(encode, encodeRef)
  }

  lemma {:induction false} IdsCover(batches: seq<Batch>, n: nat)
    ensures P.NameCount(PathsOf(batches)) <= BatchesIds(batches, n)
  {
    if batches != [] {
      IdsCover(batches[1..], n + Growth(batches[0].changes));
      CountTogether(Paths(batches[0].changes), PathsOf(batches[1..]));
    }
  }

  lemma {:induction false} CostMono(batches: seq<Batch>, n: nat, m: nat, mapped: nat, n2: nat, m2: nat, mapped2: nat,
                                    bs: nat)
    requires bs > 0 && n <= n2 && m <= m2 && mapped <= mapped2
    ensures BatchesCost(batches, n, m, mapped, bs) <= BatchesCost(batches, n2, m2, mapped2, bs)
    ensures BatchesIds(batches, n) <= BatchesIds(batches, n2)
  {
    hide BlocksOf, Growth, Paths, P.NameCount;
    if batches != [] {
      var g, c := Growth(batches[0].changes), |batches[0].changes|;
      CostMono(batches[1..], n + g, m + c, mapped + 3 * (n + g) + 1, n2 + g, m2 + c, mapped2 + 3 * (n2 + g) + 1, bs);
    }
  }

  /** The first batch of a run that is ready can be served. */
  lemma ReadyFirst(s: Scene, xid: nat, batches: seq<Batch>, bs: nat, encode: R.Rec -> Record, encodeRef: Ref -> Record)
    requires bs > 0 && RunReady(s, xid, batches, bs, encode, encodeRef) && batches != []
    ensures xid + 1 < U64 && Suits(s, batches[0].changes, bs, encode, encodeRef)
    ensures Affordable(s, batches[0].changes, PathsOf(batches[1..]),
                       BatchesCost(batches, |s.records|, s.refs, s.mapped, bs), bs)
  {
    hide Prospect, Stock, W.AllStorable, Compact, AllFit, Growth, BlocksOf, TreesCost, Paths, P.NameCount;
    var b, rest := batches[0], batches[1..];
    IdsCover(rest, |s.records| + Growth(b.changes));
    CountTogether(Paths(b.changes), PathsOf(rest));
  }

  lemma ReadyRest(s: Scene, t: Scene, xid: nat, batches: seq<Batch>, bs: nat, encode: R.Rec -> Record,
                  encodeRef: Ref -> Record)
    requires bs > 0 && RunReady(s, xid, batches, bs, encode, encodeRef) && batches != [] && W.AllStorable(t.records)
    requires Afforded(s, t, batches[0].changes, PathsOf(batches[1..]),
                      BatchesCost(batches, |s.records|, s.refs, s.mapped, bs), bs)
    ensures RunReady(t, xid + 1, batches[1..], bs, encode, encodeRef)
  {
    hide Prospect, Stock, W.AllStorable, Compact, AllFit, Growth, BlocksOf, TreesCost, Paths, P.NameCount, PathsOf;
    var b, rest := batches[0], batches[1..];
    var n1, m1 := MostRecords(s, b.changes), s.refs + |b.changes|;
    CostMono(rest, |t.records|, t.refs, t.mapped, n1, m1, s.mapped + 3 * n1 + 1, bs);
    ProspectLess(t, PathsOf(rest), BatchesCost(rest, n1, m1, s.mapped + 3 * n1 + 1, bs),
                 BatchesCost(rest, |t.records|, t.refs, t.mapped, bs));
    forall i | 0 <= i < |rest| ensures AllFit(rest[i].changes, bs) {
      assert rest[i] == batches[i + 1];
    }
  }

  lemma ProspectLess(s: Scene, paths: seq<seq<seq<byte>>>, total: nat, less: nat)
    requires Prospect(s, paths, total) && less <= total
    ensures Prospect(s, paths, less)
  {
    hide P.AllOpen, FeasibleIn;
    FeasibleLess(s, total, less);
  }

  /**
   * Any run of updates of a volume's files, each one transaction after the last. As long as they
   * succeed: every path ever written leads to the bytes last stored in its file, files never
   * written hold what they held, and every path leads where it led; no snapshot block and no
   * published tree changes, earlier transactions resolve as before, and every catalog published
   * on the way stays in the history and, if its records fit, leads the paths of its batch to their
   * files. The run stops at the first batch with a name the layout cannot read. If it can read all
   * names and the run is ready when it starts, all updates succeed.
   */
  method Run(v: Files, layout: KeyLayout, hash: seq<byte> -> nat, rank: R.Rec -> int, batches: seq<Batch>,
             encode: R.Rec -> Record, ghost decode: Record -> R.Rec, encodeRef: Ref -> Record)
      returns (count: nat, ghost done: seq<seq<nat>>, ghost published: seq<seq<Record>>)
    requires v.Valid() && (AllReadable(layout, hash, batches) || P.Treelike(v.cat.records))
    requires forall i :: 0 <= i < |batches| ==>
               WholeBlocks(batches[i].rewritten, v.data.bs) && batches[i].rewritten.Keys <= v.data.headers
    requires Coded(encode, decode, encodeRef)
    modifies v, v.cat, v.data, v.data.sm
    ensures count <= |batches| && forall i :: 0 <= i < count ==> Readable(layout, hash, batches[i].changes)
    ensures count == |batches| ==>
              && v.Valid()
              && (W.AllStorable(old(v.cat.records)) && AllBatchesFit(batches, v.data.bs) ==>
                    AllLead(batches, done, published, decode))
              && S.RunKeeps(old(S.StateOf(v.data)), S.StateOf(v.data), published)
              && Stored(old(Moment(v.cat.records, v.data.disk)), Moment(v.cat.records, v.data.disk), batches, done,
                        v.data.bs)
    ensures AllReadable(layout, hash, batches) &&
            RunReady(old(v.Now()), old(v.data.xid), batches, v.data.bs, encode, encodeRef) ==>
              count == |batches|
  {
    hide RunReady, Afforded, Affordable, Suits, W.AllStorable, AllFit, Coded, Compact, PathsOf, BatchesCost;
    hide Readable, P.Treelike, OnlyMoved, S.NewlyHeld, Tracked;
    hide R.WellFormed, R.Keeps, R.Resolve, Tied, Referenced, Content, ContentKept, SamePinned, EachStored, S.Sound,
         S.HistoryHeld, S.OmapHeld, S.RunKeeps, S.EarlierSame, Used, ChunksOk, TotalFree, Bounded, WholeBlocks,
         Records, Decoded, Stored, AllLead;
    ghost var start, moment := S.StateOf(v.data), Moment(v.cat.records, v.data.disk);
    S.RunStarts(start);
    StoredStarts(moment, v.data.bs);
    NoneLead(decode);
    ghost var fit := W.AllStorable(v.cat.records) && AllBatchesFit(batches, v.data.bs);
    ghost var ready :=
      AllReadable(layout, hash, batches) && RunReady(v.Now(), v.data.xid, batches, v.data.bs, encode, encodeRef);
    if ready {
      ReadyFits(v.Now(), v.data.xid, batches, v.data.bs, encode, encodeRef);
    }
    assert batches[0..] == batches;
    count, done, published := 0, [], [];
    while count < |batches|
      invariant count <= |batches| && v.Valid() && (AllReadable(layout, hash, batches) || P.Treelike(v.cat.records))
      invariant forall i :: 0 <= i < count ==> Readable(layout, hash, batches[i].changes)
      invariant fit ==> AllLead(batches[..count], done, published, decode) && W.AllStorable(v.cat.records)
      invariant ready ==> RunReady(v.Now(), v.data.xid, batches[count..], v.data.bs, encode, encodeRef)
      invariant S.RunKeeps(start, S.StateOf(v.data), published)
      invariant Stored(moment, Moment(v.cat.records, v.data.disk), batches[..count], done, v.data.bs)
    {
      var b := batches[count];
      ghost var rest, scene := batches[count..], v.Now();
      assert rest[0] == b && rest[1..] == batches[count + 1..];
      ghost var total := BatchesCost(rest, |scene.records|, scene.refs, scene.mapped, v.data.bs);
      if ready {
        ReadyFirst(scene, v.data.xid, rest, v.data.bs, encode, encodeRef);
      }
      if v.data.xid + 1 >= U64 {
        return;
      }
      ghost var before, earlier := S.StateOf(v.data), Moment(v.cat.records, v.data.disk);
      var xid := v.data.xid + 1;
      var r, files, h := v.Update(layout, hash, rank, b.changes, encode, decode, encodeRef, xid, b.rewritten,
                                  PathsOf(rest[1..]), total);
      if r.Err? {
        return;
      }
      assert batches[..count + 1] == batches[..count] + [b];
      S.RunGoesOn(start, before, S.StateOf(v.data), published, Records(h.t), h);
      StoredOn(moment, earlier, Moment(v.cat.records, v.data.disk), batches[..count], done, v.data.bs, b, files);
      if fit {
        LeadOn(batches[..count], done, published, decode, b, files, Records(h.t), v.cat.records, v.data.disk,
               v.data.bs);
      }
      if ready {
        ReadyRest(scene, v.Now(), before.xid, rest, v.data.bs, encode, encodeRef);
      }
      count, done, published := count + 1, done + [files], published + [Records(h.t)];
    }
    assert batches[..count] == batches;
  }

  lemma ReadyFits(s: Scene, xid: nat, batches: seq<Batch>, bs: nat, encode: R.Rec -> Record, encodeRef: Ref -> Record)
    requires bs > 0 && RunReady(s, xid, batches, bs, encode, encodeRef)
    ensures W.AllStorable(s.records) && AllBatchesFit(batches, bs)
  {
    hide Prospect, Stock, W.AllStorable, Compact, AllBatchesFit, BatchesCost, BatchesIds;
  }

  lemma NoneLead(decode: Record -> R.Rec)
    ensures AllLead([], [], [], decode)
  {
  }
}

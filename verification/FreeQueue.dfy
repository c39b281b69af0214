/**
 * Coalescing the deferred-free queue (src/apfs_replace.rs `queue_body`): the old records and the
 * blocks a transaction gives up become one sorted list of maximal runs.
 */
module FreeQueue {
  import opened Bytes
  import opened TreeNode

  /** `count` blocks from `paddr`, to be freed once transaction `xid` is no longer needed. */
  datatype FreeRun = FreeRun(xid: nat, paddr: nat, count: nat)

  /** The (transaction, block) pairs of n blocks. */
  ghost function RunPairs(xid: nat, paddr: nat, n: nat): (s: set<(nat, nat)>)
    ensures forall q :: q in s <==> q.0 == xid && paddr <= q.1 < paddr + n
    ensures |s| == n
  {
    if n == 0 then {} else RunPairs(xid, paddr, n - 1) + {(xid, paddr + n - 1)}
  }

  ghost function PairsOf(r: FreeRun): set<(nat, nat)> {
    RunPairs(r.xid, r.paddr, r.count)
  }

  /** Every (transaction, block) pair a queue lists. */
  ghost function Pairs(runs: seq<FreeRun>): set<(nat, nat)> {
    if runs == [] then {} else Pairs(runs[..|runs| - 1]) + PairsOf(runs[|runs| - 1])
  }

  function Total(runs: seq<FreeRun>): nat {
    if runs == [] then 0 else Total(runs[..|runs| - 1]) + runs[|runs| - 1].count
  }

  /** A queue lists no pair twice exactly when it has as many pairs as blocks. */
  ghost predicate NoOverlap(runs: seq<FreeRun>) {
    |Pairs(runs)| == Total(runs)
  }

  lemma {:induction false} PairsBound(runs: seq<FreeRun>)
    ensures |Pairs(runs)| <= Total(runs)
  {
    if runs != [] {
      PairsBound(runs[..|runs| - 1]);
    }
  }

  lemma PairsPush(runs: seq<FreeRun>, r: FreeRun)
    ensures Pairs(runs + [r]) == Pairs(runs) + PairsOf(r) && Total(runs + [r]) == Total(runs) + r.count
  {
    assert (runs + [r])[..|runs|] == runs;
  }

  /** What one run more does: no overlap stays only if the new run is disjoint from the rest. */
  lemma OverlapPush(runs: seq<FreeRun>, r: FreeRun)
    ensures NoOverlap(runs + [r]) <==> NoOverlap(runs) && Pairs(runs) !! PairsOf(r)
  {
    PairsPush(runs, r);
    PairsBound(runs);
    var a, b := Pairs(runs), PairsOf(r);
    assert |a + b| == |a| + |b| - |a * b|;
    if |a * b| == 0 {
      assert a * b == {};
    }
  }

  lemma {:induction false} OverlapPrefix(runs: seq<FreeRun>, k: nat)
    requires k <= |runs| && NoOverlap(runs)
    ensures NoOverlap(runs[..k])
    decreases |runs|
  {
    if k == |runs| {
      assert runs[..k] == runs;
    } else {
      var front := runs[..|runs| - 1];
      assert runs == front + [runs[|runs| - 1]];
      OverlapPush(front, runs[|runs| - 1]);
      OverlapPrefix(front, k);
      assert front[..k] == runs[..k];
    }
  }

  lemma {:induction false} InPairs(runs: seq<FreeRun>, i: nat)
    requires i < |runs|
    ensures PairsOf(runs[i]) <= Pairs(runs)
  {
    if i < |runs| - 1 {
      InPairs(runs[..|runs| - 1], i);
    }
  }

  // ---- sorting ---------------------------------------------------------------------------------------

  predicate Before(a: FreeRun, b: FreeRun) {
    a.xid < b.xid || (a.xid == b.xid && (a.paddr < b.paddr || (a.paddr == b.paddr && a.count < b.count)))
  }

  predicate InOrder(runs: seq<FreeRun>) {
    forall i, j :: 0 <= i < j < |runs| ==> !Before(runs[j], runs[i])
  }

  function Insert(runs: seq<FreeRun>, r: FreeRun): seq<FreeRun> {
    if runs == [] || !Before(r, runs[|runs| - 1]) then runs + [r]
    else Insert(runs[..|runs| - 1], r) + [runs[|runs| - 1]]
  }

  /** `sort_unstable` on the triples; equal triples cannot be told apart. */
  function Sorted(runs: seq<FreeRun>): seq<FreeRun> {
    if runs == [] then [] else Insert(Sorted(runs[..|runs| - 1]), runs[|runs| - 1])
  }

  lemma {:induction false} InsertPairs(runs: seq<FreeRun>, r: FreeRun)
    ensures Pairs(Insert(runs, r)) == Pairs(runs) + PairsOf(r) && Total(Insert(runs, r)) == Total(runs) + r.count
  {
    hide PairsOf, Before;
    PairsPush(runs, r);
    if runs != [] && Before(r, runs[|runs| - 1]) {
      var front, last := runs[..|runs| - 1], runs[|runs| - 1];
      InsertPairs(front, r);
      PairsPush(Insert(front, r), last);
    }
  }

  lemma {:induction false} InsertMembers(runs: seq<FreeRun>, r: FreeRun)
    ensures forall x :: x in Insert(runs, r) <==> x in runs || x == r
  {
    hide Before;
    if runs != [] && Before(r, runs[|runs| - 1]) {
      var front, last := runs[..|runs| - 1], runs[|runs| - 1];
      InsertMembers(front, r);
      assert runs == front + [last];
    }
  }

  lemma {:induction false} InsertOrder(runs: seq<FreeRun>, r: FreeRun)
    requires InOrder(runs)
    ensures InOrder(Insert(runs, r))
  {
    if runs != [] && Before(r, runs[|runs| - 1]) {
      var front, last := runs[..|runs| - 1], runs[|runs| - 1];
      InsertOrder(front, r);
      InsertMembers(front, r);
      var more := Insert(front, r);
      forall i | 0 <= i < |more| ensures !Before(last, more[i]) {
        assert more[i] in more;
        if more[i] in front {
          var k :| 0 <= k < |front| && front[k] == more[i];
          assert runs[k] == more[i];
        }
      }
    }
  }

  lemma {:induction false} SortKeeps(runs: seq<FreeRun>)
    ensures InOrder(Sorted(runs)) && Pairs(Sorted(runs)) == Pairs(runs) && Total(Sorted(runs)) == Total(runs)
    ensures forall x :: x in Sorted(runs) <==> x in runs
  {
    hide PairsOf, Before, Insert, InOrder;
    if runs == [] {
      EmptyInOrder();
    } else {
      var front, last := runs[..|runs| - 1], runs[|runs| - 1];
      SortKeeps(front);
      InsertPairs(Sorted(front), last);
      InsertOrder(Sorted(front), last);
      InsertMembers(Sorted(front), last);
      assert runs == front + [last];
    }
  }

  lemma EmptyInOrder()
    ensures InOrder([])
  {
  }

  // ---- coalescing ------------------------------------------------------------------------------------

  /** Ascending, nothing empty, and no run ends where the next of its transaction begins. */
  predicate Canonical(runs: seq<FreeRun>) {
    && (forall i :: 0 <= i < |runs| ==> runs[i].count > 0)
    && (forall i, j :: 0 <= i < j < |runs| ==>
          runs[i].xid < runs[j].xid || (runs[i].xid == runs[j].xid && runs[i].paddr + runs[i].count < runs[j].paddr))
  }

  /** The runs so far are the canonical form of the first n ranges. */
  ghost predicate Merged(ranges: seq<FreeRun>, n: nat, merged: seq<FreeRun>) {
    && n <= |ranges| && Canonical(merged) && Pairs(merged) == Pairs(ranges[..n]) && Total(merged) == Total(ranges[..n])
    && NoOverlap(merged)
    && (forall j :: n <= j < |ranges| && merged != [] ==>
          var last := merged[|merged| - 1];
          last.xid < ranges[j].xid || (last.xid == ranges[j].xid && last.paddr <= ranges[j].paddr))
  }

  lemma MergeStarts(ranges: seq<FreeRun>)
    ensures Merged(ranges, 0, [])
  {
  }

  lemma MergeEmpty(ranges: seq<FreeRun>, n: nat, merged: seq<FreeRun>)
    requires Merged(ranges, n, merged) && n < |ranges| && ranges[n].count == 0
    ensures Merged(ranges, n + 1, merged)
  {
    hide RunPairs;
    assert ranges[..n + 1] == ranges[..n] + [ranges[n]];
    PairsPush(ranges[..n], ranges[n]);
    NoPairs(ranges[n]);
  }

  lemma NoPairs(r: FreeRun)
    requires r.count == 0
    ensures PairsOf(r) == {}
  {
  }

  /** All listed pairs of the last transaction lie below the end of the last run. */
  lemma {:induction false} BelowEnd(merged: seq<FreeRun>, q: (nat, nat))
    requires Canonical(merged) && merged != [] && q in Pairs(merged)
    ensures var last := merged[|merged| - 1]; q.0 < last.xid || (q.0 == last.xid && q.1 < last.paddr + last.count)
  {
    var front, last := merged[..|merged| - 1], merged[|merged| - 1];
    if q !in PairsOf(last) {
      BelowEnd(front, q);
      assert merged[|front| - 1] == front[|front| - 1];
    }
  }

  /** A run past the end of the last one shares no pair with any. */
  lemma PastEnd(merged: seq<FreeRun>, r: FreeRun)
    requires Canonical(merged)
    requires merged != [] ==>
               var last := merged[|merged| - 1];
               last.xid < r.xid || (last.xid == r.xid && last.paddr + last.count <= r.paddr)
    ensures Pairs(merged) !! PairsOf(r)
  {
    hide Pairs, Canonical;
    if merged == [] {
      NothingListed();
    } else {
      forall q | q in Pairs(merged) ensures q !in PairsOf(r) {
        BelowEnd(merged, q);
      }
    }
  }

  lemma NothingListed()
    ensures Pairs([]) == {}
  {
  }

  /** A run that neither touches nor overlaps the last one starts a new entry. */
  lemma MergePush(ranges: seq<FreeRun>, n: nat, merged: seq<FreeRun>)
    requires Merged(ranges, n, merged) && n < |ranges| && ranges[n].count > 0 && InOrder(ranges)
    requires merged != [] ==>
               var last := merged[|merged| - 1];
               last.xid != ranges[n].xid || last.paddr + last.count < ranges[n].paddr
    ensures Merged(ranges, n + 1, merged + [ranges[n]])
  {
    hide PairsOf, Pairs, Total, NoOverlap, Canonical;
    var r := ranges[n];
    assert ranges[..n + 1] == ranges[..n] + [r];
    PairsPush(ranges[..n], r);
    PairsPush(merged, r);
    OverlapPush(merged, r);
    PastEnd(merged, r);
    PushCanonical(merged, r);
    forall j | n + 1 <= j < |ranges| ensures !Before(ranges[j], r) {
    }
  }

  lemma PushCanonical(merged: seq<FreeRun>, r: FreeRun)
    requires Canonical(merged) && r.count > 0
    requires merged != [] ==>
               var last := merged[|merged| - 1];
               last.xid < r.xid || (last.xid == r.xid && last.paddr + last.count < r.paddr)
    ensures Canonical(merged + [r])
  {
    var more := merged + [r];
    forall i, j | 0 <= i < j < |more|
      ensures more[i].xid < more[j].xid || (more[i].xid == more[j].xid && more[i].paddr + more[i].count < more[j].paddr)
    {
      if j == |merged| && i < |merged| - 1 {
        assert more[|merged| - 1] == merged[|merged| - 1];
      }
    }
  }

  /** A run that begins where the last one ends lengthens it. */
  lemma MergeExtend(ranges: seq<FreeRun>, n: nat, merged: seq<FreeRun>)
    requires Merged(ranges, n, merged) && n < |ranges| && ranges[n].count > 0 && InOrder(ranges) && merged != []
    requires var last := merged[|merged| - 1]; last.xid == ranges[n].xid && last.paddr + last.count == ranges[n].paddr
    ensures var k := |merged| - 1;
            Merged(ranges, n + 1, merged[k := merged[k].(count := merged[k].count + ranges[n].count)])
  {
    hide PairsOf, Pairs, Total, NoOverlap, Canonical;
    var r, k := ranges[n], |merged| - 1;
    var front, last := merged[..k], merged[k];
    var longer := last.(count := last.count + r.count);
    assert merged[k := longer] == front + [longer] && merged == front + [last];
    assert ranges[..n + 1] == ranges[..n] + [r];
    PairsPush(ranges[..n], r);
    PairsPush(front, last);
    PairsPush(front, longer);
    PairsPush(merged, r);
    Joined(last, r, longer);
    PastEnd(merged, r);
    OverlapPush(merged, r);
    SameCount(merged + [r], front + [longer]);
    ExtendCanonical(merged, r.count);
    forall j | n + 1 <= j < |ranges| ensures !Before(ranges[j], r) {
    }
  }

  lemma SameCount(a: seq<FreeRun>, b: seq<FreeRun>)
    requires Pairs(a) == Pairs(b) && Total(a) == Total(b) && NoOverlap(a)
    ensures NoOverlap(b)
  {
    hide Pairs, Total;
  }

  lemma ExtendCanonical(merged: seq<FreeRun>, more: nat)
    requires Canonical(merged) && merged != []
    ensures var k := |merged| - 1; Canonical(merged[k := merged[k].(count := merged[k].count + more)])
  {
  }

  lemma Joined(a: FreeRun, b: FreeRun, c: FreeRun)
    requires a.xid == b.xid == c.xid && a.paddr == c.paddr && b.paddr == a.paddr + a.count &&
             c.count == a.count + b.count
    ensures PairsOf(c) == PairsOf(a) + PairsOf(b)
  {
  }

  /** A run that begins inside the last one lists a pair twice. */
  lemma MergeOverlap(ranges: seq<FreeRun>, n: nat, merged: seq<FreeRun>)
    requires Merged(ranges, n, merged) && n < |ranges| && ranges[n].count > 0 && merged != []
    requires var last := merged[|merged| - 1]; last.xid == ranges[n].xid && ranges[n].paddr < last.paddr + last.count
    ensures !NoOverlap(ranges)
  {
    hide RunPairs;
    var r, k := ranges[n], |merged| - 1;
    var q := (r.xid, r.paddr);
    InPairs(merged, k);
    assert q in PairsOf(merged[k]) && q in PairsOf(r);
    assert ranges[..n + 1] == ranges[..n] + [r];
    OverlapPush(ranges[..n], r);
    if NoOverlap(ranges) {
      OverlapPrefix(ranges, n + 1);
    }
  }

  /**
   * The blocks number less than 2^64, and so does the end of every range that is not the greatest:
   * the end of the greatest one is never computed.
   */
  predicate Fits(ranges: seq<FreeRun>) {
    Total(ranges) < U64 && EndsFit(ranges)
  }

  predicate EndsFit(ranges: seq<FreeRun>) {
    forall a, b :: a in ranges && b in ranges && a.count > 0 && b.count > 0 && Before(a, b) ==> a.paddr + a.count < U64
  }

  /** Range p is the last one so far that is not empty, and the merged list ends where it ends. */
  ghost predicate Latest(ranges: seq<FreeRun>, n: nat, merged: seq<FreeRun>, p: nat) {
    && n <= |ranges|
    && (merged == [] ==> forall i :: 0 <= i < n ==> ranges[i].count == 0)
    && (merged != [] ==>
          var last := merged[|merged| - 1];
          p < n && 0 < ranges[p].count && last.xid == ranges[p].xid &&
          last.paddr + last.count == ranges[p].paddr + ranges[p].count)
    && (forall i :: 0 <= i < n && 0 < ranges[i].count ==> i <= p)
    && (forall i :: 0 <= i < p && i < n && 0 < ranges[i].count ==> ranges[i].paddr + ranges[i].count < U64)
  }

  /** Every run begins where some range of its transaction begins. */
  ghost predicate StartsShared(ranges: seq<FreeRun>, merged: seq<FreeRun>) {
    forall m :: m in merged ==> exists g :: g in ranges && g.xid == m.xid && g.paddr == m.paddr
  }

  lemma AllEndsFit(ranges: seq<FreeRun>, merged: seq<FreeRun>, p: nat)
    requires InOrder(ranges) && Latest(ranges, |ranges|, merged, p)
    ensures EndsFit(ranges)
  {
    forall a, b | a in ranges && b in ranges && a.count > 0 && b.count > 0 && Before(a, b)
      ensures a.paddr + a.count < U64
    {
      var i :| 0 <= i < |ranges| && ranges[i] == a;
      var j :| 0 <= j < |ranges| && ranges[j] == b;
      assert i < j;
    }
  }

  /** A last run that ends past 2^64 with a range still to come: that range comes later, or it is listed twice. */
  lemma EndTooFar(ranges: seq<FreeRun>, n: nat, merged: seq<FreeRun>, p: nat)
    requires InOrder(ranges) && Merged(ranges, n, merged) && Latest(ranges, n, merged, p)
    requires n < |ranges| && 0 < ranges[n].count && merged != []
    requires var last := merged[|merged| - 1]; last.paddr + last.count >= U64
    ensures !EndsFit(ranges) || !NoOverlap(ranges)
  {
    hide NoOverlap, Merged;
    var a, b := ranges[p], ranges[n];
    assert a in ranges && b in ranges && !Before(b, a);
    if !Before(a, b) {
      MergeOverlap(ranges, n, merged);
    }
  }

  /**
   * Merges sorted ranges. Whatever it returns lists exactly the pairs of the ranges, in canonical
   * form; it refuses overlaps and ranges that do not fit in 64 bits, and nothing else.
   */
  method MergeSorted(ranges: seq<FreeRun>) returns (r: Result<seq<FreeRun>>)
    requires InOrder(ranges)
    ensures r.Ok? ==> Canonical(r.value) && Pairs(r.value) == Pairs(ranges) && Total(r.value) == Total(ranges)
    ensures r.Ok? ==> NoOverlap(ranges) && EndsFit(ranges) && StartsShared(ranges, r.value)
    ensures r.Err? ==> !NoOverlap(ranges) || !Fits(ranges)
  {
    hide Pairs, Total, NoOverlap, Canonical, InOrder, Before, EndsFit;
    var merged: seq<FreeRun> := [];
    ghost var p := 0;
    MergeStarts(ranges);
    for i := 0 to |ranges|
      invariant Merged(ranges, i, merged) && Latest(ranges, i, merged, p) && StartsShared(ranges, merged)
    {
      var q := ranges[i];
      if q.count == 0 {
        MergeEmpty(ranges, i, merged);
        continue;
      }
      if merged != [] {
        var k := |merged| - 1;
        var last := merged[k];
        var end := last.paddr + last.count;
        if end >= U64 {
          EndTooFar(ranges, i, merged, p);
          return Err(Overflow);
        }
        if last.xid == q.xid && q.paddr == end {
          if last.count + q.count >= U64 {
            CountTooFar(ranges, i, merged);
            return Err(Overflow);
          }
          MergeExtend(ranges, i, merged);
          merged := merged[k := last.(count := last.count + q.count)];
          p := i;
          continue;
        }
        if last.xid == q.xid && q.paddr < end {
          MergeOverlap(ranges, i, merged);
          return Err(Overlap);
        }
      }
      MergePush(ranges, i, merged);
      merged := merged + [q];
      p := i;
    }
    assert ranges[..|ranges|] == ranges;
    MergedNoOverlap(ranges, merged);
    AllEndsFit(ranges, merged, p);
    r := Ok(merged);
  }

  lemma CountTooFar(ranges: seq<FreeRun>, n: nat, merged: seq<FreeRun>)
    requires Merged(ranges, n, merged) && n < |ranges| && merged != []
    requires merged[|merged| - 1].count + ranges[n].count >= U64
    ensures !Fits(ranges)
  {
    hide Pairs, NoOverlap, Canonical;
    assert Total(merged) >= merged[|merged| - 1].count;
    TotalNext(ranges, n);
    TotalPrefix(ranges, n + 1);
  }

  lemma MergedNoOverlap(ranges: seq<FreeRun>, merged: seq<FreeRun>)
    requires Merged(ranges, |ranges|, merged)
    ensures NoOverlap(ranges) && Canonical(merged) && Pairs(merged) == Pairs(ranges) && Total(merged) == Total(ranges)
  {
    assert ranges[..|ranges|] == ranges;
  }

  /** The ranges to merge: old records, of which a zero length counts as one block, and the additions. */
  function Gathered(queue: seq<FreeRun>, additions: seq<(nat, nat)>, xid: nat): seq<FreeRun> {
    seq(|queue|, i requires 0 <= i < |queue| => queue[i].(count := Max(queue[i].count, 1))) +
    seq(|additions|, i requires 0 <= i < |additions| => FreeRun(xid, additions[i].0, additions[i].1))
  }

  lemma FitsSorted(ranges: seq<FreeRun>)
    ensures EndsFit(ranges) <==> EndsFit(Sorted(ranges))
  {
    hide Total, Pairs, Sorted, InOrder, Before;
    SortKeeps(ranges);
  }

  /**
   * The new queue of a transaction: canonical, listing exactly the pairs of the old queue and the
   * additions, with the count of distinct pairs and the oldest transaction. It is refused exactly
   * when some pair is listed twice or the ranges do not fit in 64 bits.
   */
  method Coalesce(queue: seq<FreeRun>, additions: seq<(nat, nat)>, xid: nat)
      returns (r: Result<(seq<FreeRun>, nat, nat)>)
    ensures r.Ok? ==> Canonical(r.value.0) && Pairs(r.value.0) == Pairs(Gathered(queue, additions, xid))
    ensures r.Ok? ==>
              r.value.1 == |Pairs(Gathered(queue, additions, xid))| && NoOverlap(Gathered(queue, additions, xid))
    ensures r.Ok? ==> r.value.2 == (if r.value.0 == [] then 0 else r.value.0[0].xid) &&
                      forall q :: q in r.value.0 ==> r.value.2 <= q.xid
    ensures r.Ok? ==> StartsShared(Gathered(queue, additions, xid), r.value.0)
    ensures r.Ok? <==> NoOverlap(Gathered(queue, additions, xid)) && Fits(Gathered(queue, additions, xid))
  {
    hide Pairs, Total, Canonical, InOrder, Sorted, Gathered, EndsFit;
    var all := Gathered(queue, additions, xid);
    SortKeeps(all);
    FitsSorted(all);
    var merged := MergeSorted(Sorted(all));
    if merged.Err? {
      return Err(merged.error);
    }
    var count := 0;
    TotalNone(merged.value);
    for i := 0 to |merged.value|
      invariant count == Total(merged.value[..i]) < U64
    {
      TotalNext(merged.value, i);
      if count + merged.value[i].count >= U64 {
        TotalBig(all, merged.value, i + 1);
        return Err(Overflow);
      }
      count := count + merged.value[i].count;
    }
    assert merged.value[..|merged.value|] == merged.value;
    OldestFirst(merged.value);
    r := Ok((merged.value, count, if merged.value == [] then 0 else merged.value[0].xid));
  }

  lemma TotalNone(runs: seq<FreeRun>)
    ensures Total(runs[..0]) == 0
  {
  }

  lemma TotalNext(runs: seq<FreeRun>, i: nat)
    requires i < |runs|
    ensures Total(runs[..i + 1]) == Total(runs[..i]) + runs[i].count
  {
    assert runs[..i + 1][..i] == runs[..i];
  }

  lemma {:induction false} TotalPrefix(runs: seq<FreeRun>, k: nat)
    requires k <= |runs|
    ensures Total(runs[..k]) <= Total(runs)
  {
    if k == |runs| {
      assert runs[..k] == runs;
    } else {
      TotalPrefix(runs[..|runs| - 1], k);
      assert runs[..|runs| - 1][..k] == runs[..k];
    }
  }

  lemma TotalBig(all: seq<FreeRun>, merged: seq<FreeRun>, k: nat)
    requires k <= |merged| && Total(merged) == Total(all) && Total(merged[..k]) >= U64
    ensures !Fits(all)
  {
    TotalPrefix(merged, k);
  }

  lemma OldestFirst(runs: seq<FreeRun>)
    requires Canonical(runs)
    ensures forall q :: q in runs ==> runs[0].xid <= q.xid
  {
    forall q | q in runs ensures runs[0].xid <= q.xid {
      var i :| 0 <= i < |runs| && runs[i] == q;
    }
  }

  // ---- the normal form --------------------------------------------------------------------------------

  /** There is only one canonical list of a set of pairs. */
  lemma {:induction false} OneCanonical(a: seq<FreeRun>, b: seq<FreeRun>)
    requires Canonical(a) && Canonical(b) && Pairs(a) == Pairs(b)
    ensures a == b
  {
    hide RunPairs, Canonical;
    if a == [] || b == [] {
      NoneListed(a);
      NoneListed(b);
    } else {
      var i, j := |a| - 1, |b| - 1;
      LastShared(a, b);
      PrefixCanonical(a);
      PrefixCanonical(b);
      LastApart(a);
      LastApart(b);
      assert Pairs(a[..i]) == Pairs(a) - PairsOf(a[i]);
      assert Pairs(b[..j]) == Pairs(b) - PairsOf(b[j]);
      OneCanonical(a[..i], b[..j]);
      assert a == a[..i] + [a[i]] && b == b[..j] + [b[j]];
    }
  }

  lemma NoneListed(a: seq<FreeRun>)
    requires Canonical(a)
    ensures Pairs(a) == {} <==> a == []
  {
    if a != [] {
      var last := a[|a| - 1];
      assert (last.xid, last.paddr) in PairsOf(last);
    }
  }

  lemma PrefixCanonical(a: seq<FreeRun>)
    requires Canonical(a) && a != []
    ensures Canonical(a[..|a| - 1])
  {
  }

  lemma LastApart(a: seq<FreeRun>)
    requires Canonical(a) && a != []
    ensures Pairs(a[..|a| - 1]) !! PairsOf(a[|a| - 1])
  {
    hide RunPairs, Pairs;
    var front, last := a[..|a| - 1], a[|a| - 1];
    forall q | q in Pairs(front) ensures q !in PairsOf(last) {
      PrefixCanonical(a);
      if front == [] {
        NoneListed(front);
      } else {
        BelowEnd(front, q);
        assert front[|front| - 1] == a[|a| - 2];
      }
    }
  }

  /** A canonical list lists nothing twice. */
  lemma {:induction false} CanonicalCounts(a: seq<FreeRun>)
    requires Canonical(a)
    ensures NoOverlap(a)
  {
    hide RunPairs, Canonical;
    if a != [] {
      var front, last := a[..|a| - 1], a[|a| - 1];
      PrefixCanonical(a);
      CanonicalCounts(front);
      LastApart(a);
      assert Pairs(a) == Pairs(front) + PairsOf(last);
    }
  }

  lemma LastEnds(a: seq<FreeRun>, b: seq<FreeRun>)
    requires Canonical(a) && Canonical(b) && Pairs(a) == Pairs(b) && a != [] && b != []
    ensures var x, y := a[|a| - 1], b[|b| - 1];
            x.xid < y.xid || (x.xid == y.xid && x.paddr + x.count <= y.paddr + y.count)
  {
    var x := a[|a| - 1];
    var q := (x.xid, x.paddr + x.count - 1);
    assert q in PairsOf(x);
    BelowEnd(b, q);
  }

  lemma LastStarts(a: seq<FreeRun>, b: seq<FreeRun>)
    requires Canonical(a) && Canonical(b) && Pairs(a) == Pairs(b) && a != [] && b != []
    requires var x, y := a[|a| - 1], b[|b| - 1]; x.xid == y.xid && x.paddr + x.count == y.paddr + y.count
    ensures a[|a| - 1].paddr >= b[|b| - 1].paddr
  {
    hide RunPairs;
    var x, y := a[|a| - 1], b[|b| - 1];
    if x.paddr < y.paddr {
      var q := (y.xid, y.paddr - 1);
      assert q in PairsOf(x) && q !in PairsOf(y);
      var front := b[..|b| - 1];
      PrefixCanonical(b);
      BelowEnd(front, q);
    }
  }

  lemma LastShared(a: seq<FreeRun>, b: seq<FreeRun>)
    requires Canonical(a) && Canonical(b) && Pairs(a) == Pairs(b) && a != [] && b != []
    ensures a[|a| - 1] == b[|b| - 1]
  {
    hide Canonical, Pairs;
    LastEnds(a, b);
    LastEnds(b, a);
    LastStarts(a, b);
    LastStarts(b, a);
  }

  // ---- the records ------------------------------------------------------------------------------------

  function QueueRecord(r: FreeRun): Record {
    Record(LeBytes(r.xid, 8) + LeBytes(r.paddr, 8), LeBytes(r.count, 8))
  }

  function ReadRecord(rec: Record): Result<FreeRun> {
    if |rec.key| != 16 || |rec.value| != 8 then Err(ShortRecord)
    else Ok(FreeRun(U64At(rec.key, 0), U64At(rec.key, 8), Max(U64At(rec.value, 0), 1)))
  }

  /** What the writer stores for a run is what the next transaction reads. */
  lemma RecordRoundTrip(r: FreeRun)
    requires r.xid < U64 && r.paddr < U64 && 0 < r.count < U64
    ensures ReadRecord(QueueRecord(r)) == Ok(r)
  {
    hide Le, LeBytes, Pow256;
    var rec := QueueRecord(r);
    assert rec.key[0..8] == LeBytes(r.xid, 8) && rec.key[8..16] == LeBytes(r.paddr, 8) &&
           rec.value[0..8] == LeBytes(r.count, 8);
    Fits64(r.xid);
    Fits64(r.paddr);
    Fits64(r.count);
  }
}

/**
 * Making several paths one after another (src/apfs_update.rs `update_volume_files`, which ensures
 * and locates one path per file): when none of them gets in another's way.
 */
module PathSet {
  import opened Bytes
  import opened CatalogRecords
  import opened CatalogWalk

  // ---- directories named once --------------------------------------------------------------------------------

  /** No directory has two names, and the root has none. */
  ghost predicate Treelike(records: seq<Rec>) {
    && (forall p: nat, n, p2: nat, m :: LeadSame(records, p, n, p2, m) ==> p == p2 && Fold(n) == Fold(m))
    && (forall p: nat, n :: ChildAt(records, p, n) != Some(ROOT))
  }

  /** Two names that lead to one directory. */
  predicate LeadSame(records: seq<Rec>, p: nat, n: seq<byte>, p2: nat, m: seq<byte>) {
    && ChildAt(records, p, n).Some? && ChildAt(records, p2, m) == ChildAt(records, p, n)
    && KindIs(records, ChildAt(records, p, n).value, false)
  }

  /** The first k names agree up to case. */
  predicate Together(a: seq<seq<byte>>, b: seq<seq<byte>>, k: nat) {
    k <= |a| && k <= |b| && forall i :: 0 <= i < k ==> Fold(a[i]) == Fold(b[i])
  }

  /** A directory with an entry is a directory. */
  lemma EntryParent(records: seq<Rec>, next: nat, p: nat, n: seq<byte>)
    requires WellFormed(records, next) && ChildAt(records, p, n).Some?
    ensures KindIs(records, p, false) && ChildAt(records, p, n).value < next && p < next
  {
    hide Count, Fold, Find, WellFormed;
    var q := ByName(p, Fold(n));
    FindIs(records, q);
    WellFormedAt(records, next, records[Find(records, q).value]);
    DirectoryKind(records, next, p);
  }

  lemma DirectoryKind(records: seq<Rec>, next: nat, id: nat)
    requires WellFormed(records, next) && HasDirectory(records, id)
    ensures KindIs(records, id, false)
  {
    hide Count, Find, RecOk;
    var r :| r in records && r.Inode? && r.id == id && r.kind == Directory;
    var k :| 0 <= k < |records| && records[k] == r;
    OnlyMatch(records, ByInode(id), k);
  }

  /** In a tree two paths to one directory are the same up to case. */
  lemma {:induction false} OnePath(records: seq<Rec>, next: nat, a: seq<seq<byte>>, b: seq<seq<byte>>, d: nat)
    requires WellFormed(records, next) && Treelike(records)
    requires Resolve(records, ROOT, a) == Ok(d) && Resolve(records, ROOT, b) == Ok(d) && KindIs(records, d, false)
    ensures |a| == |b| && Together(a, b, |a|)
    decreases |a| + |b|
  {
    hide ChildAt, KindIs, Fold, WellFormed;
    if a == [] && b != [] {
      LastStep(records, b);
    } else if b == [] && a != [] {
      LastStep(records, a);
    } else if a != [] {
      var a1, b1, n, m := a[..|a| - 1], b[..|b| - 1], a[|a| - 1], b[|b| - 1];
      LastStep(records, a);
      LastStep(records, b);
      var x, y := Resolve(records, ROOT, a1).value, Resolve(records, ROOT, b1).value;
      assert LeadSame(records, x, n, y, m);
      EntryParent(records, next, x, n);
      OnePath(records, next, a1, b1, x);
      forall i | 0 <= i < |a| ensures Fold(a[i]) == Fold(b[i]) {
        if i < |a| - 1 {
          assert a1[i] == a[i] && b1[i] == b[i];
        }
      }
    }
  }

  lemma LastStep(records: seq<Rec>, a: seq<seq<byte>>)
    requires a != [] && Resolve(records, ROOT, a).Ok?
    ensures Resolve(records, ROOT, a[..|a| - 1]).Ok?
    ensures ChildAt(records, Resolve(records, ROOT, a[..|a| - 1]).value, a[|a| - 1]) ==
            Some(Resolve(records, ROOT, a).value)
  {
    hide ChildAt, Resolve;
    assert a == a[..|a| - 1] + [a[|a| - 1]];
    LongerResolves(records, ROOT, a[..|a| - 1], a[|a| - 1]);
    ResolveAppend(records, ROOT, a[..|a| - 1], a[|a| - 1]);
  }

  /** In a tree no path passes a directory twice. */
  lemma TreeNoRevisit(records: seq<Rec>, next: nat, path: seq<seq<byte>>)
    requires WellFormed(records, next) && Treelike(records)
    ensures NoRevisit(records, path)
  {
    hide ChildAt, KindIs, Fold, WellFormed, Treelike, Resolve;
    forall i, j | 0 <= i < j < |path| && Resolve(records, ROOT, path[..j]).Ok?
      ensures Resolve(records, ROOT, path[..i]) != Resolve(records, ROOT, path[..j])
    {
      if Resolve(records, ROOT, path[..i]) == Resolve(records, ROOT, path[..j]) {
        Entered(records, next, path[..j], i);
        assert path[..j][..i] == path[..i];
        OnePath(records, next, path[..i], path[..j], Resolve(records, ROOT, path[..i]).value);
      }
    }
  }

  /** What a path that resolves passes is a directory. */
  lemma {:induction false} Entered(records: seq<Rec>, next: nat, a: seq<seq<byte>>, i: nat)
    requires WellFormed(records, next) && Resolve(records, ROOT, a).Ok? && i < |a|
    ensures Resolve(records, ROOT, a[..i]).Ok? && KindIs(records, Resolve(records, ROOT, a[..i]).value, false)
    decreases |a|
  {
    hide ChildAt, KindIs, Fold, WellFormed, Resolve;
    LastStep(records, a);
    var b := a[..|a| - 1];
    if i == |b| {
      EntryParent(records, next, Resolve(records, ROOT, b).value, a[|a| - 1]);
    } else {
      Entered(records, next, b, i);
      assert b[..i] == a[..i];
    }
  }

  // ---- what a new path changes for others ----------------------------------------------------------------------

  /** A path was made in a well-formed, treelike catalog. */
  ghost predicate Grew(before: seq<Rec>, first: nat, after: seq<Rec>, next: nat, q: seq<seq<byte>>, id: nat, stop: nat)
  {
    && WellFormed(before, first) && Treelike(before) && next != first
    && Laid(before, first, after, next, q, |q|, id, stop)
  }

  lemma GrewTop(before: seq<Rec>, first: nat, after: seq<Rec>, next: nat, q: seq<seq<byte>>, id: nat, stop: nat)
    requires Grew(before, first, after, next, q, id, stop)
    ensures stop < |q| && Resolve(before, ROOT, q[..stop]).Ok? && Resolve(before, ROOT, q[..stop]).value < first
    ensures next == first + (|q| - stop) && id == next - 1
    ensures KindIs(after, Resolve(before, ROOT, q[..stop]).value, false) ==>
              KindIs(before, Resolve(before, ROOT, q[..stop]).value, false)
  {
    hide ChildAt, InodeAt, WellFormed, Treelike;
    RootOld(before, first);
    ResolvedOld(before, first, ROOT, q[..stop]);
    var top := Resolve(before, ROOT, q[..stop]).value;
    assert InodeAt(after, top) == InodeThen(before, first, q, |q|, stop, top, top);
  }

  /**
   * What a path resolves to afterwards: what it did before, or, if it follows the new path up to
   * case, the new objects along it.
   */
  lemma {:induction false} Newly(before: seq<Rec>, first: nat, after: seq<Rec>, next: nat, q: seq<seq<byte>>, id: nat,
                                 stop: nat, p: seq<seq<byte>>, k: nat)
    requires Grew(before, first, after, next, q, id, stop) && k <= |p|
    requires KindIs(before, Resolve(before, ROOT, q[..stop]).value, false)
    requires Resolve(after, ROOT, p[..k]).Ok?
    ensures Resolve(before, ROOT, p[..k]).Ok? ==> Resolve(after, ROOT, p[..k]) == Resolve(before, ROOT, p[..k])
    ensures Resolve(before, ROOT, p[..k]).Err? ==>
              k > stop && Together(p, q, k) && Resolve(after, ROOT, p[..k]) == Ok(first + (k - stop - 1))
  {
    hide ChildAt, InodeAt, WellFormed, Treelike, KindIs, Fold;
    GrewTop(before, first, after, next, q, id, stop);
    if k == 0 {
      assert p[..0] == [];
    } else {
      assert p[..k][..k - 1] == p[..k - 1] && p[..k][k - 1] == p[k - 1];
      LastStep(after, p[..k]);
      Newly(before, first, after, next, q, id, stop, p, k - 1);
      var top, x := Resolve(before, ROOT, q[..stop]).value, Resolve(after, ROOT, p[..k - 1]).value;
      assert ChildAt(after, x, p[k - 1]) == ChildThen(before, first, q, |q|, stop, top, x, p[k - 1]);
      assert p[..k] == p[..k - 1] + [p[k - 1]];
      if Resolve(before, ROOT, p[..k - 1]).Ok? {
        ResolveAppend(before, ROOT, p[..k - 1], p[k - 1]);
        RootOld(before, first);
        ResolvedOld(before, first, ROOT, p[..k - 1]);
        if x == top && Fold(p[k - 1]) == Fold(q[stop]) {
          OnePath(before, first, p[..k - 1], q[..stop], top);
          AtTop(before, first, q, stop, p, k);
          MissingThere(before, q, stop, p[k - 1]);
        }
      } else {
        StillErr(before, p, k);
        NoEntries(before, first, x, p[k - 1]);
      }
    }
  }

  /** Where the path stopped, its next name up to case led nowhere. */
  lemma MissingThere(before: seq<Rec>, q: seq<seq<byte>>, stop: nat, n: seq<byte>)
    requires StopsAt(before, q, stop) && Fold(n) == Fold(q[stop])
    ensures ChildAt(before, Resolve(before, ROOT, q[..stop]).value, n).None?
  {
    hide Resolve, Fold;
    ResolveAppend(before, ROOT, q[..stop], q[stop]);
    assert q[..stop + 1] == q[..stop] + [q[stop]];
  }

  lemma StillErr(before: seq<Rec>, p: seq<seq<byte>>, k: nat)
    requires 0 < k <= |p| && Resolve(before, ROOT, p[..k - 1]).Err?
    ensures Resolve(before, ROOT, p[..k]).Err?
  {
    hide Resolve;
    if Resolve(before, ROOT, p[..k]).Ok? {
      PrefixResolves(before, p, k - 1, k);
    }
  }

  lemma AtTop(before: seq<Rec>, first: nat, q: seq<seq<byte>>, stop: nat, p: seq<seq<byte>>, k: nat)
    requires stop < |q| && 0 < k <= |p| && k - 1 == stop && Together(p[..k - 1], q[..stop], stop)
    requires Fold(p[k - 1]) == Fold(q[stop])
    ensures Together(p, q, k)
  {
    hide Fold;
    forall i | 0 <= i < k ensures Fold(p[i]) == Fold(q[i]) {
      if i < stop {
        assert p[..k - 1][i] == p[i] && q[..stop][i] == q[i];
      }
    }
  }

  // ---- paths that stay open ----------------------------------------------------------------------------------

  predicate RoomFor(records: seq<Rec>, id: nat, slack: nat) {
    InodeAt(records, id).Some? && InodeAt(records, id).value.children + slack < U32
  }

  /**
   * The path can be made or leads to a file already: its names are ASCII, what exists of it is of the
   * right kind, a file at its end can be located, and each directory on the way has room for `slack` entries.
   */
  ghost predicate Open(records: seq<Rec>, p: seq<seq<byte>>, slack: nat) {
    && p != [] && (forall i :: 0 <= i < |p| ==> Ascii(p[i]))
    && forall k :: 0 <= k <= |p| && Resolve(records, ROOT, p[..k]).Ok? ==> OpenAt(records, p, k, slack)
  }

  ghost predicate OpenAt(records: seq<Rec>, p: seq<seq<byte>>, k: nat, slack: nat)
    requires k <= |p| && Resolve(records, ROOT, p[..k]).Ok?
  {
    var id := Resolve(records, ROOT, p[..k]).value;
    && KindIs(records, id, k == |p|)
    && (k < |p| ==> RoomFor(records, id, slack))
    && (k == |p| ==> StreamAt(records, id).Ok?)
  }

  /** A path that is open can be made, and its file located. */
  lemma OpenAcceptable(records: seq<Rec>, next: nat, p: seq<seq<byte>>, slack: nat)
    requires Open(records, p, slack) && slack > 0 && next + |p| < U64
    ensures Acceptable(records, next, p)
    ensures Resolve(records, ROOT, p).Ok? ==> StreamAt(records, Resolve(records, ROOT, p).value).Ok?
  {
    hide Resolve, Ascii, KindIs, InodeAt, StreamAt;
    assert p[..|p|] == p;
    forall k | 0 < k <= |p| && Resolve(records, ROOT, p[..k]).Ok?
      ensures KindIs(records, Resolve(records, ROOT, p[..k]).value, k == |p|)
    {
      assert OpenAt(records, p, k, slack);
    }
    forall k | 0 <= k < |p| && StopsAt(records, p, k)
      ensures next + (|p| - k) < U64 && Spacious(records, Resolve(records, ROOT, p[..k]).value)
    {
      assert OpenAt(records, p, k, slack);
    }
  }

  /** Neither path is the beginning of the other, unless they are the same up to case. */
  predicate Compatible(p: seq<seq<byte>>, q: seq<seq<byte>>) {
    (|p| < |q| ==> !Together(p, q, |p|)) && (|q| < |p| ==> !Together(p, q, |q|))
  }

  /** With nothing made everything looks the same, so open paths stay open. */
  lemma OpenSame(before: seq<Rec>, after: seq<Rec>, p: seq<seq<byte>>, slack: nat, less: nat)
    requires Open(before, p, slack) && less <= slack
    requires SameChildrenAt(after, before) && KindsSame(before, after) && StreamsStay(before, after)
    ensures Open(after, p, less)
  {
    hide ChildAt, InodeAt, StreamAt, Ascii;
    forall k | 0 <= k <= |p| && Resolve(after, ROOT, p[..k]).Ok? ensures OpenAt(after, p, k, less) {
      SameResolve(before, after, ROOT, p[..k]);
      assert OpenAt(before, p, k, slack);
      var id := Resolve(before, ROOT, p[..k]).value;
      assert SameInode(before, after, id);
    }
  }

  lemma {:induction false} SameResolve(before: seq<Rec>, after: seq<Rec>, from: nat, p: seq<seq<byte>>)
    requires SameChildrenAt(after, before)
    ensures Resolve(after, from, p) == Resolve(before, from, p)
    decreases |p|
  {
    hide ChildAt;
    if p != [] && ChildAt(before, from, p[0]).Some? {
      SameResolve(before, after, ChildAt(before, from, p[0]).value, p[1..]);
    }
  }

  /** Same kind and number of entries. */
  predicate SameInode(before: seq<Rec>, after: seq<Rec>, id: nat) {
    var b, a := InodeAt(before, id), InodeAt(after, id);
    b.Some? == a.Some? && (b.Some? ==> a.value.kind == b.value.kind && a.value.children == b.value.children)
  }

  ghost predicate KindsSame(before: seq<Rec>, after: seq<Rec>) {
    forall id: nat :: SameInode(before, after, id)
  }

  ghost predicate StreamsStay(before: seq<Rec>, after: seq<Rec>) {
    forall id: nat :: StreamAt(before, id).Ok? ==> StreamAt(after, id).Ok?
  }

  /** The inode of an object that was there: the same, or one entry more. */
  lemma OldInode(before: seq<Rec>, first: nat, after: seq<Rec>, next: nat, q: seq<seq<byte>>, id: nat, stop: nat,
                 x: nat)
    requires Grew(before, first, after, next, q, id, stop) && x < first
    ensures InodeAt(before, x).Some? == InodeAt(after, x).Some?
    ensures InodeAt(before, x).Some? ==>
              && InodeAt(after, x).value.kind == InodeAt(before, x).value.kind
              && InodeAt(after, x).value.children <= InodeAt(before, x).value.children + 1
  {
    hide ChildAt, InodeAt, WellFormed, Treelike, StopsAt;
    GrewTop(before, first, after, next, q, id, stop);
    var top := Resolve(before, ROOT, q[..stop]).value;
    assert InodeAt(after, x) == InodeThen(before, first, q, |q|, stop, top, x);
  }

  lemma NewObject(before: seq<Rec>, first: nat, after: seq<Rec>, next: nat, q: seq<seq<byte>>, id: nat, stop: nat,
                  k: nat)
    requires Grew(before, first, after, next, q, id, stop) && stop < k <= |q|
    ensures KindIs(after, first + (k - stop - 1), k == |q|)
    ensures k < |q| ==> InodeAt(after, first + (k - stop - 1)).value.children == 1
  {
    hide ChildAt, InodeAt, WellFormed, Treelike;
    GrewTop(before, first, after, next, q, id, stop);
    var top, x := Resolve(before, ROOT, q[..stop]).value, first + (k - stop - 1);
    assert InodeAt(after, x) == InodeThen(before, first, q, |q|, stop, top, x);
  }

  /** Making one path leaves every compatible path open. */
  lemma OpenKept(before: seq<Rec>, first: nat, after: seq<Rec>, next: nat, q: seq<seq<byte>>, id: nat, stop: nat,
                 p: seq<seq<byte>>, slack: nat)
    requires Grew(before, first, after, next, q, id, stop) && Made(before, first, after, next, q, id)
    requires KindIs(before, Resolve(before, ROOT, q[..stop]).value, false)
    requires Open(before, p, slack + 1) && slack + 1 < U32 && Compatible(p, q)
    ensures Open(after, p, slack)
  {
    hide ChildAt, InodeAt, WellFormed, Treelike, KindIs, Resolve, StreamAt, Ascii, Grew, Keeps, StreamsKept, Fold,
         OpenAt, Made;
    forall k | 0 <= k <= |p| && Resolve(after, ROOT, p[..k]).Ok? ensures OpenAt(after, p, k, slack) {
      OpenStep(before, first, after, next, q, id, stop, p, k, slack);
    }
  }

  lemma OpenStep(before: seq<Rec>, first: nat, after: seq<Rec>, next: nat, q: seq<seq<byte>>, id: nat, stop: nat,
                 p: seq<seq<byte>>, k: nat, slack: nat)
    requires Grew(before, first, after, next, q, id, stop) && Made(before, first, after, next, q, id)
    requires KindIs(before, Resolve(before, ROOT, q[..stop]).value, false)
    requires Open(before, p, slack + 1) && slack + 1 < U32 && Compatible(p, q)
    requires k <= |p| && Resolve(after, ROOT, p[..k]).Ok?
    ensures OpenAt(after, p, k, slack)
  {
    hide ChildAt, InodeAt, WellFormed, Treelike, Resolve, StreamAt, Ascii, Keeps, Fold, Laid;
    Newly(before, first, after, next, q, id, stop, p, k);
    if Resolve(before, ROOT, p[..k]).Ok? {
      var x := Resolve(before, ROOT, p[..k]).value;
      assert OpenAt(before, p, k, slack + 1);
      RootOld(before, first);
      ResolvedOld(before, first, ROOT, p[..k]);
      OldInode(before, first, after, next, q, id, stop, x);
    } else {
      NewObject(before, first, after, next, q, id, stop, k);
      GrewTop(before, first, after, next, q, id, stop);
      if k == |p| {
        NewStream(before, first, after, next, q, id, stop);
      }
    }
  }

  lemma NewStream(before: seq<Rec>, first: nat, after: seq<Rec>, next: nat, q: seq<seq<byte>>, id: nat, stop: nat)
    requires Grew(before, first, after, next, q, id, stop) && Made(before, first, after, next, q, id)
    ensures StreamAt(after, id).Ok?
  {
    hide ChildAt, InodeAt, WellFormed, Treelike, StreamAt, Keeps, ChildThen, InodeThen;
    if Resolve(before, ROOT, q).Ok? {
      assert q[..|q|] == q;
      NotYetStopped(before, q, |q|, stop);
    }
  }

  /** A new path keeps the catalog a tree. */
  lemma TreeKept(before: seq<Rec>, first: nat, after: seq<Rec>, next: nat, q: seq<seq<byte>>, id: nat, stop: nat)
    requires Grew(before, first, after, next, q, id, stop)
    ensures Treelike(after)
  {
    hide ChildAt, InodeAt, WellFormed, KindIs, Fold, Resolve, Laid;
    forall p: nat, n, p2: nat, m | LeadSame(after, p, n, p2, m) ensures p == p2 && Fold(n) == Fold(m) {
      TreePair(before, first, after, next, q, id, stop, p, n, p2, m);
    }
    forall p: nat, n ensures ChildAt(after, p, n) != Some(ROOT) {
      LedThen(before, first, after, next, q, id, stop, p, n);
      RootOld(before, first);
    }
  }

  /** Where a name leads afterwards: where it led, below the first new id; or to a new object by its one name. */
  lemma LedThen(before: seq<Rec>, first: nat, after: seq<Rec>, next: nat, q: seq<seq<byte>>, id: nat, stop: nat, p: nat,
             n: seq<byte>)
    requires Grew(before, first, after, next, q, id, stop)
    ensures var top, c := Resolve(before, ROOT, q[..stop]).value, ChildAt(after, p, n);
            if c.Some? && c.value >= first then
              && c.value < next && p == (if c.value == first then top else c.value - 1)
              && Fold(n) == Fold(q[c.value - first + stop])
            else c == ChildAt(before, p, n)
  {
    hide ChildAt, InodeAt, WellFormed, Treelike, Fold, Resolve;
    GrewTop(before, first, after, next, q, id, stop);
    var top := Resolve(before, ROOT, q[..stop]).value;
    assert ChildAt(after, p, n) == ChildThen(before, first, q, |q|, stop, top, p, n);
    if ChildAt(before, p, n).Some? {
      EntryParent(before, first, p, n);
    }
  }

  lemma TreePair(before: seq<Rec>, first: nat, after: seq<Rec>, next: nat, q: seq<seq<byte>>, id: nat, stop: nat,
                 p: nat, n: seq<byte>, p2: nat, m: seq<byte>)
    requires Grew(before, first, after, next, q, id, stop) && LeadSame(after, p, n, p2, m)
    ensures p == p2 && Fold(n) == Fold(m)
  {
    hide ChildAt, InodeAt, WellFormed, Fold, Resolve, Laid;
    LedThen(before, first, after, next, q, id, stop, p, n);
    LedThen(before, first, after, next, q, id, stop, p2, m);
    var c := ChildAt(after, p, n).value;
    if c < first {
      OldInode(before, first, after, next, q, id, stop, c);
      assert LeadSame(before, p, n, p2, m);
    }
  }

  lemma TreeSame(before: seq<Rec>, after: seq<Rec>)
    requires Treelike(before) && SameChildrenAt(after, before) && KindsSame(before, after)
    ensures Treelike(after)
  {
    hide ChildAt, InodeAt, Fold;
    forall p: nat, n, p2: nat, m | LeadSame(after, p, n, p2, m) ensures p == p2 && Fold(n) == Fold(m) {
      assert ChildAt(after, p, n) == ChildAt(before, p, n) && ChildAt(after, p2, m) == ChildAt(before, p2, m);
      assert SameInode(before, after, ChildAt(before, p, n).value);
      assert LeadSame(before, p, n, p2, m);
    }
  }

  /** So does making a path, whether or not it adds anything. */
  lemma TreeMade(before: seq<Rec>, first: nat, after: seq<Rec>, next: nat, q: seq<seq<byte>>, id: nat)
    requires WellFormed(before, first) && Treelike(before) && MadeExactly(before, first, after, next, q, id)
    ensures Treelike(after)
  {
    hide Treelike, WellFormed, Laid, KindsSame, SameChildrenAt;
    var stop: nat :| Laid(before, first, after, next, q, |q|, id, stop);
    if next == first {
      NothingNew(before, first, after, q, id, stop);
      TreeSame(before, after);
    } else {
      TreeKept(before, first, after, next, q, id, stop);
    }
  }

  // ---- several paths -----------------------------------------------------------------------------------------

  /** How many names the paths have together. */
  function NameCount(paths: seq<seq<seq<byte>>>): nat {
    if paths == [] then 0 else |paths[0]| + NameCount(paths[1..])
  }

  /** All these paths can be made one after the other: each is open, and none is in another's way. */
  ghost predicate AllOpen(records: seq<Rec>, paths: seq<seq<seq<byte>>>) {
    && Treelike(records) && |paths| < U32
    && (forall i :: 0 <= i < |paths| ==> Open(records, paths[i], |paths|))
    && (forall i, j :: 0 <= i < j < |paths| ==> Compatible(paths[i], paths[j]))
  }

  /** The first of them can be made, and its file located. */
  lemma FirstOpen(records: seq<Rec>, next: nat, paths: seq<seq<seq<byte>>>)
    requires AllOpen(records, paths) && paths != [] && next + NameCount(paths) < U64
    ensures Acceptable(records, next, paths[0])
    ensures Resolve(records, ROOT, paths[0]).Ok? ==> StreamAt(records, Resolve(records, ROOT, paths[0]).value).Ok?
  {
    hide Resolve, StreamAt, Treelike, Open, Acceptable;
    OpenAcceptable(records, next, paths[0], |paths|);
  }

  lemma CompatibleBack(p: seq<seq<byte>>, q: seq<seq<byte>>)
    requires Compatible(p, q)
    ensures Compatible(q, p)
  {
    hide Fold;
  }

  /** After it the others can. */
  lemma RestOpen(before: seq<Rec>, first: nat, after: seq<Rec>, next: nat, paths: seq<seq<seq<byte>>>, id: nat)
    requires AllOpen(before, paths) && paths != [] && WellFormed(before, first)
    requires Made(before, first, after, next, paths[0], id) && MadeExactly(before, first, after, next, paths[0], id)
    ensures AllOpen(after, paths[1..])
  {
    hide Resolve, StreamAt, Treelike, Open, WellFormed, Laid, Keeps, StreamsKept, Compatible, KindsSame, SameChildrenAt,
         SameInodes;
    var q, rest := paths[0], paths[1..];
    var stop: nat :| Laid(before, first, after, next, q, |q|, id, stop);
    if next == first {
      NothingNew(before, first, after, q, id, stop);
      SameStreamsStay(before, first, after, next, q, id);
    } else {
      TopIsDirectory(before, first, after, next, q, id, stop, |paths|);
    }
    TreeMade(before, first, after, next, q, id);
    forall i | 0 <= i < |rest| ensures Open(after, rest[i], |rest|) {
      assert rest[i] == paths[i + 1];
      if next == first {
        OpenSame(before, after, rest[i], |paths|, |rest|);
      } else {
        CompatibleBack(q, rest[i]);
        OpenKept(before, first, after, next, q, id, stop, rest[i], |rest|);
      }
    }
    forall i, j | 0 <= i < j < |rest| ensures Compatible(rest[i], rest[j]) {
      assert rest[i] == paths[i + 1] && rest[j] == paths[j + 1];
    }
  }

  lemma NothingNew(before: seq<Rec>, first: nat, after: seq<Rec>, q: seq<seq<byte>>, id: nat, stop: nat)
    requires Laid(before, first, after, first, q, |q|, id, stop)
    ensures SameChildrenAt(after, before) && KindsSame(before, after)
  {
    hide ChildAt, InodeAt, Resolve;
    forall x: nat ensures SameInode(before, after, x) {
      assert InodeAt(after, x) == InodeAt(before, x);
    }
  }

  lemma SameStreamsStay(before: seq<Rec>, first: nat, after: seq<Rec>, next: nat, q: seq<seq<byte>>, id: nat)
    requires Made(before, first, after, next, q, id)
    ensures StreamsStay(before, after)
  {
    hide StreamAt, WellFormed, Resolve, Keeps, StreamsKept;
  }

  lemma TopIsDirectory(before: seq<Rec>, first: nat, after: seq<Rec>, next: nat, q: seq<seq<byte>>, id: nat, stop: nat,
                       slack: nat)
    requires WellFormed(before, first) && Treelike(before) && Open(before, q, slack) && next != first
    requires Laid(before, first, after, next, q, |q|, id, stop)
    ensures Grew(before, first, after, next, q, id, stop)
    ensures Resolve(before, ROOT, q[..stop]).Ok? && KindIs(before, Resolve(before, ROOT, q[..stop]).value, false)
  {
    hide ChildAt, InodeAt, WellFormed, Treelike, StreamAt, ChildThen, InodeThen, Resolve, Ascii;
    assert OpenAt(before, q, stop, slack);
  }

  /** What changes neither names nor kinds leaves them all open. */
  lemma AllStayOpen(before: seq<Rec>, after: seq<Rec>, paths: seq<seq<seq<byte>>>)
    requires AllOpen(before, paths)
    requires SameChildrenAt(after, before) && KindsSame(before, after) && StreamsStay(before, after)
    ensures AllOpen(after, paths)
  {
    hide Treelike, Open, SameChildrenAt, KindsSame, StreamsStay, Compatible;
    TreeSame(before, after);
    forall i | 0 <= i < |paths| ensures Open(after, paths[i], |paths|) {
      OpenSame(before, after, paths[i], |paths|, |paths|);
    }
  }
}

/**
 * How `ensure_file_records` walks a path (src/apfs_update.rs): when a path can be made, what holds
 * after each name, whether its entry can be read or not, and exactly what the path adds.
 */
module CatalogWalk {
  import opened Bytes
  import opened DirectoryKey
  import opened CatalogRecords

  // ---- where creating a path stands ------------------------------------------------------------------------------

  /** Where creating a path stands: the catalog is sound, and the names so far lead to `parent`. */
  ghost predicate Walking(before: seq<Rec>, records: seq<Rec>, next: nat, path: seq<seq<byte>>, parent: nat) {
    && WellFormed(records, next) && Keeps(before, records) && Resolve(records, ROOT, path) == Ok(parent)
    && (forall id: nat :: StreamAt(before, id).Ok? ==> StreamAt(records, id) == StreamAt(before, id))
  }

  ghost predicate SameStreams(a: seq<Rec>, b: seq<Rec>) {
    forall id: nat :: StreamAt(a, id) == StreamAt(b, id)
  }

  ghost predicate SameStreamsBut(a: seq<Rec>, b: seq<Rec>, except: nat) {
    forall id: nat :: id != except ==> StreamAt(a, id) == StreamAt(b, id)
  }

  /** The same objects can be located, in the same places; one more if a file was made. */
  ghost predicate StreamsKept(before: seq<Rec>, records: seq<Rec>, made: bool, file: nat) {
    forall id: nat ::
      StreamAt(records, id) == StreamAt(before, id) || (StreamAt(records, id).Err? && StreamAt(before, id).Err?) ||
                      (made && id == file)
  }

  lemma WalkStarts(records: seq<Rec>, next: nat)
    requires WellFormed(records, next)
    ensures Walking(records, records, next, [], ROOT) && HasDirectory(records, ROOT)
  {
    hide ChildAt, StreamAt, RecOk, Count;
  }

  /** An object with a stream has an id that was handed out. */
  lemma StreamOld(records: seq<Rec>, next: nat, id: nat)
    requires WellFormed(records, next) && StreamAt(records, id).Ok?
    ensures id < next
  {
    hide Count, WellFormed;
    FindIs(records, ByInode(id));
    WellFormedAt(records, next, records[Find(records, ByInode(id)).value]);
  }

  lemma WalkGrown(before: seq<Rec>, records: seq<Rec>, next: nat, path: seq<seq<byte>>, i: nat, e: Rec,
                  name: seq<byte>, last: bool)
    requires i < |records| && records[i].Inode? && records[i].kind == Directory && Spells(e, records[i].id, name, next)
    requires Walking(before, records, next, path, records[i].id) && ChildAt(records, records[i].id, name).None?
    ensures Walking(before, Grown(records, i, e, next, last), next + 1, path + [name], next)
    ensures SameStreamsBut(Grown(records, i, e, next, last), records, next)
  {
    hide ChildAt, StreamAt, WellFormed, Grown, ReadName, Fold;
    var grown := Grown(records, i, e, next, last);
    GrownWellFormed(records, next, i, e, name, last);
    GrownKeeps(records, i, e, name, next, last);
    KeepsTrans(before, records, grown);
    PathsKept(records, grown, ROOT, path);
    ResolveAppend(grown, ROOT, path, name);
    forall id: nat | StreamAt(before, id).Ok? ensures StreamAt(grown, id) == StreamAt(before, id) {
      StreamOld(records, next, id);
      GrownStream(records, i, e, next, last, id);
    }
    forall id: nat | id != next ensures StreamAt(grown, id) == StreamAt(records, id) {
      GrownStream(records, i, e, next, last, id);
    }
  }

  lemma WalkRespelled(before: seq<Rec>, records: seq<Rec>, next: nat, path: seq<seq<byte>>, parent: nat, i: nat,
                      e: Rec, name: seq<byte>)
    requires Walking(before, records, next, path, parent) && Respells(records, i, e, name) &&
             records[i].parent == parent
    requires ChildAt(records, parent, name) == Some(records[i].child)
    ensures Walking(before, records[i := e], next, path + [name], records[i].child) &&
            SameChildrenAt(records[i := e], records)
    ensures SameStreams(records[i := e], records)
  {
    hide ChildAt, StreamAt, WellFormed, Names;
    var after := records[i := e];
    RespelledWellFormed(records, next, i, e, name);
    PathsKept(records, after, ROOT, path);
    ResolveAppend(after, ROOT, path, name);
    forall id: nat ensures StreamAt(after, id) == StreamAt(records, id) {
      RespelledStream(records, i, e, name, id);
    }
  }

  lemma WalkSorted(before: seq<Rec>, records: seq<Rec>, next: nat, path: seq<seq<byte>>, parent: nat, rank: Rec -> int)
    requires Walking(before, records, next, path, parent)
    ensures Walking(before, SortBy(records, rank), next, path, parent)
    ensures forall id: nat :: StreamAt(SortBy(records, rank), id) == StreamAt(records, id)
  {
    hide ChildAt, StreamAt, WellFormed, SortBy, SameRecords;
    var sorted := SortBy(records, rank);
    SortedSame(records, rank);
    SameWellFormed(sorted, records, next);
    SameChildren(sorted, records, next);
    KeepsTrans(before, records, sorted);
    PathsKept(records, sorted, ROOT, path);
    forall id: nat ensures StreamAt(sorted, id) == StreamAt(records, id) {
      SortedStream(sorted, records, next, id);
    }
  }

  /** The first record that matches, by scanning. */
  method FindRecord(records: seq<Rec>, q: Query) returns (found: Option<nat>)
    ensures found == Find(records, q)
    ensures found.Some? ==> found.value < |records| && Hit(q, records[found.value])
  {
    hide Hit, Count;
    FindIs(records, q);
    for i := 0 to |records|
      invariant forall k :: 0 <= k < i ==> !Hit(q, records[k])
    {
      if Hit(q, records[i]) {
        return Some(i);
      }
    }
    found := None;
  }

  /** `locate_file`: resolves the path, then scans for the inode and for the one extent. */
  method LocateFile(records: seq<Rec>, path: seq<seq<byte>>) returns (r: Result<Location>)
    ensures r.Ok? <==> Follow(records, ROOT, path).Ok? && StreamAt(records, Follow(records, ROOT, path).value).Ok?
    ensures r.Ok? ==> r == StreamAt(records, Follow(records, ROOT, path).value)
    ensures NoStubs(records) ==> (r.Ok? <==> Locate(records, path).Ok?) && (r.Ok? ==> r == Locate(records, path))
  {
    hide Resolve, Hit, Find, Count, Follow;
    var id := ResolvePath(records, path);
    if id.Err? {
      return Err(id.error);
    }
    var at := FindRecord(records, ByInode(id.value));
    if at.None? {
      return Err(NotFound);
    }
    InodeHit(records[at.value], id.value);
    var stream := records[at.value].stream;
    if stream.None? {
      return Err(Unsupported);
    }
    var extent := SoleExtent(records, id.value);
    if extent.Err? {
      return Err(extent.error);
    }
    if records[extent.value].length != stream.value.1 {
      return Err(Malformed);
    }
    r := Ok(Location(id.value, stream.value.0, stream.value.1, records[extent.value].paddr));
  }

  /** The only extent record of an object; more or fewer than one is refused. */
  method SoleExtent(records: seq<Rec>, id: nat) returns (r: Result<nat>)
    ensures r.Ok? <==> Count(records, ByExtent(id)) == 1
    ensures r.Ok? ==> r.value < |records| && records[r.value].Extent? && Find(records, ByExtent(id)) == Some(r.value)
  {
    var q := ByExtent(id);
    var found: Option<nat> := None;
    for i := 0 to |records|
      invariant Count(records[..i], q) == (if found.Some? then 1 else 0)
      invariant found.Some? ==> found.value < i && Hit(q, records[found.value])
    {
      CountPush(records[..i], records[i], q);
      assert records[..i + 1] == records[..i] + [records[i]];
      if Hit(q, records[i]) {
        if found.Some? {
          CountGrows(records, i + 1, q);
          return Err(Unsupported);
        }
        found := Some(i);
      }
    }
    assert records[..|records|] == records;
    if found.None? {
      return Err(NotFound);
    }
    OnlyMatch(records, q, found.value);
    r := Ok(found.value);
  }

  lemma {:induction false} CountGrows(records: seq<Rec>, k: nat, q: Query)
    requires k <= |records|
    ensures Count(records[..k], q) <= Count(records, q)
  {
    hide Hit;
    if k == |records| {
      assert records[..k] == records;
    } else {
      CountGrows(records[..|records| - 1], k, q);
      assert records[..|records| - 1][..k] == records[..k];
    }
  }

  lemma InodeHit(r: Rec, id: nat)
    requires Hit(ByInode(id), r)
    ensures r.Inode? && r.id == id
  {
  }

  lemma EntryThere(records: seq<Rec>, parent: nat, name: seq<byte>, child: nat)
    requires ChildAt(records, parent, name) == Some(child)
    ensures Find(records, ByName(parent, Fold(name))).Some?
    ensures var i := Find(records, ByName(parent, Fold(name))).value;
            i < |records| && records[i].DirRec? && records[i].parent == parent && records[i].child == child &&
                Names(records[i], parent, name)
  {
    hide Count, Fold;
    FindIs(records, ByName(parent, Fold(name)));
  }

  lemma DirectoryInode(before: seq<Rec>, records: seq<Rec>, next: nat, path: seq<seq<byte>>, parent: nat)
    requires Walking(before, records, next, path, parent) && HasDirectory(records, parent)
    ensures Find(records, ByInode(parent)).Some?
    ensures var i := Find(records, ByInode(parent)).value;
            i < |records| && records[i].Inode? && records[i].id == parent && records[i].kind == Directory
  {
    hide Count, StreamAt, ChildAt, Resolve, Keeps, RecOk;
    var r :| r in records && r.Inode? && r.id == parent && r.kind == Directory;
    var k :| 0 <= k < |records| && records[k] == r;
    OnlyMatch(records, ByInode(parent), k);
  }

  lemma WalkWellFormed(before: seq<Rec>, records: seq<Rec>, next: nat, path: seq<seq<byte>>, parent: nat)
    requires Walking(before, records, next, path, parent)
    ensures WellFormed(records, next)
  {
  }

  ghost predicate SameChildrenAt(a: seq<Rec>, b: seq<Rec>) {
    forall p, n :: ChildAt(a, p, n) == ChildAt(b, p, n)
  }

  ghost predicate NoChildren(records: seq<Rec>, parent: nat) {
    forall n :: ChildAt(records, parent, n).None?
  }

  /** A directory just created is empty. */
  lemma NewDirectoryEmpty(records: seq<Rec>, next: nat, i: nat, e: Rec)
    requires WellFormed(records, next) && i < |records| && records[i].Inode? && e.DirRec? && e.parent < next
    ensures NoChildren(Grown(records, i, e, next, false), next)
  {
    hide Count, Find, Fold, Grown;
    var grown := Grown(records, i, e, next, false);
    forall n ensures ChildAt(grown, next, n).None? {
      var q := ByName(next, Fold(n));
      FreshId(records, next, q);
      GrownCounts(records, i, e, next, false, q);
      FindIs(grown, q);
    }
  }

  /** While nothing has been created the old catalog leads to the same place; afterwards everything is new. */
  ghost predicate Trail(before: seq<Rec>, first: nat, records: seq<Rec>, next: nat, path: seq<seq<byte>>, parent: nat,
                        done: bool)
  {
    if next == first then SameChildrenAt(records, before) && Resolve(before, ROOT, path) == Ok(parent)
    else
      && first < next && first <= parent
      && (if done then StreamAt(records, parent) == Ok(Location(parent, 0, 0, 0)) else NoChildren(records, parent))
  }

  lemma TrailStarts(records: seq<Rec>, next: nat, done: bool)
    ensures Trail(records, next, records, next, [], ROOT, done)
  {
    hide ChildAt;
  }

  lemma TrailEnters(before: seq<Rec>, first: nat, records: seq<Rec>, after: seq<Rec>, next: nat, path: seq<seq<byte>>,
                    parent: nat, name: seq<byte>, child: nat, done: bool)
    requires Trail(before, first, records, next, path, parent, false) && ChildAt(records, parent, name) == Some(child)
    requires SameChildrenAt(after, records)
    ensures next == first && Trail(before, first, after, next, path + [name], child, done)
  {
    hide ChildAt, StreamAt;
    assert next != first ==> ChildAt(records, parent, name).None?;
    ResolveAppend(before, ROOT, path, name);
  }

  // ---- when a path can be made ---------------------------------------------------------------------------------

  /** The inode of an object. */
  function InodeAt(records: seq<Rec>, id: nat): (r: Option<Rec>)
    ensures r.Some? ==> r.value.Inode? && r.value.id == id && r.value in records
  {
    FindIs(records, ByInode(id));
    match Find(records, ByInode(id))
    case Some(i) => Some(records[i])
    case None => None
  }

  predicate KindIs(records: seq<Rec>, id: nat, last: bool) {
    InodeAt(records, id).Some? && InodeAt(records, id).value.kind == if last then Regular else Directory
  }

  predicate Spacious(records: seq<Rec>, id: nat) {
    InodeAt(records, id).Some? && InodeAt(records, id).value.children + 1 < U32
  }

  predicate CanAdd(records: seq<Rec>, next: nat, parent: nat, name: seq<byte>) {
    next + 1 < U64 && Ascii(name) && Spacious(records, parent)
  }

  /**
   * The first `index` names of a path can be made: they are ASCII, as far as they exist already
   * they are directories with a file at the path's end, and where they stop there is an id for
   * each missing name and room for one more entry in the last directory there is.
   */
  ghost predicate Passes(records: seq<Rec>, next: nat, path: seq<seq<byte>>, index: nat)
    requires index <= |path|
  {
    && (forall i :: 0 <= i < index ==> Ascii(path[i]))
    && (forall k :: 0 < k <= index && Resolve(records, ROOT, path[..k]).Ok? ==>
          KindIs(records, Resolve(records, ROOT, path[..k]).value, k == |path|))
    && (forall k :: 0 <= k < index && StopsAt(records, path, k) ==>
          next + (index - k) < U64 && Spacious(records, Resolve(records, ROOT, path[..k]).value))
  }

  ghost predicate Acceptable(records: seq<Rec>, next: nat, path: seq<seq<byte>>) {
    Passes(records, next, path, |path|)
  }

  /** The first k names lead somewhere, and the next one does not. */
  predicate StopsAt(records: seq<Rec>, path: seq<seq<byte>>, k: nat) {
    k < |path| && Resolve(records, ROOT, path[..k]).Ok? && Resolve(records, ROOT, path[..k + 1]).Err?
  }

  lemma {:induction false} PrefixResolves(records: seq<Rec>, path: seq<seq<byte>>, i: nat, j: nat)
    requires i <= j <= |path| && Resolve(records, ROOT, path[..j]).Ok?
    ensures Resolve(records, ROOT, path[..i]).Ok?
    decreases j - i
  {
    hide Resolve, ChildAt;
    if i < j {
      assert path[..j] == path[..j - 1] + [path[j - 1]];
      LongerResolves(records, ROOT, path[..j - 1], path[j - 1]);
      PrefixResolves(records, path, i, j - 1);
    }
  }

  lemma {:induction false} LongerResolves(records: seq<Rec>, from: nat, path: seq<seq<byte>>, name: seq<byte>)
    requires Resolve(records, from, path + [name]).Ok?
    ensures Resolve(records, from, path).Ok?
    decreases |path|
  {
    hide ChildAt;
    if path != [] {
      assert (path + [name])[0] == path[0] && (path + [name])[1..] == path[1..] + [name];
      LongerResolves(records, ChildAt(records, from, path[0]).value, path[1..], name);
    }
  }

  /** A path stops at one place only. */
  lemma StopsOnce(records: seq<Rec>, path: seq<seq<byte>>, j: nat, k: nat)
    requires StopsAt(records, path, j) && StopsAt(records, path, k)
    ensures j == k
  {
    hide Resolve;
    if j < k {
      PrefixResolves(records, path, j + 1, k);
    } else if k < j {
      PrefixResolves(records, path, k + 1, j);
    }
  }

  lemma NotYetStopped(records: seq<Rec>, path: seq<seq<byte>>, index: nat, k: nat)
    requires k < index <= |path| && Resolve(records, ROOT, path[..index]).Ok?
    ensures !StopsAt(records, path, k)
  {
    hide Resolve;
    PrefixResolves(records, path, k + 1, index);
  }

  lemma PassesDown(records: seq<Rec>, next: nat, path: seq<seq<byte>>, index: nat)
    requires index <= |path| && Acceptable(records, next, path)
    ensures Passes(records, next, path, index)
  {
    hide Resolve, Ascii, KindIs, Spacious, StopsAt;
    forall k | 0 < k <= index && Resolve(records, ROOT, path[..k]).Ok?
      ensures KindIs(records, Resolve(records, ROOT, path[..k]).value, k == |path|)
    {
      assert 0 < k <= |path|;
    }
  }

  lemma PassesNone(records: seq<Rec>, next: nat, path: seq<seq<byte>>)
    ensures Passes(records, next, path, 0)
  {
  }

  /** A name that exists passes exactly when it is ASCII and leads to the right kind of object. */
  lemma EnterPasses(records: seq<Rec>, next: nat, path: seq<seq<byte>>, index: nat, parent: nat, child: nat)
    requires index < |path| && Passes(records, next, path, index) && Resolve(records, ROOT, path[..index]) == Ok(parent)
    requires ChildAt(records, parent, path[index]) == Some(child)
    ensures Passes(records, next, path, index + 1) <==>
              Ascii(path[index]) && KindIs(records, child, index + 1 == |path|)
  {
    hide Resolve, Ascii, KindIs, Spacious, ChildAt, StopsAt;
    ResolveAppend(records, ROOT, path[..index], path[index]);
    assert path[..index + 1] == path[..index] + [path[index]];
    forall k | 0 <= k < index + 1 ensures !StopsAt(records, path, k) {
      NotYetStopped(records, path, index + 1, k);
    }
  }

  /** The first missing name passes exactly when it is ASCII and there is an id and room in its directory. */
  lemma FirstPasses(records: seq<Rec>, next: nat, path: seq<seq<byte>>, index: nat, parent: nat)
    requires index < |path| && Passes(records, next, path, index) && Resolve(records, ROOT, path[..index]) == Ok(parent)
    requires ChildAt(records, parent, path[index]).None?
    ensures StopsAt(records, path, index)
    ensures Passes(records, next, path, index + 1) <==> CanAdd(records, next, parent, path[index])
  {
    hide Resolve, Ascii, KindIs, Spacious, ChildAt;
    ResolveAppend(records, ROOT, path[..index], path[index]);
    assert path[..index + 1] == path[..index] + [path[index]];
    assert StopsAt(records, path, index);
    forall k | 0 <= k < index ensures !StopsAt(records, path, k) {
      NotYetStopped(records, path, index, k);
    }
  }

  /** Every later name passes exactly when it is ASCII and there is one more id. */
  lemma LaterPasses(records: seq<Rec>, next: nat, path: seq<seq<byte>>, index: nat, stop: nat)
    requires stop < index < |path| && Passes(records, next, path, index) && StopsAt(records, path, stop)
    ensures Passes(records, next, path, index + 1) <==> Ascii(path[index]) && next + (index + 1 - stop) < U64
  {
    hide Resolve, Ascii, KindIs, Spacious, ChildAt;
    forall k | 0 <= k < index + 1 && StopsAt(records, path, k) ensures k == stop {
      StopsOnce(records, path, k, stop);
    }
    assert Resolve(records, ROOT, path[..index + 1]).Err? by {
      if Resolve(records, ROOT, path[..index + 1]).Ok? {
        PrefixResolves(records, path, stop + 1, index + 1);
      }
    }
  }

  ghost predicate SameInodes(a: seq<Rec>, b: seq<Rec>) {
    forall id :: InodeAt(a, id) == InodeAt(b, id)
  }

  /** While nothing has been created the inodes are the old ones; afterwards the parent is a new, empty directory. */
  ghost predicate Smooth(before: seq<Rec>, first: nat, records: seq<Rec>, next: nat, parent: nat, done: bool) {
    if next == first then SameInodes(records, before)
    else done || InodeAt(records, parent) == Some(NewInode(parent, false))
  }

  lemma SmoothStarts(records: seq<Rec>, next: nat, done: bool)
    ensures Smooth(records, next, records, next, ROOT, done)
  {
    hide InodeAt;
  }

  lemma RespelledInodes(records: seq<Rec>, i: nat, e: Rec)
    requires i < |records| && records[i].DirRec? && e.DirRec?
    ensures SameInodes(records[i := e], records)
  {
    hide Count, Find;
    forall id ensures InodeAt(records[i := e], id) == InodeAt(records, id) {
      CountReplace(records, i, e, ByInode(id));
      FindIs(records, ByInode(id));
    }
  }

  lemma NewDirectoryInode(records: seq<Rec>, next: nat, i: nat, e: Rec)
    requires WellFormed(records, next) && i < |records| && records[i].Inode? && e.DirRec?
    ensures InodeAt(Grown(records, i, e, next, false), next) == Some(NewInode(next, false))
  {
    hide Count, Find, Fold;
    var grown, q := Grown(records, i, e, next, false), ByInode(next);
    FreshId(records, next, q);
    GrownCounts(records, i, e, next, false, q);
    assert grown[|records| + 1] == NewInode(next, false);
    OnlyMatch(grown, q, |records| + 1);
  }

  /** Where a run stands: the walk, what it has created so far and from which name on, and what passed. */
  ghost predicate Underway(before: seq<Rec>, first: nat, records: seq<Rec>, next: nat, path: seq<seq<byte>>, index: nat,
                           parent: nat, stop: nat)
    requires index <= |path|
  {
    && Walking(before, records, next, path[..index], parent) && (index < |path| ==> HasDirectory(records, parent))
    && first <= next <= first + index && Passes(before, first, path, index)
    && Trail(before, first, records, next, path[..index], parent, index == |path|)
    && Smooth(before, first, records, next, parent, index == |path|)
    && (next != first ==> stop < index && next == first + (index - stop) && StopsAt(before, path, stop))
    && WellFormed(before, first) && StreamsKept(before, records, next != first && index == |path|, parent)
  }

  lemma UnderwayStarts(records: seq<Rec>, next: nat, path: seq<seq<byte>>)
    requires WellFormed(records, next)
    ensures Underway(records, next, records, next, path, 0, ROOT, 0)
  {
    hide StreamAt, Walking, Trail, Smooth, Passes, HasDirectory, WellFormed;
    WalkStarts(records, next);
    TrailStarts(records, next, path == []);
    SmoothStarts(records, next, path == []);
    PassesNone(records, next, path);
    assert path[..0] == [];
  }

  /** An existing name: what entering it needs is what passing means. */
  lemma UnderwayEnter(before: seq<Rec>, first: nat, records: seq<Rec>, next: nat, path: seq<seq<byte>>, index: nat,
                      parent: nat, stop: nat, child: nat)
    requires index < |path| && Underway(before, first, records, next, path, index, parent, stop)
    requires ChildAt(records, parent, path[index]) == Some(child)
    ensures next == first
    ensures Passes(before, first, path, index + 1) <==>
              Ascii(path[index]) && KindIs(records, child, index + 1 == |path|)
  {
    hide ChildAt, StreamAt, InodeAt, Ascii, Walking, Passes, HasDirectory, StopsAt, Resolve;
    var name := path[index];
    assert next != first ==> ChildAt(records, parent, name).None?;
    assert ChildAt(records, parent, name) == ChildAt(before, parent, name);
    EnterPasses(before, first, path, index, parent, child);
    assert InodeAt(records, child) == InodeAt(before, child);
  }

  lemma UnderwayEntered(before: seq<Rec>, first: nat, records: seq<Rec>, after: seq<Rec>, next: nat,
                        path: seq<seq<byte>>, index: nat, parent: nat, stop: nat, child: nat)
    requires index < |path| && Underway(before, first, records, next, path, index, parent, stop) && next == first
    requires ChildAt(records, parent, path[index]) == Some(child) && Passes(before, first, path, index + 1)
    requires Walking(before, after, next, path[..index] + [path[index]], child) &&
             (index + 1 < |path| ==> HasDirectory(after, child))
    requires SameChildrenAt(after, records) && SameInodes(after, records) && SameStreams(after, records)
    ensures Underway(before, first, after, next, path, index + 1, child, stop)
  {
    hide WellFormed, ChildAt, StreamAt, InodeAt, Walking, Passes, HasDirectory, StopsAt, Resolve, Trail, Smooth,
         SameChildrenAt, SameInodes;
    assert path[..index + 1] == path[..index] + [path[index]];
    TrailEnters(before, first, records, after, next, path[..index], parent, path[index], child, index + 1 == |path|);
    SmoothOn(before, first, records, after, next, parent, child, index + 1 == |path|);
  }

  /** A missing name: what adding it needs is what passing means. */
  lemma UnderwayAdd(before: seq<Rec>, first: nat, records: seq<Rec>, next: nat, path: seq<seq<byte>>, index: nat,
                    parent: nat, stop: nat)
    requires index < |path| && Underway(before, first, records, next, path, index, parent, stop)
    requires ChildAt(records, parent, path[index]).None?
    ensures Passes(before, first, path, index + 1) <==> CanAdd(records, next, parent, path[index])
    ensures next == first ==> StopsAt(before, path, index)
  {
    hide ChildAt, StreamAt, Ascii, Walking, Passes, HasDirectory, StopsAt, Resolve, InodeAt;
    if next == first {
      assert ChildAt(records, parent, path[index]) == ChildAt(before, parent, path[index]);
      FirstPasses(before, first, path, index, parent);
      assert InodeAt(records, parent) == InodeAt(before, parent);
    } else {
      LaterPasses(before, first, path, index, stop);
    }
  }

  lemma UnderwayAdded(before: seq<Rec>, first: nat, records: seq<Rec>, after: seq<Rec>, next: nat,
                      path: seq<seq<byte>>, index: nat, parent: nat, stop: nat)
    requires index < |path| && Underway(before, first, records, next, path, index, parent, stop)
    requires Passes(before, first, path, index + 1) && (next == first ==> StopsAt(before, path, index))
    requires Walking(before, after, next + 1, path[..index] + [path[index]], next) &&
             (index + 1 < |path| ==> HasDirectory(after, next))
    requires if index + 1 == |path| then StreamAt(after, next) == Ok(Location(next, 0, 0, 0))
             else NoChildren(after, next)
    requires index + 1 < |path| ==> InodeAt(after, next) == Some(NewInode(next, false))
    requires SameStreamsBut(after, records, next)
    ensures Underway(before, first, after, next + 1, path, index + 1, next, if next == first then index else stop)
  {
    hide ChildAt, StreamAt, InodeAt, Walking, Passes, HasDirectory, StopsAt, Resolve, Trail, Smooth, NoChildren,
         NewInode, WellFormed;
    assert path[..index + 1] == path[..index] + [path[index]];
    TrailAdds(before, first, after, next + 1, path[..index + 1], next, index + 1 == |path|);
    SmoothAdds(before, first, after, next + 1, next, index + 1 == |path|);
    if index + 1 < |path| {
      NoStream(after, next);
    }
    FreshStream(before, first, next);
  }

  lemma NoStream(records: seq<Rec>, id: nat)
    requires InodeAt(records, id) == Some(NewInode(id, false))
    ensures StreamAt(records, id).Err?
  {
    hide Count;
    FindIs(records, ByInode(id));
  }

  lemma FreshStream(records: seq<Rec>, next: nat, id: nat)
    requires WellFormed(records, next) && next <= id
    ensures StreamAt(records, id).Err?
  {
    hide WellFormed, Count, Find;
    FreshId(records, next, ByInode(id));
    FindIs(records, ByInode(id));
  }

  lemma SmoothAdds(before: seq<Rec>, first: nat, records: seq<Rec>, next: nat, oid: nat, last: bool)
    requires first < next && (!last ==> InodeAt(records, oid) == Some(NewInode(oid, false)))
    ensures Smooth(before, first, records, next, oid, last)
  {
    hide InodeAt;
  }

  lemma SmoothOn(before: seq<Rec>, first: nat, records: seq<Rec>, after: seq<Rec>, next: nat, parent: nat, child: nat,
                 done: bool)
    requires Smooth(before, first, records, next, parent, false) && next == first && SameInodes(after, records)
    ensures Smooth(before, first, after, next, child, done)
  {
    hide InodeAt;
  }

  // ---- paths with names that cannot be read ----------------------------------------------------------------------

  /** No directory comes up twice along the part of the path that exists. */
  ghost predicate NoRevisit(records: seq<Rec>, path: seq<seq<byte>>) {
    forall i, j :: 0 <= i < j < |path| && Resolve(records, ROOT, path[..j]).Ok? ==>
      Resolve(records, ROOT, path[..i]) != Resolve(records, ROOT, path[..j])
  }

  /** Nothing in other directories changed. */
  ghost predicate Elsewhere(before: seq<Rec>, after: seq<Rec>, parent: nat) {
    forall p, n :: p != parent ==> SameEntry(before, after, p, n)
  }

  /** The name leads where it did, and is listed as often. */
  predicate SameEntry(before: seq<Rec>, after: seq<Rec>, p: nat, n: seq<byte>) {
    ChildAt(after, p, n) == ChildAt(before, p, n) &&
    Count(after, ByName(p, Fold(n))) == Count(before, ByName(p, Fold(n)))
  }

  /** The name is listed once and leads to the child, or not at all. */
  predicate Placed(records: seq<Rec>, parent: nat, name: seq<byte>, child: nat, legible: bool) {
    && Count(records, ByName(parent, Fold(name))) == (if legible then 1 else 0)
    && ChildAt(records, parent, name) == if legible then Some(child) else None
  }

  lemma {:induction false} CountSwap(records: seq<Rec>, i: nat, r: Rec, q: Query)
    requires i < |records|
    ensures Count(records[i := r], q) ==
            Count(records, q) - (if Hit(q, records[i]) then 1 else 0) + (if Hit(q, r) then 1 else 0)
  {
    hide Hit;
    var n := |records| - 1;
    if i == n {
      assert records[i := r][..n] == records[..n];
    } else {
      CountSwap(records[..n], i, r, q);
      assert records[i := r][..n] == records[..n][i := r];
    }
  }

  /** With one match, finding it says which; with none, nothing is found. */
  lemma FoundIs(records: seq<Rec>, parent: nat, name: seq<byte>, i: nat)
    requires i < |records| && records[i].DirRec? && Names(records[i], parent, name)
    requires Count(records, ByName(parent, Fold(name))) <= 1
    ensures ChildAt(records, parent, name) == Some(records[i].child)
    ensures Count(records, ByName(parent, Fold(name))) == 1
  {
    hide Count, Fold, Find, ReadName;
    OnlyMatch(records, ByName(parent, Fold(name)), i);
    FindIs(records, ByName(parent, Fold(name)));
  }

  lemma NotFound0(records: seq<Rec>, parent: nat, name: seq<byte>)
    requires Count(records, ByName(parent, Fold(name))) == 0
    ensures ChildAt(records, parent, name).None?
  {
    hide Count, Fold, Find;
    FindIs(records, ByName(parent, Fold(name)));
  }

  /** Replacing the entry of a name: it stays if the new entry spells it; other directories are as before. */
  lemma RewordedStep(before: seq<Rec>, after: seq<Rec>, parent: nat, name: seq<byte>, e: Rec, child: nat)
    requires Reworded(before, after, parent, name, e) && e.DirRec? && e.parent == parent && e.child == child
    requires Count(before, ByName(parent, Fold(name))) <= 1
    ensures Elsewhere(before, after, parent) && SameInodes(after, before) && |after| == |before|
    ensures Placed(after, parent, name, child, Names(e, parent, name))
  {
    hide Count, Fold, Find, ReadName;
    var q := ByName(parent, Fold(name));
    var i: nat :| Find(before, q) == Some(i) && i < |before| && Names(before[i], parent, name) &&
                  after == before[i := e];
    RespelledInodes(before, i, e);
    FindIs(before, q);
    forall p, n | p != parent ensures SameEntry(before, after, p, n) {
      CountReplace(before, i, e, ByName(p, Fold(n)));
      FindIs(before, ByName(p, Fold(n)));
    }
    CountSwap(before, i, e, q);
    assert after[i] == e;
    if Names(e, parent, name) {
      FoundIs(after, parent, name, i);
    } else {
      NotFound0(after, parent, name);
    }
  }

  /** Adding a child: likewise, and only the directory's own inode changes among the old ones. */
  lemma EnlargedStep(before: seq<Rec>, after: seq<Rec>, parent: nat, name: seq<byte>, e: Rec, oid: nat, last: bool)
    requires Enlarged(before, after, parent, e, oid, last) && e.DirRec? && e.parent == parent && e.child == oid
    requires ChildAt(before, parent, name).None?
    ensures Elsewhere(before, after, parent)
    ensures Placed(after, parent, name, oid, Names(e, parent, name))
    ensures forall id :: id != parent && id != oid ==> InodeAt(after, id) == InodeAt(before, id)
    ensures parent != oid ==>
              InodeAt(before, parent).Some? && InodeAt(after, parent) == Some(Bumped(InodeAt(before, parent).value))
    ensures InodeAt(before, oid).None? ==> InodeAt(after, oid) == Some(NewInode(oid, last))
    ensures |after| == |before| + if last then 4 else 2
  {
    hide Count, Fold, Find, ReadName, Grown;
    var i: nat :| Find(before, ByInode(parent)) == Some(i) && i < |before| && before[i].Inode? &&
                  before[i].id == parent && after == Grown(before, i, e, oid, last);
    forall p, n | p != parent ensures SameEntry(before, after, p, n) {
      GrownEntry(before, i, e, oid, last, p, n);
    }
    GrownKeeps(before, i, e, name, oid, last);
    GrownCounts(before, i, e, oid, last, ByName(parent, Fold(name)));
    FindIs(before, ByName(parent, Fold(name)));
    forall id | id != oid
      ensures InodeAt(after, id) ==
              if id == parent then Some(Bumped(before[i])) else InodeAt(before, id)
    {
      GrownInode(before, i, e, oid, last, id);
    }
    FindIs(before, ByInode(parent));
    if InodeAt(before, oid).None? {
      GrownNewInode(before, i, e, oid, last);
    }
    GrownSize(before, i, e, oid, last);
  }

  lemma GrownSize(records: seq<Rec>, i: nat, e: Rec, oid: nat, last: bool)
    requires i < |records| && records[i].Inode?
    ensures |Grown(records, i, e, oid, last)| == |records| + if last then 4 else 2
  {
  }

  lemma GrownEntry(records: seq<Rec>, i: nat, e: Rec, oid: nat, last: bool, p: nat, n: seq<byte>)
    requires i < |records| && records[i].Inode? && e.DirRec? && p != e.parent
    ensures SameEntry(records, Grown(records, i, e, oid, last), p, n)
  {
    hide Count, Fold, Find, Grown, ReadName;
    var q := ByName(p, Fold(n));
    GrownCounts(records, i, e, oid, last, q);
    FindIs(records, q);
    FindIs(Grown(records, i, e, oid, last), q);
    if Find(records, q).Some? {
      GrownAt(records, i, e, oid, last, Find(records, q).value);
    }
  }

  lemma GrownInode(records: seq<Rec>, i: nat, e: Rec, oid: nat, last: bool, id: nat)
    requires i < |records| && records[i].Inode? && e.DirRec? && Find(records, ByInode(records[i].id)) == Some(i) &&
             id != oid
    ensures InodeAt(Grown(records, i, e, oid, last), id) ==
            if id == records[i].id then Some(Bumped(records[i])) else InodeAt(records, id)
  {
    hide Count, Find, Fold, Grown;
    var q, grown := ByInode(id), Grown(records, i, e, oid, last);
    GrownCounts(records, i, e, oid, last, q);
    FindIs(records, q);
    FindIs(grown, q);
    if Find(records, q).Some? {
      GrownAt(records, i, e, oid, last, Find(records, q).value);
    }
  }

  lemma GrownNewInode(records: seq<Rec>, i: nat, e: Rec, oid: nat, last: bool)
    requires i < |records| && records[i].Inode? && e.DirRec? && InodeAt(records, oid).None?
    ensures InodeAt(Grown(records, i, e, oid, last), oid) == Some(NewInode(oid, last))
  {
    hide Count, Find, Fold;
    var q, grown := ByInode(oid), Grown(records, i, e, oid, last);
    FindIs(records, q);
    GrownCounts(records, i, e, oid, last, q);
    assert grown[|records| + 1] == NewInode(oid, last);
    OnlyMatch(grown, q, |records| + 1);
  }

  /** The directories passed: those the old catalog leads through, then new ones in order. */
  ghost predicate Route(before: seq<Rec>, first: nat, next: nat, path: seq<seq<byte>>, index: nat, parents: seq<nat>,
                        stop: nat)
  {
    && index <= |path| && |parents| == index + 1 && first <= next
    && (if next == first then Led(before, path, parents, index)
        else
          && stop < index && StopsAt(before, path, stop) && next == first + (index - stop)
          && Led(before, path, parents, stop)
          && forall j :: stop < j <= index ==> parents[j] == first + (j - stop - 1))
  }

  ghost predicate Led(before: seq<Rec>, path: seq<seq<byte>>, parents: seq<nat>, k: nat) {
    k < |parents| && k <= |path| && forall j :: 0 <= j <= k ==> Resolve(before, ROOT, path[..j]) == Ok(parents[j])
  }

  lemma {:induction false} ResolvedOld(records: seq<Rec>, next: nat, from: nat, path: seq<seq<byte>>)
    requires WellFormed(records, next) && from < next && Resolve(records, from, path).Ok?
    ensures Resolve(records, from, path).value < next
    decreases |path|
  {
    hide Count, WellFormed, Find, Fold;
    if path != [] {
      var q := ByName(from, Fold(path[0]));
      FindIs(records, q);
      WellFormedAt(records, next, records[Find(records, q).value]);
      ResolvedOld(records, next, ChildAt(records, from, path[0]).value, path[1..]);
    }
  }

  lemma RootOld(records: seq<Rec>, next: nat)
    requires WellFormed(records, next)
    ensures ROOT < next
  {
    hide Count, RecOk;
    var r :| r in records && r.Inode? && r.id == ROOT && r.kind == Directory;
    WellFormedAt(records, next, r);
    assert RecOk(records, next, r);
    RecId(records, next, r);
  }

  lemma RecId(records: seq<Rec>, next: nat, r: Rec)
    requires RecOk(records, next, r) && r.Inode?
    ensures r.id < next
  {
    hide Count;
  }

  lemma RouteAt(before: seq<Rec>, first: nat, next: nat, path: seq<seq<byte>>, index: nat, parents: seq<nat>,
                stop: nat, j: nat)
    requires Route(before, first, next, path, index, parents, stop) && WellFormed(before, first) && j <= index
    ensures parents[j] < next
    ensures parents[j] < first <==> next == first || j <= stop
    ensures parents[j] < first ==> Resolve(before, ROOT, path[..j]) == Ok(parents[j])
  {
    hide WellFormed, Resolve, StopsAt;
    if next == first || j <= stop {
      assert Resolve(before, ROOT, path[..j]) == Ok(parents[j]);
      RootOld(before, first);
      ResolvedOld(before, first, ROOT, path[..j]);
    }
  }

  /** A directory on the way has not been passed before. */
  lemma RouteNew(before: seq<Rec>, first: nat, next: nat, path: seq<seq<byte>>, index: nat, parents: seq<nat>,
                 stop: nat)
    requires Route(before, first, next, path, index, parents, stop) && WellFormed(before, first)
    requires NoRevisit(before, path) && index < |path|
    ensures parents[index] !in parents[..index]
  {
    hide WellFormed, Resolve, StopsAt, Route;
    assert |parents| == index + 1 by { RouteLength(before, first, next, path, index, parents, stop); }
    forall j | 0 <= j < index ensures parents[j] != parents[index] {
      RouteAt(before, first, next, path, index, parents, stop, j);
      RouteAt(before, first, next, path, index, parents, stop, index);
      if next != first && stop < j {
        RouteOrder(before, first, next, path, index, parents, stop, j);
      }
    }
  }

  lemma RouteLength(before: seq<Rec>, first: nat, next: nat, path: seq<seq<byte>>, index: nat, parents: seq<nat>,
                    stop: nat)
    requires Route(before, first, next, path, index, parents, stop)
    ensures |parents| == index + 1 && index <= |path|
  {
    hide Resolve, StopsAt;
  }

  lemma RouteOrder(before: seq<Rec>, first: nat, next: nat, path: seq<seq<byte>>, index: nat, parents: seq<nat>,
                   stop: nat, j: nat)
    requires Route(before, first, next, path, index, parents, stop) && j < index && next != first && stop < j
    ensures parents[j] != parents[index]
  {
    hide Resolve, StopsAt;
  }

  /**
   * Where a run stands whatever the names: directories not passed yet are as they were, each name
   * passed is listed once if its entry can be read and not at all otherwise, and inodes keep their
   * kind, those of directories not passed their count too.
   */
  ghost predicate Trodden(before: seq<Rec>, first: nat, records: seq<Rec>, next: nat, path: seq<seq<byte>>, index: nat,
                          parents: seq<nat>, stop: nat, marks: seq<bool>)
    requires index <= |path| == |marks| && |parents| == index + 1
  {
    && Route(before, first, next, path, index, parents, stop) && WellFormed(before, first)
    && Passes(before, first, path, index)
    && Undisturbed(before, records, parents[..index]) && AllPlaced(records, path, parents, marks, index)
    && InodesKept(before, first, records, next, parents[..index])
    && (next != first && index < |path| ==>
          InodeAt(records, parents[index]) == Some(NewInode(parents[index], false)))
  }

  ghost predicate Undisturbed(before: seq<Rec>, records: seq<Rec>, passed: seq<nat>) {
    forall p, n :: p !in passed ==> SameEntry(before, records, p, n)
  }

  ghost predicate AllPlaced(records: seq<Rec>, path: seq<seq<byte>>, parents: seq<nat>, marks: seq<bool>, index: nat)
    requires index <= |path| == |marks| && index < |parents|
  {
    forall j :: 0 <= j < index ==> Placed(records, parents[j], path[j], parents[j + 1], marks[j])
  }

  ghost predicate InodesKept(before: seq<Rec>, first: nat, records: seq<Rec>, next: nat, passed: seq<nat>) {
    && (forall id: nat :: id < first ==> SameKind(before, records, id))
    && (forall id: nat :: id < first && id !in passed ==> InodeAt(records, id) == InodeAt(before, id))
    && (forall id: nat :: id >= next ==> InodeAt(records, id).None?)
  }

  predicate SameKind(before: seq<Rec>, after: seq<Rec>, id: nat) {
    var b, a := InodeAt(before, id), InodeAt(after, id);
    b.Some? == a.Some? && (b.Some? ==> a.value.kind == b.value.kind)
  }

  lemma TroddenStarts(records: seq<Rec>, next: nat, path: seq<seq<byte>>, marks: seq<bool>)
    requires WellFormed(records, next) && |marks| == |path|
    ensures Trodden(records, next, records, next, path, 0, [ROOT], 0, marks)
  {
    hide ChildAt, Count, InodeAt, WellFormed, Passes;
    PassesNone(records, next, path);
    assert path[..0] == [];
    forall id: nat | id >= next ensures InodeAt(records, id).None? {
      NoInode(records, next, id);
    }
  }

  lemma NoInode(records: seq<Rec>, next: nat, id: nat)
    requires WellFormed(records, next) && id >= next
    ensures InodeAt(records, id).None?
  {
    hide WellFormed, Count;
    FreshId(records, next, ByInode(id));
    FindIs(records, ByInode(id));
  }

  lemma NoEntries(records: seq<Rec>, next: nat, p: nat, n: seq<byte>)
    requires WellFormed(records, next) && p >= next
    ensures ChildAt(records, p, n).None?
  {
    hide WellFormed, Count, Fold;
    FreshId(records, next, ByName(p, Fold(n)));
    FindIs(records, ByName(p, Fold(n)));
  }

  /** What a lookup in the directory reached finds is what the old catalog had. */
  lemma TroddenHere(before: seq<Rec>, first: nat, records: seq<Rec>, next: nat, path: seq<seq<byte>>, index: nat,
                    parents: seq<nat>, stop: nat, marks: seq<bool>)
    requires index < |path| == |marks| && |parents| == index + 1
    requires Trodden(before, first, records, next, path, index, parents, stop, marks)
    requires NoRevisit(before, path) && index < |path|
    ensures |parents| == index + 1 && parents[index] !in parents[..index]
    ensures SameEntry(before, records, parents[index], path[index])
    ensures Count(records, ByName(parents[index], Fold(path[index]))) <= 1
    ensures next != first ==> ChildAt(before, parents[index], path[index]).None?
    ensures next == first ==> Resolve(before, ROOT, path[..index]) == Ok(parents[index]) && parents[index] < first
    ensures parents[index] < next
  {
    hide ChildAt, Count, InodeAt, Passes, Resolve, StopsAt, RecOk, HasDirectory, Placed;
    RouteNew(before, first, next, path, index, parents, stop);
    RouteAt(before, first, next, path, index, parents, stop, index);
    if next != first {
      NoEntries(before, first, parents[index], path[index]);
    }
  }

  lemma TroddenEnter(before: seq<Rec>, first: nat, records: seq<Rec>, next: nat, path: seq<seq<byte>>, index: nat,
                     parents: seq<nat>, stop: nat, marks: seq<bool>, child: nat)
    requires index < |path| == |marks| && |parents| == index + 1
    requires Trodden(before, first, records, next, path, index, parents, stop, marks)
    requires NoRevisit(before, path) && index < |path| && ChildAt(records, parents[index], path[index]) == Some(child)
    ensures next == first && child < first
    ensures Passes(before, first, path, index + 1) <==>
              Ascii(path[index]) && KindIs(records, child, index + 1 == |path|)
  {
    hide ChildAt, Count, InodeAt, Passes, Resolve, StopsAt, WellFormed, Placed, Ascii, NoRevisit, Route;
    TroddenHere(before, first, records, next, path, index, parents, stop, marks);
    EnterPasses(before, first, path, index, parents[index], child);
    ResolveAppend(before, ROOT, path[..index], path[index]);
    RootOld(before, first);
    ResolvedOld(before, first, ROOT, path[..index] + [path[index]]);
    assert SameKind(before, records, child);
  }

  lemma TroddenAdd(before: seq<Rec>, first: nat, records: seq<Rec>, next: nat, path: seq<seq<byte>>, index: nat,
                   parents: seq<nat>, stop: nat, marks: seq<bool>)
    requires index < |path| == |marks| && |parents| == index + 1
    requires Trodden(before, first, records, next, path, index, parents, stop, marks)
    requires NoRevisit(before, path) && index < |path| && ChildAt(records, parents[index], path[index]).None?
    ensures next == first ==> StopsAt(before, path, index)
    ensures Passes(before, first, path, index + 1) <==> CanAdd(records, next, parents[index], path[index])
  {
    hide ChildAt, Count, InodeAt, Passes, Resolve, StopsAt, WellFormed, Placed, Ascii, NoRevisit;
    TroddenHere(before, first, records, next, path, index, parents, stop, marks);
    if next == first {
      FirstPasses(before, first, path, index, parents[index]);
    } else {
      LaterPasses(before, first, path, index, stop);
    }
  }

  lemma UndisturbedOn(before: seq<Rec>, records: seq<Rec>, after: seq<Rec>, passed: seq<nat>, parent: nat)
    requires Undisturbed(before, records, passed) && Elsewhere(records, after, parent)
    ensures Undisturbed(before, after, passed + [parent])
  {
    hide ChildAt, Count, Fold;
    forall p, n | p !in passed + [parent] ensures SameEntry(before, after, p, n) {
      assert p !in passed && p != parent;
      assert SameEntry(before, records, p, n) && SameEntry(records, after, p, n);
    }
  }

  lemma AllPlacedOn(records: seq<Rec>, after: seq<Rec>, path: seq<seq<byte>>, parents: seq<nat>, marks: seq<bool>,
                    index: nat, child: nat)
    requires index < |path| == |marks| && |parents| == index + 1 && parents[index] !in parents[..index]
    requires AllPlaced(records, path, parents, marks, index) && Elsewhere(records, after, parents[index])
    requires Placed(after, parents[index], path[index], child, marks[index])
    ensures AllPlaced(after, path, parents + [child], marks, index + 1)
  {
    hide ChildAt, Count, Fold;
    var more := parents + [child];
    forall j | 0 <= j < index + 1 ensures Placed(after, more[j], path[j], more[j + 1], marks[j]) {
      if j < index {
        assert Placed(records, parents[j], path[j], parents[j + 1], marks[j]);
        assert parents[j] == parents[..index][j];
        assert SameEntry(records, after, parents[j], path[j]);
      }
    }
  }

  lemma InodesSame(before: seq<Rec>, first: nat, records: seq<Rec>, after: seq<Rec>, next: nat, passed: seq<nat>,
                   more: seq<nat>)
    requires InodesKept(before, first, records, next, passed) && SameInodes(after, records)
    requires forall id :: id in passed ==> id in more
    ensures InodesKept(before, first, after, next, more)
  {
    hide InodeAt;
    forall id: nat | id < first ensures SameKind(before, after, id) {
      assert SameKind(before, records, id);
    }
  }

  lemma InodesGrow(before: seq<Rec>, first: nat, records: seq<Rec>, after: seq<Rec>, next: nat, passed: seq<nat>,
                   parent: nat)
    requires InodesKept(before, first, records, next, passed) && parent < next && first <= next
    requires forall id: nat :: id != parent && id != next ==> InodeAt(after, id) == InodeAt(records, id)
    requires InodeAt(records, parent).Some? && InodeAt(after, parent) == Some(Bumped(InodeAt(records, parent).value))
    ensures InodesKept(before, first, after, next + 1, passed + [parent])
  {
    hide InodeAt;
    forall id: nat | id < first ensures SameKind(before, after, id) {
      assert SameKind(before, records, id);
    }
    forall id: nat | id < first && id !in passed + [parent] ensures InodeAt(after, id) == InodeAt(before, id) {
      assert id !in passed && id != parent;
    }
  }

  lemma RouteEnters(before: seq<Rec>, first: nat, path: seq<seq<byte>>, index: nat, parents: seq<nat>, stop: nat,
                    child: nat)
    requires Route(before, first, first, path, index, parents, stop) && index < |path|
    requires ChildAt(before, parents[index], path[index]) == Some(child)
    ensures Route(before, first, first, path, index + 1, parents + [child], stop)
  {
    hide ChildAt, Resolve, StopsAt;
    assert Resolve(before, ROOT, path[..index]) == Ok(parents[index]);
    ResolveAppend(before, ROOT, path[..index], path[index]);
    assert path[..index + 1] == path[..index] + [path[index]];
    var more := parents + [child];
    forall j | 0 <= j <= index + 1 ensures Resolve(before, ROOT, path[..j]) == Ok(more[j]) {
      assert j <= index ==> more[j] == parents[j];
    }
  }

  lemma RouteAdds(before: seq<Rec>, first: nat, next: nat, path: seq<seq<byte>>, index: nat, parents: seq<nat>,
                  stop: nat)
    requires Route(before, first, next, path, index, parents, stop) && index < |path|
    requires next == first ==> StopsAt(before, path, index)
    ensures Route(before, first, next + 1, path, index + 1, parents + [next], if next == first then index else stop)
  {
    hide ChildAt, Resolve, StopsAt;
    var more, at := parents + [next], if next == first then index else stop;
    forall j | 0 <= j <= at ensures Resolve(before, ROOT, path[..j]) == Ok(more[j]) {
      assert more[j] == parents[j];
    }
    forall j | at < j <= index + 1 ensures more[j] == first + (j - at - 1) {
      assert j <= index ==> more[j] == parents[j];
    }
  }

  lemma TroddenEntered(before: seq<Rec>, first: nat, records: seq<Rec>, after: seq<Rec>, next: nat,
                       path: seq<seq<byte>>, index: nat, parents: seq<nat>, stop: nat, marks: seq<bool>, child: nat,
                       e: Rec)
    requires index < |path| == |marks| && |parents| == index + 1
    requires Trodden(before, first, records, next, path, index, parents, stop, marks) && NoRevisit(before, path)
    requires ChildAt(records, parents[index], path[index]) == Some(child) && Passes(before, first, path, index + 1)
    requires Reworded(records, after, parents[index], path[index], e) && Spelled(e, parents[index], child)
    requires Names(e, parents[index], path[index]) == marks[index]
    ensures next == first && Trodden(before, first, after, next, path, index + 1, parents + [child], stop, marks)
  {
    hide ChildAt, Count, InodeAt, Passes, Resolve, StopsAt, WellFormed, Placed, NoRevisit, Route, Undisturbed,
         AllPlaced, InodesKept, Reworded, Names, Elsewhere, SameInodes;
    var parent := parents[index];
    TroddenHere(before, first, records, next, path, index, parents, stop, marks);
    TroddenEnter(before, first, records, next, path, index, parents, stop, marks, child);
    RewordedStep(records, after, parent, path[index], e, child);
    assert (parents + [child])[..index + 1] == parents[..index] + [parent];
    UndisturbedOn(before, records, after, parents[..index], parent);
    AllPlacedOn(records, after, path, parents, marks, index, child);
    InodesSame(before, first, records, after, next, parents[..index], parents[..index] + [parent]);
    RouteEnters(before, first, path, index, parents, stop, child);
  }

  /** Which names the layout can read. */
  ghost function Marks(layout: KeyLayout, hash: seq<byte> -> nat, path: seq<seq<byte>>): (m: seq<bool>)
    ensures |m| == |path| && forall i :: 0 <= i < |path| ==> m[i] == Legible(layout, hash, path[i])
  {
    hide Legible;
    seq(|path|, i requires 0 <= i < |path| => Legible(layout, hash, path[i]))
  }

  lemma LegibleMark(layout: KeyLayout, hash: seq<byte> -> nat, path: seq<seq<byte>>, index: nat, parent: nat)
    requires index < |path|
    ensures forall child: nat ::
              var e := Written(layout, hash, parent, path[index], child);
              Spelled(e, parent, child) && Names(e, parent, path[index]) == Legible(layout, hash, path[index])
  {
    hide Legible, Names;
    forall child: nat
      ensures Names(Written(layout, hash, parent, path[index], child), parent, path[index]) ==
              Legible(layout, hash, path[index])
    {
      LegibleExact(layout, hash, parent, path[index], child);
    }
  }

  predicate Spelled(e: Rec, parent: nat, child: nat) {
    e.DirRec? && e.parent == parent && e.child == child
  }

  lemma TroddenAdded(before: seq<Rec>, first: nat, records: seq<Rec>, after: seq<Rec>, next: nat,
                     path: seq<seq<byte>>, index: nat, parents: seq<nat>, stop: nat, marks: seq<bool>, e: Rec)
    requires index < |path| == |marks| && |parents| == index + 1
    requires Trodden(before, first, records, next, path, index, parents, stop, marks) && NoRevisit(before, path)
    requires ChildAt(records, parents[index], path[index]).None? && Passes(before, first, path, index + 1)
    requires Enlarged(records, after, parents[index], e, next, index + 1 == |path|) && Spelled(e, parents[index], next)
    requires Names(e, parents[index], path[index]) == marks[index]
    ensures Trodden(before, first, after, next + 1, path, index + 1, parents + [next],
                    if next == first then index else stop, marks)
  {
    hide ChildAt, Count, InodeAt, Passes, Resolve, StopsAt, WellFormed, Placed, NoRevisit, Route, Undisturbed,
         AllPlaced, Enlarged, Names, Elsewhere, Bumped, NewInode;
    var parent, last := parents[index], index + 1 == |path|;
    TroddenHere(before, first, records, next, path, index, parents, stop, marks);
    TroddenAdd(before, first, records, next, path, index, parents, stop, marks);
    EnlargedStep(records, after, parent, path[index], e, next, last);
    assert (parents + [next])[..index + 1] == parents[..index] + [parent];
    UndisturbedOn(before, records, after, parents[..index], parent);
    AllPlacedOn(records, after, path, parents, marks, index, next);
    RouteForward(before, first, next, path, index, parents, stop);
    InodesGrow(before, first, records, after, next, parents[..index], parent);
    RouteAdds(before, first, next, path, index, parents, stop);
  }

  lemma RouteForward(before: seq<Rec>, first: nat, next: nat, path: seq<seq<byte>>, index: nat, parents: seq<nat>,
                     stop: nat)
    requires Route(before, first, next, path, index, parents, stop)
    ensures first <= next
  {
    hide Led, StopsAt;
  }

  /** Of the names, those up to the first unreadable one lead on, and no further. */
  lemma {:induction false} PlacedResolve(records: seq<Rec>, path: seq<seq<byte>>, parents: seq<nat>, marks: seq<bool>,
                                         k: nat)
    requires k <= |path| == |marks| && |parents| == |path| + 1 && parents[0] == ROOT
    requires AllPlaced(records, path, parents, marks, |path|)
    ensures (forall j :: 0 <= j < k ==> marks[j]) ==> Resolve(records, ROOT, path[..k]) == Ok(parents[k])
    ensures Resolve(records, ROOT, path[..k]).Ok? ==> forall j :: 0 <= j < k ==> marks[j]
  {
    hide ChildAt, Count;
    assert path[..0] == [];
    if k > 0 {
      PlacedResolve(records, path, parents, marks, k - 1);
      assert Placed(records, parents[k - 1], path[k - 1], parents[k], marks[k - 1]);
      assert path[..k] == path[..k - 1] + [path[k - 1]];
      if Resolve(records, ROOT, path[..k]).Ok? {
        LongerResolves(records, ROOT, path[..k - 1], path[k - 1]);
      }
      if Resolve(records, ROOT, path[..k - 1]).Ok? {
        ResolveAppend(records, ROOT, path[..k - 1], path[k - 1]);
      }
    }
  }

  lemma PlacedSorted(records: seq<Rec>, rank: Rec -> int, parent: nat, name: seq<byte>, child: nat, legible: bool)
    requires Placed(records, parent, name, child, legible)
    ensures Placed(SortBy(records, rank), parent, name, child, legible)
  {
    hide Count, Find, SortBy, SameRecords, Fold;
    var q, sorted := ByName(parent, Fold(name)), SortBy(records, rank);
    SortedSame(records, rank);
    SameCounts(sorted, records, q);
    SameMatch(sorted, records, q);
    FindIs(records, q);
    FindIs(sorted, q);
  }

  /** When all is done the path resolves exactly if every name can be read. */
  lemma TroddenEnds(before: seq<Rec>, first: nat, records: seq<Rec>, next: nat, path: seq<seq<byte>>,
                    parents: seq<nat>, stop: nat, marks: seq<bool>, rank: Rec -> int)
    requires |path| == |marks| && |parents| == |path| + 1
    requires Trodden(before, first, records, next, path, |path|, parents, stop, marks)
    ensures Acceptable(before, first, path)
    ensures Resolve(SortBy(records, rank), ROOT, path).Ok? <==> forall j :: 0 <= j < |path| ==> marks[j]
  {
    hide ChildAt, Count, InodeAt, Passes, Resolve, StopsAt, WellFormed, Placed, SortBy, Undisturbed, InodesKept;
    var sorted := SortBy(records, rank);
    forall j | 0 <= j < |path| ensures Placed(sorted, parents[j], path[j], parents[j + 1], marks[j]) {
      PlacedSorted(records, rank, parents[j], path[j], parents[j + 1], marks[j]);
    }
    RouteRoot(before, first, next, path, |path|, parents, stop);
    PlacedResolve(sorted, path, parents, marks, |path|);
    assert path[..|path|] == path;
    WholePath(before, first, path);
  }

  lemma RouteRoot(before: seq<Rec>, first: nat, next: nat, path: seq<seq<byte>>, index: nat, parents: seq<nat>,
                  stop: nat)
    requires Route(before, first, next, path, index, parents, stop)
    ensures parents[0] == ROOT
  {
    hide StopsAt;
    assert path[..0] == [];
    assert Resolve(before, ROOT, path[..0]) == Ok(parents[0]);
  }

  // ---- exactly what a path adds --------------------------------------------------------------------------------

  /** Where a name leads after the names from `stop` to `index` were made under `top`. */
  function ChildThen(before: seq<Rec>, first: nat, path: seq<seq<byte>>, index: nat, stop: nat, top: nat, p: nat,
                     n: seq<byte>): Option<nat>
    requires stop < index <= |path|
  {
    if p == top && Fold(n) == Fold(path[stop]) then Some(first)
    else if first <= p && p - first + stop + 1 < index && Fold(n) == Fold(path[p - first + stop + 1]) then Some(p + 1)
    else ChildAt(before, p, n)
  }

  /** The inode of an object after that: `top` counts one more, and each new directory its one entry. */
  function InodeThen(before: seq<Rec>, first: nat, path: seq<seq<byte>>, index: nat, stop: nat, top: nat, id: nat)
      : Option<Rec>
    requires stop < index <= |path|
  {
    if id == top then (match InodeAt(before, top) case Some(r) => Some(Bumped(r)) case None => None)
    else if first <= id < first + (index - stop) then
      var k := id - first + stop + 1;
      Some(if k == |path| then NewInode(id, true) else Inode(id, Directory, if k == index then 0 else 1, None))
    else InodeAt(before, id)
  }

  /** The catalog after `index` names: as it was, or with exactly the missing names added. */
  ghost predicate Laid(before: seq<Rec>, first: nat, records: seq<Rec>, next: nat, path: seq<seq<byte>>, index: nat,
                       parent: nat, stop: nat)
  {
    if next == first then
      index <= |path| && SameChildrenAt(records, before) && SameInodes(records, before) &&
      Resolve(before, ROOT, path[..index]) == Ok(parent)
    else
      && stop < index <= |path| && StopsAt(before, path, stop) && next == first + (index - stop) && parent == next - 1
      && var top := Resolve(before, ROOT, path[..stop]).value;
      && (forall p: nat, n :: ChildAt(records, p, n) == ChildThen(before, first, path, index, stop, top, p, n))
      && (forall id: nat :: InodeAt(records, id) == InodeThen(before, first, path, index, stop, top, id))
  }

  lemma LaidStarts(records: seq<Rec>, next: nat, path: seq<seq<byte>>)
    ensures Laid(records, next, records, next, path, 0, ROOT, 0)
  {
    hide ChildAt, InodeAt;
    assert path[..0] == [];
  }

  lemma LaidEnters(before: seq<Rec>, first: nat, records: seq<Rec>, after: seq<Rec>, path: seq<seq<byte>>, index: nat,
                   parent: nat, stop: nat, child: nat)
    requires Laid(before, first, records, first, path, index, parent, stop) && index < |path|
    requires SameChildrenAt(after, records) && SameInodes(after, records)
    requires ChildAt(records, parent, path[index]) == Some(child)
    ensures Laid(before, first, after, first, path, index + 1, child, stop)
  {
    hide ChildAt, InodeAt, Resolve;
    ResolveAppend(before, ROOT, path[..index], path[index]);
    assert path[..index + 1] == path[..index] + [path[index]];
  }

  /** In the directory itself, too, only the new name is new. */
  lemma EnlargedChild(before: seq<Rec>, after: seq<Rec>, parent: nat, name: seq<byte>, e: Rec, oid: nat, last: bool,
                      n: seq<byte>)
    requires Enlarged(before, after, parent, e, oid, last) && Spelled(e, parent, oid) && Names(e, parent, name)
    requires ChildAt(before, parent, name).None?
    ensures ChildAt(after, parent, n) == if Fold(n) == Fold(name) then Some(oid) else ChildAt(before, parent, n)
  {
    hide Count, Fold, Find, ReadName, Grown;
    var i: nat :| Find(before, ByInode(parent)) == Some(i) && i < |before| && before[i].Inode? &&
                  before[i].id == parent && after == Grown(before, i, e, oid, last);
    var q := ByName(parent, Fold(n));
    GrownKeeps(before, i, e, name, oid, last);
    GrownCounts(before, i, e, oid, last, q);
    FindIs(before, q);
    FindIs(after, q);
    if Find(before, q).Some? {
      GrownAt(before, i, e, oid, last, Find(before, q).value);
    }
  }

  lemma LaidAdds(before: seq<Rec>, first: nat, records: seq<Rec>, after: seq<Rec>, next: nat, path: seq<seq<byte>>,
                 index: nat, parent: nat, stop: nat, e: Rec)
    requires Laid(before, first, records, next, path, index, parent, stop) && index < |path|
    requires WellFormed(before, first) && first <= next && InodeAt(records, next).None?
    requires next == first ==> StopsAt(before, path, index)
    requires ChildAt(records, parent, path[index]).None? && Names(e, parent, path[index])
    requires Enlarged(records, after, parent, e, next, index + 1 == |path|) && Spelled(e, parent, next)
    ensures Laid(before, first, after, next + 1, path, index + 1, next, if next == first then index else stop)
  {
    hide ChildAt, InodeAt, Resolve, WellFormed, Names, Enlarged, Fold, Count, NewInode, Bumped;
    var at := if next == first then index else stop;
    var top := Resolve(before, ROOT, path[..at]).value;
    RootOld(before, first);
    ResolvedOld(before, first, ROOT, path[..at]);
    EnlargedStep(records, after, parent, path[index], e, next, index + 1 == |path|);
    forall p: nat, n ensures ChildAt(after, p, n) == ChildThen(before, first, path, index + 1, at, top, p, n) {
      ChildAdded(before, first, records, after, next, path, index, parent, stop, e, p, n);
    }
    forall id: nat ensures InodeAt(after, id) == InodeThen(before, first, path, index + 1, at, top, id) {
      InodeAdded(before, first, records, after, next, path, index, parent, stop, id);
    }
  }

  lemma ChildAdded(before: seq<Rec>, first: nat, records: seq<Rec>, after: seq<Rec>, next: nat, path: seq<seq<byte>>,
                   index: nat, parent: nat, stop: nat, e: Rec, p: nat, n: seq<byte>)
    requires Laid(before, first, records, next, path, index, parent, stop) && index < |path| && first <= next
    requires next == first ==> StopsAt(before, path, index)
    requires ChildAt(records, parent, path[index]).None? && Names(e, parent, path[index])
    requires Enlarged(records, after, parent, e, next, index + 1 == |path|) && Spelled(e, parent, next)
    requires Elsewhere(records, after, parent) && parent < next
    requires next != first ==> Resolve(before, ROOT, path[..stop]).value < first
    ensures var at := if next == first then index else stop;
            ChildAt(after, p, n) ==
            ChildThen(before, first, path, index + 1, at, Resolve(before, ROOT, path[..at]).value, p, n)
  {
    hide ChildAt, InodeAt, Names, Enlarged, Fold, Count, Resolve, SameInodes;
    if p == parent {
      EnlargedChild(records, after, parent, path[index], e, next, index + 1 == |path|, n);
    } else {
      assert SameEntry(records, after, p, n);
    }
  }

  lemma InodeAdded(before: seq<Rec>, first: nat, records: seq<Rec>, after: seq<Rec>, next: nat, path: seq<seq<byte>>,
                   index: nat, parent: nat, stop: nat, id: nat)
    requires Laid(before, first, records, next, path, index, parent, stop) && index < |path| && first <= next
    requires next == first ==> StopsAt(before, path, index) && parent < first
    requires next != first ==> Resolve(before, ROOT, path[..stop]).value < first
    requires forall i: nat :: i != parent && i != next ==> InodeAt(after, i) == InodeAt(records, i)
    requires InodeAt(records, parent).Some? && InodeAt(after, parent) == Some(Bumped(InodeAt(records, parent).value))
    requires InodeAt(after, next) == Some(NewInode(next, index + 1 == |path|))
    ensures var at := if next == first then index else stop;
            InodeAt(after, id) ==
            InodeThen(before, first, path, index + 1, at, Resolve(before, ROOT, path[..at]).value, id)
  {
    hide ChildAt, InodeAt, Fold, Resolve, SameChildrenAt, ChildThen;
    if next != first && id == parent {
      assert InodeAt(records, parent) == Some(Inode(parent, Directory, 0, None));
    }
  }

  lemma LaidSorted(before: seq<Rec>, first: nat, records: seq<Rec>, next: nat, path: seq<seq<byte>>, index: nat,
                   parent: nat, stop: nat, rank: Rec -> int)
    requires Laid(before, first, records, next, path, index, parent, stop) && WellFormed(records, next)
    ensures Laid(before, first, SortBy(records, rank), next, path, index, parent, stop)
  {
    hide ChildAt, InodeAt, SortBy, WellFormed, Resolve, StopsAt, ChildThen, InodeThen;
    var sorted := SortBy(records, rank);
    forall p: nat, n ensures ChildAt(sorted, p, n) == ChildAt(records, p, n) {
      SortedLookups(records, next, rank, p, n);
    }
    forall id: nat ensures InodeAt(sorted, id) == InodeAt(records, id) {
      SortedLookups(records, next, rank, id, []);
    }
  }

  lemma SortedLookups(records: seq<Rec>, next: nat, rank: Rec -> int, p: nat, n: seq<byte>)
    requires WellFormed(records, next)
    ensures ChildAt(SortBy(records, rank), p, n) == ChildAt(records, p, n)
    ensures InodeAt(SortBy(records, rank), p) == InodeAt(records, p)
  {
    hide Count, Find, SortBy, SameRecords, Fold, RecOk, HasDirectory;
    var sorted := SortBy(records, rank);
    SortedSame(records, rank);
    SameMatch(sorted, records, ByName(p, Fold(n)));
    SameMatch(sorted, records, ByInode(p));
    FindIs(records, ByName(p, Fold(n)));
    FindIs(sorted, ByName(p, Fold(n)));
  }

  // ---- records that fit their fields -----------------------------------------------------------------------------

  /** Every number fits the field it is stored in, and a name the ten bits of length of a hashed key. */
  predicate Storable(r: Rec) {
    match r
    case DirRec(p, text, len, c) => p < U64 && c < U64 && len < U16 && |text| <= 1024
    case Inode(id, _, children, stream) =>
      id < U64 && children < U32 && (stream.Some? ==> stream.value.0 < U64 && stream.value.1 < U64)
    case Extent(id, length, paddr) => id < U64 && length < U64 && paddr < U64
    case Other(id) => id < U64
    case Stub(p, text, len) => p < U64 && len < U16 && |text| <= 1024
  }

  predicate AllStorable(records: seq<Rec>) {
    forall i :: 0 <= i < |records| ==> Storable(records[i])
  }

  lemma WrittenStorable(layout: KeyLayout, hash: seq<byte> -> nat, parent: nat, name: seq<byte>, child: nat)
    requires parent < U64 && child < U64 && |name| <= 1022
    ensures Storable(Written(layout, hash, parent, name, child))
  {
    hide Fold, LeBytes, Packed, NameText, NameLength, DrecKey;
    match layout
    case Hashed => HashedKey(parent, hash(name), name);
    case Plain => PlainKeyReads(parent, hash(name), name);
  }

  lemma RewordedStorable(before: seq<Rec>, after: seq<Rec>, layout: KeyLayout, hash: seq<byte> -> nat, parent: nat,
                         name: seq<byte>, child: nat)
    requires AllStorable(before) && |name| <= 1022 && ChildAt(before, parent, name) == Some(child)
    requires Reworded(before, after, parent, name, Written(layout, hash, parent, name, child))
    ensures AllStorable(after)
  {
    hide Fold, Find, Written, Storable, Count;
    EntryThere(before, parent, name, child);
    var k := Find(before, ByName(parent, Fold(name))).value;
    StoredEntry(before[k]);
    WrittenStorable(layout, hash, parent, name, child);
  }

  lemma StoredEntry(r: Rec)
    requires Storable(r) && r.DirRec?
    ensures r.parent < U64 && r.child < U64
  {
  }

  lemma EnlargedStorable(before: seq<Rec>, after: seq<Rec>, layout: KeyLayout, hash: seq<byte> -> nat, parent: nat,
                         name: seq<byte>, oid: nat, last: bool)
    requires AllStorable(before) && |name| <= 1022 && oid < U64 && Spacious(before, parent)
    requires Enlarged(before, after, parent, Written(layout, hash, parent, name, oid), oid, last)
    ensures AllStorable(after)
  {
    hide Fold, Find, Written, Count;
    var e := Written(layout, hash, parent, name, oid);
    var i: nat :| Find(before, ByInode(parent)) == Some(i) && i < |before| && before[i].Inode? &&
                  before[i].id == parent && after == Grown(before, i, e, oid, last);
    FindIs(before, ByInode(parent));
    assert Storable(before[i]);
    WrittenStorable(layout, hash, parent, name, oid);
    GrownStorable(before, i, e, oid, last);
  }

  lemma GrownStorable(records: seq<Rec>, i: nat, e: Rec, oid: nat, last: bool)
    requires AllStorable(records) && i < |records| && records[i].Inode? && records[i].children + 1 < U32
    requires Storable(e) && oid < U64
    ensures AllStorable(Grown(records, i, e, oid, last))
  {
    assert Storable(records[i]);
    var bumped := records[i := Bumped(records[i])];
    assert forall k :: 0 <= k < |bumped| ==> Storable(bumped[k]);
  }

  lemma {:induction false} InsertSize(records: seq<Rec>, r: Rec, rank: Rec -> int)
    ensures |Insert(records, r, rank)| == |records| + 1
  {
    if records != [] && rank(records[|records| - 1]) > rank(r) {
      InsertSize(records[..|records| - 1], r, rank);
    }
  }

  lemma {:induction false} SortSize(records: seq<Rec>, rank: Rec -> int)
    ensures |SortBy(records, rank)| == |records|
  {
    if records != [] {
      SortSize(records[..|records| - 1], rank);
      InsertSize(SortBy(records[..|records| - 1], rank), records[|records| - 1], rank);
    }
  }

  lemma SortStorable(records: seq<Rec>, rank: Rec -> int)
    requires AllStorable(records)
    ensures AllStorable(SortBy(records, rank))
  {
    hide Storable, Count;
    var sorted := SortBy(records, rank);
    SortSame(records, rank, ByParent(0));
    forall i | 0 <= i < |sorted| ensures Storable(sorted[i]) {
      assert sorted[i] in records;
    }
  }

  lemma SortWhole(records: seq<Rec>, rank: Rec -> int)
    requires NoStubs(records)
    ensures NoStubs(SortBy(records, rank))
  {
    hide Count;
    var sorted := SortBy(records, rank);
    SortSame(records, rank, ByParent(0));
    forall i | 0 <= i < |sorted| ensures !sorted[i].Stub? {
      assert sorted[i] in records;
    }
  }

  // ---- one walk, for readable names and others -----------------------------------------------------------------

  /** A call: the catalog and next id it found, the path, and which of its names the layout can read. */
  datatype Walk = Walk(before: seq<Rec>, first: nat, path: seq<seq<byte>>, marks: seq<bool>)

  ghost predicate AllRead(w: Walk, index: nat)
    requires index <= |w.marks|
  {
    forall i :: 0 <= i < index ==> w.marks[i]
  }

  ghost predicate Going(w: Walk, records: seq<Rec>, next: nat, index: nat, parents: seq<nat>, stop: nat) {
    && index <= |w.path| == |w.marks| && |parents| == index + 1 && WellFormed(w.before, w.first)
    && (AllRead(w, index) ==>
          Underway(w.before, w.first, records, next, w.path, index, parents[index], stop) &&
          Laid(w.before, w.first, records, next, w.path, index, parents[index], stop))
    && (NoRevisit(w.before, w.path) ==>
          Trodden(w.before, w.first, records, next, w.path, index, parents, stop, w.marks))
  }

  lemma GoingStarts(w: Walk)
    requires WellFormed(w.before, w.first) && |w.marks| == |w.path|
    ensures Going(w, w.before, w.first, 0, [ROOT], 0)
  {
    hide Underway, Trodden, NoRevisit, WellFormed, Laid;
    LaidStarts(w.before, w.first, w.path);
    UnderwayStarts(w.before, w.first, w.path);
    TroddenStarts(w.before, w.first, w.path, w.marks);
  }

  /** The next id is still free. */
  lemma UnderwayAhead(before: seq<Rec>, first: nat, records: seq<Rec>, next: nat, path: seq<seq<byte>>, index: nat,
                      parent: nat, stop: nat)
    requires index <= |path| && Underway(before, first, records, next, path, index, parent, stop)
    ensures first <= next && InodeAt(records, next).None?
  {
    hide Passes, Trail, Smooth, StopsAt, WellFormed, StreamsKept, HasDirectory, Resolve, Keeps, StreamAt, InodeAt;
    NoInode(records, next, next);
  }

  lemma UnderwaySound(before: seq<Rec>, first: nat, records: seq<Rec>, next: nat, path: seq<seq<byte>>, parent: nat,
                      stop: nat)
    requires Underway(before, first, records, next, path, |path|, parent, stop)
    ensures WellFormed(records, next)
  {
    hide Passes, Trail, Smooth, StopsAt, WellFormed, StreamsKept, HasDirectory, Resolve, Keeps, StreamAt;
  }

  lemma SoundNoStubs(records: seq<Rec>, next: nat)
    requires WellFormed(records, next)
    ensures NoStubs(records)
  {
    hide Count, HasDirectory;
    forall i | 0 <= i < |records| ensures !records[i].Stub? {
      assert RecOk(records, next, records[i]);
    }
  }

  /** Exactly the missing names were added, and nothing else looks different. */
  ghost predicate MadeExactly(before: seq<Rec>, first: nat, records: seq<Rec>, next: nat, path: seq<seq<byte>>,
                              id: nat)
  {
    exists stop: nat :: Laid(before, first, records, next, path, |path|, id, stop)
  }

  predicate NamesShort(path: seq<seq<byte>>) {
    forall i :: 0 <= i < |path| ==> |path[i]| <= 1022
  }

  /** Whatever the names: how much the catalog grew, that records still fit, and what a lone new name added. */
  ghost predicate Weighed(layout: KeyLayout, hash: seq<byte> -> nat, w: Walk, records: seq<Rec>, index: nat) {
    && |records| <= |w.before| + 2 * index + (if index == |w.path| != 0 then 2 else 0)
    && (AllStorable(w.before) && NamesShort(w.path) ==> AllStorable(records)) && NoStubs(records)
    && (|w.path| == 1 && index == 0 ==> records == w.before)
    && (|w.path| == 1 && index == 1 && ChildAt(w.before, ROOT, w.path[0]).None? ==>
          Enlarged(w.before, records, ROOT, Written(layout, hash, ROOT, w.path[0], w.first), w.first, true))
  }

  lemma WeighedStarts(layout: KeyLayout, hash: seq<byte> -> nat, w: Walk)
    requires NoStubs(w.before)
    ensures Weighed(layout, hash, w, w.before, 0)
  {
    hide AllStorable, Enlarged, Written, ChildAt;
  }

  lemma WeighedWhole(layout: KeyLayout, hash: seq<byte> -> nat, w: Walk, records: seq<Rec>, index: nat)
    requires Weighed(layout, hash, w, records, index)
    ensures NoStubs(records)
  {
    hide AllStorable, Enlarged, Written, ChildAt, NoStubs;
  }

  lemma WeighedEntered(layout: KeyLayout, hash: seq<byte> -> nat, w: Walk, records: seq<Rec>, after: seq<Rec>,
                       index: nat, parent: nat, child: nat)
    requires Weighed(layout, hash, w, records, index) && index < |w.path| && (index == 0 ==> parent == ROOT)
    requires ChildAt(records, parent, w.path[index]) == Some(child)
    requires Reworded(records, after, parent, w.path[index], Written(layout, hash, parent, w.path[index], child))
    ensures Weighed(layout, hash, w, after, index + 1)
  {
    hide ChildAt, Written, AllStorable, Enlarged, Fold, Find, ReadName;
    assert NoStubs(after);
    hide NoStubs;
    if AllStorable(records) && NamesShort(w.path) {
      RewordedStorable(records, after, layout, hash, parent, w.path[index], child);
    }
  }

  lemma WeighedAdded(layout: KeyLayout, hash: seq<byte> -> nat, w: Walk, records: seq<Rec>, after: seq<Rec>,
                     next: nat, index: nat, parent: nat)
    requires Weighed(layout, hash, w, records, index) && index < |w.path| && (index == 0 ==> parent == ROOT)
    requires index == 0 ==> next == w.first
    requires ChildAt(records, parent, w.path[index]).None? && CanAdd(records, next, parent, w.path[index])
    requires Enlarged(records, after, parent, Written(layout, hash, parent, w.path[index], next), next,
                      index + 1 == |w.path|)
    ensures Weighed(layout, hash, w, after, index + 1)
  {
    hide ChildAt, Written, AllStorable, Enlarged, Fold, Find, ReadName, Ascii, Spacious;
    EnlargedStep(records, after, parent, w.path[index], Written(layout, hash, parent, w.path[index], next), next,
                 index + 1 == |w.path|);
    EnlargedWhole(records, after, parent, Written(layout, hash, parent, w.path[index], next), next,
                  index + 1 == |w.path|);
    if AllStorable(records) && NamesShort(w.path) {
      EnlargedStorable(records, after, layout, hash, parent, w.path[index], next, index + 1 == |w.path|);
    }
  }

  lemma EnlargedWhole(before: seq<Rec>, after: seq<Rec>, parent: nat, e: Rec, oid: nat, last: bool)
    requires Enlarged(before, after, parent, e, oid, last) && e.DirRec? && NoStubs(before)
    ensures NoStubs(after)
  {
    hide Find;
    var i: nat :| Find(before, ByInode(parent)) == Some(i) && i < |before| && before[i].Inode? &&
                  before[i].id == parent && after == Grown(before, i, e, oid, last);
  }

  lemma WeighedEnds(layout: KeyLayout, hash: seq<byte> -> nat, w: Walk, records: seq<Rec>, rank: Rec -> int)
    requires Weighed(layout, hash, w, records, |w.path|)
    ensures NoStubs(SortBy(records, rank))
    ensures |SortBy(records, rank)| <= |w.before| + 2 * |w.path| + 2
    ensures AllStorable(w.before) && NamesShort(w.path) ==> AllStorable(SortBy(records, rank))
    ensures |w.path| == 1 && ChildAt(w.before, ROOT, w.path[0]).None? ==>
              Gained(w.before, SortBy(records, rank), Written(layout, hash, ROOT, w.path[0], w.first), w.first)
  {
    hide ChildAt, Written, AllStorable, Count, SortBy, Find, NamesShort, NoStubs;
    SortSize(records, rank);
    SortWhole(records, rank);
    if AllStorable(records) {
      SortStorable(records, rank);
    }
    if |w.path| == 1 && ChildAt(w.before, ROOT, w.path[0]).None? {
      var e := Written(layout, hash, ROOT, w.path[0], w.first);
      var i: nat :| Find(w.before, ByInode(ROOT)) == Some(i) && i < |w.before| && w.before[i].Inode? &&
                    w.before[i].id == ROOT && records == Grown(w.before, i, e, w.first, true);
      forall q ensures Count(SortBy(records, rank), q) == Count(w.before, q) + Gain(q, e, w.first, true) {
        SortSame(records, rank, q);
        GrownCounts(w.before, i, e, w.first, true, q);
      }
    }
  }

  /** The records of one new file were added, and the entry `e`. */
  ghost predicate Gained(before: seq<Rec>, after: seq<Rec>, e: Rec, oid: nat) {
    forall q :: Count(after, q) == Count(before, q) + Gain(q, e, oid, true)
  }

  lemma GoingParts(w: Walk, records: seq<Rec>, next: nat, index: nat, parents: seq<nat>, stop: nat)
    requires Going(w, records, next, index, parents, stop) && index < |w.path|
    ensures index <= |w.marks|
    ensures AllRead(w, index) ==>
              Walking(w.before, records, next, w.path[..index], parents[index]) && HasDirectory(records, parents[index])
  {
    hide Underway, Trodden, NoRevisit, WellFormed, Walking, HasDirectory, Laid;
    if AllRead(w, index) {
      UnderwayParts(w.before, w.first, records, next, w.path, index, parents[index], stop);
    }
  }

  /** Where the walk is described, a name that is there can be entered exactly if the path may go on. */
  lemma GoingEnter(w: Walk, records: seq<Rec>, next: nat, index: nat, parents: seq<nat>, stop: nat, child: nat)
    requires Going(w, records, next, index, parents, stop) && index < |w.path|
    requires ChildAt(records, parents[index], w.path[index]) == Some(child)
    ensures AllRead(w, index) || NoRevisit(w.before, w.path) ==>
              next == w.first &&
              (Passes(w.before, w.first, w.path, index + 1) <==>
                 Ascii(w.path[index]) && KindIs(records, child, index + 1 == |w.path|))
    ensures (AllRead(w, index) || NoRevisit(w.before, w.path)) &&
            !(Ascii(w.path[index]) && KindIs(records, child, index + 1 == |w.path|)) ==>
              !Acceptable(w.before, w.first, w.path)
  {
    hide Underway, Trodden, NoRevisit, WellFormed, Passes, Ascii, KindIs, ChildAt, Acceptable, AllRead, Laid;
    if AllRead(w, index) {
      UnderwayEnter(w.before, w.first, records, next, w.path, index, parents[index], stop, child);
    }
    if NoRevisit(w.before, w.path) {
      TroddenEnter(w.before, w.first, records, next, w.path, index, parents, stop, w.marks, child);
    }
    if !Passes(w.before, w.first, w.path, index + 1) {
      StoppedShort(w.before, w.first, w.path, index + 1);
    }
  }

  lemma GoingEntered(w: Walk, records: seq<Rec>, after: seq<Rec>, next: nat, index: nat, parents: seq<nat>, stop: nat,
                     child: nat, e: Rec)
    requires Going(w, records, next, index, parents, stop) && index < |w.path|
    requires ChildAt(records, parents[index], w.path[index]) == Some(child)
    requires AllRead(w, index) || NoRevisit(w.before, w.path) ==>
               next == w.first && Passes(w.before, w.first, w.path, index + 1)
    requires AllRead(w, index) && w.marks[index] ==>
               && Walking(w.before, after, next, w.path[..index] + [w.path[index]], child)
               && (index + 1 < |w.path| ==> HasDirectory(after, child))
               && SameChildrenAt(after, records) && SameInodes(after, records) && SameStreams(after, records)
    requires Reworded(records, after, parents[index], w.path[index], e) && Spelled(e, parents[index], child)
    requires Names(e, parents[index], w.path[index]) == w.marks[index]
    ensures Going(w, after, next, index + 1, parents + [child], stop)
  {
    hide Underway, Trodden, NoRevisit, WellFormed, Passes, ChildAt, Walking, HasDirectory, SameChildrenAt, SameInodes,
         SameStreams, Reworded, Names, Spelled, Laid;
    if AllRead(w, index + 1) {
      assert w.marks[index] && AllRead(w, index);
      LaidEnters(w.before, w.first, records, after, w.path, index, parents[index], stop, child);
      UnderwayEntered(w.before, w.first, records, after, next, w.path, index, parents[index], stop, child);
    }
    if NoRevisit(w.before, w.path) {
      TroddenEntered(w.before, w.first, records, after, next, w.path, index, parents, stop, w.marks, child, e);
    }
  }

  lemma GoingAdd(w: Walk, records: seq<Rec>, next: nat, index: nat, parents: seq<nat>, stop: nat)
    requires Going(w, records, next, index, parents, stop) && index < |w.path|
    requires ChildAt(records, parents[index], w.path[index]).None?
    ensures AllRead(w, index) || NoRevisit(w.before, w.path) ==>
              (next == w.first ==> StopsAt(w.before, w.path, index)) &&
              (Passes(w.before, w.first, w.path, index + 1) <==>
                 CanAdd(records, next, parents[index], w.path[index]))
    ensures (AllRead(w, index) || NoRevisit(w.before, w.path)) &&
            !CanAdd(records, next, parents[index], w.path[index]) ==>
              !Acceptable(w.before, w.first, w.path)
  {
    hide Underway, Trodden, NoRevisit, WellFormed, Passes, CanAdd, ChildAt, Acceptable, StopsAt, AllRead, Laid;
    if AllRead(w, index) {
      UnderwayAdd(w.before, w.first, records, next, w.path, index, parents[index], stop);
    }
    if NoRevisit(w.before, w.path) {
      TroddenAdd(w.before, w.first, records, next, w.path, index, parents, stop, w.marks);
    }
    if !Passes(w.before, w.first, w.path, index + 1) {
      StoppedShort(w.before, w.first, w.path, index + 1);
    }
  }

  lemma GoingAdded(w: Walk, records: seq<Rec>, after: seq<Rec>, next: nat, index: nat, parents: seq<nat>, stop: nat,
                   e: Rec)
    requires Going(w, records, next, index, parents, stop) && index < |w.path|
    requires ChildAt(records, parents[index], w.path[index]).None?
    requires AllRead(w, index) || NoRevisit(w.before, w.path) ==>
               (next == w.first ==> StopsAt(w.before, w.path, index)) &&
               Passes(w.before, w.first, w.path, index + 1)
    requires AllRead(w, index) && w.marks[index] ==>
               && Walking(w.before, after, next + 1, w.path[..index] + [w.path[index]], next)
               && (index + 1 < |w.path| ==> HasDirectory(after, next))
               && (if index + 1 == |w.path| then StreamAt(after, next) == Ok(Location(next, 0, 0, 0))
                   else NoChildren(after, next))
               && (index + 1 < |w.path| ==> InodeAt(after, next) == Some(NewInode(next, false)))
               && SameStreamsBut(after, records, next)
    requires Enlarged(records, after, parents[index], e, next, index + 1 == |w.path|) &&
             Spelled(e, parents[index], next)
    requires Names(e, parents[index], w.path[index]) == w.marks[index]
    ensures Going(w, after, next + 1, index + 1, parents + [next], if next == w.first then index else stop)
  {
    hide Underway, Trodden, NoRevisit, WellFormed, Passes, ChildAt, Walking, HasDirectory, SameStreamsBut, StreamAt,
         InodeAt, NoChildren, NewInode, Enlarged, Names, Spelled, StopsAt, Laid;
    if AllRead(w, index + 1) {
      assert w.marks[index] && AllRead(w, index);
      UnderwayAhead(w.before, w.first, records, next, w.path, index, parents[index], stop);
      LaidAdds(w.before, w.first, records, after, next, w.path, index, parents[index], stop, e);
      UnderwayAdded(w.before, w.first, records, after, next, w.path, index, parents[index], stop);
    }
    if NoRevisit(w.before, w.path) {
      TroddenAdded(w.before, w.first, records, after, next, w.path, index, parents, stop, w.marks, e);
    }
  }

  lemma GoingEnds(w: Walk, records: seq<Rec>, next: nat, parents: seq<nat>, stop: nat, rank: Rec -> int)
    requires Going(w, records, next, |w.path|, parents, stop)
    ensures AllRead(w, |w.path|) ==>
              Acceptable(w.before, w.first, w.path) &&
              Made(w.before, w.first, SortBy(records, rank), next, w.path, parents[|w.path|]) &&
              MadeExactly(w.before, w.first, SortBy(records, rank), next, w.path, parents[|w.path|])
    ensures NoRevisit(w.before, w.path) ==>
              Acceptable(w.before, w.first, w.path) &&
              (Resolve(SortBy(records, rank), ROOT, w.path).Ok? <==> AllRead(w, |w.path|))
  {
    hide Underway, Trodden, NoRevisit, WellFormed, Acceptable, Made, SortBy, Resolve, Laid;
    if AllRead(w, |w.path|) {
      UnderwaySound(w.before, w.first, records, next, w.path, parents[|w.path|], stop);
      LaidSorted(w.before, w.first, records, next, w.path, |w.path|, parents[|w.path|], stop, rank);
      UnderwayEnds(w.before, w.first, records, next, w.path, parents[|w.path|], stop, rank);
    }
    if NoRevisit(w.before, w.path) {
      TroddenEnds(w.before, w.first, records, next, w.path, parents, stop, w.marks, rank);
    }
  }

  /** What a run that made a path leaves. */
  ghost predicate Made(before: seq<Rec>, first: nat, records: seq<Rec>, next: nat, path: seq<seq<byte>>, id: nat) {
    && WellFormed(records, next) && Resolve(records, ROOT, path) == Ok(id) && Keeps(before, records)
    && (forall f: nat :: StreamAt(before, f).Ok? ==> StreamAt(records, f) == StreamAt(before, f))
    && first <= next <= first + |path|
    && StreamsKept(before, records, Resolve(before, ROOT, path).Err?, id)
    && (Resolve(before, ROOT, path).Err? ==> id >= first && Locate(records, path) == Ok(Location(id, 0, 0, 0)))
  }

  lemma UnderwayParts(before: seq<Rec>, first: nat, records: seq<Rec>, next: nat, path: seq<seq<byte>>, index: nat,
                      parent: nat, stop: nat)
    requires index < |path| && Underway(before, first, records, next, path, index, parent, stop)
    ensures Walking(before, records, next, path[..index], parent) && HasDirectory(records, parent)
  {
    hide Walking, Trail, Smooth, Passes, HasDirectory, StopsAt;
  }

  lemma StoppedShort(before: seq<Rec>, first: nat, path: seq<seq<byte>>, index: nat)
    requires index <= |path| && !Passes(before, first, path, index)
    ensures !Acceptable(before, first, path)
  {
    hide Passes;
    if Acceptable(before, first, path) {
      PassesDown(before, first, path, index);
    }
  }

  lemma WholePath(before: seq<Rec>, first: nat, path: seq<seq<byte>>)
    ensures Acceptable(before, first, path) <==> Passes(before, first, path, |path|)
  {
  }

  lemma UnderwayEnds(before: seq<Rec>, first: nat, records: seq<Rec>, next: nat, path: seq<seq<byte>>, parent: nat,
                     stop: nat, rank: Rec -> int)
    requires Underway(before, first, records, next, path, |path|, parent, stop)
    ensures Acceptable(before, first, path) && Made(before, first, SortBy(records, rank), next, path, parent)
  {
    hide ChildAt, StreamAt, WellFormed, SortBy, Passes, Smooth, Trail, Resolve, Keeps, Walking, StopsAt;
    assert path[..|path|] == path;
    WalkSorted(before, records, next, path, parent, rank);
    WalkEnds(before, SortBy(records, rank), next, path, parent);
    if Resolve(before, ROOT, path).Err? {
      TrailEnds(before, first, records, next, path, parent);
    } else if next != first {
      NotYetStopped(before, path, |path|, stop);
    }
  }

  lemma TrailAdds(before: seq<Rec>, first: nat, records: seq<Rec>, next: nat, path: seq<seq<byte>>, oid: nat,
                  done: bool)
    requires first <= oid && next == oid + 1
    requires if done then StreamAt(records, oid) == Ok(Location(oid, 0, 0, 0)) else NoChildren(records, oid)
    ensures Trail(before, first, records, next, path, oid, done)
  {
    hide ChildAt, StreamAt;
  }

  lemma TrailEnds(before: seq<Rec>, first: nat, records: seq<Rec>, next: nat, path: seq<seq<byte>>, parent: nat)
    requires Trail(before, first, records, next, path, parent, true) && Resolve(before, ROOT, path).Err?
    ensures parent >= first && StreamAt(records, parent) == Ok(Location(parent, 0, 0, 0))
  {
    hide ChildAt, StreamAt;
  }

  lemma WalkEnds(before: seq<Rec>, records: seq<Rec>, next: nat, path: seq<seq<byte>>, parent: nat)
    requires Walking(before, records, next, path, parent)
    ensures WellFormed(records, next) && Keeps(before, records) && Resolve(records, ROOT, path) == Ok(parent)
    ensures forall id: nat :: StreamAt(before, id).Ok? ==> StreamAt(records, id) == StreamAt(before, id)
  {
    hide ChildAt, StreamAt, WellFormed;
  }
}

/**
 * Making sure a path leads to a file (src/apfs_update.rs `ensure_file_records`), on catalogs with
 * hashed or with plain directory keys.
 */
module Catalog {
  import opened Bytes
  import opened DirectoryKey
  import opened CatalogRecords
  import opened CatalogWalk

  class Volume {
    var records: seq<Rec>
    var nextId: nat

    ghost predicate Valid()
      reads this
    {
      WellFormed(records, nextId)
    }

    constructor (records: seq<Rec>, nextId: nat)
      requires WellFormed(records, nextId)
      ensures Valid() && this.records == records && this.nextId == nextId
    {
      this.records, this.nextId := records, nextId;
    }

    /**
     * A child that is there: its inode must have the expected type, and its entry is written anew.
     * If the layout can read the new entry everything is still found, otherwise the name is lost.
     */
    method Enter(layout: KeyLayout, hash: seq<byte> -> nat, parent: nat, name: seq<byte>, child: nat, last: bool,
                 ghost before: seq<Rec>, ghost path: seq<seq<byte>>, ghost walking: bool) returns (r: Result<bool>)
      requires ChildAt(records, parent, name) == Some(child)
      requires walking ==> Walking(before, records, nextId, path, parent)
      modifies this`records
      ensures r.Ok? <==> Ascii(name) && KindIs(old(records), child, last)
      ensures r.Err? ==> records == old(records)
      ensures r.Ok? && walking && Legible(layout, hash, name) ==>
                && Walking(before, records, nextId, path + [name], child) && (!last ==> HasDirectory(records, child))
                && SameChildrenAt(records, old(records)) && SameInodes(records, old(records)) &&
                   SameStreams(records, old(records))
      ensures r.Ok? && walking && !Legible(layout, hash, name) ==> ChildAt(records, parent, name).None?
      ensures r.Ok? ==> Reworded(old(records), records, parent, name, Written(layout, hash, parent, name, child))
    {
      hide SameStreams, Ascii, SameInodes, Walking, ChildAt, HasDirectory, Count, Find, Fold, ReadName, Hit,
           SameChildrenAt, WellFormed, Legible, Written;
      var at := FindRecord(records, ByInode(child));
      if at.None? {
        return Err(NotFound);
      }
      var inode := records[at.value];
      InodeHit(inode, child);
      if inode.kind != (if last then Regular else Directory) {
        return Err(WrongType);
      }
      var entry := FindRecord(records, ByName(parent, Fold(name)));
      EntryThere(records, parent, name, child);
      var i := entry.value;
      if !Ascii(name) {
        return Err(Unsupported);
      }
      var e := Written(layout, hash, parent, name, child);
      LegibleExact(layout, hash, parent, name, child);
      if walking {
        WalkWellFormed(before, records, nextId, path, parent);
        if Legible(layout, hash, name) {
          RespelledInodes(records, i, e);
          WalkRespelled(before, records, nextId, path, parent, i, e, name);
          if !last {
            DirectoryAt(records, inode);
            RespelledDirectory(records, i, e, child);
          }
        } else {
          Mislaid(records, nextId, i, e, parent, name);
        }
      }
      RewordedAt(records, i, parent, name, e);
      records := records[i := e];
      r := Ok(true);
    }

    /**
     * A child that is missing: a fresh id, one more entry counted in the parent, and its records.
     * The name is found afterwards exactly when the layout can read the entry.
     */
    method Add(layout: KeyLayout, hash: seq<byte> -> nat, parent: nat, name: seq<byte>, last: bool,
               ghost before: seq<Rec>, ghost path: seq<seq<byte>>, ghost walking: bool) returns (r: Result<nat>)
      requires ChildAt(records, parent, name).None?
      requires walking ==> Walking(before, records, nextId, path, parent) && HasDirectory(records, parent)
      modifies this
      ensures r.Ok? <==> CanAdd(old(records), old(nextId), parent, name)
      ensures r.Ok? ==> r.value == old(nextId) && nextId == old(nextId) + 1
      ensures nextId == old(nextId) || nextId < U64
      ensures r.Ok? ==> (ChildAt(records, parent, name).Some? <==> Legible(layout, hash, name))
      ensures r.Ok? && walking && Legible(layout, hash, name) ==>
                && Walking(before, records, nextId, path + [name], r.value) &&
                   (!last ==> HasDirectory(records, r.value))
                && (if last then StreamAt(records, r.value) == Ok(Location(r.value, 0, 0, 0))
                    else NoChildren(records, r.value))
                && (!last ==> InodeAt(records, r.value) == Some(NewInode(r.value, false)))
                && SameStreamsBut(records, old(records), r.value)
      ensures r.Ok? ==>
                Enlarged(old(records), records, parent, Written(layout, hash, parent, name, old(nextId)), old(nextId),
                         last)
    {
      hide SameStreamsBut, Walking, ChildAt, HasDirectory, Count, Find, Fold, ReadName, StreamAt, Hit, NoChildren,
           WellFormed, Ascii, Legible, Written;
      var oid := nextId;
      if oid + 1 >= U64 {
        return Err(Overflow);
      }
      nextId := oid + 1;
      var at := FindRecord(records, ByInode(parent));
      if at.None? {
        return Err(NotFound);
      }
      var i := at.value;
      InodeHit(records[i], parent);
      if records[i].children + 1 >= U32 {
        return Err(Overflow);
      }
      if !Ascii(name) {
        return Err(Unsupported);
      }
      var e := Written(layout, hash, parent, name, oid);
      LegibleExact(layout, hash, parent, name, oid);
      GrownKeeps(records, i, e, name, oid, last);
      ghost var grown := Grown(records, i, e, oid, last);
      if walking && Legible(layout, hash, name) {
        DirectoryInode(before, records, oid, path, parent);
        WalkGrown(before, records, oid, path, i, e, name, last);
        WalkWellFormed(before, records, oid, path, parent);
        WellFormedAt(records, oid, records[i]);
        if last {
          NewFileLocated(records, oid, i, e);
        } else {
          NewDirectoryEmpty(records, oid, i, e);
          NewDirectoryInode(records, oid, i, e);
          GrownMembers(records, i, e, oid, last, e);
          DirectoryAt(grown, NewInode(oid, last));
        }
      }
      records := records[i := Bumped(records[i])];
      records := records + [e];
      records := records + [NewInode(oid, last)];
      if last {
        records := records + [Extent(oid, 0, 0)];
        records := records + [Other(oid)];
      }
      assert records == grown;
      EnlargedAt(old(records), i, parent, e, oid, last);
      r := Ok(oid);
    }

    /**
     * Makes sure a path leads to a file, creating what is missing. If the layout can read the
     * names, it succeeds exactly when the path is acceptable; then the path resolves, every path
     * that resolved before still leads to the same object, every file that could be located still
     * is where it was, a path that did not resolve before is now an empty file with a fresh id,
     * and the catalog is well-formed: names unique up to case, every directory counting its
     * entries, ids handed out only once. Whatever the names, if the path passes
     * no directory twice, it succeeds exactly when the path is acceptable, and the path resolves
     * afterwards if and only if the layout can read every name.
     */
    method EnsureFileRecords(layout: KeyLayout, hash: seq<byte> -> nat, path: seq<seq<byte>>, rank: Rec -> int)
        returns (r: Result<nat>)
      requires Valid()
      modifies this
      ensures AllLegible(layout, hash, path) ==>
                && (r.Ok? <==> Acceptable(old(records), old(nextId), path))
                && (r.Ok? ==> Made(old(records), old(nextId), records, nextId, path, r.value))
                && (r.Ok? ==> MadeExactly(old(records), old(nextId), records, nextId, path, r.value))
      ensures r.Ok? ==> |records| <= |old(records)| + 2 * |path| + 2 && NoStubs(records)
      ensures r.Ok? && AllStorable(old(records)) && NamesShort(path) ==> AllStorable(records)
      ensures |path| == 1 && r.Ok? && ChildAt(old(records), ROOT, path[0]).None? ==>
                Gained(old(records), records, Written(layout, hash, ROOT, path[0], old(nextId)), old(nextId))
      ensures nextId == old(nextId) || nextId < U64
      ensures NoRevisit(old(records), path) ==> (r.Ok? <==> Acceptable(old(records), old(nextId), path))
      ensures NoRevisit(old(records), path) && r.Ok? ==>
                (Resolve(records, ROOT, path).Ok? <==> AllLegible(layout, hash, path))
    {
      hide Weighed, Gained, AllStorable, MadeExactly, NamesShort, NoStubs;
      hide Going, NoRevisit, Reworded, Enlarged, Written, Names, Spelled, Legible, Acceptable, Passes, KindIs, CanAdd,
           Ascii, SameInodes, SameStreams, SameStreamsBut, NewInode, Made, Walking, ChildAt, HasDirectory, StreamAt,
           Resolve, SortBy, WellFormed, SameChildrenAt, NoChildren, InodeAt, StopsAt;
      ghost var before, first, w := records, nextId, Walk(records, nextId, path, Marks(layout, hash, path));
      var parent := ROOT;
      ghost var parents, stop := [ROOT], 0;
      GoingStarts(w);
      SoundNoStubs(records, nextId);
      WeighedStarts(layout, hash, w);
      for index := 0 to |path|
        invariant Going(w, records, nextId, index, parents, stop) && Weighed(layout, hash, w, records, index)
        invariant index == 0 ==> parent == ROOT && nextId == first
        invariant |parents| == index + 1 && parents[index] == parent
        invariant nextId == first || nextId < U64
      {
        var name, last := path[index], index + 1 == |path|;
        ghost var was, walking := records, AllRead(w, index);
        LegibleMark(layout, hash, path, index, parent);
        GoingParts(w, records, nextId, index, parents, stop);
        WeighedWhole(layout, hash, w, records, index);
        var child := FindDirChild(records, parent, name);
        if child.Ok? {
          GoingEnter(w, records, nextId, index, parents, stop, child.value);
          var entered := Enter(layout, hash, parent, name, child.value, last, before, path[..index], walking);
          if entered.Err? {
            return Err(entered.error);
          }
          GoingEntered(w, was, records, nextId, index, parents, stop, child.value,
                       Written(layout, hash, parent, name, child.value));
          WeighedEntered(layout, hash, w, was, records, index, parent, child.value);
          parent, parents := child.value, parents + [child.value];
        } else {
          GoingAdd(w, records, nextId, index, parents, stop);
          ghost var oid := nextId;
          var added := Add(layout, hash, parent, name, last, before, path[..index], walking);
          if added.Err? {
            return Err(added.error);
          }
          GoingAdded(w, was, records, oid, index, parents, stop, Written(layout, hash, parent, name, oid));
          WeighedAdded(layout, hash, w, was, records, oid, index, parent);
          parent, parents, stop := added.value, parents + [added.value], if oid == first then index else stop;
        }
      }
      GoingEnds(w, records, nextId, parents, stop, rank);
      WeighedEnds(layout, hash, w, records, rank);
      records := SortBy(records, rank);
      r := Ok(parent);
    }
  }

  /** A name of 1023 bytes is stored with length zero: the record is there, and no lookup finds it. */
  lemma LongNameLost(hash: seq<byte> -> nat, parent: nat, name: seq<byte>, child: nat, p: nat, n: seq<byte>)
    requires |name| == 1023
    ensures !Names(Written(Hashed, hash, parent, name, child), p, n)
  {
    hide Fold;
    HashedKey(parent, hash(name), name);
    assert (1023 + 1) % 1024 == 0;
  }

  /**
   * On a volume with plain keys the call reports success for every name of three ASCII bytes or
   * more whose first and third differ, and the file it made cannot be found by that name.
   */
  method PlainFileLost(hash: seq<byte> -> nat, name: seq<byte>, rank: Rec -> int)
      returns (v: Volume, r: Result<nat>)
    requires |name| >= 3 && Ascii(name) && FoldByte(name[0]) != FoldByte(name[2])
    ensures r.Ok? && Resolve(v.records, ROOT, [name]).Err?
  {
    hide Ascii, Legible, SortBy, Acceptable;
    var records := [Inode(ROOT, Directory, 0, None)];
    BareRoot(name);
    v := new Volume(records, 16);
    r := v.EnsureFileRecords(Plain, hash, [name], rank);
    NeverPlain(hash, name);
  }

  lemma BareRoot(name: seq<byte>)
    requires Ascii(name)
    ensures var records := [Inode(ROOT, Directory, 0, None)];
            WellFormed(records, 16) && Acceptable(records, 16, [name]) && ChildAt(records, ROOT, name).None?
  {
    hide Ascii, Fold;
    var r := Inode(ROOT, Directory, 0, None);
    var records, path := [r], [name];
    forall q ensures Count(records, q) == if q == ByInode(ROOT) then 1 else 0 {
      CountPush([], r, q);
      assert [] + [r] == records;
    }
    assert records[0] == r;
    FindIs(records, ByName(ROOT, Fold(name)));
    FindIs(records, ByInode(ROOT));
    assert path[..0] == [] && path[..1] == path;
    assert ChildAt(records, ROOT, path[0]).None?;
    assert Resolve(records, ROOT, path[..1]).Err?;
    assert HasDirectory(records, ROOT);
  }

  /** What a hashed key reads as, however long its name: the name, or what ten bits of length leave of it. */
  lemma HashedReads(hash: seq<byte> -> nat, parent: nat, name: seq<byte>, child: nat)
    ensures var k := (|name| + 1) % 1024;
            ReadName(Written(Hashed, hash, parent, name, child)) == if k == 0 then None else Some(name[..k - 1])
  {
    HashedKey(parent, hash(name), name);
  }

  /** Names stay unique exactly when the new entry reads as no name, or as one its directory does not have. */
  lemma UniqueIff(records: seq<Rec>, next: nat, i: nat, e: Rec, oid: nat, last: bool)
    requires WellFormed(records, next) && i < |records| && records[i].Inode? && e.DirRec?
    ensures (forall p, f :: Count(Grown(records, i, e, oid, last), ByName(p, f)) <= 1) <==>
            ReadName(e).None? || ChildAt(records, e.parent, ReadName(e).value).None?
  {
    hide Count, Fold, Find, Grown, RecOk, HasDirectory;
    var grown := Grown(records, i, e, oid, last);
    forall p, f ensures Count(grown, ByName(p, f)) == Count(records, ByName(p, f)) + Gain(ByName(p, f), e, oid, last) {
      GrownCounts(records, i, e, oid, last, ByName(p, f));
    }
    if ReadName(e).Some? {
      var q := ByName(e.parent, Fold(ReadName(e).value));
      FindIs(records, q);
      assert Count(grown, q) == Count(records, q) + 1;
    }
  }

  /**
   * On a volume with hashed keys, after a file `name` another of `name` and 1024 more bytes is
   * made without complaint, and the directory then has two entries of the same name.
   */
  method NameTwice(hash: seq<byte> -> nat, name: seq<byte>, rest: seq<byte>, rank: Rec -> int)
      returns (v: Volume, r1: Result<nat>, r2: Result<nat>)
    requires |name| <= 1022 && |rest| == 1024 && Ascii(name) && Ascii(rest)
    ensures r1.Ok? && r2.Ok? && Count(v.records, ByName(ROOT, Fold(name))) == 2
  {
    hide Ascii, SortBy, Acceptable, Passes, Made, MadeExactly, Gained, Written, WellFormed, Count, Fold, NoRevisit;
    var records := [Inode(ROOT, Directory, 0, None)];
    BareRoot(name);
    v := new Volume(records, 16);
    r1 := v.EnsureFileRecords(Hashed, hash, [name], rank);
    ghost var one, next := v.records, v.nextId;
    OneName(hash, name, rest, one, next, r1.value);
    r2 := v.EnsureFileRecords(Hashed, hash, [name + rest], rank);
    LoneApart(one, name + rest);
    BothRead(hash, name, rest, records, one, v.records, 16, next);
  }

  lemma LoneApart(records: seq<Rec>, name: seq<byte>)
    ensures NoRevisit(records, [name])
  {
  }

  /** After the first call there is room for the second name, which nothing has yet. */
  lemma OneName(hash: seq<byte> -> nat, name: seq<byte>, rest: seq<byte>, one: seq<Rec>, next: nat, id: nat)
    requires |name| <= 1022 && |rest| == 1024 && Ascii(name) && Ascii(rest)
    requires var records := [Inode(ROOT, Directory, 0, None)];
             && WellFormed(records, 16) && Made(records, 16, one, next, [name], id)
             && MadeExactly(records, 16, one, next, [name], id)
             && Gained(records, one, Written(Hashed, hash, ROOT, name, 16), 16)
    ensures WellFormed(one, next) && ChildAt(one, ROOT, name + rest).None? && Acceptable(one, next, [name + rest])
  {
    hide Fold, WellFormed, Find, Count, Laid, StreamAt, Keeps, Written, StreamsKept;
    var records, long := [Inode(ROOT, Directory, 0, None)], name + rest;
    RootCounts();
    HashedReads(hash, ROOT, name, 16);
    assert name[..|name|] == name;
    var q := ByName(ROOT, Fold(long));
    assert Count(one, q) == Count(records, q) + Gain(q, Written(Hashed, hash, ROOT, name, 16), 16, true);
    FindIs(one, q);
    var stop: nat :| Laid(records, 16, one, next, [name], 1, id, stop);
    RootSpacious(one, next, name, id, stop);
    LoneAcceptable(one, next, long);
  }

  lemma RootCounts()
    ensures var records := [Inode(ROOT, Directory, 0, None)];
            forall q :: Count(records, q) == if q == ByInode(ROOT) then 1 else 0
  {
    hide Fold;
    var r := Inode(ROOT, Directory, 0, None);
    forall q ensures Count([r], q) == if q == ByInode(ROOT) then 1 else 0 {
      CountPush([], r, q);
      assert [] + [r] == [r];
    }
  }

  lemma RootSpacious(one: seq<Rec>, next: nat, name: seq<byte>, id: nat, stop: nat)
    requires Laid([Inode(ROOT, Directory, 0, None)], 16, one, next, [name], 1, id, stop)
    ensures Spacious(one, ROOT) && next <= 17
  {
    hide Fold, Count, ChildAt;
    var records := [Inode(ROOT, Directory, 0, None)];
    assert InodeAt(records, ROOT) == Some(records[0]) by {
      FindIs(records, ByInode(ROOT));
      assert Hit(ByInode(ROOT), records[0]);
    }
    if next == 16 {
      assert InodeAt(one, ROOT) == InodeAt(records, ROOT);
    } else {
      assert [name][..0] == [];
      assert InodeAt(one, ROOT) == InodeThen(records, 16, [name], 1, 0, ROOT, ROOT);
    }
  }

  lemma LoneAcceptable(records: seq<Rec>, next: nat, name: seq<byte>)
    requires Ascii(name) && Spacious(records, ROOT) && next + 1 < U64 && ChildAt(records, ROOT, name).None?
    ensures Acceptable(records, next, [name])
  {
    hide ChildAt, Ascii, Spacious;
    var path := [name];
    assert path[..0] == [] && path[..1] == path;
    assert Resolve(records, ROOT, path[..1]).Err?;
  }

  lemma Modulo(n: nat, more: nat)
    requires n <= 1022 && (more == 0 || more == 1024)
    ensures (n + more + 1) % 1024 == n + 1
  {
  }

  /** A name and the same name with 1024 more bytes are listed alike. */
  lemma ReadsAs(hash: seq<byte> -> nat, name: seq<byte>, rest: seq<byte>, child: nat)
    requires |name| <= 1022 && (|rest| == 1024 || rest == [])
    ensures ReadName(Written(Hashed, hash, ROOT, name + rest, child)) == Some(name)
  {
    hide *;
    var long := name + rest;
    var k := (|long| + 1) % 1024;
    assert k == |name| + 1 by { Modulo(|name|, |rest|); }
    assert long[..k - 1] == name;
    HashedReads(hash, ROOT, long, child);
  }

  lemma BothRead(hash: seq<byte> -> nat, name: seq<byte>, rest: seq<byte>, records: seq<Rec>, one: seq<Rec>,
                 two: seq<Rec>, first: nat, next: nat)
    requires |name| <= 1022 && |rest| == 1024 && records == [Inode(ROOT, Directory, 0, None)]
    requires Gained(records, one, Written(Hashed, hash, ROOT, name, first), first)
    requires Gained(one, two, Written(Hashed, hash, ROOT, name + rest, next), next)
    ensures Count(two, ByName(ROOT, Fold(name))) == 2
  {
    hide Fold, Count, Written, ReadName;
    RootCounts();
    ReadsAs(hash, name, [], first);
    assert name + [] == name;
    ReadsAs(hash, name, rest, next);
    var q := ByName(ROOT, Fold(name));
    assert Count(one, q) == Count(records, q) + Gain(q, Written(Hashed, hash, ROOT, name, first), first, true);
    assert Count(two, q) == Count(one, q) + Gain(q, Written(Hashed, hash, ROOT, name + rest, next), next, true);
  }
}

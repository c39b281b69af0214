/**
 * Catalog records, names and paths (src/apfs_update.rs `find_dir_child`, `resolve_path`,
 * `locate_file`): how records are counted and found, which catalogs are well-formed, and what
 * adding a child, respelling an entry and sorting keep.
 */
module CatalogRecords {
  import opened Bytes
  import opened DirectoryKey

  const ROOT: nat := 2

  datatype NodeKind = Directory | Regular

  /**
   * Catalog records. A directory record keeps the bytes after the length field of its key and that
   * field, which counts the terminating zero, as the volume's layout reads them; one whose value is
   * too short for an object id is a stub. `stream` is the
   * size and allocated length of an inode in the single-stream form this program writes.
   */
  datatype Rec =
    | DirRec(parent: nat, text: seq<byte>, len: nat, child: nat)
    | Inode(id: nat, kind: NodeKind, children: nat, stream: Option<(nat, nat)>)
    | Extent(id: nat, length: nat, paddr: nat)
    | Stub(parent: nat, text: seq<byte>, len: nat)
    | Other(id: nat)

  // ---- names ---------------------------------------------------------------------------------------------

  function FoldByte(b: byte): byte {
    if 65 <= b <= 90 then b + 32 else b
  }

  function Fold(name: seq<byte>): (r: seq<byte>)
    ensures |r| == |name|
  {
    if name == [] then [] else Fold(name[..|name| - 1]) + [FoldByte(name[|name| - 1])]
  }

  /** The name a key's length field points out, if the field fits the key. */
  function ReadName(r: Rec): Option<seq<byte>>
    requires r.DirRec? || r.Stub?
  {
    if r.len == 0 || r.len - 1 > |r.text| then None else Some(r.text[..r.len - 1])
  }

  /** The record names `name` in `parent`, ignoring ASCII case. */
  predicate Names(r: Rec, parent: nat, name: seq<byte>) {
    r.DirRec? && r.parent == parent && ReadName(r).Some? && Fold(ReadName(r).value) == Fold(name)
  }

  /** The record of the key `drec_key` makes, as the layout reads it. */
  function Written(layout: KeyLayout, hash: seq<byte> -> nat, parent: nat, name: seq<byte>, child: nat): (r: Rec)
    ensures r.DirRec? && r.parent == parent && r.child == child
  {
    var key := DrecKey(parent, hash(name), name);
    DirRec(parent, NameText(layout, key), NameLength(layout, key).value, child)
  }

  /**
   * A name whose written key is read back as that name. Hashed keys have ten bits for the length; a
   * plain reader takes sixteen, and takes the rest of the hash for the first two bytes of the name.
   */
  predicate Legible(layout: KeyLayout, hash: seq<byte> -> nat, name: seq<byte>) {
    match layout
    case Hashed => |name| <= 1022
    case Plain =>
      var v := Packed(hash(name), |name| + 1);
      v % U16 == |name| + 1 && Fold((LeBytes(v / U16, 2) + name)[..|name|]) == Fold(name)
  }

  /** The layout can read every name of the path. */
  predicate AllLegible(layout: KeyLayout, hash: seq<byte> -> nat, path: seq<seq<byte>>) {
    forall i :: 0 <= i < |path| ==> Legible(layout, hash, path[i])
  }

  lemma LegibleExact(layout: KeyLayout, hash: seq<byte> -> nat, parent: nat, name: seq<byte>, child: nat)
    ensures Names(Written(layout, hash, parent, name, child), parent, name) <==> Legible(layout, hash, name)
  {
    hide Fold, LeBytes, Packed, NameText, NameLength, DrecKey;
    match layout
    case Hashed =>
      HashedKey(parent, hash(name), name);
      assert name[..|name|] == name;
    case Plain =>
      PlainKeyReads(parent, hash(name), name);
  }

  /** Up to 1022 bytes: six bits of the hash are zero, and the others and the name spell the name. */
  lemma PlainLegible(hash: seq<byte> -> nat, name: seq<byte>)
    requires |name| <= 1022
    ensures Legible(Plain, hash, name) <==>
            hash(name) % 64 == 0 && Fold((LeBytes(hash(name) / 64, 2) + name)[..|name|]) == Fold(name)
  {
    hide Fold, LeBytes, Packed;
    ShortLength(hash(name), |name| + 1);
  }

  lemma {:induction false} FoldAt(name: seq<byte>, i: nat)
    requires i < |name|
    ensures Fold(name)[i] == FoldByte(name[i])
  {
    if i < |name| - 1 {
      FoldAt(name[..|name| - 1], i);
    }
  }

  /** Whatever the hash, a plain reader loses every name whose first and third bytes differ. */
  lemma NeverPlain(hash: seq<byte> -> nat, name: seq<byte>)
    requires |name| >= 3 && FoldByte(name[0]) != FoldByte(name[2])
    ensures !Legible(Plain, hash, name)
  {
    hide Fold, LeBytes, Packed;
    var v := Packed(hash(name), |name| + 1);
    var seen := (LeBytes(v / U16, 2) + name)[..|name|];
    assert seen[2] == name[0];
    FoldAt(seen, 2);
    FoldAt(name, 2);
  }

  /** An entry that leads from a name in a directory to a child. */
  predicate Spells(e: Rec, parent: nat, name: seq<byte>, child: nat) {
    e.DirRec? && e.child == child && Names(e, parent, name)
  }

  predicate Ascii(name: seq<byte>) {
    forall i :: 0 <= i < |name| ==> name[i] < 128
  }

  // ---- counting records ------------------------------------------------------------------------------------

  datatype Query = ByName(parent: nat, folded: seq<byte>) | ByParent(parent: nat) | ByInode(id: nat) | ByExtent(id: nat)

  predicate Hit(q: Query, r: Rec) {
    match q
    case ByName(p, f) => r.DirRec? && r.parent == p && ReadName(r).Some? && Fold(ReadName(r).value) == f
    case ByParent(p) => r.DirRec? && r.parent == p
    case ByInode(id) => r.Inode? && r.id == id
    case ByExtent(id) => r.Extent? && r.id == id
  }

  function Count(records: seq<Rec>, q: Query): nat {
    if records == [] then 0 else Count(records[..|records| - 1], q) + if Hit(q, records[|records| - 1]) then 1 else 0
  }

  /** The first record that matches. */
  function Find(records: seq<Rec>, q: Query): Option<nat> {
    if records == [] then None else
    var n := |records| - 1;
    var earlier := Find(records[..n], q);
    if earlier.Some? then earlier else if Hit(q, records[n]) then Some(n) else None
  }

  lemma {:induction false} FindIs(records: seq<Rec>, q: Query)
    ensures match Find(records, q)
            case None => Count(records, q) == 0 && forall i :: 0 <= i < |records| ==> !Hit(q, records[i])
            case Some(k) =>
              k < |records| && Hit(q, records[k]) && Count(records, q) > 0 && forall i :: 0 <= i < k ==>
                !Hit(q, records[i])
  {
    hide Hit;
    if records != [] {
      FindIs(records[..|records| - 1], q);
    }
  }

  lemma CountPush(records: seq<Rec>, r: Rec, q: Query)
    ensures Count(records + [r], q) == Count(records, q) + if Hit(q, r) then 1 else 0
    ensures Find(records + [r], q) ==
            if Find(records, q).Some? then Find(records, q) else if Hit(q, r) then Some(|records|) else None
  {
    hide Hit;
    assert (records + [r])[..|records|] == records;
  }

  lemma {:induction false} CountReplace(records: seq<Rec>, i: nat, r: Rec, q: Query)
    requires i < |records| && (Hit(q, r) <==> Hit(q, records[i]))
    ensures Count(records[i := r], q) == Count(records, q) && Find(records[i := r], q) == Find(records, q)
  {
    hide Hit;
    var n := |records| - 1;
    if i == n {
      assert records[i := r][..n] == records[..n];
    } else {
      CountReplace(records[..n], i, r, q);
      assert records[i := r][..n] == records[..n][i := r];
    }
  }

  /** With at most one match, any match is the first. */
  lemma {:induction false} OnlyMatch(records: seq<Rec>, q: Query, i: nat)
    requires i < |records| && Hit(q, records[i]) && Count(records, q) <= 1
    ensures Find(records, q) == Some(i)
  {
    hide Hit;
    var n := |records| - 1;
    FindIs(records[..n], q);
    if i < n {
      OnlyMatch(records[..n], q, i);
    }
  }

  // ---- paths -----------------------------------------------------------------------------------------------

  function ChildAt(records: seq<Rec>, parent: nat, name: seq<byte>): Option<nat> {
    FindIs(records, ByName(parent, Fold(name)));
    match Find(records, ByName(parent, Fold(name)))
    case Some(i) => Some(records[i].child)
    case None => None
  }

  /** A directory record of this name, with or without a value. */
  predicate Tagged(r: Rec, parent: nat, name: seq<byte>) {
    (r.DirRec? || r.Stub?) && r.parent == parent && ReadName(r).Some? && Fold(ReadName(r).value) == Fold(name)
  }

  /** What the first record of this name says. */
  function Lookup(records: seq<Rec>, parent: nat, name: seq<byte>): Result<nat> {
    if records == [] then Err(NotFound)
    else if !Tagged(records[0], parent, name) then Lookup(records[1..], parent, name)
    else if records[0].DirRec? then Ok(records[0].child) else Err(ShortRecord)
  }

  predicate NoStubs(records: seq<Rec>) {
    forall i :: 0 <= i < |records| ==> !records[i].Stub?
  }

  /** Where every directory record has its value, a lookup finds the child or nothing. */
  lemma {:induction false} LookupIs(records: seq<Rec>, parent: nat, name: seq<byte>, i: nat)
    requires NoStubs(records) && i <= |records|
    requires forall k :: 0 <= k < i ==> !Names(records[k], parent, name)
    ensures Lookup(records[i..], parent, name) ==
            match ChildAt(records, parent, name) case Some(c) => Ok(c) case None => Err(NotFound)
    decreases |records| - i
  {
    hide Fold, ReadName, Count, Find;
    FindIs(records, ByName(parent, Fold(name)));
    if i < |records| {
      assert records[i..][0] == records[i] && records[i..][1..] == records[i + 1..];
      if !Names(records[i], parent, name) {
        LookupIs(records, parent, name, i + 1);
      }
    } else {
      assert records[i..] == [];
    }
  }

  /** `find_dir_child`: the first record whose name matches, ignoring case. */
  method FindDirChild(records: seq<Rec>, parent: nat, name: seq<byte>) returns (r: Result<nat>)
    ensures r == Lookup(records, parent, name)
    ensures NoStubs(records) ==>
              r == match ChildAt(records, parent, name) case Some(c) => Ok(c) case None => Err(NotFound)
  {
    hide Fold, ReadName, ChildAt;
    assert records[0..] == records;
    if NoStubs(records) {
      LookupIs(records, parent, name, 0);
    }
    for i := 0 to |records|
      invariant Lookup(records[i..], parent, name) == Lookup(records, parent, name)
    {
      assert records[i..][0] == records[i] && records[i..][1..] == records[i + 1..];
      if Tagged(records[i], parent, name) {
        return if records[i].DirRec? then Ok(records[i].child) else Err(ShortRecord);
      }
    }
    assert records[|records|..] == [];
    r := Err(NotFound);
  }

  /** Name by name from a directory, stopping at the first that fails. */
  function Follow(records: seq<Rec>, from: nat, path: seq<seq<byte>>): Result<nat>
    decreases |path|
  {
    if path == [] then Ok(from) else
    match Lookup(records, from, path[0])
    case Ok(c) => Follow(records, c, path[1..])
    case Err(e) => Err(e)
  }

  lemma {:induction false} FollowIs(records: seq<Rec>, from: nat, path: seq<seq<byte>>)
    requires NoStubs(records)
    ensures Follow(records, from, path) == Resolve(records, from, path)
    decreases |path|
  {
    hide ChildAt, Lookup;
    if path != [] {
      assert records[0..] == records;
      LookupIs(records, from, path[0], 0);
      if ChildAt(records, from, path[0]).Some? {
        FollowIs(records, ChildAt(records, from, path[0]).value, path[1..]);
      }
    }
  }

  function Resolve(records: seq<Rec>, from: nat, path: seq<seq<byte>>): Result<nat>
    decreases |path|
  {
    if path == [] then Ok(from) else
    match ChildAt(records, from, path[0])
    case Some(c) => Resolve(records, c, path[1..])
    case None => Err(NotFound)
  }

  method ResolvePath(records: seq<Rec>, path: seq<seq<byte>>) returns (r: Result<nat>)
    ensures r == Follow(records, ROOT, path)
    ensures NoStubs(records) ==> r == Resolve(records, ROOT, path)
  {
    hide ChildAt, Lookup;
    if NoStubs(records) {
      FollowIs(records, ROOT, path);
    }
    var current := ROOT;
    assert path[0..] == path;
    for i := 0 to |path|
      invariant Follow(records, current, path[i..]) == Follow(records, ROOT, path)
    {
      assert path[i..][0] == path[i] && path[i..][1..] == path[i + 1..];
      var next := FindDirChild(records, current, path[i]);
      if next.Err? {
        return next;
      }
      current := next.value;
    }
    assert path[|path|..] == [];
    r := Ok(current);
  }

  lemma {:induction false} ResolveAppend(records: seq<Rec>, from: nat, path: seq<seq<byte>>, name: seq<byte>)
    requires Resolve(records, from, path).Ok?
    ensures Resolve(records, from, path + [name]) ==
            match ChildAt(records, Resolve(records, from, path).value, name)
            case Some(c) => Ok(c)
            case None => Err(NotFound)
    decreases |path|
  {
    hide ChildAt;
    if path == [] {
      assert (path + [name])[1..] == [];
    } else {
      ResolveAppend(records, ChildAt(records, from, path[0]).value, path[1..], name);
      assert (path + [name])[1..] == path[1..] + [name];
    }
  }

  /** Every entry that could be found is still found, and leads to the same object. */
  ghost predicate Keeps(before: seq<Rec>, after: seq<Rec>) {
    forall p, n :: ChildAt(before, p, n).Some? ==> ChildAt(after, p, n) == ChildAt(before, p, n)
  }

  /** One record in a directory was replaced: the one the name leads by. */
  ghost predicate Reworded(before: seq<Rec>, after: seq<Rec>, parent: nat, name: seq<byte>, e: Rec) {
    exists i: nat ::
      Find(before, ByName(parent, Fold(name))) == Some(i) && i < |before| && Names(before[i], parent, name) &&
      after == before[i := e]
  }

  lemma RewordedAt(records: seq<Rec>, i: nat, parent: nat, name: seq<byte>, e: Rec)
    requires Find(records, ByName(parent, Fold(name))) == Some(i) && i < |records| && Names(records[i], parent, name)
    ensures Reworded(records, records[i := e], parent, name, e)
  {
    hide Find, Fold, ReadName;
  }

  /** So every path that could be resolved still is, to the same object. */
  lemma {:induction false} PathsKept(before: seq<Rec>, after: seq<Rec>, from: nat, path: seq<seq<byte>>)
    requires Keeps(before, after) && Resolve(before, from, path).Ok?
    ensures Resolve(after, from, path) == Resolve(before, from, path)
    decreases |path|
  {
    hide ChildAt;
    if path != [] {
      PathsKept(before, after, ChildAt(before, from, path[0]).value, path[1..]);
    }
  }

  lemma KeepsTrans(a: seq<Rec>, b: seq<Rec>, c: seq<Rec>)
    requires Keeps(a, b) && Keeps(b, c)
    ensures Keeps(a, c)
  {
    hide ChildAt;
  }

  // ---- well-formed catalogs ----------------------------------------------------------------------------------

  ghost predicate HasDirectory(records: seq<Rec>, id: nat) {
    exists r :: r in records && r.Inode? && r.id == id && r.kind == Directory
  }

  /** What one record owes the others. */
  ghost predicate RecOk(records: seq<Rec>, next: nat, r: Rec) {
    match r
    case DirRec(p, _, _, c) =>
      p < next && c < next && Count(records, ByInode(c)) == 1 && HasDirectory(records, p)
    case Inode(id, kind, children, _) => id < next && (kind == Directory ==> children == Count(records, ByParent(id)))
    case Extent(id, _, _) => id < next
    case Other(id) => id < next
    case Stub(_, _, _) => false
  }

  /**
   * Inodes are unique, names are unique in their directory up to case, every entry has a
   * directory and an inode, every directory counts its entries, and ids lie below the next one.
   */
  ghost predicate WellFormed(records: seq<Rec>, next: nat) {
    && (forall id :: Count(records, ByInode(id)) <= 1)
    && (forall p, f :: Count(records, ByName(p, f)) <= 1)
    && (forall r :: r in records ==> RecOk(records, next, r))
    && HasDirectory(records, ROOT)
  }

  /** No record mentions an id that has not been handed out. */
  lemma FreshId(records: seq<Rec>, next: nat, q: Query)
    requires WellFormed(records, next)
    requires match q
             case ByName(p, _) => p >= next
             case ByParent(p) => p >= next
             case ByInode(id) => id >= next
             case ByExtent(id) => id >= next
    ensures Count(records, q) == 0
  {
    hide Count;
    forall i | 0 <= i < |records| ensures !Hit(q, records[i]) {
      assert RecOk(records, next, records[i]);
    }
    FindIs(records, q);
  }

  // ---- adding a child ----------------------------------------------------------------------------------------

  /** The records a new child brings. */
  function NewInode(oid: nat, last: bool): Rec {
    if last then Inode(oid, Regular, 1, Some((0, 0))) else Inode(oid, Directory, 0, None)
  }

  function Bumped(r: Rec): Rec
    requires r.Inode?
  {
    r.(children := r.children + 1)
  }

  /** The catalog with a new child: the parent counts it, and its records are appended. */
  function Grown(records: seq<Rec>, i: nat, e: Rec, oid: nat, last: bool): seq<Rec>
    requires i < |records| && records[i].Inode?
  {
    var base := records[i := Bumped(records[i])] + [e] + [NewInode(oid, last)];
    if last then base + [Extent(oid, 0, 0)] + [Other(oid)] else base
  }

  /** A child was added to the directory whose inode is found first. */
  ghost predicate Enlarged(before: seq<Rec>, after: seq<Rec>, parent: nat, e: Rec, oid: nat, last: bool) {
    exists i: nat ::
      Find(before, ByInode(parent)) == Some(i) && i < |before| && before[i].Inode? && before[i].id == parent &&
      after == Grown(before, i, e, oid, last)
  }

  lemma EnlargedAt(records: seq<Rec>, i: nat, parent: nat, e: Rec, oid: nat, last: bool)
    requires Find(records, ByInode(parent)) == Some(i) && i < |records| && records[i].Inode? && records[i].id == parent
    ensures Enlarged(records, Grown(records, i, e, oid, last), parent, e, oid, last)
  {
    hide Find, Grown;
  }

  /** What the new child adds to any count. */
  function Gain(q: Query, e: Rec, oid: nat, last: bool): nat {
    match q
    case ByName(_, _) => if Hit(q, e) then 1 else 0
    case ByParent(_) => if Hit(q, e) then 1 else 0
    case ByInode(id) => if id == oid then 1 else 0
    case ByExtent(id) => if last && id == oid then 1 else 0
  }

  lemma GrownCounts(records: seq<Rec>, i: nat, e: Rec, oid: nat, last: bool, q: Query)
    requires i < |records| && records[i].Inode? && e.DirRec?
    ensures Count(Grown(records, i, e, oid, last), q) == Count(records, q) + Gain(q, e, oid, last)
    ensures Find(records, q).Some? ==> Find(Grown(records, i, e, oid, last), q) == Find(records, q)
    ensures q.ByName? && Find(records, q).None? ==>
              Find(Grown(records, i, e, oid, last), q) == if Hit(q, e) then Some(|records|) else None
  {
    hide Count, Find, Fold;
    var bumped := records[i := Bumped(records[i])];
    CountReplace(records, i, Bumped(records[i]), q);
    CountPush(bumped, e, q);
    CountPush(bumped + [e], NewInode(oid, last), q);
    var base := bumped + [e] + [NewInode(oid, last)];
    CountPush(base, Extent(oid, 0, 0), q);
    CountPush(base + [Extent(oid, 0, 0)], Other(oid), q);
  }

  ghost predicate ElsewhereIn(records: seq<Rec>, i: nat, r: Rec) {
    exists k :: 0 <= k < |records| && k != i && records[k] == r
  }

  /** Members of the grown catalog: old records, the bumped parent and the new ones. */
  lemma GrownMembers(records: seq<Rec>, i: nat, e: Rec, oid: nat, last: bool, r: Rec)
    requires i < |records| && records[i].Inode? && r in Grown(records, i, e, oid, last)
    ensures ElsewhereIn(records, i, r) || r == Bumped(records[i]) || r == e
            || r == NewInode(oid, last) || (last && (r == Extent(oid, 0, 0) || r == Other(oid)))
    ensures NewInode(oid, last) in Grown(records, i, e, oid, last) &&
            Bumped(records[i]) in Grown(records, i, e, oid, last)
  {
    var bumped := records[i := Bumped(records[i])];
    assert bumped[i] == Bumped(records[i]);
    if r in bumped {
      var k :| 0 <= k < |bumped| && bumped[k] == r;
      assert k != i ==> records[k] == r;
    }
  }

  /** Directories stay directories. */
  lemma GrownDirectories(records: seq<Rec>, i: nat, e: Rec, oid: nat, last: bool, id: nat)
    requires i < |records| && records[i].Inode? && HasDirectory(records, id)
    ensures HasDirectory(Grown(records, i, e, oid, last), id)
  {
    var r :| r in records && r.Inode? && r.id == id && r.kind == Directory;
    var k :| 0 <= k < |records| && records[k] == r;
    var bumped := records[i := Bumped(records[i])];
    var s := if k == i then Bumped(r) else r;
    assert bumped[k] == s;
    assert s in Grown(records, i, e, oid, last);
  }

  lemma GrownRecOk(records: seq<Rec>, next: nat, i: nat, e: Rec, name: seq<byte>, last: bool, r: Rec)
    requires WellFormed(records, next) && i < |records| && records[i].Inode? && records[i].kind == Directory
    requires Spells(e, records[i].id, name, next) && r in Grown(records, i, e, next, last)
    ensures RecOk(Grown(records, i, e, next, last), next + 1, r)
  {
    hide Grown, Count, HasDirectory, Fold, WellFormed;
    var grown, parent := Grown(records, i, e, next, last), records[i].id;
    GrownMembers(records, i, e, next, last, r);
    WellFormedAt(records, next, records[i]);
    DirectoryAt(records, records[i]);
    GrownDirectories(records, i, e, next, last, parent);
    FreshId(records, next, ByInode(next));
    FreshId(records, next, ByParent(next));
    if ElsewhereIn(records, i, r) {
      WellFormedAt(records, next, r);
      OtherObject(records, next, i, r);
      if r.DirRec? {
        GrownDirectories(records, i, e, next, last, r.parent);
      }
    }
    if r.DirRec? {
      GrownCounts(records, i, e, next, last, ByInode(r.child));
    } else if r.Inode? {
      GrownCounts(records, i, e, next, last, ByParent(r.id));
    }
  }

  lemma WellFormedAt(records: seq<Rec>, next: nat, r: Rec)
    requires WellFormed(records, next) && r in records
    ensures RecOk(records, next, r)
  {
  }

  lemma DirectoryAt(records: seq<Rec>, r: Rec)
    requires r in records && r.Inode? && r.kind == Directory
    ensures HasDirectory(records, r.id)
  {
  }

  /** An inode at another place belongs to another object. */
  lemma OtherObject(records: seq<Rec>, next: nat, i: nat, r: Rec)
    requires WellFormed(records, next) && i < |records| && records[i].Inode? && ElsewhereIn(records, i, r)
    ensures r in records && (r.Inode? ==> r.id != records[i].id)
  {
    hide Count;
    var k :| 0 <= k < |records| && k != i && records[k] == r;
    if r.Inode? && r.id == records[i].id {
      OnlyMatch(records, ByInode(r.id), k);
      OnlyMatch(records, ByInode(r.id), i);
    }
  }

  /** Adding a child keeps the catalog well-formed. */
  lemma GrownWellFormed(records: seq<Rec>, next: nat, i: nat, e: Rec, name: seq<byte>, last: bool)
    requires WellFormed(records, next) && i < |records| && records[i].Inode? && records[i].kind == Directory
    requires Spells(e, records[i].id, name, next) && ChildAt(records, records[i].id, name).None?
    ensures WellFormed(Grown(records, i, e, next, last), next + 1)
  {
    hide Grown, Count, HasDirectory, Fold, RecOk;
    var grown, parent := Grown(records, i, e, next, last), records[i].id;
    forall id ensures Count(grown, ByInode(id)) <= 1 {
      GrownCounts(records, i, e, next, last, ByInode(id));
      FreshId(records, next, ByInode(next));
    }
    forall p, f ensures Count(grown, ByName(p, f)) <= 1 {
      GrownCounts(records, i, e, next, last, ByName(p, f));
      FindIs(records, ByName(parent, Fold(name)));
    }
    forall r | r in grown ensures RecOk(grown, next + 1, r) {
      GrownRecOk(records, next, i, e, name, last, r);
    }
    GrownDirectories(records, i, e, next, last, ROOT);
  }

  /** The new child is found if its entry spells its name, and everything found before still is. */
  lemma GrownKeeps(records: seq<Rec>, i: nat, e: Rec, name: seq<byte>, oid: nat, last: bool)
    requires i < |records| && records[i].Inode? && e.DirRec? && e.child == oid &&
             ChildAt(records, records[i].id, name).None?
    ensures Keeps(records, Grown(records, i, e, oid, last))
    ensures ChildAt(Grown(records, i, e, oid, last), records[i].id, name) ==
            if Names(e, records[i].id, name) then Some(oid) else None
  {
    hide Count, Fold, Find;
    var grown, parent := Grown(records, i, e, oid, last), records[i].id;
    forall p, n | ChildAt(records, p, n).Some? ensures ChildAt(grown, p, n) == ChildAt(records, p, n) {
      var q := ByName(p, Fold(n));
      GrownCounts(records, i, e, oid, last, q);
      FindIs(records, q);
      GrownAt(records, i, e, oid, last, Find(records, q).value);
    }
    GrownCounts(records, i, e, oid, last, ByName(parent, Fold(name)));
    FindIs(grown, ByName(parent, Fold(name)));
  }

  lemma GrownAt(records: seq<Rec>, i: nat, e: Rec, oid: nat, last: bool, k: nat)
    requires i < |records| && records[i].Inode? && k < |records|
    ensures Grown(records, i, e, oid, last)[k] == if k == i then Bumped(records[i]) else records[k]
  {
  }

  // ---- respelling an entry --------------------------------------------------------------------------------------

  /** The entry that leads from the name is replaced by one that still does. */
  ghost predicate Respells(records: seq<Rec>, i: nat, e: Rec, name: seq<byte>) {
    && i < |records| && records[i].DirRec? && Names(records[i], records[i].parent, name)
    && Spells(e, records[i].parent, name, records[i].child)
  }

  lemma RespelledHits(records: seq<Rec>, i: nat, e: Rec, name: seq<byte>, q: Query)
    requires Respells(records, i, e, name)
    ensures Count(records[i := e], q) == Count(records, q) && Find(records[i := e], q) == Find(records, q)
  {
    hide Count, Find, Fold, ReadName;
    CountReplace(records, i, e, q);
  }

  lemma RespelledWellFormed(records: seq<Rec>, next: nat, i: nat, e: Rec, name: seq<byte>)
    requires WellFormed(records, next) && Respells(records, i, e, name)
    ensures WellFormed(records[i := e], next)
    ensures forall p, n :: ChildAt(records[i := e], p, n) == ChildAt(records, p, n)
  {
    hide Count, Fold, Find, Names;
    var after := records[i := e];
    forall id ensures Count(after, ByInode(id)) <= 1 {
      RespelledHits(records, i, e, name, ByInode(id));
    }
    forall p, f ensures Count(after, ByName(p, f)) <= 1 {
      RespelledHits(records, i, e, name, ByName(p, f));
    }
    forall r | r in after ensures RecOk(after, next, r) {
      RespelledRecOk(records, next, i, e, name, r);
    }
    RespelledDirectory(records, i, e, ROOT);
    forall p, n ensures ChildAt(after, p, n) == ChildAt(records, p, n) {
      RespelledHits(records, i, e, name, ByName(p, Fold(n)));
      FindIs(records, ByName(p, Fold(n)));
    }
  }

  lemma RespelledDirectory(records: seq<Rec>, i: nat, e: Rec, id: nat)
    requires i < |records| && records[i].DirRec? && HasDirectory(records, id)
    ensures HasDirectory(records[i := e], id)
  {
    var r :| r in records && r.Inode? && r.id == id && r.kind == Directory;
    var k :| 0 <= k < |records| && records[k] == r;
    assert records[i := e][k] == r;
  }

  lemma RespelledRecOk(records: seq<Rec>, next: nat, i: nat, e: Rec, name: seq<byte>, r: Rec)
    requires WellFormed(records, next) && Respells(records, i, e, name) && r in records[i := e]
    ensures RecOk(records[i := e], next, r)
  {
    hide Count, Fold, Find, ReadName, HasDirectory, WellFormed;
    var after := records[i := e];
    var k :| 0 <= k < |after| && after[k] == r;
    var was := records[k];
    WellFormedAt(records, next, was);
    if r.DirRec? {
      RespelledHits(records, i, e, name, ByInode(r.child));
      RespelledDirectory(records, i, e, r.parent);
    } else if r.Inode? {
      RespelledHits(records, i, e, name, ByParent(r.id));
    }
  }

  /** Replaced by an entry that does not spell the name, the name leads nowhere. */
  lemma Mislaid(records: seq<Rec>, next: nat, i: nat, e: Rec, parent: nat, name: seq<byte>)
    requires WellFormed(records, next) && i < |records| && Names(records[i], parent, name) && !Names(e, parent, name)
    ensures ChildAt(records[i := e], parent, name).None?
  {
    hide Fold, Count, ReadName, RecOk, HasDirectory;
    var q, after := ByName(parent, Fold(name)), records[i := e];
    FindIs(after, q);
    if Find(after, q).Some? {
      var k := Find(after, q).value;
      assert k != i && records[k] == after[k];
      OnlyMatch(records, q, i);
      OnlyMatch(records, q, k);
    }
  }

  // ---- sorting -----------------------------------------------------------------------------------------------

  function Insert(records: seq<Rec>, r: Rec, rank: Rec -> int): seq<Rec> {
    if records == [] || rank(records[|records| - 1]) <= rank(r) then records + [r]
    else Insert(records[..|records| - 1], r, rank) + [records[|records| - 1]]
  }

  /** The stable sort by key; `rank` is the position the key of a record gives it. */
  function SortBy(records: seq<Rec>, rank: Rec -> int): seq<Rec> {
    if records == [] then [] else Insert(SortBy(records[..|records| - 1], rank), records[|records| - 1], rank)
  }

  lemma {:induction false} InsertSame(records: seq<Rec>, r: Rec, rank: Rec -> int, q: Query)
    ensures Count(Insert(records, r, rank), q) == Count(records, q) + (if Hit(q, r) then 1 else 0)
  {
    hide Hit, Count, Find;
    if records == [] || rank(records[|records| - 1]) <= rank(r) {
      CountPush(records, r, q);
    } else {
      var front, last := records[..|records| - 1], records[|records| - 1];
      InsertSame(front, r, rank, q);
      CountPush(Insert(front, r, rank), last, q);
      CountPush(front, last, q);
      assert records == front + [last];
    }
  }

  lemma {:induction false} InsertMembers(records: seq<Rec>, r: Rec, rank: Rec -> int, x: Rec)
    ensures x in Insert(records, r, rank) <==> x in records || x == r
  {
    if records != [] && rank(records[|records| - 1]) > rank(r) {
      var front, last := records[..|records| - 1], records[|records| - 1];
      InsertMembers(front, r, rank, x);
      assert records == front + [last];
    }
  }

  lemma SortSame(records: seq<Rec>, rank: Rec -> int, q: Query)
    ensures Count(SortBy(records, rank), q) == Count(records, q)
    ensures forall x :: x in SortBy(records, rank) <==> x in records
  {
    hide Hit, Count, SortBy;
    SortCounts(records, rank, q);
    forall x ensures x in SortBy(records, rank) <==> x in records {
      SortMembers(records, rank, x);
    }
  }

  lemma {:induction false} SortCounts(records: seq<Rec>, rank: Rec -> int, q: Query)
    ensures Count(SortBy(records, rank), q) == Count(records, q)
  {
    hide Hit, Insert;
    if records != [] {
      var front, last := records[..|records| - 1], records[|records| - 1];
      SortCounts(front, rank, q);
      InsertSame(SortBy(front, rank), last, rank, q);
    }
  }

  lemma {:induction false} SortMembers(records: seq<Rec>, rank: Rec -> int, x: Rec)
    ensures x in SortBy(records, rank) <==> x in records
  {
    hide Insert;
    if records != [] {
      var front, last := records[..|records| - 1], records[|records| - 1];
      assert records == front + [last];
      SortMembers(front, rank, x);
      InsertMembers(SortBy(front, rank), last, rank, x);
    }
  }

  /** The same records in any order. */
  ghost predicate SameRecords(a: seq<Rec>, b: seq<Rec>) {
    && (forall q :: Count(a, q) == Count(b, q))
    && (forall r :: r in a <==> r in b)
  }

  lemma SortedSame(records: seq<Rec>, rank: Rec -> int)
    ensures SameRecords(SortBy(records, rank), records)
  {
    hide Count;
    forall q ensures Count(SortBy(records, rank), q) == Count(records, q) {
      SortSame(records, rank, q);
    }
    SortSame(records, rank, ByParent(0));
  }

  lemma SameWellFormed(a: seq<Rec>, b: seq<Rec>, next: nat)
    requires SameRecords(a, b) && WellFormed(b, next)
    ensures WellFormed(a, next)
  {
    hide Count;
    forall r | r in a ensures RecOk(a, next, r) {
      assert RecOk(b, next, r);
      if r.DirRec? {
        SameDirectory(a, b, r.parent);
      }
    }
    SameDirectory(a, b, ROOT);
  }

  lemma SameDirectory(a: seq<Rec>, b: seq<Rec>, id: nat)
    requires SameRecords(a, b) && HasDirectory(b, id)
    ensures HasDirectory(a, id)
  {
    hide Count;
  }

  /** In any order the first match of a unique query is the same record. */
  lemma SameMatch(a: seq<Rec>, b: seq<Rec>, q: Query)
    requires SameRecords(a, b) && Count(b, q) <= 1
    ensures Find(a, q).Some? == Find(b, q).Some?
    ensures Find(b, q).Some? ==>
              Find(a, q).value < |a| && Find(b, q).value < |b| && a[Find(a, q).value] == b[Find(b, q).value]
  {
    hide Hit, Count;
    FindIs(a, q);
    FindIs(b, q);
    if Find(b, q).Some? {
      var r := b[Find(b, q).value];
      assert r in a;
      var k :| 0 <= k < |a| && a[k] == r;
      OnlyMatch(a, q, k);
    }
  }

  lemma SameChildren(a: seq<Rec>, b: seq<Rec>, next: nat)
    requires SameRecords(a, b) && WellFormed(b, next)
    ensures Keeps(b, a) && Keeps(a, b)
  {
    hide Count, Find, SameRecords;
    forall p, n ensures ChildAt(a, p, n) == ChildAt(b, p, n) {
      SameMatch(a, b, ByName(p, Fold(n)));
    }
  }

  // ---- locating a file --------------------------------------------------------------------------------------

  datatype Location = Location(id: nat, size: nat, extent: nat, paddr: nat)

  /** The stream and the one extent of an object, if it has the form this program writes. */
  function StreamAt(records: seq<Rec>, id: nat): Result<Location> {
    FindIs(records, ByInode(id));
    FindIs(records, ByExtent(id));
    match Find(records, ByInode(id))
    case None => Err(NotFound)
    case Some(i) =>
      match records[i].stream
      case None => Err(Unsupported)
      case Some(stream) =>
        if Count(records, ByExtent(id)) != 1 then Err(Unsupported) else
        var e := records[Find(records, ByExtent(id)).value];
        if e.length != stream.1 then Err(Malformed) else Ok(Location(id, stream.0, stream.1, e.paddr))
  }

  function Locate(records: seq<Rec>, path: seq<seq<byte>>): Result<Location> {
    match Resolve(records, ROOT, path)
    case Err(e) => Err(e)
    case Ok(id) => StreamAt(records, id)
  }

  lemma GrownStream(records: seq<Rec>, i: nat, e: Rec, oid: nat, last: bool, id: nat)
    requires i < |records| && records[i].Inode? && e.DirRec? && id != oid
    ensures StreamAt(Grown(records, i, e, oid, last), id) == StreamAt(records, id)
  {
    hide Count, Find, Fold, Grown;
    var grown := Grown(records, i, e, oid, last);
    FindIs(records, ByInode(id));
    FindIs(records, ByExtent(id));
    FindIs(grown, ByInode(id));
    GrownCounts(records, i, e, oid, last, ByInode(id));
    GrownCounts(records, i, e, oid, last, ByExtent(id));
    if Find(records, ByInode(id)).Some? {
      GrownAt(records, i, e, oid, last, Find(records, ByInode(id)).value);
    }
    if Find(records, ByExtent(id)).Some? {
      GrownAt(records, i, e, oid, last, Find(records, ByExtent(id)).value);
    }
  }

  lemma RespelledStream(records: seq<Rec>, i: nat, e: Rec, name: seq<byte>, id: nat)
    requires Respells(records, i, e, name)
    ensures StreamAt(records[i := e], id) == StreamAt(records, id)
  {
    hide Count, Find, Fold, Names;
    RespelledHits(records, i, e, name, ByInode(id));
    RespelledHits(records, i, e, name, ByExtent(id));
    FindIs(records, ByInode(id));
    FindIs(records, ByExtent(id));
  }

  lemma SortedStream(a: seq<Rec>, b: seq<Rec>, next: nat, id: nat)
    requires SameRecords(a, b) && WellFormed(b, next)
    ensures StreamAt(a, id) == StreamAt(b, id)
  {
    hide Find, SameRecords, Count;
    SameCounts(a, b, ByExtent(id));
    FindIs(a, ByInode(id));
    FindIs(b, ByInode(id));
    FindIs(a, ByExtent(id));
    FindIs(b, ByExtent(id));
    SameMatch(a, b, ByInode(id));
    if Count(b, ByExtent(id)) <= 1 {
      SameMatch(a, b, ByExtent(id));
    }
  }

  lemma SameCounts(a: seq<Rec>, b: seq<Rec>, q: Query)
    requires SameRecords(a, b)
    ensures Count(a, q) == Count(b, q)
  {
    hide Count;
  }

  /** A file just created is located with nothing in it. */
  lemma NewFileLocated(records: seq<Rec>, next: nat, i: nat, e: Rec)
    requires WellFormed(records, next) && i < |records| && records[i].Inode? && e.DirRec?
    ensures StreamAt(Grown(records, i, e, next, true), next) == Ok(Location(next, 0, 0, 0))
  {
    hide Count, Find, Fold, Hit;
    var grown := Grown(records, i, e, next, true);
    FreshId(records, next, ByInode(next));
    FreshId(records, next, ByExtent(next));
    GrownCounts(records, i, e, next, true, ByInode(next));
    GrownCounts(records, i, e, next, true, ByExtent(next));
    var n := |records|;
    assert grown[n + 1] == NewInode(next, true) && grown[n + 2] == Extent(next, 0, 0);
    NewHits(next);
    OnlyMatch(grown, ByInode(next), n + 1);
    OnlyMatch(grown, ByExtent(next), n + 2);
  }

  lemma NewHits(oid: nat)
    ensures Hit(ByInode(oid), NewInode(oid, true)) && Hit(ByExtent(oid), Extent(oid, 0, 0))
  {
  }
}

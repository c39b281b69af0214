/**
 * The paths of an update's payloads (src/apfs_write.rs `validate_payload_paths`,
 * src/apfs_update.rs `update_with_preboot_files`): which are accepted, how they become the
 * changes of the two volumes, and what an accepted list means for creating its paths.
 */
module PayloadPaths {
  import opened Bytes
  import opened DirectoryKey
  import opened PathSet
  import opened CatalogRecords
  import opened VolumeUpdate
  import TreeNode
  import W = CatalogWalk
  import VolumeStart
  import CheckpointRing
  import CU = ContainerUpdate
  import SpaceManager
  import SnapshotUpdate
  import BTree
  import TreePublish

  // ---- paths as text -------------------------------------------------------------------------------------------

  const SLASH: byte := 0x2F

  /** The parts of a path between its slashes. */
  function Split(s: seq<byte>): (parts: seq<seq<byte>>)
    ensures parts != []
  {
    if s == [] then [[]] else Before(s[0], Split(s[1..]))
  }

  /** One character in front of the first part; a slash ends a part. */
  function Before(b: byte, parts: seq<seq<byte>>): (r: seq<seq<byte>>)
    requires parts != []
    ensures r != []
  {
    if b == SLASH then [[]] + parts else [[b] + parts[0]] + parts[1..]
  }

  function Join(parts: seq<seq<byte>>): seq<byte>
    requires parts != []
  {
    if |parts| == 1 then parts[0] else parts[0] + [SLASH] + Join(parts[1..])
  }

  lemma {:induction false} JoinSplit(s: seq<byte>)
    ensures Join(Split(s)) == s
  {
    if s != [] {
      var rest := Split(s[1..]);
      JoinSplit(s[1..]);
      if s[0] == SLASH {
        assert ([[]] + rest)[1..] == rest;
      } else {
        assert ([[s[0]] + rest[0]] + rest[1..])[1..] == rest[1..];
      }
    }
  }

  lemma {:induction false} SplitAcross(a: seq<byte>, c: seq<byte>)
    ensures Split(a + [SLASH] + c) == Split(a) + Split(c)
  {
    var all := a + [SLASH] + c;
    if a == [] {
      assert all[1..] == c;
    } else {
      assert all[0] == a[0] && all[1..] == a[1..] + [SLASH] + c;
      SplitAcross(a[1..], c);
      hide Split;
      BeforeAcross(a[0], Split(a[1..]), Split(c));
    }
  }

  lemma BeforeAcross(b: byte, p: seq<seq<byte>>, q: seq<seq<byte>>)
    requires p != []
    ensures Before(b, p + q) == Before(b, p) + q
  {
    assert (p + q)[1..] == p[1..] + q;
  }

  lemma {:induction false} SplitPart(part: seq<byte>)
    requires SLASH !in part
    ensures Split(part) == [part]
  {
    if part != [] {
      SplitPart(part[1..]);
      assert [part[0]] + part[1..] == part;
    }
  }

  lemma {:induction false} SplitJoin(parts: seq<seq<byte>>)
    requires parts != [] && forall i :: 0 <= i < |parts| ==> SLASH !in parts[i]
    ensures Split(Join(parts)) == parts
  {
    SplitPart(parts[0]);
    if |parts| > 1 {
      SplitJoin(parts[1..]);
      SplitAcross(parts[0], Join(parts[1..]));
    }
  }

  lemma {:induction false} JoinAcross(p: seq<seq<byte>>, q: seq<seq<byte>>)
    requires p != [] && q != []
    ensures Join(p + q) == Join(p) + [SLASH] + Join(q)
  {
    assert (p + q)[1..] == p[1..] + q;
    if |p| > 1 {
      JoinAcross(p[1..], q);
    }
  }

  /** One text begins with the other and a slash exactly when its parts begin with the other's. */
  lemma BeginsIff(a: seq<byte>, b: seq<byte>)
    ensures a + [SLASH] <= b <==> Split(a) < Split(b)
  {
    var p, q := Split(a), Split(b);
    if a + [SLASH] <= b {
      var c := b[|a| + 1..];
      assert b == a + [SLASH] + c;
      SplitAcross(a, c);
    }
    if p < q {
      assert q == p + q[|p|..];
      JoinAcross(p, q[|p|..]);
      JoinSplit(a);
      JoinSplit(b);
    }
  }

  lemma {:induction false} FoldSplit(s: seq<byte>)
    ensures FoldedParts(Split(s), Split(Fold(s)))
  {
    if s == [] {
      assert Fold(s) == [];
    } else {
      hide FoldedParts, Fold;
      FoldSplit(s[1..]);
      FoldHead(s);
      assert Fold(s)[1..] == Fold(s[1..]);
      FoldBefore(s[0], Split(s[1..]), Split(Fold(s[1..])));
    }
  }

  predicate FoldedParts(parts: seq<seq<byte>>, folded: seq<seq<byte>>) {
    |folded| == |parts| && forall i :: 0 <= i < |parts| ==> folded[i] == Fold(parts[i])
  }

  lemma FoldBefore(b: byte, parts: seq<seq<byte>>, folded: seq<seq<byte>>)
    requires parts != [] && FoldedParts(parts, folded)
    ensures FoldedParts(Before(b, parts), Before(FoldByte(b), folded))
  {
    hide Fold;
    if b == SLASH {
      FoldNone();
    } else {
      var part := [b] + parts[0];
      FoldHead(part);
      assert part[1..] == parts[0];
      assert Fold(part) == [FoldByte(b)] + folded[0];
    }
  }

  lemma FoldNone()
    ensures Fold([]) == []
  {
  }

  lemma FoldHead(s: seq<byte>)
    requires s != []
    ensures Fold(s) == [FoldByte(s[0])] + Fold(s[1..])
  {
    forall i | 0 <= i < |s| ensures Fold(s)[i] == ([FoldByte(s[0])] + Fold(s[1..]))[i] {
      FoldAt(s, i);
      if i > 0 {
        FoldAt(s[1..], i - 1);
      }
    }
  }

  // ---- the names an update uses ----------------------------------------------------------------------------------

  const BOOT := Text("boot.bin")
  const VERSION := Text("SystemVersion.plist")
  const RESTORE := Text("restore")

  const SYSTEM_BOOT := [Text("Finish Installation.app"), Text("Contents"), Text("Resources"), BOOT]
  const SYSTEM_VERSION := [Text("System"), Text("Library"), Text("CoreServices"), VERSION]

  const SYSTEM_RESERVED := [Join(SYSTEM_VERSION), Join(SYSTEM_BOOT)]
  const PREBOOT_RESERVED := [Join([BOOT]), Join([VERSION]), Join([RESTORE, VERSION])]

  /** A volume group's id as text. */
  predicate Uuid(group: seq<byte>) {
    |group| == 36 && forall i :: 0 <= i < 36 ==>
      group[i] == 0x2D || 0x30 <= group[i] <= 0x39 || 0x61 <= group[i] <= 0x66
  }

  // ---- what is accepted ----------------------------------------------------------------------------------------

  datatype Payload = Payload(path: seq<byte>, bytes: seq<byte>)

  predicate PartOk(part: seq<byte>) {
    && part != [] && part != [0x2E] && part != [0x2E, 0x2E] && |part| <= 255 && Ascii(part)
    && forall i :: 0 <= i < |part| ==> 0x20 <= part[i] != 0x7F && part[i] != 0x5C && part[i] != 0x3A
  }

  predicate PathOk(path: seq<byte>) {
    forall i :: 0 <= i < |Split(path)| ==> PartOk(Split(path)[i])
  }

  /** Two paths in lower case of which one is the other, or lies below it. */
  predicate Clash(a: seq<byte>, b: seq<byte>) {
    a == b || b + [SLASH] <= a || a + [SLASH] <= b
  }

  /** The text `SystemVersion.plist` in lower case, alone and below `restore`. */
  predicate VersionName(folded: seq<byte>) {
    folded == Fold(Join([VERSION])) || folded == Fold(Join([RESTORE, VERSION]))
  }

  /** A payload that says once more what the update writes anyway. */
  predicate Restated(p: Payload, version: Option<seq<byte>>) {
    VersionName(Fold(p.path)) && version == Some(p.bytes)
  }

  predicate Collides(paths: set<seq<byte>>, folded: seq<byte>) {
    exists p :: p in paths && Clash(p, folded)
  }

  /** What is accepted: good parts, no path twice, and nothing in the way of a reserved or earlier path. */
  ghost predicate Accepted(files: seq<Payload>, reserved: seq<seq<byte>>, version: Option<seq<byte>>) {
    && (forall i :: 0 <= i < |files| ==> PathOk(files[i].path))
    && (forall i, j :: 0 <= i < j < |files| ==> Fold(files[i].path) != Fold(files[j].path))
    && (forall i, k :: 0 <= i < |files| && 0 <= k < |reserved| && !Restated(files[i], version) ==>
          !Clash(Fold(reserved[k]), Fold(files[i].path)))
    && (forall i, j :: 0 <= i < j < |files| && !Restated(files[i], version) && !Restated(files[j], version) ==>
          !Clash(Fold(files[i].path), Fold(files[j].path)))
  }

  /** What has been noted after i files: all their paths, and the reserved paths with those of files not restated. */
  ghost predicate Noted(files: seq<Payload>, i: nat, reserved: seq<seq<byte>>, version: Option<seq<byte>>,
                        supplied: set<seq<byte>>, paths: set<seq<byte>>)
  {
    && i <= |files| && (forall x :: x in supplied <==> exists j :: 0 <= j < i && x == Fold(files[j].path))
    && (forall x :: x in paths <==>
          (exists k :: 0 <= k < |reserved| && x == Fold(reserved[k])) ||
                                    exists j :: 0 <= j < i && !Restated(files[j], version) && x == Fold(files[j].path))
  }

  lemma AcceptedStep(files: seq<Payload>, i: nat, reserved: seq<seq<byte>>, version: Option<seq<byte>>,
                     supplied: set<seq<byte>>, paths: set<seq<byte>>)
    requires Noted(files, i, reserved, version, supplied, paths) && i < |files| &&
             Accepted(files[..i], reserved, version)
    ensures var f, folded := files[i], Fold(files[i].path);
            Accepted(files[..i + 1], reserved, version) <==>
            PathOk(f.path) && folded !in supplied && (Restated(f, version) || !Collides(paths, folded))
  {
    hide Clash, PathOk, Fold, Restated;
    var f, folded, more := files[i], Fold(files[i].path), files[..i + 1];
    assert more[i] == f && forall j :: 0 <= j < i ==> more[j] == files[j] == files[..i][j];
    if Accepted(more, reserved, version) {
      assert Restated(f, version) || !Collides(paths, folded);
    }
  }

  lemma AcceptedFront(files: seq<Payload>, i: nat, reserved: seq<seq<byte>>, version: Option<seq<byte>>)
    requires Accepted(files, reserved, version) && i <= |files|
    ensures Accepted(files[..i], reserved, version)
  {
    hide Clash, PathOk, Fold, Restated;
  }

  lemma NotedOn(files: seq<Payload>, i: nat, reserved: seq<seq<byte>>, version: Option<seq<byte>>,
                supplied: set<seq<byte>>, paths: set<seq<byte>>)
    requires Noted(files, i, reserved, version, supplied, paths) && i < |files|
    ensures var folded := Fold(files[i].path);
            Noted(files, i + 1, reserved, version, supplied + {folded},
                  if Restated(files[i], version) then paths else paths + {folded})
  {
    hide Fold, Restated;
  }

  /** The reserved paths in lower case. */
  method FoldAll(texts: seq<seq<byte>>) returns (paths: set<seq<byte>>)
    ensures forall x :: x in paths <==> exists j :: 0 <= j < |texts| && x == Fold(texts[j])
  {
    hide Fold;
    paths := {};
    for k := 0 to |texts|
      invariant forall x :: x in paths <==> exists j :: 0 <= j < k && x == Fold(texts[j])
    {
      paths := paths + {Fold(texts[k])};
    }
  }

  /** `validate_payload_paths`. */
  method ValidatePaths(files: seq<Payload>, reserved: seq<seq<byte>>, version: Option<seq<byte>>)
      returns (r: Result<bool>)
    ensures r.Ok? <==> Accepted(files, reserved, version)
  {
    hide Clash, PathOk, Fold, VersionName, Collides;
    hide Accepted, Noted, Restated;
    var supplied: set<seq<byte>> := {};
    var paths := FoldAll(reserved);
    NotedNone(files, reserved, version, paths);
    for i := 0 to |files|
      invariant Accepted(files[..i], reserved, version) && Noted(files, i, reserved, version, supplied, paths)
    {
      AcceptedStep(files, i, reserved, version, supplied, paths);
      NotedOn(files, i, reserved, version, supplied, paths);
      if Accepted(files, reserved, version) {
        AcceptedFront(files, i + 1, reserved, version);
      }
      if !PathOk(files[i].path) {
        return Err(Malformed);
      }
      var folded := Fold(files[i].path);
      if folded in supplied {
        return Err(Overlap);
      }
      supplied := supplied + {folded};
      if Restated(files[i], version) {
        continue;
      }
      if Collides(paths, folded) {
        return Err(Overlap);
      }
      paths := paths + {folded};
    }
    assert files[..|files|] == files;
    r := Ok(true);
  }

  lemma NotedNone(files: seq<Payload>, reserved: seq<seq<byte>>, version: Option<seq<byte>>, paths: set<seq<byte>>)
    requires forall x :: x in paths <==> exists j :: 0 <= j < |reserved| && x == Fold(reserved[j])
    ensures Noted(files, 0, reserved, version, {}, paths) && Accepted(files[..0], reserved, version)
  {
    hide Fold;
  }

  // ---- what an accepted list means -------------------------------------------------------------------------------

  predicate NameOk(name: seq<byte>) {
    0 < |name| <= 255 && Ascii(name)
  }

  /** Paths of short names of which none is in another's way. */
  ghost predicate Placeable(paths: seq<seq<seq<byte>>>) {
    && (forall i :: 0 <= i < |paths| ==> PathNamed(paths[i]))
    && (forall i, j :: 0 <= i < j < |paths| ==> Compatible(paths[i], paths[j]))
  }

  predicate PathNamed(path: seq<seq<byte>>) {
    path != [] && forall i :: 0 <= i < |path| ==> NameOk(path[i])
  }

  /** Texts that do not clash split into paths of which none is in the other's way, below any directory. */
  lemma ApartCompatible(prefix: seq<seq<byte>>, a: seq<byte>, b: seq<byte>)
    requires !Clash(Fold(a), Fold(b))
    ensures Compatible(prefix + Split(a), prefix + Split(b))
  {
    hide Split, Fold;
    if |Split(a)| < |Split(b)| {
      Below(prefix, a, b);
    }
    if |Split(b)| < |Split(a)| {
      Below(prefix, b, a);
    }
  }

  lemma Below(prefix: seq<seq<byte>>, a: seq<byte>, b: seq<byte>)
    requires !(Fold(a) + [SLASH] <= Fold(b)) && |Split(a)| < |Split(b)|
    ensures !Together(prefix + Split(a), prefix + Split(b), |prefix + Split(a)|)
    ensures !Together(prefix + Split(b), prefix + Split(a), |prefix + Split(a)|)
  {
    hide Split, Fold;
    var p, q := Split(a), Split(b);
    FoldSplit(a);
    FoldSplit(b);
    BeginsIff(Fold(a), Fold(b));
    if forall i :: 0 <= i < |p| ==> Fold(p[i]) == Fold(q[i]) {
      assert false;
    }
    var i :| 0 <= i < |p| && Fold(p[i]) != Fold(q[i]);
    assert (prefix + p)[|prefix| + i] == p[i] && (prefix + q)[|prefix| + i] == q[i];
  }

  /** The path of the first payload of this name up to case, or else the name as it is. */
  function MetadataPath(files: seq<Payload>, canonical: seq<byte>): (path: seq<byte>)
    ensures Fold(path) == Fold(canonical)
    ensures path == canonical || exists i :: 0 <= i < |files| && path == files[i].path
  {
    if files == [] then canonical
    else if Fold(files[0].path) == Fold(canonical) then files[0].path
    else MetadataPath(files[1..], canonical)
  }

  /** The changes of one volume so far: those made anyway, then the first n payloads but those left out. */
  ghost predicate Gathered(r: seq<Change>, heads: seq<Change>, prefix: seq<seq<byte>>, files: seq<Payload>, n: nat,
                           omit: bool)
    requires n <= |files|
  {
    && heads <= r && Placeable(Paths(r))
    && (forall i :: |heads| <= i < |r| ==> FromFile(r[i], prefix, files, n, omit))
    && (forall j :: 0 <= j < n && !(omit && VersionName(Fold(files[j].path))) ==> Among(r, |heads|, prefix, files[j]))
  }

  ghost predicate FromFile(c: Change, prefix: seq<seq<byte>>, files: seq<Payload>, n: nat, omit: bool)
    requires n <= |files|
  {
    exists j :: 0 <= j < n && !(omit && VersionName(Fold(files[j].path))) && IsFile(c, prefix, files[j])
  }

  predicate Among(r: seq<Change>, from: nat, prefix: seq<seq<byte>>, p: Payload) {
    exists i :: from <= i < |r| && IsFile(r[i], prefix, p)
  }

  predicate IsFile(c: Change, prefix: seq<seq<byte>>, p: Payload) {
    c == (prefix + Split(p.path), p.bytes)
  }

  ghost predicate OneOf(text: seq<byte>, reserved: seq<seq<byte>>) {
    exists k :: 0 <= k < |reserved| && Fold(text) == Fold(reserved[k])
  }

  /** Changes an update makes anyway: their paths are reserved ones, below the same directory as the payloads. */
  ghost predicate Reserved(heads: seq<Change>, texts: seq<seq<byte>>, prefix: seq<seq<byte>>,
                           reserved: seq<seq<byte>>)
  {
    && |heads| == |texts|
    && (forall i :: 0 <= i < |heads| ==> heads[i].0 == prefix + Split(texts[i]) && PathNamed(heads[i].0))
    && (forall i :: 0 <= i < |heads| ==> OneOf(texts[i], reserved))
    && (forall i, j :: 0 <= i < j < |heads| ==> !Clash(Fold(texts[i]), Fold(texts[j])))
  }

  lemma GatherStarts(heads: seq<Change>, texts: seq<seq<byte>>, prefix: seq<seq<byte>>, files: seq<Payload>,
                     reserved: seq<seq<byte>>, omit: bool)
    requires Reserved(heads, texts, prefix, reserved)
    ensures Gathered(heads, heads, prefix, files, 0, omit)
  {
    hide Split, Fold, Clash, PathNamed, Compatible, VersionName;
    var paths := Paths(heads);
    forall i, j | 0 <= i < j < |paths| ensures Compatible(paths[i], paths[j]) {
      ApartCompatible(prefix, texts[i], texts[j]);
    }
  }

  /** One payload more, which is in nobody's way. */
  lemma GatherOne(r: seq<Change>, heads: seq<Change>, texts: seq<seq<byte>>, prefix: seq<seq<byte>>,
                  files: seq<Payload>, n: nat, reserved: seq<seq<byte>>, version: Option<seq<byte>>, omit: bool)
    requires n < |files| && Accepted(files, reserved, version) && Reserved(heads, texts, prefix, reserved)
    requires Gathered(r, heads, prefix, files, n, omit) && PrefixOk(prefix)
    requires forall j :: 0 <= j < |files| && !(omit && VersionName(Fold(files[j].path))) ==>
               !Restated(files[j], version)
    requires !(omit && VersionName(Fold(files[n].path)))
    ensures Gathered(r + [(prefix + Split(files[n].path), files[n].bytes)], heads, prefix, files, n + 1, omit)
  {
    hide Split, Fold, Clash, PathNamed, Compatible, VersionName, Reserved, Accepted, Restated;
    var c := (prefix + Split(files[n].path), files[n].bytes);
    var after := r + [c];
    var paths := Paths(after);
    NamedFile(prefix, files, n, reserved, version);
    forall i | 0 <= i < |r| ensures Compatible(paths[i], c.0) {
      if i < |heads| {
        HeadApart(heads, texts, prefix, files, n, reserved, version, i);
      } else {
        assert FromFile(r[i], prefix, files, n, omit);
        var j :| 0 <= j < n && !(omit && VersionName(Fold(files[j].path))) && IsFile(r[i], prefix, files[j]);
        FilesApart(prefix, files, j, n, reserved, version);
      }
    }
    forall i, j | 0 <= i < j < |paths| ensures Compatible(paths[i], paths[j]) {
      if j < |r| {
        assert paths[i] == Paths(r)[i] && paths[j] == Paths(r)[j];
      }
    }
    forall i | 0 <= i < |paths| ensures PathNamed(paths[i]) {
      if i < |r| {
        assert paths[i] == Paths(r)[i];
      }
    }
    forall i | |heads| <= i < |after| ensures FromFile(after[i], prefix, files, n + 1, omit) {
      if i < |r| {
        assert FromFile(r[i], prefix, files, n, omit);
      }
    }
    forall j | 0 <= j < n + 1 && !(omit && VersionName(Fold(files[j].path)))
      ensures Among(after, |heads|, prefix, files[j])
    {
      if j < n {
        assert Among(r, |heads|, prefix, files[j]);
        var i :| |heads| <= i < |r| && IsFile(r[i], prefix, files[j]);
        assert after[i] == r[i];
      } else {
        assert IsFile(after[|r|], prefix, files[n]);
      }
    }
  }

  predicate PrefixOk(prefix: seq<seq<byte>>) {
    forall i :: 0 <= i < |prefix| ==> NameOk(prefix[i])
  }

  lemma NamedFile(prefix: seq<seq<byte>>, files: seq<Payload>, n: nat, reserved: seq<seq<byte>>,
                  version: Option<seq<byte>>)
    requires n < |files| && Accepted(files, reserved, version) && PrefixOk(prefix)
    ensures PathNamed(prefix + Split(files[n].path))
  {
    hide Split, Fold, Clash, Restated;
    assert PathOk(files[n].path);
  }

  lemma HeadApart(heads: seq<Change>, texts: seq<seq<byte>>, prefix: seq<seq<byte>>, files: seq<Payload>, n: nat,
                  reserved: seq<seq<byte>>, version: Option<seq<byte>>, i: nat)
    requires n < |files| && Accepted(files, reserved, version) && Reserved(heads, texts, prefix, reserved)
    requires i < |heads| && !Restated(files[n], version)
    ensures Compatible(heads[i].0, prefix + Split(files[n].path))
  {
    hide Split, Fold, Clash, Restated, Compatible, PathOk, PathNamed;
    assert OneOf(texts[i], reserved);
    var k :| 0 <= k < |reserved| && Fold(texts[i]) == Fold(reserved[k]);
    ApartCompatible(prefix, texts[i], files[n].path);
  }

  lemma FilesApart(prefix: seq<seq<byte>>, files: seq<Payload>, j: nat, n: nat, reserved: seq<seq<byte>>,
                   version: Option<seq<byte>>)
    requires j < n < |files| && Accepted(files, reserved, version)
    requires !Restated(files[j], version) && !Restated(files[n], version)
    ensures Compatible(prefix + Split(files[j].path), prefix + Split(files[n].path))
  {
    hide Split, Fold, Clash, Restated, Compatible, PathOk;
    ApartCompatible(prefix, files[j].path, files[n].path);
  }

  function SystemHeads(stage: seq<byte>, version: Option<seq<byte>>): seq<Change> {
    [(SYSTEM_BOOT, stage)] + if version.Some? then [(SYSTEM_VERSION, version.value)] else []
  }

  function PrebootHeads(group: seq<byte>, stage: seq<byte>, version: Option<seq<byte>>, files: seq<Payload>)
      : seq<Change>
  {
    [([group, BOOT], stage)] +
    if version.Some? then
      [([group] + Split(MetadataPath(files, Join([VERSION]))), version.value),
       ([group] + Split(MetadataPath(files, Join([RESTORE, VERSION]))), version.value)]
    else []
  }

  /** Texts that begin with different letters do not clash. */
  lemma OtherStart(a: seq<byte>, b: seq<byte>)
    requires a != [] && b != [] && FoldByte(a[0]) != FoldByte(b[0])
    ensures !Clash(Fold(a), Fold(b))
  {
    FoldAt(a, 0);
    FoldAt(b, 0);
  }

  predicate Slashless(parts: seq<seq<byte>>) {
    forall i :: 0 <= i < |parts| ==> SLASH !in parts[i]
  }

  /** Text without slashes is a name. */
  lemma TextNames(s: string)
    requires 0 < |s| <= 255 && forall i :: 0 <= i < |s| ==> s[i] < 128 as char && s[i] != '/'
    ensures NameOk(Text(s)) && SLASH !in Text(s) && Text(s)[0] == s[0] as int
  {
    forall i | 0 <= i < |s| ensures Text(s)[i] != SLASH {
      assert Text(s)[i] == s[i] as int;
    }
  }

  lemma Constants()
    ensures NameOk(BOOT) && SLASH !in BOOT && NameOk(VERSION) && SLASH !in VERSION
    ensures NameOk(RESTORE) && SLASH !in RESTORE && BOOT[0] == 0x62 && VERSION[0] == 0x53 && RESTORE[0] == 0x72
  {
    hide Text, NameOk;
    TextNames("boot.bin");
    TextNames("SystemVersion.plist");
    TextNames("restore");
  }

  lemma SystemBoot()
    ensures PathNamed(SYSTEM_BOOT) && Slashless(SYSTEM_BOOT) && SYSTEM_BOOT[0][0] == 0x46 && |SYSTEM_BOOT[0]| >= 3
  {
    hide Text, NameOk;
    Constants();
    TextNames("Finish Installation.app");
    TextNames("Contents");
    TextNames("Resources");
  }

  lemma SystemVersion()
    ensures PathNamed(SYSTEM_VERSION) && Slashless(SYSTEM_VERSION) && SYSTEM_VERSION[0][0] == 0x53
  {
    hide Text, NameOk;
    Constants();
    TextNames("System");
    TextNames("Library");
    TextNames("CoreServices");
  }

  lemma SystemReserved(stage: seq<byte>, version: Option<seq<byte>>) returns (texts: seq<seq<byte>>)
    ensures Reserved(SystemHeads(stage, version), texts, [], SYSTEM_RESERVED)
  {
    hide Reserved, PathNamed, Slashless, Join;
    SystemBoot();
    SystemVersion();
    texts := TwoReserved(SYSTEM_BOOT, SYSTEM_VERSION, stage, version);
  }

  lemma TwoReserved(boot: seq<seq<byte>>, plist: seq<seq<byte>>, stage: seq<byte>, version: Option<seq<byte>>)
      returns (texts: seq<seq<byte>>)
    requires PathNamed(boot) && Slashless(boot) && PathNamed(plist) && Slashless(plist)
    requires FoldByte(boot[0][0]) != FoldByte(plist[0][0])
    ensures var heads := [(boot, stage)] + if version.Some? then [(plist, version.value)] else [];
            Reserved(heads, texts, [], [Join(plist), Join(boot)])
  {
    hide Fold, Clash, Split, Join;
    var heads := [(boot, stage)] + if version.Some? then [(plist, version.value)] else [];
    var all, reserved := [Join(boot), Join(plist)], [Join(plist), Join(boot)];
    texts := all[..|heads|];
    SplitJoin(boot);
    SplitJoin(plist);
    JoinStart(boot);
    JoinStart(plist);
    OtherStart(all[0], all[1]);
    assert [] + boot == boot && [] + plist == plist;
    assert Fold(all[0]) == Fold(reserved[1]) && Fold(all[1]) == Fold(reserved[0]);
  }

  lemma JoinStart(parts: seq<seq<byte>>)
    requires parts != [] && parts[0] != []
    ensures Join(parts) != [] && Join(parts)[0] == parts[0][0]
  {
  }

  /** The changes of the System volume. */
  method SystemPayloads(stage: seq<byte>, version: Option<seq<byte>>, files: seq<Payload>) returns (r: seq<Change>)
    requires Accepted(files, SYSTEM_RESERVED, None)
    ensures Gathered(r, SystemHeads(stage, version), [], files, |files|, false)
  {
    hide Gathered, Reserved, Accepted, Restated, VersionName, Fold, Split;
    ghost var texts := SystemReserved(stage, version);
    ghost var heads := SystemHeads(stage, version);
    r := [(SYSTEM_BOOT, stage)];
    if version.Some? {
      r := r + [(SYSTEM_VERSION, version.value)];
    }
    assert r == heads;
    GatherStarts(heads, texts, [], files, SYSTEM_RESERVED, false);
    NoneRestated(files);
    for i := 0 to |files|
      invariant Gathered(r, heads, [], files, i, false)
    {
      GatherOne(r, heads, texts, [], files, i, SYSTEM_RESERVED, None, false);
      assert [] + Split(files[i].path) == Split(files[i].path);
      r := r + [(Split(files[i].path), files[i].bytes)];
    }
  }

  lemma NoneRestated(files: seq<Payload>)
    ensures forall j :: 0 <= j < |files| ==> !Restated(files[j], None)
  {
  }

  lemma PrebootReserved(group: seq<byte>, stage: seq<byte>, version: Option<seq<byte>>, files: seq<Payload>)
      returns (texts: seq<seq<byte>>)
    requires Uuid(group) && Accepted(files, PREBOOT_RESERVED, version)
    ensures Reserved(PrebootHeads(group, stage, version, files), texts, [group], PREBOOT_RESERVED)
  {
    hide Reserved, Text, Join, Split, MetadataPath, Accepted, NameOk;
    Constants();
    GroupName(group);
    MetadataNamed(group, files, [VERSION], version);
    MetadataNamed(group, files, [RESTORE, VERSION], version);
    texts := ThreeReserved(group, BOOT, VERSION, RESTORE, stage, version, MetadataPath(files, Join([VERSION])),
                           MetadataPath(files, Join([RESTORE, VERSION])));
  }

  lemma GroupName(group: seq<byte>)
    requires Uuid(group)
    ensures NameOk(group)
  {
  }

  lemma ThreeReserved(group: seq<byte>, boot: seq<byte>, plist: seq<byte>, dir: seq<byte>, stage: seq<byte>,
                      version: Option<seq<byte>>, plain: seq<byte>, below: seq<byte>)
      returns (texts: seq<seq<byte>>)
    requires NameOk(group) && NameOk(boot) && SLASH !in boot && boot != [] && plist != [] && dir != []
    requires boot[0] == 0x62 && plist[0] == 0x53 && dir[0] == 0x72
    requires Fold(plain) == Fold(Join([plist])) && Fold(below) == Fold(Join([dir, plist]))
    requires PathNamed([group] + Split(plain)) && PathNamed([group] + Split(below))
    ensures var heads := [([group, boot], stage)] +
                         if version.Some? then [([group] + Split(plain), version.value),
                                                ([group] + Split(below), version.value)] else [];
            Reserved(heads, texts, [group], [Join([boot]), Join([plist]), Join([dir, plist])])
  {
    hide Fold, Clash, Split, Join, NameOk;
    var reserved := [Join([boot]), Join([plist]), Join([dir, plist])];
    var all := [reserved[0], plain, below];
    texts := all[..if version.Some? then 3 else 1];
    SplitJoin([boot]);
    JoinStart([boot]);
    JoinStart([plist]);
    JoinStart([dir, plist]);
    OtherStart(reserved[0], reserved[1]);
    OtherStart(reserved[0], reserved[2]);
    OtherStart(reserved[1], reserved[2]);
    assert [group] + [boot] == [group, boot];
    forall i | 0 <= i < 3 ensures OneOf(all[i], reserved) {
      assert Fold(all[i]) == Fold(reserved[i]);
    }
  }

  lemma MetadataNamed(group: seq<byte>, files: seq<Payload>, parts: seq<seq<byte>>, version: Option<seq<byte>>)
    requires Uuid(group) && Accepted(files, PREBOOT_RESERVED, version) && PathNamed(parts)
    requires forall i :: 0 <= i < |parts| ==> SLASH !in parts[i]
    ensures PathNamed([group] + Split(MetadataPath(files, Join(parts))))
  {
    hide Fold, Clash, Split, Join, Restated, MetadataPath;
    var path := MetadataPath(files, Join(parts));
    if path == Join(parts) {
      SplitJoin(parts);
    } else {
      var i :| 0 <= i < |files| && path == files[i].path;
      NamedFile([group], files, i, PREBOOT_RESERVED, version);
    }
  }

  /** The changes of the Preboot volume. */
  method PrebootPayloads(group: seq<byte>, stage: seq<byte>, version: Option<seq<byte>>, files: seq<Payload>)
      returns (r: seq<Change>)
    requires Uuid(group) && Accepted(files, PREBOOT_RESERVED, version)
    ensures Gathered(r, PrebootHeads(group, stage, version, files), [group], files, |files|, true)
  {
    hide Gathered, Reserved, Accepted, VersionName, Fold, Split, Join, MetadataPath;
    ghost var texts := PrebootReserved(group, stage, version, files);
    ghost var heads := PrebootHeads(group, stage, version, files);
    r := [([group, BOOT], stage)];
    if version.Some? {
      r := r + [([group] + Split(MetadataPath(files, Join([VERSION]))), version.value)];
      r := r + [([group] + Split(MetadataPath(files, Join([RESTORE, VERSION]))), version.value)];
    }
    assert r == heads;
    GatherStarts(heads, texts, [group], files, PREBOOT_RESERVED, true);
    for i := 0 to |files|
      invariant Gathered(r, heads, [group], files, i, true)
    {
      if VersionName(Fold(files[i].path)) {
        GatherNone(r, heads, [group], files, i);
        continue;
      }
      GatherOne(r, heads, texts, [group], files, i, PREBOOT_RESERVED, version, true);
      r := r + [([group] + Split(files[i].path), files[i].bytes)];
    }
  }

  lemma GatherNone(r: seq<Change>, heads: seq<Change>, prefix: seq<seq<byte>>, files: seq<Payload>, n: nat)
    requires n < |files| && Gathered(r, heads, prefix, files, n, true) && VersionName(Fold(files[n].path))
    ensures Gathered(r, heads, prefix, files, n + 1, true)
  {
    hide Fold, Split, VersionName, Placeable;
    forall i | |heads| <= i < |r| ensures FromFile(r[i], prefix, files, n + 1, true) {
      assert FromFile(r[i], prefix, files, n, true);
    }
  }

  // ---- what follows for an update --------------------------------------------------------------------------------

  /** Hashed keys can read the names of every list that was accepted. */
  lemma HashedReadable(changes: seq<Change>, hash: seq<byte> -> nat)
    requires Placeable(Paths(changes))
    ensures Readable(Hashed, hash, changes)
    ensures forall i :: 0 <= i < |changes| ==> W.NamesShort(changes[i].0)
  {
    hide Compatible, Ascii;
    forall i | 0 <= i < |changes|
      ensures AllLegible(Hashed, hash, changes[i].0) && W.NamesShort(changes[i].0)
    {
      assert PathNamed(Paths(changes)[i]);
    }
  }

  /** On a volume with only a root directory all its paths can be made one after the other. */
  lemma AcceptedOpen(changes: seq<Change>)
    requires Placeable(Paths(changes)) && |changes| < U32
    ensures AllOpen(VolumeStart.BARE, Paths(changes))
  {
    hide Compatible, Ascii, AllOpen;
    var paths := Paths(changes);
    forall i, j | 0 <= i < |paths| && 0 <= j < |paths[i]| ensures Ascii(paths[i][j]) {
      assert PathNamed(paths[i]) && NameOk(paths[i][j]);
    }
    VolumeStart.BareOpen(paths);
  }

  /** Plain keys cannot read the boot object's path, on either volume. */
  lemma PlainUnreadable(changes: seq<Change>, hash: seq<byte> -> nat, group: seq<byte>)
    requires changes != [] && (changes[0].0 == SYSTEM_BOOT || changes[0].0 == [group, BOOT])
    ensures !Readable(Plain, hash, changes)
  {
    hide Legible;
    if changes[0].0 == SYSTEM_BOOT {
      NeverPlain(hash, SYSTEM_BOOT[0]);
    } else {
      NeverPlain(hash, BOOT);
      assert !Legible(Plain, hash, changes[0].0[1]);
    }
  }

  /** So an update of a volume with plain keys is refused, whatever the payloads, and publishes nothing. */
  method UpdatePlain(v: Files, hash: seq<byte> -> nat, rank: Rec -> int, changes: seq<Change>, group: seq<byte>,
                     encode: Rec -> TreeNode.Record, ghost decode: TreeNode.Record -> Rec,
                     encodeRef: Ref -> TreeNode.Record, newXid: nat)
      returns (r: Result<nat>)
    requires v.Valid() && v.data.xid < newXid < U64 && Treelike(v.cat.records) && Coded(encode, decode, encodeRef)
    requires changes != [] && (changes[0].0 == SYSTEM_BOOT || changes[0].0 == [group, BOOT])
    modifies v, v.cat, v.data, v.data.sm
    ensures r.Err? && v.data.history == old(v.data.history) && v.data.xid == old(v.data.xid)
    ensures v.data.omap == old(v.data.omap)
  {
    hide Readable, Treelike, Coded;
    PlainUnreadable(changes, hash, group);
    ghost var done: seq<nat>, h;
    r, done, h := v.Update(Plain, hash, rank, changes, encode, decode, encodeRef, newXid, map[], [], 0);
  }

  /** What the caller supplies: the boot object, the version file, and the payloads of both volumes. */
  datatype Supply = Supply(stage: seq<byte>, version: Option<seq<byte>>, preboot: seq<Payload>, system: seq<Payload>)

  ghost predicate SupplyOk(s: Supply) {
    Accepted(s.preboot, PREBOOT_RESERVED, s.version) && Accepted(s.system, SYSTEM_RESERVED, None) && s.stage != []
  }

  /** A volume of the container before it is updated: hashed keys, or directories with one name each. */
  ghost predicate Updatable(v: Files, layout: KeyLayout, rewritten: BTree.Blocks)
    reads v, v.cat, v.data, v.data.sm
  {
    && v.Valid() && (layout == Hashed || Treelike(v.cat.records))
    && rewritten.Keys <= v.data.headers && TreePublish.WholeBlocks(rewritten, v.data.bs)
  }

  /** The two lists of changes: the boot object, the version file if there is one, and every payload not left out. */
  ghost predicate Lists(s: Supply, group: seq<byte>, system: seq<Change>, preboot: seq<Change>) {
    && Gathered(system, SystemHeads(s.stage, s.version), [], s.system, |s.system|, false)
    && Gathered(preboot, PrebootHeads(group, s.stage, s.version, s.preboot), [group], s.preboot, |s.preboot|, true)
  }

  /** Checks what is supplied and makes the lists; hashed keys can read their names and plain keys cannot. */
  method BuildLists(supply: Supply, group: seq<byte>, ghost hash: seq<byte> -> nat)
      returns (r: Result<(seq<Change>, seq<Change>)>)
    requires Uuid(group)
    ensures r.Ok? <==> SupplyOk(supply)
    ensures r.Ok? ==> Lists(supply, group, r.value.0, r.value.1)
    ensures r.Ok? ==> forall layout ::
              && (Readable(layout, hash, r.value.0) <==> layout == Hashed)
              && (Readable(layout, hash, r.value.1) <==> layout == Hashed)
  {
    hide Accepted, Gathered, Join, Split, MetadataPath, Readable;
    var one := ValidatePaths(supply.preboot, PREBOOT_RESERVED, supply.version);
    if one.Err? {
      return Err(one.error);
    }
    var two := ValidatePaths(supply.system, SYSTEM_RESERVED, None);
    if two.Err? {
      return Err(two.error);
    }
    if supply.stage == [] {
      return Err(Malformed);
    }
    var system := SystemPayloads(supply.stage, supply.version, supply.system);
    var preboot := PrebootPayloads(group, supply.stage, supply.version, supply.preboot);
    GatheredNames(system, SystemHeads(supply.stage, supply.version), [], supply.system, false, hash);
    GatheredNames(preboot, PrebootHeads(group, supply.stage, supply.version, supply.preboot), [group], supply.preboot,
                  true, hash);
    BootFirst(system, preboot, group, supply, hash);
    r := Ok((system, preboot));
  }

  /**
   * `update_with_preboot_files` from the payloads to the new checkpoint. It fails, appending no
   * checkpoint, if the payload paths are not accepted or a volume has plain keys. If it succeeds,
   * the boot object, the version file and every payload can be read under their paths.
   */
  method UpdateWithPayloads(v: Files, w: Files, lv: KeyLayout, lw: KeyLayout, rv: BTree.Blocks, rw: BTree.Blocks,
                            group: seq<byte>, supply: Supply, hash: seq<byte> -> nat, rank: Rec -> int,
                            encode: Rec -> TreeNode.Record, ghost decode: TreeNode.Record -> Rec,
                            encodeRef: Ref -> TreeNode.Record, table: CU.Table,
                            ghost want: (seq<SpaceManager.Chunk>, seq<nat>), ring: CheckpointRing.Descriptors,
                            ghost total: nat)
      returns (r: Result<CU.Table>, qv: CU.Request, qw: CU.Request, ghost done: CU.Outcome)
    requires CU.Joint(v, w) && Updatable(v, lv, rv) && Updatable(w, lw, rw) && Uuid(group)
    requires CU.SaneTable(table, want) && CU.Parsed(v.data.sm, table.perChunk, want.0)
    requires Coded(encode, decode, encodeRef)
    requires ring.Valid() && CU.Follows(ring, v.data.xid, w.data.xid)
    modifies v, v.cat, v.data, v.data.sm, w, w.cat, w.data, ring
    ensures r.Ok? ==> SupplyOk(supply) && lv == lw == Hashed && Lists(supply, group, qv.changes, qw.changes)
    ensures r.Ok? ==> CU.Joint(v, w) && CU.BothIssued(old(CU.PairOf(v, w)), CU.PairOf(v, w), qv, qw, done, decode)
    ensures ring.Valid() && ring.history == old(ring.history) + if r.Ok? then [old(CU.Newest(ring)) + 1] else []
    ensures SupplyOk(supply) && lv == lw == Hashed && |old(ring.slots)| >= 3 &&
            CU.Served(old(CU.PairOf(v, w)), qv, qw, hash, encode, encodeRef, total) ==>
              r.Ok?
  {
    hide SupplyOk, Lists, Treelike, Coded, Readable, CU.Joint, CU.SaneTable, CU.BothIssued, CU.Served, CU.Asked,
         CU.Recorded, Updatable, TreePublish.WholeBlocks, CheckpointRing.Current, CheckpointRing.Kept;
    qv, qw := CU.Request(lv, [], rv), CU.Request(lw, [], rw);
    done := CU.Outcome([], [], SnapshotUpdate.Past(0, BTree.Leaf(0, 0, []), 0),
                       SnapshotUpdate.Past(0, BTree.Leaf(0, 0, []), 0), 0);
    var lists := BuildLists(supply, group, hash);
    if lists.Err? {
      r := Err(lists.error);
      return;
    }
    qv, qw := CU.Request(lv, lists.value.0, rv), CU.Request(lw, lists.value.1, rw);
    MayAsk(v, w, qv, qw, hash);
    var again;
    r, again, done := CU.UpdateContainer(v, w, qv, qw, hash, rank, encode, decode, encodeRef, table, want, ring, total);
  }

  lemma MayAsk(v: Files, w: Files, qv: CU.Request, qw: CU.Request, hash: seq<byte> -> nat)
    requires Updatable(v, qv.layout, qv.rewritten) && Updatable(w, qw.layout, qw.rewritten)
    requires Readable(Hashed, hash, qv.changes) && Readable(Hashed, hash, qw.changes)
    ensures CU.Asked(v, w, qv, qw, hash)
  {
    hide Readable, Treelike, TreePublish.WholeBlocks;
  }

  lemma GatheredNames(r: seq<Change>, heads: seq<Change>, prefix: seq<seq<byte>>, files: seq<Payload>, omit: bool,
                      hash: seq<byte> -> nat)
    requires Gathered(r, heads, prefix, files, |files|, omit)
    ensures Readable(Hashed, hash, r)
  {
    hide Placeable, Fold, Split, VersionName, Readable;
    HashedReadable(r, hash);
  }

  /** The boot object heads both lists, so plain keys can read neither. */
  lemma BootFirst(system: seq<Change>, preboot: seq<Change>, group: seq<byte>, s: Supply, hash: seq<byte> -> nat)
    requires Lists(s, group, system, preboot)
    ensures !Readable(Plain, hash, system) && !Readable(Plain, hash, preboot)
  {
    hide Placeable, Fold, Split, Join, MetadataPath, VersionName, Text, Readable;
    assert system[0] == SystemHeads(s.stage, s.version)[0];
    assert preboot[0] == PrebootHeads(group, s.stage, s.version, s.preboot)[0];
    PlainUnreadable(system, hash, group);
    PlainUnreadable(preboot, hash, group);
  }
}

/**
 * Object maps: which block holds a virtual object as of a transaction (src/apfs_verify.rs
 * `resolve`, src/apfs_replace.rs `mappings`, src/apfs_update.rs `volume_mappings` and the
 * object-map part of `update_volume_files`).
 */
module ObjectMap {
  import opened Bytes
  import opened TreeNode

  datatype Entry = Entry(oid: nat, xid: nat, deleted: bool, paddr: nat)

  predicate Visible(e: Entry, oid: nat, x: nat) {
    e.oid == oid && e.xid <= x
  }

  /** `max_by_key` over the visible entries: of several newest ones, the last. */
  function Newest(entries: seq<Entry>, oid: nat, x: nat): Option<Entry> {
    if entries == [] then None else
    var earlier, e := Newest(entries[..|entries| - 1], oid, x), entries[|entries| - 1];
    if Visible(e, oid, x) && (earlier.None? || earlier.value.xid <= e.xid) then Some(e) else earlier
  }

  function Resolve(entries: seq<Entry>, oid: nat, x: nat): Result<nat> {
    match Newest(entries, oid, x)
    case Some(e) => Ok(e.paddr)
    case None => Err(Unmapped)
  }

  /** The entries recorded for one object in one transaction, in order. */
  function Versions(entries: seq<Entry>, oid: nat, xid: nat): seq<Entry> {
    if entries == [] then [] else
    var e := entries[|entries| - 1];
    Versions(entries[..|entries| - 1], oid, xid) + if e.oid == oid && e.xid == xid then [e] else []
  }

  /** The newest version at or before x is the last one of the last transaction that has any. */
  ghost predicate LastVersion(entries: seq<Entry>, oid: nat, x: nat, found: Option<Entry>) {
    match found
    case None => forall k: nat :: k <= x ==> Versions(entries, oid, k) == []
    case Some(e) =>
      && Visible(e, oid, x) && Versions(entries, oid, e.xid) != []
      && Versions(entries, oid, e.xid)[|Versions(entries, oid, e.xid)| - 1] == e
      && forall k: nat :: e.xid < k <= x ==> Versions(entries, oid, k) == []
  }

  lemma {:induction false} NewestIsLast(entries: seq<Entry>, oid: nat, x: nat)
    ensures LastVersion(entries, oid, x, Newest(entries, oid, x))
  {
    if entries != [] {
      var front, e := entries[..|entries| - 1], entries[|entries| - 1];
      NewestIsLast(front, oid, x);
      assert forall k: nat :: k <= x && !(e.oid == oid && e.xid == k) ==>
               Versions(entries, oid, k) == Versions(front, oid, k);
    }
  }

  lemma LastUnique(entries: seq<Entry>, oid: nat, x: nat, a: Option<Entry>, b: Option<Entry>)
    requires LastVersion(entries, oid, x, a) && LastVersion(entries, oid, x, b)
    ensures a == b
  {
    hide Versions;
  }

  /** What an object resolves to as of x depends only on its versions up to x. */
  lemma ResolveByVersions(a: seq<Entry>, b: seq<Entry>, oid: nat, x: nat)
    requires forall k: nat :: k <= x ==> Versions(a, oid, k) == Versions(b, oid, k)
    ensures Newest(a, oid, x) == Newest(b, oid, x) && Resolve(a, oid, x) == Resolve(b, oid, x)
  {
    hide Versions, Newest;
    NewestIsLast(a, oid, x);
    NewestIsLast(b, oid, x);
    LastUnique(a, oid, x, Newest(a, oid, x), Newest(b, oid, x));
  }

  /** The newest version is visible, nothing visible is newer, and there is none only if nothing is visible. */
  lemma {:induction false} NewestIsNewest(entries: seq<Entry>, oid: nat, x: nat)
    ensures match Newest(entries, oid, x)
            case None => forall e :: e in entries ==> !Visible(e, oid, x)
            case Some(v) =>
              v in entries && Visible(v, oid, x) && forall e :: e in entries && Visible(e, oid, x) ==> e.xid <= v.xid
  {
    if entries != [] {
      NewestIsNewest(entries[..|entries| - 1], oid, x);
      assert entries == entries[..|entries| - 1] + [entries[|entries| - 1]];
    }
  }

  // ---- adding the mappings of a transaction -----------------------------------------------------

  /** `retain`: drops the entries of one object in one transaction. */
  function Without(entries: seq<Entry>, oid: nat, xid: nat): seq<Entry> {
    if entries == [] then [] else
    var e := entries[|entries| - 1];
    Without(entries[..|entries| - 1], oid, xid) + if e.oid != oid || e.xid != xid then [e] else []
  }

  function Remap(entries: seq<Entry>, oid: nat, xid: nat, paddr: nat): seq<Entry> {
    Without(entries, oid, xid) + [Entry(oid, xid, false, paddr)]
  }

  lemma VersionsAppend(entries: seq<Entry>, e: Entry, oid: nat, xid: nat)
    ensures Versions(entries + [e], oid, xid) ==
            Versions(entries, oid, xid) + if e.oid == oid && e.xid == xid then [e] else []
  {
    assert (entries + [e])[..|entries|] == entries;
  }

  lemma {:induction false} VersionsWithout(entries: seq<Entry>, oid: nat, xid: nat, o: nat, k: nat)
    ensures Versions(Without(entries, oid, xid), o, k) == if o == oid && k == xid then [] else Versions(entries, o, k)
  {
    if entries != [] {
      var front, e := entries[..|entries| - 1], entries[|entries| - 1];
      VersionsWithout(front, oid, xid, o, k);
      if e.oid != oid || e.xid != xid {
        VersionsAppend(Without(front, oid, xid), e, o, k);
      } else {
        assert Without(front, oid, xid) + [] == Without(front, oid, xid);
      }
    }
  }

  lemma VersionsRemap(entries: seq<Entry>, oid: nat, xid: nat, paddr: nat, o: nat, k: nat)
    ensures Versions(Remap(entries, oid, xid, paddr), o, k) ==
            if o == oid && k == xid then [Entry(oid, xid, false, paddr)] else Versions(entries, o, k)
  {
    VersionsWithout(entries, oid, xid, o, k);
    VersionsAppend(Without(entries, oid, xid), Entry(oid, xid, false, paddr), o, k);
  }

  predicate KeyLess(a: Entry, b: Entry) {
    a.oid < b.oid || (a.oid == b.oid && a.xid < b.xid)
  }

  predicate InOrder(entries: seq<Entry>) {
    forall i, j :: 0 <= i < j < |entries| ==> !KeyLess(entries[j], entries[i])
  }

  /** Puts e after everything not above it. */
  function Insert(entries: seq<Entry>, e: Entry): seq<Entry> {
    if entries == [] || !KeyLess(e, entries[|entries| - 1]) then entries + [e]
    else Insert(entries[..|entries| - 1], e) + [entries[|entries| - 1]]
  }

  /** The stable `sort_by_key` on (object id, transaction). */
  function SortByKey(entries: seq<Entry>): seq<Entry> {
    if entries == [] then [] else Insert(SortByKey(entries[..|entries| - 1]), entries[|entries| - 1])
  }

  lemma {:induction false} InsertSorted(entries: seq<Entry>, e: Entry)
    requires InOrder(entries)
    ensures InOrder(Insert(entries, e)) && multiset(Insert(entries, e)) == multiset(entries) + multiset{e}
  {
    hide InOrder, KeyLess;
    if entries != [] && KeyLess(e, entries[|entries| - 1]) {
      var front, last := entries[..|entries| - 1], entries[|entries| - 1];
      assert entries == front + [last];
      FrontInOrder(front, last);
      InsertSorted(front, e);
      InsertBelow(front, e, last, Insert(front, e));
    } else {
      InsertAbove(entries, e);
    }
  }

  lemma FrontInOrder(front: seq<Entry>, last: Entry)
    requires InOrder(front + [last])
    ensures InOrder(front)
  {
    hide KeyLess;
    var all := front + [last];
    forall i, j | 0 <= i < j < |front| ensures !KeyLess(front[j], front[i]) {
      assert all[i] == front[i] && all[j] == front[j];
    }
  }

  lemma InsertAbove(entries: seq<Entry>, e: Entry)
    requires InOrder(entries) && (entries != [] ==> !KeyLess(e, entries[|entries| - 1]))
    ensures InOrder(entries + [e])
  {
    forall i | 0 <= i < |entries| ensures !KeyLess(e, entries[i]) {
      assert i < |entries| - 1 ==> !KeyLess(entries[|entries| - 1], entries[i]);
    }
  }

  lemma InsertBelow(front: seq<Entry>, e: Entry, last: Entry, more: seq<Entry>)
    requires InOrder(front + [last]) && InOrder(more) && KeyLess(e, last)
    requires multiset(more) == multiset(front) + multiset{e}
    ensures InOrder(more + [last])
  {
    assert !KeyLess(last, e);
    hide KeyLess;
    var all := front + [last];
    forall i | 0 <= i < |more| ensures !KeyLess(last, more[i]) {
      assert more[i] in multiset(more);
      if more[i] != e {
        assert more[i] in multiset(front);
        var j :| 0 <= j < |front| && front[j] == more[i];
        assert all[j] == more[i] && all[|front|] == last;
      }
    }
  }

  lemma {:induction false} InsertVersions(entries: seq<Entry>, e: Entry, oid: nat, xid: nat)
    requires InOrder(entries)
    ensures Versions(Insert(entries, e), oid, xid) == Versions(entries + [e], oid, xid)
  {
    hide Versions;
    VersionsAppend(entries, e, oid, xid);
    if entries != [] && KeyLess(e, entries[|entries| - 1]) {
      var front, last := entries[..|entries| - 1], entries[|entries| - 1];
      InsertVersions(front, e, oid, xid);
      VersionsAppend(front, e, oid, xid);
      VersionsAppend(Insert(front, e), last, oid, xid);
      VersionsAppend(front, last, oid, xid);
      assert entries == front + [last];
    }
  }

  /** Sorting changes neither the entries nor what anything resolves to. */
  lemma {:induction false} SortKeepsVersions(entries: seq<Entry>)
    ensures InOrder(SortByKey(entries)) && multiset(SortByKey(entries)) == multiset(entries)
    ensures forall oid, xid :: Versions(SortByKey(entries), oid, xid) == Versions(entries, oid, xid)
  {
    if entries != [] {
      var front, e := entries[..|entries| - 1], entries[|entries| - 1];
      SortKeepsVersions(front);
      InsertSorted(SortByKey(front), e);
      assert entries == front + [e];
      forall oid, xid ensures Versions(SortByKey(entries), oid, xid) == Versions(entries, oid, xid) {
        InsertVersions(SortByKey(front), e, oid, xid);
        VersionsAppend(SortByKey(front), e, oid, xid);
        VersionsAppend(front, e, oid, xid);
      }
    }
  }

  /** The block the last pair for an object names, if any pair does. */
  function Mapped(pairs: seq<(nat, nat)>, oid: nat): Option<nat> {
    if pairs == [] then None
    else if pairs[|pairs| - 1].0 == oid then Some(pairs[|pairs| - 1].1)
    else Mapped(pairs[..|pairs| - 1], oid)
  }

  /** Exactly the versions of the new transaction for the mapped objects change. */
  ghost predicate MapsAdded(entries: seq<Entry>, pairs: seq<(nat, nat)>, xid: nat, result: seq<Entry>) {
    forall oid: nat, k: nat ::
      Versions(result, oid, k) ==
      if k == xid && Mapped(pairs, oid).Some? then [Entry(oid, xid, false, Mapped(pairs, oid).value)]
      else Versions(entries, oid, k)
  }

  /** Records the blocks of a transaction's new nodes. */
  method AddMappings(entries: seq<Entry>, pairs: seq<(nat, nat)>, xid: nat) returns (result: seq<Entry>)
    ensures MapsAdded(entries, pairs, xid, result) && InOrder(result) && |result| <= |entries| + |pairs|
  {
    hide Versions, Mapped, SortByKey, InOrder, Remap, MapsAdded;
    result := entries;
    NothingAdded(entries, xid);
    for i := 0 to |pairs|
      invariant MapsAdded(entries, pairs[..i], xid, result) && |result| <= |entries| + i
    {
      OneAdded(entries, pairs, i, xid, result);
      RemapSize(result, pairs[i].0, xid, pairs[i].1);
      result := Remap(result, pairs[i].0, xid, pairs[i].1);
    }
    assert pairs[..|pairs|] == pairs;
    SortedAdded(entries, pairs, xid, result);
    SortSize(result);
    result := SortByKey(result);
  }

  lemma {:induction false} WithoutSize(entries: seq<Entry>, oid: nat, xid: nat)
    ensures |Without(entries, oid, xid)| <= |entries|
  {
    if entries != [] {
      WithoutSize(entries[..|entries| - 1], oid, xid);
    }
  }

  lemma RemapSize(entries: seq<Entry>, oid: nat, xid: nat, paddr: nat)
    ensures |Remap(entries, oid, xid, paddr)| <= |entries| + 1
  {
    WithoutSize(entries, oid, xid);
  }

  lemma {:induction false} InsertSize(entries: seq<Entry>, e: Entry)
    ensures |Insert(entries, e)| == |entries| + 1
  {
    if entries != [] && KeyLess(e, entries[|entries| - 1]) {
      InsertSize(entries[..|entries| - 1], e);
    }
  }

  lemma {:induction false} SortSize(entries: seq<Entry>)
    ensures |SortByKey(entries)| == |entries|
  {
    if entries != [] {
      SortSize(entries[..|entries| - 1]);
      InsertSize(SortByKey(entries[..|entries| - 1]), entries[|entries| - 1]);
    }
  }

  lemma NothingAdded(entries: seq<Entry>, xid: nat)
    ensures MapsAdded(entries, [], xid, entries)
  {
  }

  lemma OneAdded(entries: seq<Entry>, pairs: seq<(nat, nat)>, i: nat, xid: nat, result: seq<Entry>)
    requires i < |pairs| && MapsAdded(entries, pairs[..i], xid, result)
    ensures MapsAdded(entries, pairs[..i + 1], xid, Remap(result, pairs[i].0, xid, pairs[i].1))
  {
    hide Versions, Remap;
    assert pairs[..i + 1][..i] == pairs[..i];
    forall oid: nat, k: nat
      ensures Versions(Remap(result, pairs[i].0, xid, pairs[i].1), oid, k) ==
              if k == xid && Mapped(pairs[..i + 1], oid).Some? then
                [Entry(oid, xid, false, Mapped(pairs[..i + 1], oid).value)]
              else Versions(entries, oid, k)
    {
      VersionsRemap(result, pairs[i].0, xid, pairs[i].1, oid, k);
    }
  }

  lemma SortedAdded(entries: seq<Entry>, pairs: seq<(nat, nat)>, xid: nat, result: seq<Entry>)
    requires MapsAdded(entries, pairs, xid, result)
    ensures MapsAdded(entries, pairs, xid, SortByKey(result)) && InOrder(SortByKey(result))
  {
    hide Versions, Mapped, SortByKey;
    SortKeepsVersions(result);
  }

  /** Every earlier transaction still resolves every object as before. */
  lemma EarlierUnchanged(entries: seq<Entry>, pairs: seq<(nat, nat)>, xid: nat, result: seq<Entry>, oid: nat, x: nat)
    requires MapsAdded(entries, pairs, xid, result) && (x < xid || Mapped(pairs, oid).None?)
    ensures Resolve(result, oid, x) == Resolve(entries, oid, x)
  {
    hide Versions, Mapped, Newest;
    ResolveByVersions(result, entries, oid, x);
  }

  /** The new transaction resolves every rewritten object to its new block. */
  lemma NewResolved(entries: seq<Entry>, pairs: seq<(nat, nat)>, xid: nat, result: seq<Entry>, oid: nat)
    requires MapsAdded(entries, pairs, xid, result) && Mapped(pairs, oid).Some?
    ensures Resolve(result, oid, xid) == Ok(Mapped(pairs, oid).value)
  {
    hide Versions, Mapped, Newest;
    var e := Entry(oid, xid, false, Mapped(pairs, oid).value);
    assert Versions(result, oid, xid) == [e];
    NewestIsLast(result, oid, xid);
    LastUnique(result, oid, xid, Newest(result, oid, xid), Some(e));
  }

  lemma {:induction false} VersionsFrom(entries: seq<Entry>, oid: nat, xid: nat)
    ensures forall e :: e in Versions(entries, oid, xid) ==> e in entries
    ensures forall e :: e in entries && e.oid == oid && e.xid == xid ==> e in Versions(entries, oid, xid)
  {
    if entries != [] {
      VersionsFrom(entries[..|entries| - 1], oid, xid);
      assert entries == entries[..|entries| - 1] + [entries[|entries| - 1]];
    }
  }

  /** Every entry of the new map is an old one or a new mapping. */
  lemma EntryAdded(entries: seq<Entry>, pairs: seq<(nat, nat)>, xid: nat, result: seq<Entry>, e: Entry)
    requires MapsAdded(entries, pairs, xid, result) && e in result
    ensures e in entries || (e.xid == xid && Mapped(pairs, e.oid) == Some(e.paddr))
  {
    hide Versions, Mapped;
    VersionsFrom(result, e.oid, e.xid);
    VersionsFrom(entries, e.oid, e.xid);
  }

  /** Among pairs with distinct objects, each pair is the mapping of its object. */
  lemma {:induction false} MappedPair(pairs: seq<(nat, nat)>, i: nat)
    requires i < |pairs| && forall j :: i < j < |pairs| ==> pairs[j].0 != pairs[i].0
    ensures Mapped(pairs, pairs[i].0) == Some(pairs[i].1)
  {
    if i < |pairs| - 1 {
      MappedPair(pairs[..|pairs| - 1], i);
    }
  }

  lemma {:induction false} MappedIn(pairs: seq<(nat, nat)>, oid: nat)
    requires Mapped(pairs, oid).Some?
    ensures (oid, Mapped(pairs, oid).value) in pairs
  {
    if pairs[|pairs| - 1].0 != oid {
      MappedIn(pairs[..|pairs| - 1], oid);
    }
  }

  // ---- reading a map back ------------------------------------------------------------------------

  function OmapRecord(e: Entry, bs: nat): Record {
    Record(LeBytes(e.oid, 8) + LeBytes(e.xid, 8),
           [if e.deleted then 1 else 0, 0, 0, 0] + LeBytes(bs, 4) + LeBytes(e.paddr, 8))
  }

  function OmapRecords(entries: seq<Entry>, bs: nat): (recs: seq<Record>)
    ensures |recs| == |entries|
    ensures forall i :: 0 <= i < |recs| ==> |recs[i].key| == 16 && |recs[i].value| == 16
  {
    seq(|entries|, i requires 0 <= i < |entries| => OmapRecord(entries[i], bs))
  }

  predicate Fits(entries: seq<Entry>) {
    forall i :: 0 <= i < |entries| ==> entries[i].oid < U64 && entries[i].xid < U64 && entries[i].paddr < U64
  }

  function EntryOf(rec: Record): Entry
    requires |rec.key| >= 16 && |rec.value| >= 16
  {
    Entry(U64At(rec.key, 0), U64At(rec.key, 8), U32At(rec.value, 0) % 2 == 1, U64At(rec.value, 8))
  }

  lemma OmapRecordRoundTrip(e: Entry, bs: nat)
    requires e.oid < U64 && e.xid < U64 && e.paddr < U64
    ensures EntryOf(OmapRecord(e, bs)) == e
  {
    hide Le, LeBytes, Pow256;
    var r := OmapRecord(e, bs);
    assert r.key[0..8] == LeBytes(e.oid, 8) && r.key[8..16] == LeBytes(e.xid, 8) &&
           r.value[8..16] == LeBytes(e.paddr, 8);
    Fits64(e.oid);
    Fits64(e.xid);
    Fits64(e.paddr);
    var flag := if e.deleted then 1 else 0;
    assert r.value[0..4] == [flag, 0, 0, 0];
    FlagWord(r.value[0..4], flag);
  }

  /** Storing a map's entries as records loses nothing. */
  lemma OmapRecordsRoundTrip(entries: seq<Entry>, bs: nat)
    requires Fits(entries)
    ensures EntriesOf(OmapRecords(entries, bs)) == entries
  {
    hide EntryOf, OmapRecord;
    forall i | 0 <= i < |entries| ensures EntriesOf(OmapRecords(entries, bs))[i] == entries[i] {
      OmapRecordRoundTrip(entries[i], bs);
    }
  }

  lemma FlagWord(s: seq<byte>, flag: byte)
    requires s == [flag, 0, 0, 0]
    ensures Le(s) == flag
  {
    assert Le(s[4..]) == 0;
    assert Le(s[3..]) == 0;
    assert Le(s[2..]) == 0;
    assert Le(s[1..]) == 0;
  }

  function EntriesOf(recs: seq<Record>): (r: seq<Entry>)
    requires forall i :: 0 <= i < |recs| ==> |recs[i].key| >= 16 && |recs[i].value| >= 16
    ensures |r| == |recs|
  {
    seq(|recs|, i requires 0 <= i < |recs| => EntryOf(recs[i]))
  }

  /** Of several newest visible entries, the first: `version > *old` is strict. */
  function FirstNewest(entries: seq<Entry>, oid: nat, x: nat): Option<Entry> {
    if entries == [] then None else
    var earlier, e := FirstNewest(entries[..|entries| - 1], oid, x), entries[|entries| - 1];
    if Visible(e, oid, x) && (earlier.None? || earlier.value.xid < e.xid) then Some(e) else earlier
  }

  /** No object has two entries in one transaction, as `collect_omap` demands. */
  ghost predicate OneEach(entries: seq<Entry>) {
    forall i, j :: 0 <= i < j < |entries| ==> entries[i].oid != entries[j].oid || entries[i].xid != entries[j].xid
  }

  lemma {:induction false} FirstIsLast(entries: seq<Entry>, oid: nat, x: nat)
    requires OneEach(entries)
    ensures FirstNewest(entries, oid, x) == Newest(entries, oid, x)
  {
    if entries != [] {
      FirstIsLast(entries[..|entries| - 1], oid, x);
      NewestIsNewest(entries[..|entries| - 1], oid, x);
    }
  }

  /** What the lookup of a replacement says of an object: nothing if its newest version is deleted. */
  function Lookup(entries: seq<Entry>, oid: nat, x: nat): Option<nat> {
    match FirstNewest(entries, oid, x)
    case Some(e) => if e.deleted then None else Some(e.paddr)
    case None => None
  }

  /** Two lookups say the same. */
  predicate SameAnswer(found: Option<nat>, resolved: Result<nat>) {
    match found
    case Some(p) => resolved == Ok(p)
    case None => resolved.Err?
  }

  /**
   * The resolver does not look at the deleted flag. So a replacement's table agrees with it on an
   * object exactly when no visible version exists or the newest one is not deleted.
   */
  lemma LookupAgrees(entries: seq<Entry>, oid: nat, x: nat)
    requires OneEach(entries)
    ensures SameAnswer(Lookup(entries, oid, x), Resolve(entries, oid, x)) <==>
            Newest(entries, oid, x).None? || !Newest(entries, oid, x).value.deleted
  {
    hide Newest, FirstNewest;
    FirstIsLast(entries, oid, x);
  }

  /** A deleted object that still resolves. */
  lemma DeletedResolves()
    ensures var entries := [Entry(5, 1, true, 7)];
            OneEach(entries) && Resolve(entries, 5, 1) == Ok(7) && Lookup(entries, 5, 1) == None
  {
    var entries := [Entry(5, 1, true, 7)];
    assert entries[..0] == [];
    assert Newest(entries[..0], 5, 1) == None && FirstNewest(entries[..0], 5, 1) == None;
  }

  /** The newest version of each object, tombstones included. */
  ghost predicate Tracks(entries: seq<Entry>, x: nat, versions: map<nat, Entry>) {
    forall oid: nat ::
      match FirstNewest(entries, oid, x)
      case None => oid !in versions
      case Some(e) => oid in versions && versions[oid] == e
  }

  /** Replace's lookup table: each object's newest block as of x, deleted objects left out. */
  method Mappings(recs: seq<Record>, x: nat) returns (r: Result<map<nat, nat>>)
    ensures r.Ok? <==> forall i :: 0 <= i < |recs| ==> |recs[i].key| == 16 && |recs[i].value| == 16
    ensures r.Ok? ==> forall oid: nat ::
                        && (oid in r.value <==> Lookup(EntriesOf(recs), oid, x).Some?)
                        && (oid in r.value ==> Lookup(EntriesOf(recs), oid, x) == Some(r.value[oid]))
  {
    hide FirstNewest, Tracks;
    var versions: map<nat, Entry> := map[];
    ghost var entries: seq<Entry> := [];
    TracksNone(x);
    for i := 0 to |recs|
      invariant forall j :: 0 <= j < i ==> |recs[j].key| == 16 && |recs[j].value| == 16
      invariant entries == EntriesOf(recs[..i]) && Tracks(entries, x, versions)
    {
      if |recs[i].key| != 16 || |recs[i].value| != 16 {
        return Err(ShortRecord);
      }
      var e := EntryOf(recs[i]);
      TracksNext(entries, e, x, versions);
      if e.xid <= x && (e.oid !in versions || e.xid > versions[e.oid].xid) {
        versions := versions[e.oid := e];
      }
      entries := entries + [e];
    }
    assert recs[..|recs|] == recs;
    TracksAt(entries, x, versions);
    r := Ok(map oid | oid in versions && !versions[oid].deleted :: versions[oid].paddr);
  }

  lemma TracksNone(x: nat)
    ensures Tracks([], x, map[])
  {
  }

  lemma TracksNext(entries: seq<Entry>, e: Entry, x: nat, versions: map<nat, Entry>)
    requires Tracks(entries, x, versions)
    ensures Tracks(entries + [e], x,
                   if e.xid <= x && (e.oid !in versions || e.xid > versions[e.oid].xid) then versions[e.oid := e]
                   else versions)
  {
    assert (entries + [e])[..|entries|] == entries;
  }

  lemma TracksAt(entries: seq<Entry>, x: nat, versions: map<nat, Entry>)
    requires Tracks(entries, x, versions)
    ensures forall oid: nat :: oid in versions <==> FirstNewest(entries, oid, x).Some?
    ensures forall oid: nat :: oid in versions ==> versions[oid] == FirstNewest(entries, oid, x).value
  {
    hide FirstNewest;
  }

  /** Update's lookup table: the last record of an object, whatever its transaction. */
  method VolumeMappings(recs: seq<Record>) returns (r: Result<map<nat, nat>>)
    ensures r.Ok? <==> forall i :: 0 <= i < |recs| ==> |recs[i].key| >= 16 && |recs[i].value| >= 16
    ensures r.Ok? ==> forall oid: nat ::
                        (oid in r.value <==> LastOf(EntriesOf(recs), oid).Some?) &&
                        (oid in r.value ==> Some(r.value[oid]) == LastOf(EntriesOf(recs), oid))
  {
    hide LastOf;
    var found: map<nat, nat> := map[];
    LastOfNone();
    for i := 0 to |recs|
      invariant forall j :: 0 <= j < i ==> |recs[j].key| >= 16 && |recs[j].value| >= 16
      invariant forall oid: nat ::
                  (oid in found <==> LastOf(EntriesOf(recs[..i]), oid).Some?) &&
                  (oid in found ==> Some(found[oid]) == LastOf(EntriesOf(recs[..i]), oid))
    {
      if |recs[i].key| < 16 || |recs[i].value| < 16 {
        return Err(ShortRecord);
      }
      var e := EntryOf(recs[i]);
      LastOfNext(EntriesOf(recs[..i]), e);
      assert EntriesOf(recs[..i + 1]) == EntriesOf(recs[..i]) + [e];
      found := found[e.oid := e.paddr];
    }
    assert recs[..|recs|] == recs;
    r := Ok(found);
  }

  /** The last entry of an object. */
  function LastEntry(entries: seq<Entry>, oid: nat): Option<Entry> {
    if entries == [] then None
    else if entries[|entries| - 1].oid == oid then Some(entries[|entries| - 1])
    else LastEntry(entries[..|entries| - 1], oid)
  }

  function LastOf(entries: seq<Entry>, oid: nat): Option<nat> {
    match LastEntry(entries, oid)
    case Some(e) => Some(e.paddr)
    case None => None
  }

  lemma LastOfNone()
    ensures forall oid :: LastOf([], oid) == None
  {
  }

  lemma LastOfNext(entries: seq<Entry>, e: Entry)
    ensures forall oid :: LastOf(entries + [e], oid) == if oid == e.oid then Some(e.paddr) else LastOf(entries, oid)
  {
    assert (entries + [e])[..|entries|] == entries;
  }

  lemma {:induction false} LastEntryIs(entries: seq<Entry>, oid: nat)
    ensures match LastEntry(entries, oid)
            case None => forall e :: e in entries ==> e.oid != oid
            case Some(v) => v in entries && v.oid == oid
  {
    if entries != [] {
      LastEntryIs(entries[..|entries| - 1], oid);
    }
  }

  /**
   * The last record of an object is the version a transaction sees exactly when there is none, or
   * it is visible itself and no visible version recorded before it is newer.
   */
  lemma {:induction false} LastIsNewestIff(entries: seq<Entry>, oid: nat, x: nat)
    ensures LastEntry(entries, oid) == Newest(entries, oid, x) <==>
            LastEntry(entries, oid).None? ||
            (LastEntry(entries, oid).value.xid <= x &&
             forall e :: e in entries && Visible(e, oid, x) ==> e.xid <= LastEntry(entries, oid).value.xid)
  {
    LastEntryIs(entries, oid);
    NewestIsNewest(entries, oid, x);
    if LastEntry(entries, oid).Some? && LastEntry(entries, oid).value.xid <= x &&
       forall e :: e in entries && Visible(e, oid, x) ==> e.xid <= LastEntry(entries, oid).value.xid {
      LastIsChosen(entries, oid, x);
    }
  }

  lemma {:induction false} LastIsChosen(entries: seq<Entry>, oid: nat, x: nat)
    requires LastEntry(entries, oid).Some? && LastEntry(entries, oid).value.xid <= x
    requires forall e :: e in entries && Visible(e, oid, x) ==> e.xid <= LastEntry(entries, oid).value.xid
    ensures Newest(entries, oid, x) == LastEntry(entries, oid)
  {
    var front, e := entries[..|entries| - 1], entries[|entries| - 1];
    NewestIsNewest(front, oid, x);
    if e.oid != oid {
      LastIsChosen(front, oid, x);
    }
  }

  /** On a map out of order the last record need not be the newest version. */
  lemma UnsortedMisleads()
    ensures var entries := [Entry(5, 2, false, 7), Entry(5, 1, false, 8)];
            OneEach(entries) && !InOrder(entries) && Resolve(entries, 5, 2) == Ok(7) && LastOf(entries, 5) == Some(8)
  {
    var entries := [Entry(5, 2, false, 7), Entry(5, 1, false, 8)];
    assert entries[..1] == [entries[0]] && entries[..1][..0] == [];
    assert Newest(entries[..1][..0], 5, 2) == None;
    assert Newest(entries[..1], 5, 2) == Some(entries[0]);
    assert KeyLess(entries[1], entries[0]);
  }

  /** The writer leaves maps sorted, so for the newest transaction the last record is always the newest version. */
  lemma LastIsNewest(entries: seq<Entry>, oid: nat, x: nat)
    requires InOrder(entries) && forall e :: e in entries ==> e.xid <= x
    ensures SameAnswer(LastOf(entries, oid), Resolve(entries, oid, x))
  {
    hide Newest, LastEntry;
    LastEntryIs(entries, oid);
    NewestIsNewest(entries, oid, x);
    if LastEntry(entries, oid).Some? {
      LastOfSorted(entries, oid);
      LastIsNewestIff(entries, oid, x);
    }
  }

  lemma {:induction false} LastOfSorted(entries: seq<Entry>, oid: nat)
    requires InOrder(entries) && LastEntry(entries, oid).Some?
    ensures forall e :: e in entries && e.oid == oid ==> e.xid <= LastEntry(entries, oid).value.xid
  {
    var n := |entries| - 1;
    if entries[n].oid != oid {
      LastOfSorted(entries[..n], oid);
      assert forall e :: e in entries && e.oid == oid ==> e in entries[..n];
    } else {
      forall e | e in entries && e.oid == oid ensures e.xid <= entries[n].xid {
        var i :| 0 <= i < |entries| && entries[i] == e;
        assert i < n ==> !KeyLess(entries[n], entries[i]);
      }
    }
  }
}

/**
 * The streams of a file that is replaced (src/apfs_replace.rs `detach_stream` and the selection in
 * `replace_file_in_container`): which the file owns, how they leave the catalog and the extent
 * references, and which blocks nothing refers to any more.
 */
module StreamDetach {
  import opened Bytes
  import opened SpaceManager

  // ---- records ---------------------------------------------------------------------------------------------------

  /** The value of an extended attribute: too short, held in the record, a stream, or a stream cut short. */
  datatype Value = Brief | Inline | Streamed(stream: nat) | Cut

  /**
   * A catalog record. An inode names its stream, and has a size if it has one; `fields` says that its
   * record goes on behind the fixed part. A malformed stream id or extent is told by `None` and `whole`.
   */
  datatype Rec =
    | Inode(id: nat, stream: nat, size: Option<nat>, fields: bool)
    | Xattr(id: nat, name: Option<seq<byte>>, value: Value)
    | StreamId(id: nat, count: Option<nat>)
    | Extent(id: nat, logical: nat, length: nat, paddr: nat, plain: bool)
    | Other(id: nat)
    | Bad

  /** A physical extent: how long it is, who owns it and how many use it; `BadRef` has no proper key. */
  datatype Ref = Ref(paddr: nat, blocks: nat, owner: nat, count: nat) | SplitRef(paddr: nat) | BadRef

  /** An extent record of the stream that lies somewhere. */
  predicate Placed(r: Rec, stream: nat) {
    r.Extent? && r.id == stream && r.paddr != 0
  }

  /** What is dropped with a stream: its id and its extents. */
  predicate OfStream(r: Rec, stream: nat) {
    (r.StreamId? || r.Extent?) && r.id == stream
  }

  function Dropping(stream: nat): Rec -> bool {
    r => OfStream(r, stream)
  }

  function Keep(records: seq<Rec>, drop: Rec -> bool): (r: seq<Rec>)
    ensures forall x :: x in r <==> x in records && !drop(x)
    ensures |r| <= |records|
  {
    if records == [] then [] else
    var front := Keep(records[..|records| - 1], drop);
    if drop(records[|records| - 1]) then front else front + [records[|records| - 1]]
  }

  predicate AllExtents(s: seq<Rec>) {
    forall i :: 0 <= i < |s| ==> s[i].Extent?
  }

  /** The stream's extents that lie somewhere, in order. */
  function Extents(records: seq<Rec>, stream: nat): (r: seq<Rec>)
    ensures AllExtents(r) && forall x :: x in r <==> x in records && Placed(x, stream)
  {
    if records == [] then [] else
    var front := Extents(records[..|records| - 1], stream);
    if Placed(records[|records| - 1], stream) then front + [records[|records| - 1]] else front
  }

  // ---- detaching a stream ------------------------------------------------------------------------------------------

  /** The first reference with this address. */
  function FindRef(refs: seq<Ref>, paddr: nat): (r: Option<nat>)
    ensures r.Some? ==> r.value < |refs| && !refs[r.value].BadRef? && refs[r.value].paddr == paddr
    ensures r.Some? ==> forall i :: 0 <= i < r.value ==> refs[i].BadRef? || refs[i].paddr != paddr
    ensures r.None? ==> forall i :: 0 <= i < |refs| ==> refs[i].BadRef? || refs[i].paddr != paddr
  {
    if refs == [] then None
    else if !refs[0].BadRef? && refs[0].paddr == paddr then Some(0)
    else
      var k := FindRef(refs[1..], paddr);
      if k.Some? then Some(k.value + 1) else None
  }

  /** A record that does not keep the stream from being detached. */
  predicate Sole(r: Rec, stream: nat, bs: nat)
    requires bs > 0
  {
    && !r.Bad? && (r.StreamId? && r.id == stream ==> r.count == Some(1))
    && (r.Extent? && r.id == stream ==> r.plain && (r.paddr != 0 ==> r.length % bs == 0))
  }

  /** The reference a lone extent has. */
  function RefOf(e: Rec, owner: nat, bs: nat): Ref
    requires e.Extent? && bs > 0
  {
    Ref(e.paddr, e.length / bs, owner, 1)
  }

  /** The references after one extent is detached. */
  function DropOne(refs: seq<Ref>, e: Rec, owner: nat, bs: nat, retained: bool): Option<seq<Ref>>
    requires e.Extent? && bs > 0
  {
    match FindRef(refs, e.paddr)
    case None => None
    case Some(k) =>
      if refs[k] != RefOf(e, owner, bs) then None
      else if retained then Some(refs) else Some(refs[..k] + refs[k + 1..])
  }

  /** The references after these extents are detached, one after the other. */
  function Dropped(refs: seq<Ref>, extents: seq<Rec>, owner: nat, bs: nat, retained: bool): Option<seq<Ref>>
    requires bs > 0 && AllExtents(extents)
  {
    if extents == [] then Some(refs)
    else
      match Dropped(refs, extents[..|extents| - 1], owner, bs, retained)
      case None => None
      case Some(rest) => DropOne(rest, extents[|extents| - 1], owner, bs, retained)
  }

  /** Address and length of each extent. */
  function Runs(extents: seq<Rec>, bs: nat): (r: seq<(nat, nat)>)
    requires bs > 0 && AllExtents(extents)
    ensures |r| == |extents| && forall i :: 0 <= i < |r| ==> r[i] == (extents[i].paddr, extents[i].length / bs)
  {
    seq(|extents|, i requires 0 <= i < |extents| => (extents[i].paddr, extents[i].length / bs))
  }

  ghost predicate Detachable(records: seq<Rec>, refs: seq<Ref>, stream: nat, owner: nat, bs: nat, retained: bool)
    requires bs > 0
  {
    && (forall i :: 0 <= i < |records| ==> Sole(records[i], stream, bs))
    && Dropped(refs, Extents(records, stream), owner, bs, retained).Some?
  }

  /** After i records: what is left of the references, and the extents found. */
  ghost predicate Detaching(records: seq<Rec>, refs: seq<Ref>, stream: nat, owner: nat, bs: nat, retained: bool, i: nat,
                            left: seq<Ref>, extents: seq<(nat, nat)>)
    requires bs > 0
  {
    && i <= |records| && (forall k :: 0 <= k < i ==> Sole(records[k], stream, bs))
    && Some(left) == Dropped(refs, Extents(records[..i], stream), owner, bs, retained)
    && extents == if retained then [] else Runs(Extents(records[..i], stream), bs)
  }

  lemma DetachPass(records: seq<Rec>, refs: seq<Ref>, stream: nat, owner: nat, bs: nat, retained: bool, i: nat,
                   left: seq<Ref>, extents: seq<(nat, nat)>)
    requires bs > 0 && Detaching(records, refs, stream, owner, bs, retained, i, left, extents) && i < |records|
    requires Sole(records[i], stream, bs) && !Placed(records[i], stream)
    ensures Detaching(records, refs, stream, owner, bs, retained, i + 1, left, extents)
  {
    hide Dropped, Runs;
    ExtentsStep(records, i, stream);
  }

  lemma DetachTake(records: seq<Rec>, refs: seq<Ref>, stream: nat, owner: nat, bs: nat, retained: bool, i: nat,
                   left: seq<Ref>, extents: seq<(nat, nat)>)
    requires bs > 0 && Detaching(records, refs, stream, owner, bs, retained, i, left, extents) && i < |records|
    requires Sole(records[i], stream, bs) && Placed(records[i], stream)
    requires DropOne(left, records[i], owner, bs, retained).Some?
    ensures Detaching(records, refs, stream, owner, bs, retained, i + 1,
                      DropOne(left, records[i], owner, bs, retained).value,
                      if retained then extents else extents + [(records[i].paddr, records[i].length / bs)])
  {
    hide Dropped, DropOne, Runs, Extents;
    ExtentsStep(records, i, stream);
    DroppedPush(refs, Extents(records[..i], stream), records[i], owner, bs, retained);
    RunsPush(Extents(records[..i], stream), records[i], bs);
  }

  lemma RunsPush(extents: seq<Rec>, e: Rec, bs: nat)
    requires bs > 0 && AllExtents(extents) && e.Extent?
    ensures Runs(extents + [e], bs) == Runs(extents, bs) + [(e.paddr, e.length / bs)]
  {
  }

  lemma DetachStops(records: seq<Rec>, refs: seq<Ref>, stream: nat, owner: nat, bs: nat, retained: bool, i: nat,
                    left: seq<Ref>, extents: seq<(nat, nat)>)
    requires bs > 0 && Detaching(records, refs, stream, owner, bs, retained, i, left, extents) && i < |records|
    requires Sole(records[i], stream, bs) ==>
               Placed(records[i], stream) && DropOne(left, records[i], owner, bs, retained).None?
    ensures !Detachable(records, refs, stream, owner, bs, retained)
  {
    hide Dropped, DropOne, Runs;
    if Sole(records[i], stream, bs) {
      ExtentsStep(records, i, stream);
      DroppedPush(refs, Extents(records[..i], stream), records[i], owner, bs, retained);
      StepMatters(records, refs, i, stream, owner, bs, retained);
    }
  }

  lemma DetachEnds(records: seq<Rec>, refs: seq<Ref>, stream: nat, owner: nat, bs: nat, retained: bool,
                   left: seq<Ref>, extents: seq<(nat, nat)>)
    requires bs > 0 && Detaching(records, refs, stream, owner, bs, retained, |records|, left, extents)
    ensures Detachable(records, refs, stream, owner, bs, retained)
    ensures Some(left) == Dropped(refs, Extents(records, stream), owner, bs, retained)
    ensures extents == if retained then [] else Runs(Extents(records, stream), bs)
  {
    hide Dropped, Runs, Extents;
    assert records[..|records|] == records;
  }

  /**
   * Detaches a stream. Refused exactly when a key is malformed, the stream is shared, encrypted or
   * unaligned, or one of its extents has no reference of its own. Otherwise its id and extents leave
   * the catalog and, unless a snapshot retains them, their references leave the list and the blocks
   * are returned.
   */
  method DetachStream(records: seq<Rec>, refs: seq<Ref>, stream: nat, owner: nat, bs: nat, retained: bool)
      returns (r: Result<(seq<Rec>, seq<Ref>, seq<(nat, nat)>)>)
    requires bs > 0
    ensures r.Ok? <==> Detachable(records, refs, stream, owner, bs, retained)
    ensures r.Ok? ==> r.value.0 == Keep(records, Dropping(stream))
    ensures r.Ok? ==> Some(r.value.1) == Dropped(refs, Extents(records, stream), owner, bs, retained)
    ensures r.Ok? ==> r.value.2 == if retained then [] else Runs(Extents(records, stream), bs)
  {
    hide Dropped, Extents, Runs, Keep, Detaching, Detachable, FindRef;
    var left, extents: seq<(nat, nat)> := refs, [];
    DetachStarts(records, refs, stream, owner, bs, retained);
    for i := 0 to |records|
      invariant Detaching(records, refs, stream, owner, bs, retained, i, left, extents)
    {
      var rec := records[i];
      if !Sole(rec, stream, bs) || (Placed(rec, stream) && DropOne(left, rec, owner, bs, retained).None?) {
        DetachStops(records, refs, stream, owner, bs, retained, i, left, extents);
      } else if Placed(rec, stream) {
        DetachTake(records, refs, stream, owner, bs, retained, i, left, extents);
      } else {
        DetachPass(records, refs, stream, owner, bs, retained, i, left, extents);
      }
      if rec.Bad? {
        return Err(ShortRecord);
      }
      if rec.id != stream {
        continue;
      }
      if rec.StreamId? && rec.count != Some(1) {
        return Err(Unsupported);
      }
      if !rec.Extent? {
        continue;
      }
      if !rec.plain {
        return Err(Unsupported);
      }
      if rec.paddr == 0 {
        continue;
      }
      if rec.length % bs != 0 {
        return Err(Malformed);
      }
      var index := FindRef(left, rec.paddr);
      if index.None? {
        return Err(NotFound);
      }
      if left[index.value] != Ref(rec.paddr, rec.length / bs, owner, 1) {
        return Err(Unsupported);
      }
      if !retained {
        left := left[..index.value] + left[index.value + 1..];
        extents := extents + [(rec.paddr, rec.length / bs)];
      }
    }
    DetachEnds(records, refs, stream, owner, bs, retained, left, extents);
    r := Ok((Keep(records, Dropping(stream)), left, extents));
  }

  lemma DetachStarts(records: seq<Rec>, refs: seq<Ref>, stream: nat, owner: nat, bs: nat, retained: bool)
    requires bs > 0
    ensures Detaching(records, refs, stream, owner, bs, retained, 0, refs, [])
  {
  }

  lemma ExtentsStep(records: seq<Rec>, i: nat, stream: nat)
    requires i < |records|
    ensures var before := Extents(records[..i], stream);
            Extents(records[..i + 1], stream) ==
            if Placed(records[i], stream) then before + [records[i]] else before
  {
    var more := records[..i + 1];
    assert more[..i] == records[..i] && more[i] == records[i];
  }

  lemma DroppedPush(refs: seq<Ref>, extents: seq<Rec>, e: Rec, owner: nat, bs: nat, retained: bool)
    requires bs > 0 && AllExtents(extents) && e.Extent?
    ensures Dropped(refs, extents + [e], owner, bs, retained) ==
            match Dropped(refs, extents, owner, bs, retained)
            case None => None
            case Some(rest) => DropOne(rest, e, owner, bs, retained)
  {
    hide DropOne;
    assert (extents + [e])[..|extents|] == extents;
  }

  /** What stops at a record stops the whole. */
  lemma {:induction false} StepMatters(records: seq<Rec>, refs: seq<Ref>, i: nat, stream: nat, owner: nat, bs: nat,
                                       retained: bool)
    requires bs > 0 && i < |records|
    ensures Dropped(refs, Extents(records[..i + 1], stream), owner, bs, retained).None? ==>
              Dropped(refs, Extents(records, stream), owner, bs, retained).None?
    decreases |records| - i
  {
    hide DropOne;
    if i + 1 == |records| {
      assert records[..i + 1] == records;
    } else {
      StepMatters(records, refs, i + 1, stream, owner, bs, retained);
      ExtentsStep(records, i + 1, stream);
      if Placed(records[i + 1], stream) {
        DroppedPush(refs, Extents(records[..i + 1], stream), records[i + 1], owner, bs, retained);
      }
    }
  }

  // ---- what extents and references say of blocks -------------------------------------------------------------------

  predicate Lies(r: Rec) {
    r.Extent? && r.paddr != 0
  }

  /** The blocks of all extents in the catalog. */
  ghost function CatCells(records: seq<Rec>, bs: nat): set<nat>
    requires bs > 0
  {
    set i, p | 0 <= i < |records| && Lies(records[i]) && p in CellsOf(records[i], bs) :: p
  }

  /** The blocks of an extent. */
  function CellsOf(r: Rec, bs: nat): set<nat>
    requires bs > 0 && r.Extent?
  {
    Range(r.paddr, r.length / bs)
  }

  ghost function RefCells(refs: seq<Ref>): set<nat> {
    set i, p | 0 <= i < |refs| && refs[i].Ref? && p in Range(refs[i].paddr, refs[i].blocks) :: p
  }

  ghost function RunCells(runs: seq<(nat, nat)>): set<nat> {
    set i, p | 0 <= i < |runs| && p in Range(runs[i].0, runs[i].1) :: p
  }

  /** How many records are hit. */
  function Tally(records: seq<Rec>, hit: Rec -> bool): nat {
    if records == [] then 0
    else Tally(records[..|records| - 1], hit) + if hit(records[|records| - 1]) then 1 else 0
  }

  /** How many extents begin at block p. */
  function CountAt(records: seq<Rec>, p: nat): nat {
    Tally(records, AtBlock(p))
  }

  function AtBlock(p: nat): Rec -> bool {
    r => Lies(r) && r.paddr == p
  }

  /** No address twice, and no block in two references. */
  ghost predicate UniqueRefs(refs: seq<Ref>) {
    forall i, j :: 0 <= i < j < |refs| ==> RefsApart(refs[i], refs[j])
  }

  predicate RefsApart(a: Ref, b: Ref) {
    && (!a.BadRef? && !b.BadRef? ==> a.paddr != b.paddr)
    && (a.Ref? && b.Ref? ==> Range(a.paddr, a.blocks) !! Range(b.paddr, b.blocks))
  }

  /** The reference is the extent's: same address, same length. */
  predicate RefFor(x: Ref, r: Rec, bs: nat)
    requires Lies(r)
  {
    x.Ref? && x.paddr == r.paddr && x.blocks * bs == r.length
  }

  /** Every extent has its reference, and no reference has more extents than it counts. */
  ghost predicate Matched(records: seq<Rec>, refs: seq<Ref>, bs: nat) {
    && UniqueRefs(refs)
    && (forall i :: 0 <= i < |records| && Lies(records[i]) ==> Backed(records[i], refs, bs))
    && (forall k :: 0 <= k < |refs| && refs[k].Ref? ==> CountAt(records, refs[k].paddr) <= refs[k].count)
  }

  ghost predicate Backed(r: Rec, refs: seq<Ref>, bs: nat)
    requires Lies(r)
  {
    exists k :: 0 <= k < |refs| && RefFor(refs[k], r, bs)
  }

  lemma {:induction false} TallyOne(records: seq<Rec>, hit: Rec -> bool, a: Rec)
    requires a in records && hit(a)
    ensures Tally(records, hit) >= 1
  {
    var front, r := records[..|records| - 1], records[|records| - 1];
    if r != a {
      assert a in front;
      TallyOne(front, hit, a);
    }
  }

  lemma {:induction false} TallyTwo(records: seq<Rec>, hit: Rec -> bool, a: Rec, b: Rec)
    requires a in records && b in records && a != b && hit(a) && hit(b)
    ensures Tally(records, hit) >= 2
  {
    var front, r := records[..|records| - 1], records[|records| - 1];
    assert forall x :: x in records ==> x in front || x == r;
    if a in front && b in front {
      TallyTwo(front, hit, a, b);
    } else {
      TallyOne(front, hit, if a in front then a else b);
    }
  }

  lemma {:induction false} TallyKeep(records: seq<Rec>, drop: Rec -> bool, hit: Rec -> bool)
    ensures Tally(Keep(records, drop), hit) <= Tally(records, hit)
  {
    if records != [] {
      var front, r := records[..|records| - 1], records[|records| - 1];
      TallyKeep(front, drop, hit);
      if !drop(r) {
        assert Keep(records, drop)[..|Keep(front, drop)|] == Keep(front, drop);
      }
    }
  }

  // ---- references after extents are dropped ------------------------------------------------------------------------

  /** With unique references, exactly the extents' own go. */
  lemma {:induction false} DroppedIs(refs: seq<Ref>, extents: seq<Rec>, owner: nat, bs: nat, left: seq<Ref>)
    requires bs > 0 && AllExtents(extents) && UniqueRefs(refs)
    requires Dropped(refs, extents, owner, bs, false) == Some(left)
    ensures UniqueRefs(left)
    ensures forall x :: x in left <==> x in refs && !Owned(x, extents, owner, bs)
    ensures forall i :: 0 <= i < |extents| ==> RefOf(extents[i], owner, bs) in refs
  {
    if extents != [] {
      hide UniqueRefs, Owned, DropOne;
      var front, e := extents[..|extents| - 1], extents[|extents| - 1];
      var rest := Dropped(refs, front, owner, bs, false).value;
      DroppedIs(refs, front, owner, bs, rest);
      DropStep(refs, extents, owner, bs, rest, left);
    }
  }

  lemma DropStep(refs: seq<Ref>, extents: seq<Rec>, owner: nat, bs: nat, rest: seq<Ref>, left: seq<Ref>)
    requires bs > 0 && AllExtents(extents) && extents != [] && UniqueRefs(rest)
    requires var front := extents[..|extents| - 1];
             && (forall x :: x in rest <==> x in refs && !Owned(x, front, owner, bs))
             && (forall i :: 0 <= i < |front| ==> RefOf(front[i], owner, bs) in refs)
    requires DropOne(rest, extents[|extents| - 1], owner, bs, false) == Some(left)
    ensures UniqueRefs(left)
    ensures forall x :: x in left <==> x in refs && !Owned(x, extents, owner, bs)
    ensures forall i :: 0 <= i < |extents| ==> RefOf(extents[i], owner, bs) in refs
  {
    hide UniqueRefs, Owned, FindRef;
    var front, e := extents[..|extents| - 1], extents[|extents| - 1];
    var k := FindRef(rest, e.paddr).value;
    RemoveOne(rest, k);
    forall x ensures x in left <==> x in refs && !Owned(x, extents, owner, bs) {
      OwnedPush(x, extents, owner, bs);
    }
    forall i | 0 <= i < |extents| ensures RefOf(extents[i], owner, bs) in refs {
      if i < |front| {
        assert extents[i] == front[i];
      } else {
        assert rest[k] in rest;
      }
    }
  }

  ghost predicate Owned(x: Ref, extents: seq<Rec>, owner: nat, bs: nat)
    requires bs > 0 && AllExtents(extents)
  {
    exists i :: 0 <= i < |extents| && x == RefOf(extents[i], owner, bs)
  }

  lemma OwnedPush(x: Ref, extents: seq<Rec>, owner: nat, bs: nat)
    requires bs > 0 && AllExtents(extents) && extents != []
    ensures var front, e := extents[..|extents| - 1], extents[|extents| - 1];
            Owned(x, extents, owner, bs) <==> Owned(x, front, owner, bs) || x == RefOf(e, owner, bs)
  {
    var front, e := extents[..|extents| - 1], extents[|extents| - 1];
    if Owned(x, extents, owner, bs) {
      var i :| 0 <= i < |extents| && x == RefOf(extents[i], owner, bs);
      if i < |front| {
        assert front[i] == extents[i];
      }
    }
    if Owned(x, front, owner, bs) {
      var i :| 0 <= i < |front| && x == RefOf(front[i], owner, bs);
      assert extents[i] == front[i];
    }
  }

  /** Removing a proper reference from a unique list removes that value. */
  lemma RemoveOne(refs: seq<Ref>, k: nat)
    requires UniqueRefs(refs) && k < |refs| && !refs[k].BadRef?
    ensures UniqueRefs(refs[..k] + refs[k + 1..])
    ensures forall x :: x in refs[..k] + refs[k + 1..] <==> x in refs && x != refs[k]
  {
    hide Range;
    var less := refs[..k] + refs[k + 1..];
    forall i, j | 0 <= i < j < |less| ensures RefsApart(less[i], less[j]) {
      var a, b := if i < k then i else i + 1, if j < k then j else j + 1;
      assert less[i] == refs[a] && less[j] == refs[b];
    }
    forall x | x in less ensures x in refs && x != refs[k] {
      var i :| 0 <= i < |less| && less[i] == x;
      var a := if i < k then i else i + 1;
      assert refs[a] == x;
      assert RefsApart(refs[Min(a, k)], refs[Max(a, k)]);
    }
    forall x | x in refs && x != refs[k] ensures x in less {
      var a :| 0 <= a < |refs| && refs[a] == x;
      assert less[if a < k then a else a - 1] == x;
    }
  }

  // ---- what detaching a stream does --------------------------------------------------------------------------------

  /** Two unlike extents of a matched catalog lie apart, unless their reference counts both. */
  lemma ExtentsApart(records: seq<Rec>, refs: seq<Ref>, bs: nat, a: Rec, b: Rec, x: Ref)
    requires bs > 0 && Matched(records, refs, bs) && a in records && b in records && a != b && Lies(a) && Lies(b)
    requires x in refs && RefFor(x, b, bs) && x.count == 1
    ensures a.paddr != b.paddr && CellsOf(a, bs) !! CellsOf(b, bs)
  {
    hide Range, UniqueRefs, CountAt, Matched, RefFor;
    MatchedUnique(records, refs, bs);
    Whole(x, b, bs);
    OtherPlace(records, refs, bs, a, b, x);
    var y := BackedBy(records, refs, bs, a);
    Whole(y, a, bs);
    UniqueApart(refs, x, y);
  }

  lemma OtherPlace(records: seq<Rec>, refs: seq<Ref>, bs: nat, a: Rec, b: Rec, x: Ref)
    requires Matched(records, refs, bs) && a in records && b in records && a != b && Lies(a) && Lies(b)
    requires x in refs && x.Ref? && x.paddr == b.paddr && x.count == 1
    ensures a.paddr != b.paddr
  {
    hide UniqueRefs, Backed;
    var j :| 0 <= j < |refs| && refs[j] == x;
    assert CountAt(records, b.paddr) <= 1;
    if a.paddr == b.paddr {
      TallyTwo(records, AtBlock(b.paddr), a, b);
    }
  }

  lemma BackedBy(records: seq<Rec>, refs: seq<Ref>, bs: nat, a: Rec) returns (y: Ref)
    requires Matched(records, refs, bs) && a in records && Lies(a)
    ensures y in refs && RefFor(y, a, bs)
  {
    hide UniqueRefs, CountAt;
    var i :| 0 <= i < |records| && records[i] == a;
    assert Backed(records[i], refs, bs);
    var k :| 0 <= k < |refs| && RefFor(refs[k], a, bs);
    y := refs[k];
  }

  lemma UniqueApart(refs: seq<Ref>, x: Ref, y: Ref)
    requires UniqueRefs(refs) && x in refs && y in refs && x != y
    ensures RefsApart(x, y)
  {
    hide Range;
    var i :| 0 <= i < |refs| && refs[i] == x;
    var j :| 0 <= j < |refs| && refs[j] == y;
    assert RefsApart(refs[Min(i, j)], refs[Max(i, j)]);
  }

  lemma Whole(x: Ref, r: Rec, bs: nat)
    requires bs > 0 && Lies(r) && RefFor(x, r, bs)
    ensures x.Ref? && x.paddr == r.paddr && r.length / bs == x.blocks
  {
    DivMod(x.blocks, bs, 0);
  }

  /** The blocks of a stream's extents. */
  ghost function ExtentCells(extents: seq<Rec>, bs: nat): set<nat>
    requires bs > 0 && AllExtents(extents)
  {
    RunCells(Runs(extents, bs))
  }

  /**
   * Detaching from a matched catalog: what stays is matched, and the blocks that leave the catalog
   * are exactly the stream's, which no other extent has; their references leave with them.
   */
  lemma DetachMatched(records: seq<Rec>, refs: seq<Ref>, stream: nat, owner: nat, bs: nat, left: seq<Ref>)
    requires bs > 0 && Matched(records, refs, bs) && Detachable(records, refs, stream, owner, bs, false)
    requires Dropped(refs, Extents(records, stream), owner, bs, false) == Some(left)
    ensures var after, gone := Keep(records, Dropping(stream)), ExtentCells(Extents(records, stream), bs);
            && Matched(after, left, bs) && gone !! CatCells(after, bs) && (forall x :: x in left ==> x in refs)
            && CatCells(records, bs) == CatCells(after, bs) + gone
            && RefCells(left) == RefCells(refs) - gone && gone <= RefCells(refs)
  {
    hide UniqueRefs, Dropped, Detachable, Range, CatCells, RefCells, RunCells, Matched, Owned, Sole;
    var exts := Extents(records, stream);
    var after := Keep(records, Dropping(stream));
    MatchedUnique(records, refs, bs);
    DroppedIs(refs, exts, owner, bs, left);
    StillMatched(records, refs, stream, owner, bs, left);
    CellsLeave(records, refs, stream, owner, bs);
    RefsLeave(records, refs, stream, owner, bs, left);
  }

  lemma MatchedUnique(records: seq<Rec>, refs: seq<Ref>, bs: nat)
    requires Matched(records, refs, bs)
    ensures UniqueRefs(refs)
  {
    hide UniqueRefs, Backed;
  }

  /** An extent that stays, and one of the stream's, whose reference is its own. */
  lemma StaysApart(records: seq<Rec>, refs: seq<Ref>, stream: nat, owner: nat, bs: nat, a: Rec, e: Rec)
    requires bs > 0 && Matched(records, refs, bs) && Detachable(records, refs, stream, owner, bs, false)
    requires a in records && Lies(a) && !OfStream(a, stream) && e in Extents(records, stream)
    requires RefOf(e, owner, bs) in refs
    ensures RefFor(RefOf(e, owner, bs), e, bs) && a.paddr != e.paddr
    ensures CellsOf(a, bs) !! CellsOf(e, bs)
    ensures forall y :: y in refs && RefFor(y, a, bs) ==> y != RefOf(e, owner, bs)
  {
    hide UniqueRefs, Dropped, Range, Matched;
    Aligned(records, refs, stream, owner, bs, e);
    ExtentsApart(records, refs, bs, a, e, RefOf(e, owner, bs));
  }

  lemma Aligned(records: seq<Rec>, refs: seq<Ref>, stream: nat, owner: nat, bs: nat, e: Rec)
    requires bs > 0 && Detachable(records, refs, stream, owner, bs, false) && e in Extents(records, stream)
    ensures Placed(e, stream) && e in records && RefFor(RefOf(e, owner, bs), e, bs)
  {
    hide Dropped;
    var i :| 0 <= i < |records| && records[i] == e;
    assert Sole(records[i], stream, bs);
    Divides(e.length, bs);
  }

  lemma Divides(n: nat, m: nat)
    requires m > 0 && n % m == 0
    ensures n / m * m == n
  {
  }

  lemma StillMatched(records: seq<Rec>, refs: seq<Ref>, stream: nat, owner: nat, bs: nat, left: seq<Ref>)
    requires bs > 0 && Matched(records, refs, bs) && Detachable(records, refs, stream, owner, bs, false)
    requires UniqueRefs(left)
    requires forall x :: x in left <==> x in refs && !Owned(x, Extents(records, stream), owner, bs)
    requires forall i :: 0 <= i < |Extents(records, stream)| ==> RefOf(Extents(records, stream)[i], owner, bs) in refs
    ensures Matched(Keep(records, Dropping(stream)), left, bs)
  {
    hide UniqueRefs, Dropped, Detachable, Range, RefFor;
    var drop := Dropping(stream);
    var after := Keep(records, drop);
    forall i | 0 <= i < |after| && Lies(after[i]) ensures Backed(after[i], left, bs) {
      StaysBacked(records, refs, stream, owner, bs, left, after[i]);
    }
    forall k | 0 <= k < |left| && left[k].Ref? ensures CountAt(after, left[k].paddr) <= left[k].count {
      assert left[k] in refs;
      var j :| 0 <= j < |refs| && refs[j] == left[k];
      TallyKeep(records, drop, AtBlock(left[k].paddr));
    }
  }

  lemma StaysBacked(records: seq<Rec>, refs: seq<Ref>, stream: nat, owner: nat, bs: nat, left: seq<Ref>, a: Rec)
    requires bs > 0 && Matched(records, refs, bs) && Detachable(records, refs, stream, owner, bs, false)
    requires forall x :: x in left <==> x in refs && !Owned(x, Extents(records, stream), owner, bs)
    requires forall i :: 0 <= i < |Extents(records, stream)| ==> RefOf(Extents(records, stream)[i], owner, bs) in refs
    requires a in records && Lies(a) && !OfStream(a, stream)
    ensures Backed(a, left, bs)
  {
    hide UniqueRefs, Dropped, Detachable, Range, RefFor, CountAt;
    var exts := Extents(records, stream);
    var y := BackedBy(records, refs, bs, a);
    if Owned(y, exts, owner, bs) {
      var j :| 0 <= j < |exts| && y == RefOf(exts[j], owner, bs);
      StaysApart(records, refs, stream, owner, bs, a, exts[j]);
      assert false;
    }
    var l :| 0 <= l < |left| && left[l] == y;
  }

  lemma CellsLeave(records: seq<Rec>, refs: seq<Ref>, stream: nat, owner: nat, bs: nat)
    requires bs > 0 && Matched(records, refs, bs) && Detachable(records, refs, stream, owner, bs, false)
    requires forall i :: 0 <= i < |Extents(records, stream)| ==> RefOf(Extents(records, stream)[i], owner, bs) in refs
    ensures var after, gone := Keep(records, Dropping(stream)), ExtentCells(Extents(records, stream), bs);
            gone !! CatCells(after, bs) && CatCells(records, bs) == CatCells(after, bs) + gone
  {
    hide UniqueRefs, Dropped, Detachable, CellsOf, RefFor, Matched, CatCells, ExtentCells;
    var exts := Extents(records, stream);
    var after := Keep(records, Dropping(stream));
    forall y | y in ExtentCells(exts, bs) ensures y !in CatCells(after, bs) && y in CatCells(records, bs) {
      var j := CellOf(exts, bs, y);
      assert exts[j] in exts;
      CatIn(records, bs, exts[j], y);
      if y in CatCells(after, bs) {
        var a := CatOf(after, bs, y);
        StaysApart(records, refs, stream, owner, bs, a, exts[j]);
        assert false;
      }
    }
    forall y | y in CatCells(records, bs) ensures y in CatCells(after, bs) + ExtentCells(exts, bs) {
      var a := CatOf(records, bs, y);
      if OfStream(a, stream) {
        var j :| 0 <= j < |exts| && exts[j] == a;
        CellIn(exts, bs, j, y);
      } else {
        CatIn(after, bs, a, y);
      }
    }
    forall y | y in CatCells(after, bs) ensures y in CatCells(records, bs) {
      var a := CatOf(after, bs, y);
      CatIn(records, bs, a, y);
    }
  }

  lemma CatOf(records: seq<Rec>, bs: nat, y: nat) returns (a: Rec)
    requires bs > 0 && y in CatCells(records, bs)
    ensures a in records && Lies(a) && y in CellsOf(a, bs)
  {
    hide CellsOf;
    var i :| 0 <= i < |records| && Lies(records[i]) && y in CellsOf(records[i], bs);
    a := records[i];
  }

  lemma CatIn(records: seq<Rec>, bs: nat, a: Rec, y: nat)
    requires bs > 0 && a in records && Lies(a) && y in CellsOf(a, bs)
    ensures y in CatCells(records, bs)
  {
    hide CellsOf;
    var i :| 0 <= i < |records| && records[i] == a;
  }

  lemma CellOf(extents: seq<Rec>, bs: nat, y: nat) returns (j: nat)
    requires bs > 0 && AllExtents(extents) && y in ExtentCells(extents, bs)
    ensures j < |extents| && y in CellsOf(extents[j], bs)
  {
    hide Range;
    j :| 0 <= j < |extents| && y in Range(Runs(extents, bs)[j].0, Runs(extents, bs)[j].1);
  }

  lemma CellIn(extents: seq<Rec>, bs: nat, j: nat, y: nat)
    requires bs > 0 && AllExtents(extents) && j < |extents| && y in CellsOf(extents[j], bs)
    ensures y in ExtentCells(extents, bs)
  {
    hide Range;
    var runs := Runs(extents, bs);
    assert y in Range(runs[j].0, runs[j].1);
  }

  lemma RefsLeave(records: seq<Rec>, refs: seq<Ref>, stream: nat, owner: nat, bs: nat, left: seq<Ref>)
    requires bs > 0 && UniqueRefs(refs)
    requires forall x :: x in left <==> x in refs && !Owned(x, Extents(records, stream), owner, bs)
    requires forall i :: 0 <= i < |Extents(records, stream)| ==> RefOf(Extents(records, stream)[i], owner, bs) in refs
    ensures var gone := ExtentCells(Extents(records, stream), bs);
            RefCells(left) == RefCells(refs) - gone && gone <= RefCells(refs)
  {
    hide Range, Extents, UniqueRefs, ExtentCells;
    var exts := Extents(records, stream);
    forall y | y in ExtentCells(exts, bs) ensures y in RefCells(refs) && y !in RefCells(left) {
      var j := CellOf(exts, bs, y);
      var own := RefOf(exts[j], owner, bs);
      var k :| 0 <= k < |refs| && refs[k] == own;
      if y in RefCells(left) {
        var i :| 0 <= i < |left| && left[i].Ref? && y in Range(left[i].paddr, left[i].blocks);
        assert left[i] in refs && left[i] != own;
        UniqueApart(refs, left[i], own);
        assert false;
      }
    }
    forall y | y in RefCells(refs) && y !in ExtentCells(exts, bs) ensures y in RefCells(left) {
      var k :| 0 <= k < |refs| && refs[k].Ref? && y in Range(refs[k].paddr, refs[k].blocks);
      if Owned(refs[k], exts, owner, bs) {
        var j :| 0 <= j < |exts| && refs[k] == RefOf(exts[j], owner, bs);
        CellIn(exts, bs, j, y);
        assert false;
      }
      assert refs[k] in left;
      var i :| 0 <= i < |left| && left[i] == refs[k];
    }
    forall y | y in RefCells(left) ensures y in RefCells(refs) {
      var i :| 0 <= i < |left| && left[i].Ref? && y in Range(left[i].paddr, left[i].blocks);
      assert left[i] in refs;
      var k :| 0 <= k < |refs| && refs[k] == left[i];
    }
  }

  // ---- detaching several streams -----------------------------------------------------------------------------------

  predicate OfAny(r: Rec, streams: seq<nat>) {
    exists i :: 0 <= i < |streams| && OfStream(r, streams[i])
  }

  function OfOne(streams: seq<nat>): Rec -> bool {
    r => OfAny(r, streams)
  }

  /**
   * What became of a matched catalog: it is matched still. Without a snapshot the blocks that left it
   * are exactly those retired, in no extent any more, and their references are gone; with one, no
   * block is retired and every reference stays.
   */
  ghost predicate Detached(records: seq<Rec>, refs: seq<Ref>, after: seq<Rec>, left: seq<Ref>, runs: seq<(nat, nat)>,
                           bs: nat, retained: bool)
    requires bs > 0
  {
    && Matched(after, left, bs) && (forall x :: x in left ==> x in refs)
    && if retained then
         runs == [] && left == refs && CatCells(after, bs) <= CatCells(records, bs)
       else
         && RunCells(runs) !! CatCells(after, bs) && CatCells(records, bs) == CatCells(after, bs) + RunCells(runs)
         && RefCells(left) == RefCells(refs) - RunCells(runs) && RunCells(runs) <= RefCells(refs)
  }

  lemma {:induction false} RetainedAll(refs: seq<Ref>, extents: seq<Rec>, owner: nat, bs: nat)
    requires bs > 0 && AllExtents(extents) && Dropped(refs, extents, owner, bs, true).Some?
    ensures Dropped(refs, extents, owner, bs, true) == Some(refs)
  {
    if extents != [] {
      RetainedAll(refs, extents[..|extents| - 1], owner, bs);
    }
  }

  lemma KeepMatched(records: seq<Rec>, refs: seq<Ref>, bs: nat, drop: Rec -> bool)
    requires bs > 0 && Matched(records, refs, bs)
    ensures Matched(Keep(records, drop), refs, bs)
    ensures CatCells(Keep(records, drop), bs) <= CatCells(records, bs)
  {
    hide UniqueRefs, Backed, CellsOf;
    var after := Keep(records, drop);
    forall i | 0 <= i < |after| && Lies(after[i]) ensures Backed(after[i], refs, bs) {
      assert after[i] in after;
      var j :| 0 <= j < |records| && records[j] == after[i];
    }
    forall k | 0 <= k < |refs| && refs[k].Ref? ensures CountAt(after, refs[k].paddr) <= refs[k].count {
      TallyKeep(records, drop, AtBlock(refs[k].paddr));
    }
    forall y | y in CatCells(after, bs) ensures y in CatCells(records, bs) {
      CatIn(records, bs, CatAt(after, bs, y), y);
    }
  }

  ghost function CatAt(records: seq<Rec>, bs: nat, y: nat): (a: Rec)
    requires bs > 0 && y in CatCells(records, bs)
    ensures a in records && Lies(a) && y in CellsOf(a, bs)
  {
    var i :| 0 <= i < |records| && Lies(records[i]) && y in CellsOf(records[i], bs);
    records[i]
  }

  lemma DetachOne(records: seq<Rec>, refs: seq<Ref>, stream: nat, owner: nat, bs: nat, retained: bool, left: seq<Ref>)
    requires bs > 0 && Matched(records, refs, bs) && Detachable(records, refs, stream, owner, bs, retained)
    requires Dropped(refs, Extents(records, stream), owner, bs, retained) == Some(left)
    ensures Detached(records, refs, Keep(records, Dropping(stream)), left,
                     if retained then [] else Runs(Extents(records, stream), bs), bs, retained)
  {
    hide Matched, Detachable, Dropped, CatCells, RefCells, RunCells;
    if retained {
      RetainedAll(refs, Extents(records, stream), owner, bs);
      KeepMatched(records, refs, bs, Dropping(stream));
    } else {
      DetachMatched(records, refs, stream, owner, bs, left);
    }
  }

  lemma DetachedStarts(records: seq<Rec>, refs: seq<Ref>, bs: nat, retained: bool)
    requires bs > 0 && Matched(records, refs, bs)
    ensures Detached(records, refs, records, refs, [], bs, retained)
  {
    hide Matched, CatCells, RefCells;
    assert RunCells([]) == {};
  }

  lemma DetachedOn(r0: seq<Rec>, f0: seq<Ref>, r1: seq<Rec>, f1: seq<Ref>, runs1: seq<(nat, nat)>, r2: seq<Rec>,
                   f2: seq<Ref>, runs2: seq<(nat, nat)>, bs: nat, retained: bool)
    requires bs > 0 && Detached(r0, f0, r1, f1, runs1, bs, retained) && Detached(r1, f1, r2, f2, runs2, bs, retained)
    ensures Detached(r0, f0, r2, f2, runs1 + runs2, bs, retained)
  {
    hide Matched, CatCells, RefCells, RunCells;
    RunsTogether(runs1, runs2);
  }

  lemma RunsTogether(a: seq<(nat, nat)>, b: seq<(nat, nat)>)
    ensures RunCells(a + b) == RunCells(a) + RunCells(b)
  {
    hide Range;
    var all := a + b;
    forall y | y in RunCells(a) + RunCells(b) ensures y in RunCells(all) {
      if y in RunCells(a) {
        var i :| 0 <= i < |a| && y in Range(a[i].0, a[i].1);
        assert all[i] == a[i];
      } else {
        var i :| 0 <= i < |b| && y in Range(b[i].0, b[i].1);
        assert all[|a| + i] == b[i];
      }
    }
    forall y | y in RunCells(all) ensures y in RunCells(a) + RunCells(b) {
      var i :| 0 <= i < |all| && y in Range(all[i].0, all[i].1);
      assert all[i] == if i < |a| then a[i] else b[i - |a|];
    }
  }

  lemma {:induction false} KeepTwice(records: seq<Rec>, streams: seq<nat>, i: nat)
    requires i < |streams|
    ensures Keep(Keep(records, OfOne(streams[..i])), Dropping(streams[i])) ==
            Keep(records, OfOne(streams[..i + 1]))
  {
    if records != [] {
      KeepTwice(records[..|records| - 1], streams, i);
      var r := records[|records| - 1];
      AnyStep(r, streams, i);
      var once := Keep(records, OfOne(streams[..i]));
      var front := Keep(records[..|records| - 1], OfOne(streams[..i]));
      if !OfAny(r, streams[..i]) {
        assert once == front + [r] && once[..|front|] == front;
      }
    }
  }

  lemma AnyStep(r: Rec, streams: seq<nat>, i: nat)
    requires i < |streams|
    ensures OfAny(r, streams[..i + 1]) <==> OfAny(r, streams[..i]) || OfStream(r, streams[i])
  {
    var more := streams[..i + 1];
    assert more[i] == streams[i] && forall j :: 0 <= j < i ==> more[j] == streams[..i][j];
  }

  /** Each stream can be detached when its turn comes. */
  ghost predicate AllDetachable(records: seq<Rec>, refs: seq<Ref>, streams: seq<nat>, owner: nat, bs: nat,
                                retained: bool)
    requires bs > 0
    decreases |streams|
  {
    streams == [] ||
    (Detachable(records, refs, streams[0], owner, bs, retained) &&
     AllDetachable(Keep(records, Dropping(streams[0])),
                   Dropped(refs, Extents(records, streams[0]), owner, bs, retained).value, streams[1..], owner, bs,
                   retained))
  }

  /** Detaches the streams one after the other. */
  method DetachAll(records: seq<Rec>, refs: seq<Ref>, streams: seq<nat>, owner: nat, bs: nat, retained: bool)
      returns (r: Result<(seq<Rec>, seq<Ref>, seq<(nat, nat)>)>)
    requires bs > 0
    ensures r.Ok? <==> AllDetachable(records, refs, streams, owner, bs, retained)
    ensures r.Ok? ==> r.value.0 == Keep(records, OfOne(streams))
    ensures r.Ok? && Matched(records, refs, bs) ==>
              Detached(records, refs, r.value.0, r.value.1, r.value.2, bs, retained)
  {
    hide Matched, Detached, Detachable, Dropped, Keep, Runs;
    ghost var good := Matched(records, refs, bs);
    var current, left, runs := records, refs, [];
    assert streams[0..] == streams;
    NoneDropped(records);
    if good {
      DetachedStarts(records, refs, bs, retained);
    }
    for i := 0 to |streams|
      invariant AllDetachable(records, refs, streams, owner, bs, retained) <==>
                AllDetachable(current, left, streams[i..], owner, bs, retained)
      invariant current == Keep(records, OfOne(streams[..i]))
      invariant good ==> Matched(current, left, bs) && Detached(records, refs, current, left, runs, bs, retained)
    {
      KeepTwice(records, streams, i);
      assert streams[i..][0] == streams[i] && streams[i..][1..] == streams[i + 1..];
      var one := DetachStream(current, left, streams[i], owner, bs, retained);
      if one.Err? {
        return Err(one.error);
      }
      if good {
        DetachOne(current, left, streams[i], owner, bs, retained, one.value.1);
        DetachedOn(records, refs, current, left, runs, one.value.0, one.value.1, one.value.2, bs, retained);
        DetachedMatched(current, left, one.value.0, one.value.1, one.value.2, bs, retained);
      }
      current, left, runs := one.value.0, one.value.1, runs + one.value.2;
    }
    assert streams[..|streams|] == streams;
    r := Ok((current, left, runs));
  }

  lemma DetachedMatched(records: seq<Rec>, refs: seq<Ref>, after: seq<Rec>, left: seq<Ref>, runs: seq<(nat, nat)>,
                        bs: nat, retained: bool)
    requires bs > 0 && Detached(records, refs, after, left, runs, bs, retained)
    ensures Matched(after, left, bs)
  {
    hide Matched;
  }

  lemma {:induction false} NoneDropped(records: seq<Rec>)
    ensures Keep(records, OfOne([])) == records
  {
    if records != [] {
      NoneDropped(records[..|records| - 1]);
    }
  }

  // ---- which streams a file owns -----------------------------------------------------------------------------------

  const DECMPFS := Text("com.apple.decmpfs")
  const FORK := Text("com.apple.ResourceFork")

  /** An attribute that goes with the old content: the compression header, and the fork if it holds the data. */
  predicate Picked(r: Rec, file: nat, fork: bool) {
    r.Xattr? && r.id == file && r.name.Some? && (r.name.value == DECMPFS || (fork && r.name.value == FORK))
  }

  /** A record the selection can read. */
  predicate Legible(r: Rec, file: nat, fork: bool) {
    && !r.Bad? && (r.Xattr? && r.id == file ==> r.name.Some?)
    && (Picked(r, file, fork) ==> r.value.Inline? || r.value.Streamed?)
  }

  predicate PickedStream(r: Rec, file: nat, fork: bool) {
    Picked(r, file, fork) && r.value.Streamed?
  }

  /** The streams of the attributes picked. */
  ghost function AttrStreams(records: seq<Rec>, file: nat, fork: bool): set<nat> {
    set i | 0 <= i < |records| && PickedStream(records[i], file, fork) :: records[i].value.stream
  }

  /** The streams that go with the file's old content; refused exactly when a record cannot be read. */
  method SelectStreams(records: seq<Rec>, file: nat, fork: bool, first: Option<nat>) returns (r: Result<set<nat>>)
    ensures r.Ok? <==> forall i :: 0 <= i < |records| ==> Legible(records[i], file, fork)
    ensures r.Ok? ==> r.value == AttrStreams(records, file, fork) + if first.Some? then {first.value} else {}
  {
    var streams: set<nat> := if first.Some? then {first.value} else {};
    for i := 0 to |records|
      invariant forall k :: 0 <= k < i ==> Legible(records[k], file, fork)
      invariant streams == AttrStreams(records[..i], file, fork) + if first.Some? then {first.value} else {}
    {
      var rec := records[i];
      SelectStep(records, i, file, fork);
      if rec.Bad? {
        return Err(ShortRecord);
      }
      if !rec.Xattr? || rec.id != file {
        continue;
      }
      if rec.name.None? {
        return Err(ShortRecord);
      }
      if rec.name.value != DECMPFS && !(fork && rec.name.value == FORK) {
        continue;
      }
      if rec.value.Brief? || rec.value.Cut? {
        return Err(ShortRecord);
      }
      if rec.value.Streamed? {
        streams := streams + {rec.value.stream};
      }
    }
    assert records[..|records|] == records;
    r := Ok(streams);
  }

  lemma SelectStep(records: seq<Rec>, i: nat, file: nat, fork: bool)
    requires i < |records|
    ensures AttrStreams(records[..i + 1], file, fork) == AttrStreams(records[..i], file, fork) +
            if PickedStream(records[i], file, fork) then {records[i].value.stream} else {}
  {
    var more := records[..i + 1];
    assert more[i] == records[i] && forall j :: 0 <= j < i ==> more[j] == records[..i][j];
    forall x | x in AttrStreams(more, file, fork)
      ensures x in AttrStreams(records[..i], file, fork) +
                   if PickedStream(records[i], file, fork) then {records[i].value.stream} else {}
    {
      var j :| 0 <= j < |more| && PickedStream(more[j], file, fork) && more[j].value.stream == x;
      if j < i {
        assert records[..i][j] == more[j];
      }
    }
    forall x | x in AttrStreams(records[..i], file, fork) ensures x in AttrStreams(more, file, fork) {
      var j :| 0 <= j < i && PickedStream(records[..i][j], file, fork) &&
               records[..i][j].value.stream == x;
      assert more[j] == records[..i][j];
    }
  }

  /** A record that names the stream as its own. */
  predicate Owns(r: Rec, stream: nat) {
    (r.Inode? && r.fields && r.stream == stream) || (r.Xattr? && r.value == Streamed(stream))
  }

  function OwnerOf(stream: nat): Rec -> bool {
    r => Owns(r, stream)
  }

  method CountOwners(records: seq<Rec>, stream: nat) returns (n: nat)
    ensures n == Tally(records, OwnerOf(stream))
  {
    n := 0;
    for i := 0 to |records|
      invariant n == Tally(records[..i], OwnerOf(stream))
    {
      assert records[..i + 1][..i] == records[..i];
      if Owns(records[i], stream) {
        n := n + 1;
      }
    }
    assert records[..|records|] == records;
  }

  /** The numbers of a set, ascending. */
  method Ascending(s: set<nat>) returns (r: seq<nat>)
    ensures forall x :: x in r <==> x in s
    ensures forall i, j :: 0 <= i < j < |r| ==> r[i] < r[j]
  {
    r := [];
    var rest := s;
    while rest != {}
      invariant rest <= s && forall x :: x in r <==> x in s && x !in rest
      invariant forall i, j :: 0 <= i < j < |r| ==> r[i] < r[j]
      invariant forall i, x :: 0 <= i < |r| && x in rest ==> r[i] < x
      decreases |rest|
    {
      var least := Least(rest);
      r := r + [least];
      rest := rest - {least};
    }
  }

  method Least(s: set<nat>) returns (m: nat)
    requires s != {}
    ensures m in s && forall x :: x in s ==> m <= x
  {
    m :| m in s;
    var rest := s - {m};
    while rest != {}
      invariant m in s && rest <= s && forall x :: x in s && x !in rest ==> m <= x
      decreases |rest|
    {
      var x :| x in rest;
      if x < m {
        m := x;
      }
      rest := rest - {x};
    }
  }
}

/**
 * The extended fields of an inode record: replacing the data stream (src/apfs_replace.rs
 * `replace_inode_stream`) and finding it (src/apfs_read.rs `inode_data_stream`).
 */
module InodeFields {
  import opened Bytes

  const HEAD: nat := 0x5c
  const TABLE: nat := 0x60
  const DSTREAM: nat := 8
  const DSTREAM_BYTES: nat := 40

  /** One extended field: its four table bytes (type, flags, length) and its data. */
  datatype XField = XField(entry: seq<byte>, data: seq<byte>)

  predicate Proper(f: XField) {
    |f.entry| == 4 && U16At(f.entry, 2) == |f.data|
  }

  predicate AllProper(fields: seq<XField>) {
    forall i :: 0 <= i < |fields| ==> Proper(fields[i])
  }

  /** How much padded data stands before field i. */
  function DataBefore(fields: seq<XField>, i: nat): nat
    requires i <= |fields|
  {
    if i == 0 then 0 else DataBefore(fields, i - 1) + Align8(|fields[i - 1].data|)
  }

  lemma {:induction false} DataBeforeSame(a: seq<XField>, b: seq<XField>, i: nat)
    requires i <= |a| && i <= |b| && a[..i] == b[..i]
    ensures DataBefore(a, i) == DataBefore(b, i)
  {
    if i > 0 {
      assert a[..i][i - 1] == a[i - 1] && b[..i][i - 1] == b[i - 1];
      assert a[..i - 1] == a[..i][..i - 1] && b[..i - 1] == b[..i][..i - 1];
      DataBeforeSame(a, b, i - 1);
    }
  }

  /** Field i of a table of `count` is where it should be. */
  predicate FieldAt(inode: seq<byte>, count: nat, fields: seq<XField>, i: nat)
    requires i < |fields|
  {
    && Proper(fields[i])
    && Field(inode, TABLE + 4 * i, fields[i].entry)
    && Field(inode, TABLE + 4 * count + DataBefore(fields, i), fields[i].data)
  }

  /** The inode carries exactly these fields, in this order. */
  ghost predicate HasFields(inode: seq<byte>, fields: seq<XField>) {
    && |inode| >= TABLE && U16At(inode, HEAD) == |fields| && TABLE + 4 * |fields| <= |inode|
    && forall i :: 0 <= i < |fields| ==> FieldAt(inode, |fields|, fields, i)
  }

  /** An inode without a table has no fields. */
  ghost predicate FieldsOf(inode: seq<byte>, fields: seq<XField>) {
    (|inode| == HEAD && fields == []) || HasFields(inode, fields)
  }

  // ---- reading ---------------------------------------------------------------------------------------

  /** The first fields of the table, read so far. */
  ghost predicate ReadSoFar(inode: seq<byte>, count: nat, fields: seq<XField>, at: nat) {
    && |fields| <= count && at == TABLE + 4 * count + DataBefore(fields, |fields|)
    && forall i :: 0 <= i < |fields| ==> FieldAt(inode, count, fields, i)
  }

  lemma ReadStarts(inode: seq<byte>, count: nat)
    ensures ReadSoFar(inode, count, [], TABLE + 4 * count)
  {
  }

  lemma ReadMore(inode: seq<byte>, count: nat, fields: seq<XField>, at: nat, f: XField)
    requires ReadSoFar(inode, count, fields, at) && |fields| < count && Proper(f)
    requires Field(inode, TABLE + 4 * |fields|, f.entry) && Field(inode, at, f.data)
    ensures ReadSoFar(inode, count, fields + [f], at + Align8(|f.data|))
  {
    hide Field, Proper, Align8;
    var more, n := fields + [f], |fields|;
    assert more[..n] == fields[..n];
    DataBeforeSame(more, fields, n);
    forall i | 0 <= i < |more| ensures FieldAt(inode, count, more, i) {
      if i < n {
        assert FieldAt(inode, count, fields, i);
        assert more[..i] == fields[..i];
        DataBeforeSame(more, fields, i);
      }
    }
  }

  /** Whatever has been read begins any reading of the table. */
  lemma {:induction false} ReadAgrees(inode: seq<byte>, count: nat, fields: seq<XField>, at: nat, h: seq<XField>,
                                      k: nat)
    requires ReadSoFar(inode, count, fields, at) && HasFields(inode, h) && |h| == count && k <= |fields|
    ensures h[..k] == fields[..k]
  {
    hide Field, Proper, Align8, DataBefore, U16At;
    if k > 0 {
      var i := k - 1;
      ReadAgrees(inode, count, fields, at, h, i);
      assert FieldAt(inode, count, fields, i) && FieldAt(inode, count, h, i);
      DataBeforeSame(h, fields, i);
      SameField(inode, TABLE + 4 * i, TABLE + 4 * count + DataBefore(h, i), h[i], fields[i]);
      assert h[..k] == h[..i] + [h[i]] && fields[..k] == fields[..i] + [fields[i]];
    }
  }

  lemma SameField(inode: seq<byte>, e: nat, d: nat, a: XField, b: XField)
    requires Proper(a) && Proper(b)
    requires Field(inode, e, a.entry) && Field(inode, e, b.entry) && Field(inode, d, a.data) && Field(inode, d, b.data)
    ensures a == b
  {
  }

  /** In any reading of the table the next field stays inside the record. */
  lemma NextFits(inode: seq<byte>, count: nat, fields: seq<XField>, at: nat, h: seq<XField>)
    requires ReadSoFar(inode, count, fields, at) && |fields| < count && TABLE + 4 * count <= |inode|
    requires HasFields(inode, h) && |h| == count
    ensures at + U16At(inode, TABLE + 4 * |fields| + 2) <= |inode|
  {
    hide U16At;
    var k := |fields|;
    ReadAgrees(inode, count, fields, at, h, k);
    assert FieldAt(inode, count, h, k);
    DataBeforeSame(h, fields, k);
    EntryLength(inode, TABLE + 4 * k, h[k]);
  }

  lemma EntryLength(inode: seq<byte>, at: nat, f: XField)
    requires Proper(f) && Field(inode, at, f.entry)
    ensures at + 4 <= |inode| && U16At(inode, at + 2) == |f.data| && inode[at] == f.entry[0]
  {
    assert inode[at + 2..at + 4] == inode[at..at + 4][2..4];
    assert inode[at..at + 4][0] == inode[at];
  }

  lemma ReadDone(inode: seq<byte>, fields: seq<XField>, at: nat)
    requires |inode| >= TABLE && U16At(inode, HEAD) == |fields| && TABLE + 4 * |fields| <= |inode|
    requires ReadSoFar(inode, |fields|, fields, at)
    ensures HasFields(inode, fields)
  {
    hide FieldAt;
  }

  /** The fields that are not a data stream, in order. */
  function Others(fields: seq<XField>): (r: seq<XField>)
    requires AllProper(fields)
    ensures AllProper(r) && forall i :: 0 <= i < |r| ==> r[i].entry[0] != DSTREAM
  {
    if fields == [] then [] else
    var n := |fields| - 1;
    Others(fields[..n]) + if fields[n].entry[0] != DSTREAM then [fields[n]] else []
  }

  /** The kept fields of an inode record; fails exactly when the record has no well-formed table. */
  method ReadOthers(inode: seq<byte>) returns (r: Result<seq<XField>>, ghost fields: seq<XField>)
    requires |inode| >= HEAD
    ensures r.Ok? ==> FieldsOf(inode, fields) && AllProper(fields) && r.value == Others(fields)
    ensures r.Err? ==> forall h :: !FieldsOf(inode, h)
  {
    hide FieldAt, U16At, Align8, HasFields;
    fields := [];
    if |inode| == HEAD {
      return Ok([]), fields;
    }
    if |inode| < TABLE {
      NoTable(inode);
      return Err(ShortRecord), fields;
    }
    var count := U16At(inode, HEAD);
    var at: nat := TABLE + count * 4;
    if at > |inode| {
      TableLeaves(inode);
      return Err(ShortRecord), fields;
    }
    var kept: seq<XField> := [];
    ReadStarts(inode, count);
    for index := 0 to count
      invariant |fields| == index && ReadSoFar(inode, count, fields, at)
      invariant AllProper(fields) && kept == Others(fields)
    {
      var e := TABLE + index * 4;
      var size := U16At(inode, e + 2);
      if at + size > |inode| {
        NoReading(inode, count, fields, at);
        return Err(ShortRecord), fields;
      }
      var f := XField(inode[e..e + 4], inode[at..at + size]);
      EntryIs(inode, e, f);
      ReadMore(inode, count, fields, at, f);
      OthersPush(fields, f);
      if inode[e] != DSTREAM {
        kept := kept + [f];
      }
      fields := fields + [f];
      at := at + Align8(size);
    }
    ReadDone(inode, fields, at);
    r := Ok(kept);
  }

  lemma NoTable(inode: seq<byte>)
    requires HEAD < |inode| < TABLE
    ensures forall h :: !FieldsOf(inode, h)
  {
  }

  lemma TableLeaves(inode: seq<byte>)
    requires |inode| >= TABLE && TABLE + 4 * U16At(inode, HEAD) > |inode|
    ensures forall h :: !FieldsOf(inode, h)
  {
    hide U16At, FieldAt;
  }

  lemma NoReading(inode: seq<byte>, count: nat, fields: seq<XField>, at: nat)
    requires |inode| > HEAD && |inode| >= TABLE && count == U16At(inode, HEAD) && TABLE + 4 * count <= |inode|
    requires ReadSoFar(inode, count, fields, at) && |fields| < count &&
             at + U16At(inode, TABLE + 4 * |fields| + 2) > |inode|
    ensures forall h :: !FieldsOf(inode, h)
  {
    hide U16At, FieldAt, ReadSoFar;
    forall h ensures !FieldsOf(inode, h) {
      if HasFields(inode, h) {
        NextFits(inode, count, fields, at, h);
      }
    }
  }

  lemma EntryIs(inode: seq<byte>, e: nat, f: XField)
    requires e + 4 <= |inode| && f.entry == inode[e..e + 4] && |f.data| == U16At(inode, e + 2)
    ensures Proper(f) && Field(inode, e, f.entry) && f.entry[0] == inode[e]
  {
    assert inode[e..e + 4][2..4] == inode[e + 2..e + 4];
  }

  lemma OthersPush(fields: seq<XField>, f: XField)
    requires AllProper(fields) && Proper(f)
    ensures AllProper(fields + [f])
    ensures Others(fields + [f]) == Others(fields) + if f.entry[0] != DSTREAM then [f] else []
  {
    assert (fields + [f])[..|fields|] == fields;
  }

  // ---- building --------------------------------------------------------------------------------------

  /** The table entries, one after the other. */
  function Entries(fields: seq<XField>): (r: seq<byte>)
    requires AllProper(fields)
    ensures |r| == 4 * |fields|
  {
    if fields == [] then [] else Entries(fields[..|fields| - 1]) + fields[|fields| - 1].entry
  }

  /** The data, each piece padded to a multiple of eight. */
  function Blob(fields: seq<XField>): (r: seq<byte>)
    ensures |r| == DataBefore(fields, |fields|)
  {
    if fields == [] then [] else
    var n := |fields| - 1;
    var data := fields[n].data;
    DataBeforeSame(fields[..n], fields, n);
    Blob(fields[..n]) + data + Zeros(Align8(|data|) - |data|)
  }

  lemma {:induction false} EntriesAt(fields: seq<XField>, i: nat)
    requires AllProper(fields) && i < |fields|
    ensures Field(Entries(fields), 4 * i, fields[i].entry)
  {
    var n := |fields| - 1;
    if i < n {
      EntriesAt(fields[..n], i);
    }
  }

  lemma {:induction false} BlobAt(fields: seq<XField>, i: nat)
    requires i < |fields|
    ensures Field(Blob(fields), DataBefore(fields, i), fields[i].data)
  {
    hide Align8;
    var n := |fields| - 1;
    var data := fields[n].data;
    DataBeforeSame(fields[..n], fields, i);
    var front := Blob(fields[..n]);
    assert Blob(fields) == front + data + Zeros(Align8(|data|) - |data|);
    if i < n {
      BlobAt(fields[..n], i);
      assert Blob(fields)[..|front|] == front;
    } else {
      assert Blob(fields)[|front|..|front| + |data|] == data;
    }
  }

  /** A whole inode record: head, counts, entries and data. */
  function Assemble(head: seq<byte>, fields: seq<XField>): seq<byte>
    requires AllProper(fields)
  {
    head + LeBytes(|fields|, 2) + LeBytes(DataBefore(fields, |fields|), 2) + Entries(fields) + Blob(fields)
  }

  /** A stretch of a part is that stretch of the whole. */
  lemma FieldInside(front: seq<byte>, part: seq<byte>, back: seq<byte>, at: nat, data: seq<byte>)
    requires Field(part, at, data)
    ensures Field(front + part + back, |front| + at, data)
  {
    var whole := front + part + back;
    assert whole[|front|..|front| + |part|] == part;
    assert whole[|front| + at..|front| + at + |data|] == part[at..at + |data|];
  }

  /** What is assembled can be read back, for any number of fields of any lengths. */
  lemma AssembleReads(head: seq<byte>, fields: seq<XField>)
    requires |head| == HEAD && AllProper(fields) && |fields| < U16
    ensures HasFields(Assemble(head, fields), fields)
  {
    hide LeBytes, Le, Entries, Blob, Field, DataBefore, Pow256, Proper;
    var n := |fields|;
    var count, used := LeBytes(n, 2), LeBytes(DataBefore(fields, n), 2);
    var entries, blob := Entries(fields), Blob(fields);
    var inode := Assemble(head, fields);
    assert inode[HEAD..HEAD + 2] == count;
    Fits16(n);
    forall i | 0 <= i < n ensures FieldAt(inode, n, fields, i) {
      EntriesAt(fields, i);
      BlobAt(fields, i);
      FieldInside(head + count + used, entries, blob, 4 * i, fields[i].entry);
      assert (head + count + used) + entries + blob == inode;
      FieldInside(head + count + used + entries, blob, [], DataBefore(fields, i), fields[i].data);
      assert (head + count + used + entries) + blob + [] == inode;
    }
  }

  /** The data stream field: logical and allocated size, no encryption, all bytes written. */
  function StreamField(logical: nat, extent: nat): (f: XField)
    ensures |f.data| == DSTREAM_BYTES && f.entry == [8, 0, 40, 0]
  {
    XField([8, 0, 40, 0], LeBytes(logical, 8) + LeBytes(extent, 8) + Zeros(8) + LeBytes(logical, 8) + Zeros(8))
  }

  lemma StreamProper(logical: nat, size: nat)
    ensures Proper(StreamField(logical, size)) && StreamField(logical, size).entry[0] == DSTREAM
  {
    var e := StreamField(logical, size).entry;
    assert e[2..4] == [40, 0];
    assert Le([40, 0]) == 40 by {
      assert [40, 0][1..] == [0];
      assert Le([0]) == 0;
    }
  }

  // ---- the fixed part --------------------------------------------------------------------------------

  function ClearBit(v: nat, bit: nat): (r: nat)
    requires bit > 0
    ensures r <= v
  {
    BitBelow(v, bit);
    v - (v / bit % 2) * bit
  }

  lemma BitBelow(v: nat, bit: nat)
    requires bit > 0
    ensures 0 <= (v / bit % 2) * bit <= v
  {
    if v / bit % 2 == 1 {
      assert v / bit >= 1;
      assert v == v / bit * bit + v % bit;
      StepOver(v / bit, bit);
    }
  }

  function SetBit(v: nat, bit: nat): nat
    requires bit > 0
  {
    ClearBit(v, bit) + bit
  }

  /** New private id; no default class, no clone flag, and without a resource fork if it is removed. */
  function NewHead(inode: seq<byte>, privateId: nat, removeFork: bool): (head: seq<byte>)
    requires |inode| >= HEAD
    ensures |head| == HEAD
  {
    var flags := ClearBit(U64At(inode, 0x30), 0x40000);
    var flags2 := if removeFork then SetBit(ClearBit(flags, 0x4000), 0x8000) else flags;
    var h0 := Patch(inode[..HEAD], 8, LeBytes(privateId, 8));
    var h1 := Patch(h0, 0x44, LeBytes(ClearBit(U32At(inode, 0x44), 0x20), 4));
    var h2 := Patch(h1, 0x30, LeBytes(flags2, 8));
    Patch(h2, 0x54, LeBytes(0, 8))
  }

  /** Everything in the head but the four rewritten words is kept. */
  lemma HeadKept(inode: seq<byte>, privateId: nat, removeFork: bool, lo: nat, hi: nat)
    requires |inode| >= HEAD && lo <= hi <= HEAD
    requires hi <= 8 || (16 <= lo && hi <= 0x30) || (0x38 <= lo && hi <= 0x44) || (0x48 <= lo && hi <= 0x54)
    ensures NewHead(inode, privateId, removeFork)[lo..hi] == inode[lo..hi]
  {
    hide LeBytes, U64At, U32At, ClearBit, SetBit, Patch;
    var flags := ClearBit(U64At(inode, 0x30), 0x40000);
    var flags2 := if removeFork then SetBit(ClearBit(flags, 0x4000), 0x8000) else flags;
    var h0 := Patch(inode[..HEAD], 8, LeBytes(privateId, 8));
    var h1 := Patch(h0, 0x44, LeBytes(ClearBit(U32At(inode, 0x44), 0x20), 4));
    var h2 := Patch(h1, 0x30, LeBytes(flags2, 8));
    PatchElsewhere(inode[..HEAD], 8, LeBytes(privateId, 8), lo, hi);
    PatchElsewhere(h0, 0x44, LeBytes(ClearBit(U32At(inode, 0x44), 0x20), 4), lo, hi);
    PatchElsewhere(h1, 0x30, LeBytes(flags2, 8), lo, hi);
    PatchElsewhere(h2, 0x54, LeBytes(0, 8), lo, hi);
  }

  /** The flags of the new inode. */
  function NewFlags(flags: nat, removeFork: bool): nat {
    var cleared := ClearBit(flags, 0x40000);
    if removeFork then SetBit(ClearBit(cleared, 0x4000), 0x8000) else cleared
  }

  /** Clearing a bit leaves the bits below and above it. */
  lemma BitCleared(v: nat, bit: nat)
    requires bit > 0
    ensures var r := ClearBit(v, bit);
            r / bit % 2 == 0 && r % bit == v % bit && r / bit / 2 == v / bit / 2
  {
    var c := v / bit % 2;
    if c == 1 {
      assert c * bit == bit;
    } else {
      assert c * bit == 0;
    }
    BitClearedOf(v, bit, v / bit, v % bit, ClearBit(v, bit));
  }

  lemma BitClearedOf(v: nat, bit: nat, q: nat, low: nat, r: nat)
    requires low < bit && v == q * bit + low && r == if q % 2 == 1 then v - bit else v
    ensures r / bit % 2 == 0 && r % bit == low && r / bit / 2 == q / 2
  {
    if q % 2 == 1 {
      assert (q - 1) * bit == q * bit - bit;
      DivMod(q - 1, bit, low);
    } else {
      DivMod(q, bit, low);
    }
  }

  lemma BitSet(v: nat, bit: nat)
    requires bit > 0
    ensures var r := SetBit(v, bit);
            r / bit % 2 == 1 && r % bit == v % bit && r / bit / 2 == v / bit / 2
  {
    BitCleared(v, bit);
    var w := ClearBit(v, bit);
    var q, low := w / bit, w % bit;
    assert w == q * bit + low;
    assert (q + 1) * bit == q * bit + bit;
    DivMod(q + 1, bit, low);
  }

  lemma FlagsFit(flags: nat, removeFork: bool)
    requires flags < U64
    ensures NewFlags(flags, removeFork) < U64
  {
    var w := ClearBit(ClearBit(flags, 0x40000), 0x4000);
    BitSet(w, 0x8000);
  }

  /** What the four rewritten words of the head read as. */
  lemma NewWords(inode: seq<byte>, privateId: nat, removeFork: bool)
    requires |inode| >= HEAD && privateId < U64
    ensures var head := NewHead(inode, privateId, removeFork);
            && U64At(head, 8) == privateId && U64At(head, 0x54) == 0
            && U32At(head, 0x44) == ClearBit(U32At(inode, 0x44), 0x20)
            && U64At(head, 0x30) == NewFlags(U64At(inode, 0x30), removeFork)
  {
    hide LeBytes, ClearBit, SetBit, Patch, NewFlags, U32At, U64At, Field;
    var flags := NewFlags(U64At(inode, 0x30), removeFork);
    FlagsFit(U64At(inode, 0x30), removeFork);
    FlagsAre(inode, removeFork);
    var w0, w1, w2, w3 :=
      LeBytes(privateId, 8), LeBytes(ClearBit(U32At(inode, 0x44), 0x20), 4), LeBytes(flags, 8), LeBytes(0, 8);
    var h0 := Patch(inode[..HEAD], 8, w0);
    var h1 := Patch(h0, 0x44, w1);
    var h2 := Patch(h1, 0x30, w2);
    PatchWrites(inode[..HEAD], 8, w0);
    PatchWrites(h0, 0x44, w1);
    PatchWrites(h1, 0x30, w2);
    PatchWrites(h2, 0x54, w3);
    PatchKeeps(h0, 0x44, w1, 8, w0);
    PatchKeeps(h1, 0x30, w2, 8, w0);
    PatchKeeps(h2, 0x54, w3, 8, w0);
    PatchKeeps(h1, 0x30, w2, 0x44, w1);
    PatchKeeps(h2, 0x54, w3, 0x44, w1);
    PatchKeeps(h2, 0x54, w3, 0x30, w2);
    var head := Patch(h2, 0x54, w3);
    FieldIs64(head, 8, privateId);
    FieldIs32(head, 0x44, ClearBit(U32At(inode, 0x44), 0x20));
    FieldIs64(head, 0x30, flags);
    FieldIs64(head, 0x54, 0);
  }

  lemma FlagsAre(inode: seq<byte>, removeFork: bool)
    requires |inode| >= HEAD
    ensures var flags := ClearBit(U64At(inode, 0x30), 0x40000);
            NewFlags(U64At(inode, 0x30), removeFork) ==
            if removeFork then SetBit(ClearBit(flags, 0x4000), 0x8000) else flags
  {
    hide ClearBit, SetBit, U64At;
  }

  /** The lower bits of a remainder. */
  lemma LowerBits(v: nat, n: nat)
    requires n > 0
    ensures v % n == v % (2 * n) % n && v / n % 2 == v % (2 * n) / n
  {
    LowerOf(v, n, v / n, v % n);
  }

  lemma LowerOf(v: nat, n: nat, q: nat, low: nat)
    requires low < n && v == q * n + low
    ensures v % (2 * n) % n == low && v % (2 * n) / n == q % 2
  {
    var h, c := q / 2, q % 2;
    assert q == 2 * h + c;
    LowerDigits(h, c, n, low);
  }

  lemma LowerDigits(h: nat, c: nat, n: nat, low: nat)
    requires c < 2 && low < n
    ensures var v := (2 * h + c) * n + low; v % (2 * n) % n == low && v % (2 * n) / n == c
  {
    TwoDigits(h, c, n, low);
    DivMod(c, n, low);
  }

  lemma TwoDigits(h: nat, c: nat, n: nat, low: nat)
    requires c < 2 && low < n
    ensures var v := (2 * h + c) * n + low; v / (2 * n) == h && v % (2 * n) == c * n + low
  {
    assert c * n <= n;
    assert (2 * h + c) * n == h * (2 * n) + c * n;
    DivMod(h, 2 * n, c * n + low);
  }

  lemma HalfAgain(v: nat, n: nat)
    requires n > 0
    ensures v / n / 2 == v / (2 * n)
  {
    HalfOf(v, n, v / n, v % n);
  }

  lemma HalfOf(v: nat, n: nat, q: nat, low: nat)
    requires low < n && v == q * n + low
    ensures v / n == q && v / (2 * n) == q / 2
  {
    DivMod(q, n, low);
    var h, c := q / 2, q % 2;
    assert q == 2 * h + c;
    TwoDigits(h, c, n, low);
  }

  /** The flags themselves: the clone bit is clear, the fork bits follow the request, all others are kept. */
  lemma NewFlagBits(flags: nat)
    ensures var kept, gone := NewFlags(flags, false), NewFlags(flags, true);
            && kept / 0x40000 % 2 == 0 && kept % 0x40000 == flags % 0x40000 && kept / 0x80000 == flags / 0x80000
            && gone / 0x4000 % 2 == 0 && gone / 0x8000 % 2 == 1 && gone % 0x4000 == kept % 0x4000 &&
               gone / 0x10000 == kept / 0x10000
  {
    var a := ClearBit(flags, 0x40000);
    var b := ClearBit(a, 0x4000);
    var g := SetBit(b, 0x8000);
    assert NewFlags(flags, false) == a && NewFlags(flags, true) == g;
    hide ClearBit, SetBit, NewFlags;
    BitCleared(flags, 0x40000);
    HalfAgain(flags, 0x40000);
    HalfAgain(a, 0x40000);
    BitCleared(a, 0x4000);
    BitSet(b, 0x8000);
    LowerBits(g, 0x4000);
    LowerBits(b, 0x4000);
    FewerBits(a, b, g);
  }

  lemma FewerBits(a: nat, b: nat, g: nat)
    requires b / 0x4000 / 2 == a / 0x4000 / 2 && g / 0x8000 / 2 == b / 0x8000 / 2
    ensures g / 0x10000 == a / 0x10000
  {
    HalfAgain(a, 0x4000);
    HalfAgain(b, 0x4000);
    HalfAgain(a, 0x8000);
    HalfAgain(b, 0x8000);
    HalfAgain(g, 0x8000);
  }

  // ---- the replacement -------------------------------------------------------------------------------

  /**
   * The inode of a replaced file. It succeeds exactly when the old record's fields can be read
   * and the new table fits its 16-bit counts; the new record carries every other field of the
   * old one, unchanged and in order, followed by one data stream.
   */
  method ReplaceInodeStream(inode: seq<byte>, privateId: nat, logical: nat, size: nat, removeFork: bool)
    returns (r: Result<seq<byte>>, ghost fields: seq<XField>)
    ensures r.Ok? ==> |inode| >= HEAD && FieldsOf(inode, fields) && AllProper(fields)
    ensures r.Ok? ==> !TooMany(Others(fields) + [StreamField(logical, size)])
    ensures r.Ok? ==> HasFields(r.value, Others(fields) + [StreamField(logical, size)])
    ensures r.Ok? ==> |r.value| >= HEAD && r.value[..HEAD] == NewHead(inode, privateId, removeFork)
    ensures r.Err? ==> |inode| < HEAD || forall h :: FieldsOf(inode, h) && AllProper(h) ==>
              TooMany(Others(h) + [StreamField(logical, size)])
  {
    hide LeBytes, NewHead, HasFields, FieldsOf, Entries, Blob, Align8, Others, Assemble, DataBefore, Proper,
         StreamField;
    fields := [];
    if |inode| < HEAD {
      return Err(ShortRecord), fields;
    }
    var kept, all := ReadOthers(inode);
    fields := all;
    if kept.Err? {
      return Err(ShortRecord), fields;
    }
    StreamProper(logical, size);
    var next := kept.value + [StreamField(logical, size)];
    var out := NewHead(inode, privateId, removeFork);
    var used := 0;
    NoData(next);
    for i := 0 to |next|
      invariant used == DataBefore(next, i)
    {
      MoreData(next, i);
      used := used + Align8(|next[i].data|);
    }
    if |next| >= U16 || used >= U16 {
      Refused(inode, fields, next, logical, size);
      return Err(Overflow), fields;
    }
    out := out + LeBytes(|next|, 2) + LeBytes(used, 2);
    ghost var base := out;
    NoEntries();
    for i := 0 to |next|
      invariant AllProper(next) && out == base + Entries(next[..i])
    {
      MoreEntries(next, i);
      out := out + next[i].entry;
    }
    ghost var table := out;
    NoBlob();
    for i := 0 to |next|
      invariant out == table + Blob(next[..i])
    {
      MoreBlob(next, i);
      out := out + next[i].data;
      out := out + Zeros(Align8(|next[i].data|) - |next[i].data|);
    }
    assert next[..|next|] == next;
    Assembled(NewHead(inode, privateId, removeFork), next, out);
    AssembleReads(NewHead(inode, privateId, removeFork), next);
    r := Ok(out);
  }

  /** The table counts are 16 bits wide. */
  predicate TooMany(fields: seq<XField>) {
    |fields| >= U16 || DataBefore(fields, |fields|) >= U16
  }

  lemma Refused(inode: seq<byte>, fields: seq<XField>, next: seq<XField>, logical: nat, size: nat)
    requires |inode| >= HEAD && FieldsOf(inode, fields) && AllProper(fields) &&
             next == Others(fields) + [StreamField(logical, size)]
    requires TooMany(next)
    ensures forall h :: FieldsOf(inode, h) && AllProper(h) ==> TooMany(Others(h) + [StreamField(logical, size)])
  {
    hide TooMany, Others, StreamField;
    forall h | FieldsOf(inode, h) && AllProper(h) ensures h == fields {
      FieldsUnique(inode, fields, h);
    }
  }

  /** An inode record carries one list of fields. */
  lemma FieldsUnique(inode: seq<byte>, a: seq<XField>, b: seq<XField>)
    requires FieldsOf(inode, a) && FieldsOf(inode, b)
    ensures a == b
  {
    hide FieldAt, U16At;
    if |inode| != HEAD {
      ReadAgrees(inode, |a|, a, TABLE + 4 * |a| + DataBefore(a, |a|), b, |a|);
      assert a[..|a|] == a && b[..|b|] == b;
    }
  }

  lemma NoData(fields: seq<XField>)
    ensures DataBefore(fields, 0) == 0
  {
  }

  lemma MoreData(fields: seq<XField>, i: nat)
    requires i < |fields|
    ensures DataBefore(fields, i + 1) == DataBefore(fields, i) + Align8(|fields[i].data|)
  {
  }

  lemma NoEntries()
    ensures Entries([]) == []
  {
  }

  lemma MoreEntries(fields: seq<XField>, i: nat)
    requires AllProper(fields) && i < |fields|
    ensures Entries(fields[..i + 1]) == Entries(fields[..i]) + fields[i].entry
  {
    assert fields[..i + 1][..i] == fields[..i];
  }

  lemma NoBlob()
    ensures Blob([]) == []
  {
  }

  lemma MoreBlob(fields: seq<XField>, i: nat)
    requires i < |fields|
    ensures Blob(fields[..i + 1]) ==
            Blob(fields[..i]) + fields[i].data + Zeros(Align8(|fields[i].data|) - |fields[i].data|)
  {
    assert fields[..i + 1][..i] == fields[..i];
  }

  lemma Assembled(head: seq<byte>, fields: seq<XField>, out: seq<byte>)
    requires AllProper(fields)
    requires out ==
             head + LeBytes(|fields|, 2) + LeBytes(DataBefore(fields, |fields|), 2) + Entries(fields) + Blob(fields)
    ensures out == Assemble(head, fields) && |out| >= |head| && out[..|head|] == head
  {
    hide LeBytes, Entries, Blob, DataBefore;
  }

  // ---- finding the stream ----------------------------------------------------------------------------

  /** Size and default crypto id of the first data stream among the fields. */
  function StreamOf(fields: seq<XField>): Result<Option<(nat, nat)>>
    requires AllProper(fields)
    decreases |fields|
  {
    if fields == [] then Ok(None)
    else if fields[0].entry[0] != DSTREAM then StreamOf(fields[1..])
    else if |fields[0].data| < DSTREAM_BYTES then Err(ShortRecord)
    else Ok(Some((U64At(fields[0].data, 0), U64At(fields[0].data, 16))))
  }

  /** Where the search for a data stream stops, and with what: after `seen`, none of them a data stream. */
  ghost predicate StopsAt(inode: seq<byte>, seen: seq<XField>, at: nat, r: Result<Option<(nat, nat)>>) {
    && |inode| >= TABLE && var count := U16At(inode, HEAD);
    && TABLE + 4 * count <= |inode| && ReadSoFar(inode, count, seen, at)
    && (forall i :: 0 <= i < |seen| ==> Proper(seen[i]) && seen[i].entry[0] != DSTREAM)
    && if |seen| == count then r == Ok(None) else
       var kind, size := inode[TABLE + 4 * |seen|], U16At(inode, TABLE + 4 * |seen| + 2);
       if at + size > |inode| then r.Err?
       else
         kind == DSTREAM &&
         if size < DSTREAM_BYTES then r.Err? else r == Ok(Some((U64At(inode, at), U64At(inode, at + 16))))
  }

  /**
   * `inode_data_stream`, on any bytes: no table, no stream; a table that leaves the record is an
   * error; otherwise the fields are taken in order up to the first that leaves the record or is a
   * data stream. On a record that carries fields that is the first data stream among them.
   */
  method InodeDataStream(inode: seq<byte>, ghost fields: seq<XField>)
    returns (r: Result<Option<(nat, nat)>>, ghost seen: seq<XField>, ghost stop: nat)
    ensures |inode| < TABLE ==> r == Ok(None)
    ensures |inode| >= TABLE && TABLE + 4 * U16At(inode, HEAD) > |inode| ==> r.Err?
    ensures |inode| >= TABLE && TABLE + 4 * U16At(inode, HEAD) <= |inode| ==> StopsAt(inode, seen, stop, r)
    ensures HasFields(inode, fields) && AllProper(fields) ==> r == StreamOf(fields)
  {
    hide FieldAt, U16At, U64At, Align8, DataBefore, Proper, ReadSoFar;
    seen, stop := [], 0;
    if |inode| < TABLE {
      return Ok(None), seen, stop;
    }
    ghost var good := HasFields(inode, fields) && AllProper(fields);
    var count := U16At(inode, HEAD);
    var at: nat := TABLE + count * 4;
    if at > |inode| {
      return Err(ShortRecord), seen, stop;
    }
    if good {
      NoData(fields);
    }
    ReadStarts(inode, count);
    for index := 0 to count
      invariant |seen| == index && ReadSoFar(inode, count, seen, at)
      invariant forall i :: 0 <= i < |seen| ==> |seen[i].entry| == 4 && Proper(seen[i]) && seen[i].entry[0] != DSTREAM
      invariant good ==> |fields| == count && at == TABLE + 4 * count + DataBefore(fields, index)
      invariant good ==> StreamOf(fields[index..]) == StreamOf(fields)
    {
      var e := TABLE + index * 4;
      var kind, size := inode[e], U16At(inode, e + 2);
      if good {
        FieldHere(inode, fields, index, at);
        MoreData(fields, index);
        assert fields[index..][0] == fields[index] && fields[index..][1..] == fields[index + 1..];
      }
      if at + size > |inode| {
        return Err(ShortRecord), seen, at;
      }
      if kind == DSTREAM {
        if size < DSTREAM_BYTES {
          return Err(ShortRecord), seen, at;
        }
        if good {
          StreamWords(inode, at, fields[index].data);
        }
        return Ok(Some((U64At(inode, at), U64At(inode, at + 16)))), seen, at;
      }
      ghost var f := XField(inode[e..e + 4], inode[at..at + size]);
      EntryIs(inode, e, f);
      assert |f.entry| == 4;
      ReadMore(inode, count, seen, at, f);
      seen := seen + [f];
      at := at + Align8(size);
    }
    if good {
      assert fields[count..] == [];
    }
    return Ok(None), seen, at;
  }

  lemma FieldHere(inode: seq<byte>, fields: seq<XField>, i: nat, at: nat)
    requires HasFields(inode, fields) && AllProper(fields) && i < |fields| &&
             at == TABLE + 4 * |fields| + DataBefore(fields, i)
    ensures inode[TABLE + 4 * i] == fields[i].entry[0] && U16At(inode, TABLE + 4 * i + 2) == |fields[i].data|
    ensures Field(inode, at, fields[i].data)
  {
    hide U16At, DataBefore, Field;
    assert FieldAt(inode, |fields|, fields, i);
    EntryLength(inode, TABLE + 4 * i, fields[i]);
  }

  lemma StreamWords(inode: seq<byte>, at: nat, data: seq<byte>)
    requires Field(inode, at, data) && |data| >= DSTREAM_BYTES
    ensures U64At(inode, at) == U64At(data, 0) && U64At(inode, at + 16) == U64At(data, 16)
  {
    var here := inode[at..at + |data|];
    assert here[0..8] == inode[at..at + 8];
    assert here[16..24] == inode[at + 16..at + 24] by {
      forall k | 0 <= k < 8 ensures here[16..24][k] == inode[at + 16..at + 24][k] {
        assert here[16..24][k] == here[16 + k] == inode[at + 16 + k];
      }
    }
  }

  /** After a replacement the reader finds the new stream, with its size and no encryption. */
  lemma {:induction false} ReplacedStreamFound(others: seq<XField>, logical: nat, size: nat)
    requires AllProper(others) && (forall i :: 0 <= i < |others| ==> others[i].entry[0] != DSTREAM) && logical < U64
    ensures AllProper(others + [StreamField(logical, size)])
    ensures StreamOf(others + [StreamField(logical, size)]) == Ok(Some((logical, 0)))
    decreases |others|
  {
    hide LeBytes, Le, Proper, Pow256;
    var f := StreamField(logical, size);
    StreamProper(logical, size);
    if others == [] {
      assert others + [f] == [f];
      assert f.data[0..8] == LeBytes(logical, 8) && f.data[16..24] == Zeros(8);
      Fits64(logical);
      ZeroBytes(8);
    } else {
      ReplacedStreamFound(others[1..], logical, size);
      assert (others + [f])[1..] == others[1..] + [f];
    }
  }

  lemma {:induction false} ZeroBytes(n: nat)
    ensures Le(Zeros(n)) == 0
  {
    if n > 0 {
      ZeroBytes(n - 1);
      assert Zeros(n)[1..] == Zeros(n - 1);
    }
  }
}

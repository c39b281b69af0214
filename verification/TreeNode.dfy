/**
 * The byte layout of one B-tree node: a table of contents growing up from byte 56, keys right
 * after it, values growing down from the end (src/apfs_write.rs, src/apfs_verify.rs).
 */
module TreeNode {
  import opened Bytes

  datatype Record = Record(key: seq<byte>, value: seq<byte>)

  /** `fixed` holds the key and leaf-value sizes of a tree of fixed-size records. */
  datatype Layout = Layout(fixed: Option<(nat, nat)>, flags: nat, subtype: nat)

  /** What the root's trailer records: key count, node count, longest key, longest value. */
  datatype Totals = Totals(keys: nat, nodes: nat, longestKey: nat, longestValue: nat)

  const TOC_BASE: nat := 56
  const INFO_BYTES: nat := 40
  const FLAG_ROOT: nat := 1
  const FLAG_LEAF: nat := 2
  const FLAG_FIXED: nat := 4

  predicate BlockSize(bs: nat) {
    4096 <= bs <= 0x1_0000 && bs % 4 == 0
  }

  /** A fixed layout has a real key and sizes that fit the trailer. */
  predicate LayoutOk(layout: Layout) {
    && layout.flags < U32 && layout.subtype < U32
    && (layout.fixed.Some? ==> 1 <= layout.fixed.value.0 < U32 && layout.fixed.value.1 < U32)
  }

  function Trailer(root: bool): nat {
    if root then INFO_BYTES else 0
  }

  function Stride(layout: Layout): nat {
    if layout.fixed.Some? then 4 else 8
  }

  /** Index nodes hold eight-byte child ids whatever the leaf value size is. */
  function ValueSize(leafSize: nat, level: nat): nat {
    if level == 0 then leafSize else 8
  }

  function FixedTocLen(bs: nat, ks: nat, vs: nat): nat
    requires bs >= TOC_BASE
  {
    (bs - TOC_BASE) / (4 + (ks + vs)) * 4
  }

  function VariableTocLen(n: nat): nat {
    (if n >= 8 then n else 8) * 8
  }

  function TocLen(layout: Layout, n: nat, level: nat, bs: nat): nat
    requires bs >= TOC_BASE
  {
    match layout.fixed
    case Some(size) => FixedTocLen(bs, size.0, ValueSize(size.1, level))
    case None => VariableTocLen(n)
  }

  function KeyBytes(recs: seq<Record>): nat {
    if recs == [] then 0 else KeyBytes(recs[..|recs| - 1]) + |recs[|recs| - 1].key|
  }

  function ValueBytes(recs: seq<Record>): nat {
    if recs == [] then 0 else ValueBytes(recs[..|recs| - 1]) + |recs[|recs| - 1].value|
  }

  function NodeBytes(recs: seq<Record>, layout: Layout, root: bool, level: nat, bs: nat): nat
    requires bs >= TOC_BASE
  {
    TOC_BASE + TocLen(layout, |recs|, level, bs) + KeyBytes(recs) + ValueBytes(recs) +
    Trailer(root)
  }

  /** The table of contents has room for every record. */
  predicate TocFits(layout: Layout, n: nat, level: nat, bs: nat)
    requires bs >= TOC_BASE
  {
    n * Stride(layout) <= TocLen(layout, n, level, bs)
  }

  /** Every record has the sizes a fixed layout prescribes for this level. */
  predicate SizesOk(recs: seq<Record>, layout: Layout, level: nat) {
    layout.fixed.Some? ==>
      forall r :: r in recs ==> |r.key| == layout.fixed.value.0 &&
                                |r.value| == ValueSize(layout.fixed.value.1, level)
  }

  // ---- writing ------------------------------------------------------------------------------

  function NodeFlags(layout: Layout, root: bool, level: nat): (f: nat)
    ensures f < 8
    ensures f % 2 == 1 <==> root
    ensures f / 2 % 2 == 1 <==> level == 0
    ensures f / 4 % 2 == 1 <==> layout.fixed.Some?
  {
    (if root then FLAG_ROOT else 0) + (if level == 0 then FLAG_LEAF else 0) +
    (if layout.fixed.Some? then FLAG_FIXED else 0)
  }

  function KeyBase(layout: Layout, n: nat, level: nat, bs: nat): nat
    requires bs >= TOC_BASE
  {
    TOC_BASE + TocLen(layout, n, level, bs)
  }

  function ValueEnd(root: bool, bs: nat): nat
    requires bs >= INFO_BYTES
  {
    bs - Trailer(root)
  }

  /** A table-of-contents entry; every number is cut to sixteen bits. */
  function TocBytes(fixed: bool, keyOff: nat, keyLen: nat, valueOff: nat, valueLen: nat): (e: seq<byte>)
    ensures |e| == if fixed then 4 else 8
  {
    if fixed then LeBytes(keyOff, 2) + LeBytes(valueOff, 2)
    else LeBytes(keyOff, 2) + LeBytes(keyLen, 2) + LeBytes(valueOff, 2) + LeBytes(valueLen, 2)
  }

  function TocEntry(recs: seq<Record>, layout: Layout, i: nat): (e: seq<byte>)
    requires i < |recs|
    ensures |e| == Stride(layout)
  {
    TocBytes(layout.fixed.Some?, KeyBytes(recs[..i]), |recs[i].key|, ValueBytes(recs[..i + 1]), |recs[i].value|)
  }

  /** Flags, level, key count, table offset (always zero) and table length, from byte 0x20 on. */
  function HeaderBytes(n: nat, layout: Layout, level: nat, root: bool, bs: nat): (h: seq<byte>)
    requires bs >= TOC_BASE
    ensures |h| == 12
  {
    LeBytes(NodeFlags(layout, root, level), 2) + LeBytes(level, 2) + LeBytes(n, 4) +
    LeBytes(0, 2) + LeBytes(TocLen(layout, n, level, bs), 2)
  }

  predicate HeaderStored(b: seq<byte>, n: nat, layout: Layout, level: nat, root: bool, bs: nat)
    requires bs >= TOC_BASE
  {
    Field(b, 0x20, HeaderBytes(n, layout, level, root, bs))
  }

  /** The three places one record occupies, with what goes there. */
  datatype Spot = Spot(tocAt: nat, toc: seq<byte>, keyAt: nat, key: seq<byte>, valueAt: nat, value: seq<byte>)

  function SpotOf(recs: seq<Record>, layout: Layout, level: nat, root: bool, bs: nat, i: nat): Spot
    requires bs >= TOC_BASE && i < |recs|
    requires ValueBytes(recs[..i + 1]) <= ValueEnd(root, bs)
  {
    Spot(TOC_BASE + i * Stride(layout), TocEntry(recs, layout, i),
         KeyBase(layout, |recs|, level, bs) + KeyBytes(recs[..i]), recs[i].key,
         ValueEnd(root, bs) - ValueBytes(recs[..i + 1]), recs[i].value)
  }

  predicate SpotHeld(b: seq<byte>, spot: Spot) {
    && Field(b, spot.tocAt, spot.toc)
    && Field(b, spot.keyAt, spot.key)
    && Field(b, spot.valueAt, spot.value)
  }

  /** Record i sits in its three places. */
  predicate EntryStored(b: seq<byte>, recs: seq<Record>, layout: Layout, level: nat, root: bool, i: nat)
    requires |b| >= TOC_BASE && i < |recs|
  {
    && ValueBytes(recs[..i + 1]) <= ValueEnd(root, |b|)
    && SpotHeld(b, SpotOf(recs, layout, level, root, |b|, i))
  }

  /** The root's forty-byte trailer. */
  function InfoBytes(layout: Layout, totals: Totals, bs: nat): (info: seq<byte>)
    ensures |info| == INFO_BYTES
  {
    var size := if layout.fixed.Some? then layout.fixed.value else (0, 0);
    LeBytes(layout.flags, 4) + LeBytes(bs, 4) + LeBytes(size.0, 4) + LeBytes(size.1, 4) +
    LeBytes(totals.longestKey, 4) + LeBytes(totals.longestValue, 4) +
    LeBytes(totals.keys, 8) + LeBytes(totals.nodes, 8)
  }

  predicate InfoStored(b: seq<byte>, layout: Layout, totals: Totals)
    requires |b| >= TOC_BASE
  {
    Field(b, |b| - INFO_BYTES, InfoBytes(layout, totals, |b|))
  }

  /** The block holds exactly this node. */
  predicate Encodes(b: seq<byte>, recs: seq<Record>, layout: Layout, level: nat, root: bool, totals: Totals) {
    && |b| >= TOC_BASE
    && HeaderStored(b, |recs|, layout, level, root, |b|)
    && (forall i :: 0 <= i < |recs| ==> EntryStored(b, recs, layout, level, root, i))
    && (root ==> InfoStored(b, layout, totals))
  }

  lemma {:induction false} PrefixBytes(recs: seq<Record>, i: nat)
    requires i <= |recs|
    ensures KeyBytes(recs[..i]) <= KeyBytes(recs)
    ensures ValueBytes(recs[..i]) <= ValueBytes(recs)
    decreases |recs| - i
  {
    if i == |recs| {
      assert recs[..i] == recs;
    } else {
      PrefixBytes(recs, i + 1);
      PrefixStep(recs, i);
    }
  }

  lemma PrefixStep(recs: seq<Record>, i: nat)
    requires i < |recs|
    ensures KeyBytes(recs[..i + 1]) == KeyBytes(recs[..i]) + |recs[i].key|
    ensures ValueBytes(recs[..i + 1]) == ValueBytes(recs[..i]) + |recs[i].value|
  {
    assert recs[..i + 1][..i] == recs[..i];
  }

  /** Where record i's key and value end, and that the key area stays below the value area. */
  lemma Places(recs: seq<Record>, layout: Layout, level: nat, root: bool, bs: nat, i: nat)
    requires bs >= TOC_BASE && NodeBytes(recs, layout, root, level, bs) <= bs
    requires i < |recs|
    ensures KeyBytes(recs[..i]) + |recs[i].key| <= KeyBytes(recs)
    ensures ValueBytes(recs[..i + 1]) == ValueBytes(recs[..i]) + |recs[i].value| <= ValueBytes(recs)
    ensures KeyBase(layout, |recs|, level, bs) + KeyBytes(recs) + ValueBytes(recs) <= ValueEnd(root, bs)
  {
    PrefixStep(recs, i);
    PrefixBytes(recs, i + 1);
  }

  /** A spot inside the block whose table entry, key and value follow each other. */
  predicate SpotOk(s: Spot, bs: nat) {
    && TOC_BASE <= s.tocAt
    && s.tocAt + |s.toc| <= s.keyAt
    && s.keyAt + |s.key| <= s.valueAt
    && s.valueAt + |s.value| <= bs
  }

  /** Spot s lies below spot t in the table and key areas, and above it in the value area. */
  predicate SpotBefore(s: Spot, t: Spot) {
    && s.tocAt + |s.toc| <= t.tocAt
    && t.tocAt + |t.toc| <= s.keyAt
    && s.keyAt + |s.key| <= t.keyAt
    && t.keyAt + |t.key| <= t.valueAt
    && t.valueAt + |t.value| <= s.valueAt
  }

  lemma SpotFits(recs: seq<Record>, layout: Layout, level: nat, root: bool, bs: nat, i: nat)
    requires bs >= TOC_BASE && NodeBytes(recs, layout, root, level, bs) <= bs && i < |recs|
    requires TocFits(layout, |recs|, level, bs)
    ensures ValueBytes(recs[..i + 1]) <= ValueEnd(root, bs)
    ensures SpotOk(SpotOf(recs, layout, level, root, bs, i), ValueEnd(root, bs))
  {
    Places(recs, layout, level, root, bs, i);
    StrideStep(i, |recs|, Stride(layout));
  }

  lemma StrideStep(i: nat, j: nat, stride: nat)
    requires i < j
    ensures 0 <= i * stride && i * stride + stride <= j * stride
  {
    assert (j - i - 1) * stride >= 0;
    assert j * stride == i * stride + stride + (j - i - 1) * stride;
  }

  lemma SpotsOrdered(recs: seq<Record>, layout: Layout, level: nat, root: bool, bs: nat, j: nat, i: nat)
    requires bs >= TOC_BASE && NodeBytes(recs, layout, root, level, bs) <= bs && j < i < |recs|
    requires TocFits(layout, |recs|, level, bs)
    ensures ValueBytes(recs[..i + 1]) <= ValueEnd(root, bs)
    ensures ValueBytes(recs[..j + 1]) <= ValueEnd(root, bs)
    ensures SpotBefore(SpotOf(recs, layout, level, root, bs, j), SpotOf(recs, layout, level, root, bs, i))
  {
    Places(recs, layout, level, root, bs, i);
    Places(recs, layout, level, root, bs, j);
    StrideStep(i, |recs|, Stride(layout));
    StrideStep(j, i, Stride(layout));
    PrefixStep(recs, j);
    PrefixBytes(recs[..i], j + 1);
    assert recs[..i][..j + 1] == recs[..j + 1];
  }

  /** The three writes the encoder's loop makes for one record. */
  function WriteSpot(b: seq<byte>, s: Spot): (r: seq<byte>)
    requires s.tocAt + |s.toc| <= |b| && s.keyAt + |s.key| <= |b| && s.valueAt + |s.value| <= |b|
    ensures |r| == |b|
  {
    Patch(Patch(Patch(b, s.tocAt, s.toc), s.keyAt, s.key), s.valueAt, s.value)
  }

  lemma WriteSpotHolds(b: seq<byte>, s: Spot)
    requires SpotOk(s, |b|)
    ensures SpotHeld(WriteSpot(b, s), s)
  {
    var b1 := Patch(b, s.tocAt, s.toc);
    PatchWrites(b, s.tocAt, s.toc);
    var b2 := Patch(b1, s.keyAt, s.key);
    PatchKeeps(b1, s.keyAt, s.key, s.tocAt, s.toc);
    PatchWrites(b1, s.keyAt, s.key);
    PatchKeeps(b2, s.valueAt, s.value, s.tocAt, s.toc);
    PatchKeeps(b2, s.valueAt, s.value, s.keyAt, s.key);
    PatchWrites(b2, s.valueAt, s.value);
  }

  /** A patch apart from all three places keeps the record. */
  lemma SpotKept(b: seq<byte>, at: nat, data: seq<byte>, s: Spot)
    requires at + |data| <= |b| && SpotHeld(b, s)
    requires at + |data| <= s.tocAt || s.tocAt + |s.toc| <= at
    requires at + |data| <= s.keyAt || s.keyAt + |s.key| <= at
    requires at + |data| <= s.valueAt || s.valueAt + |s.value| <= at
    ensures SpotHeld(Patch(b, at, data), s)
  {
    PatchKeeps(b, at, data, s.tocAt, s.toc);
    PatchKeeps(b, at, data, s.keyAt, s.key);
    PatchKeeps(b, at, data, s.valueAt, s.value);
  }

  lemma WriteSpotKeeps(b: seq<byte>, s: Spot, t: Spot)
    requires SpotOk(s, |b|) && SpotOk(t, |b|) && SpotBefore(s, t)
    requires SpotHeld(b, s)
    ensures SpotHeld(WriteSpot(b, t), s)
  {
    SpotKept(b, t.tocAt, t.toc, s);
    var b1 := Patch(b, t.tocAt, t.toc);
    SpotKept(b1, t.keyAt, t.key, s);
    var b2 := Patch(b1, t.keyAt, t.key);
    SpotKept(b2, t.valueAt, t.value, s);
  }

  /** A record survives any change outside the area between the header and the value end. */
  lemma SpotCarried(b: seq<byte>, c: seq<byte>, s: Spot, end: nat)
    requires SpotOk(s, end) && TOC_BASE <= end <= |b| && |c| == |b|
    requires b[TOC_BASE..end] == c[TOC_BASE..end] && SpotHeld(b, s)
    ensures SpotHeld(c, s)
  {
    SliceCarried(b, c, TOC_BASE, end, s.tocAt, s.tocAt + |s.toc|);
    SliceCarried(b, c, TOC_BASE, end, s.keyAt, s.keyAt + |s.key|);
    SliceCarried(b, c, TOC_BASE, end, s.valueAt, s.valueAt + |s.value|);
  }

  /** A block that agrees on the header fields and on the record area holds the same records. */
  lemma NodeCarried(b: seq<byte>, c: seq<byte>, recs: seq<Record>, layout: Layout, level: nat, root: bool)
    requires BlockSize(|b|) && |c| == |b|
    requires NodeBytes(recs, layout, root, level, |b|) <= |b|
    requires b[0x20..0x2C] == c[0x20..0x2C]
    requires b[TOC_BASE..ValueEnd(root, |b|)] == c[TOC_BASE..ValueEnd(root, |b|)]
    requires HeaderStored(b, |recs|, layout, level, root, |b|)
    requires TocFits(layout, |recs|, level, |b|) ==>
               forall i :: 0 <= i < |recs| ==> EntryStored(b, recs, layout, level, root, i)
    ensures HeaderStored(c, |recs|, layout, level, root, |b|)
    ensures TocFits(layout, |recs|, level, |b|) ==>
              forall i :: 0 <= i < |recs| ==> EntryStored(c, recs, layout, level, root, i)
  {
    if TocFits(layout, |recs|, level, |b|) {
      forall i | 0 <= i < |recs| ensures EntryStored(c, recs, layout, level, root, i) {
        assert EntryStored(b, recs, layout, level, root, i);
        SpotFits(recs, layout, level, root, |b|, i);
        SpotCarried(b, c, SpotOf(recs, layout, level, root, |b|, i), ValueEnd(root, |b|));
      }
    }
  }

  /** The two closing writes leave the records in place. */
  lemma Finished(b: seq<byte>, c: seq<byte>, recs: seq<Record>, layout: Layout, level: nat, root: bool,
                 totals: Totals, keyUsed: nat, valueUsed: nat)
    requires BlockSize(|b|) && NodeBytes(recs, layout, root, level, |b|) <= |b|
    requires KeyBase(layout, |recs|, level, |b|) + keyUsed + valueUsed <= ValueEnd(root, |b|)
    requires HeaderStored(b, |recs|, layout, level, root, |b|)
    requires TocFits(layout, |recs|, level, |b|) ==>
               forall i :: 0 <= i < |recs| ==> EntryStored(b, recs, layout, level, root, i)
    requires var free := FreeSpaceBytes(KeyBase(layout, |recs|, level, |b|), ValueEnd(root, |b|), keyUsed, valueUsed);
             var b1 := Patch(b, 0x2C, free);
             c == if root then Patch(b1, |b| - INFO_BYTES, InfoBytes(layout, totals, |b|)) else b1
    ensures HeaderStored(c, |recs|, layout, level, root, |b|)
    ensures TocFits(layout, |recs|, level, |b|) ==> Encodes(c, recs, layout, level, root, totals)
  {
    var free := FreeSpaceBytes(KeyBase(layout, |recs|, level, |b|), ValueEnd(root, |b|), keyUsed, valueUsed);
    var b1 := Patch(b, 0x2C, free);
    PatchElsewhere(b, 0x2C, free, 0x20, 0x2C);
    PatchElsewhere(b, 0x2C, free, TOC_BASE, ValueEnd(root, |b|));
    if root {
      var info := InfoBytes(layout, totals, |b|);
      PatchElsewhere(b1, |b| - INFO_BYTES, info, 0x20, 0x2C);
      PatchElsewhere(b1, |b| - INFO_BYTES, info, TOC_BASE, ValueEnd(root, |b|));
      PatchWrites(b1, |b| - INFO_BYTES, info);
    }
    NodeCarried(b, c, recs, layout, level, root);
  }

  /** Free-space offset and length, then two empty free lists. */
  function FreeSpaceBytes(keyBase: nat, valueEnd: nat, keyUsed: nat, valueUsed: nat): (f: seq<byte>)
    requires keyBase + keyUsed + valueUsed <= valueEnd
    ensures |f| == 12
  {
    var none := LeBytes(0xFFFF, 2) + LeBytes(0, 2);
    LeBytes(keyUsed, 2) + LeBytes(valueEnd - keyBase - keyUsed - valueUsed, 2) + none + none
  }

  lemma {:induction false} FixedPayload(recs: seq<Record>, ks: nat, vs: nat)
    requires forall r :: r in recs ==> |r.key| == ks && |r.value| == vs
    ensures KeyBytes(recs) + ValueBytes(recs) == |recs| * (ks + vs)
  {
    if recs != [] {
      var n := |recs| - 1;
      FixedPayload(recs[..n], ks, vs);
      assert recs[n] in recs;
      assert |recs| * (ks + vs) == n * (ks + vs) + (ks + vs);
    }
  }

  /** Even an overfull fixed-size table of contents stays inside the block. */
  lemma TocInBlock(recs: seq<Record>, layout: Layout, level: nat, root: bool, bs: nat, m: nat)
    requires BlockSize(bs) && LayoutOk(layout) && m <= |recs|
    requires NodeBytes(recs, layout, root, level, bs) <= bs
    requires SizesOk(recs[..m], layout, level)
    ensures TOC_BASE + m * Stride(layout) <= bs
  {
    hide KeyBytes, ValueBytes;
    PrefixBytes(recs, m);
    if layout.fixed.Some? {
      FixedPayload(recs[..m], layout.fixed.value.0, ValueSize(layout.fixed.value.1, level));
      var size := layout.fixed.value.0 + ValueSize(layout.fixed.value.1, level);
      FixedTocInBlock(bs - TOC_BASE, size, m, (bs - TOC_BASE) / (4 + size));
    } else {
      StrideStep(m, |recs| + 1, 8);
    }
  }

  lemma FixedTocInBlock(area: nat, size: nat, m: nat, cap: nat)
    requires area >= 4040 && size >= 1 && cap == area / (4 + size)
    requires m * size + 4 * cap <= area
    ensures 4 * m <= area
  {
    if size >= 4 {
      assert m * size >= m * 4;
    } else if size == 1 {
      assert cap == area / 5;
    } else if size == 2 {
      assert cap == area / 6;
    } else {
      assert cap == area / 7;
    }
  }

  /** The encoder's loop; false when a record does not have the fixed sizes. */
  method StoreEntries(block: array<byte>, recs: seq<Record>, layout: Layout, level: nat, root: bool,
                      ghost header: seq<byte>) returns (ok: bool, keyUsed: nat, valueUsed: nat)
    requires BlockSize(block.Length) && LayoutOk(layout)
    requires NodeBytes(recs, layout, root, level, block.Length) <= block.Length
    requires |header| == 12 && Field(block[..], 0x20, header)
    modifies block
    ensures ok == SizesOk(recs, layout, level)
    ensures ok ==> keyUsed == KeyBytes(recs) && valueUsed == ValueBytes(recs)
    ensures Field(block[..], 0x20, header)
    ensures ok && TocFits(layout, |recs|, level, block.Length) ==>
              forall j :: 0 <= j < |recs| ==> EntryStored(block[..], recs, layout, level, root, j)
  {
    keyUsed, valueUsed := 0, 0;
    for i := 0 to |recs|
      invariant keyUsed == KeyBytes(recs[..i]) && valueUsed == ValueBytes(recs[..i])
      invariant SizesOk(recs[..i], layout, level)
      invariant Field(block[..], 0x20, header)
      invariant TocFits(layout, |recs|, level, block.Length) ==>
                  forall j :: 0 <= j < i ==> EntryStored(block[..], recs, layout, level, root, j)
    {
      var key, value := recs[i].key, recs[i].value;
      if layout.fixed.Some? &&
         (|key| != layout.fixed.value.0 || |value| != ValueSize(layout.fixed.value.1, level)) {
        assert recs[i] in recs;
        return false, keyUsed, valueUsed;
      }
      assert recs[..i + 1] == recs[..i] + [recs[i]];
      TocInBlock(recs, layout, level, root, block.Length, i + 1);
      StrideStep(i, i + 1, Stride(layout));
      valueUsed := valueUsed + |value|;
      StoreEntry(block, recs, layout, level, root, i, header);
      keyUsed := keyUsed + |key|;
      PrefixStep(recs, i);
    }
    assert recs[..|recs|] == recs;
    ok := true;
  }

  /** Fills one node; both refusals are exactly the two the source makes. */
  method EncodeTreeNode(bs: nat, recs: seq<Record>, layout: Layout, level: nat, root: bool, totals: Totals)
      returns (r: Result<seq<byte>>)
    requires BlockSize(bs) && LayoutOk(layout)
    ensures r.Err? <==> NodeBytes(recs, layout, root, level, bs) > bs || !SizesOk(recs, layout, level)
    ensures r.Ok? ==> |r.value| == bs && HeaderStored(r.value, |recs|, layout, level, root, bs)
    ensures r.Ok? && TocFits(layout, |recs|, level, bs) ==>
              Encodes(r.value, recs, layout, level, root, totals)
  {
    if NodeBytes(recs, layout, root, level, bs) > bs {
      return Err(Capacity);
    }
    var block := new byte[bs](_ => 0);
    var header := HeaderBytes(|recs|, layout, level, root, bs);
    ghost var blank := block[..];
    Put(block, 0x20, header);
    PatchWrites(blank, 0x20, header);
    var ok, keyUsed, valueUsed := StoreEntries(block, recs, layout, level, root, header);
    if !ok {
      return Err(RecordSize);
    }
    CloseNode(block, recs, layout, level, root, totals, keyUsed, valueUsed);
    r := Ok(block[..]);
  }

  /** The free-space fields and, on a root, the trailer. */
  method CloseNode(block: array<byte>, recs: seq<Record>, layout: Layout, level: nat, root: bool,
                   totals: Totals, keyUsed: nat, valueUsed: nat)
    requires BlockSize(block.Length) && NodeBytes(recs, layout, root, level, block.Length) <= block.Length
    requires KeyBase(layout, |recs|, level, block.Length) + keyUsed + valueUsed <= ValueEnd(root, block.Length)
    requires HeaderStored(block[..], |recs|, layout, level, root, block.Length)
    requires TocFits(layout, |recs|, level, block.Length) ==>
               forall i :: 0 <= i < |recs| ==> EntryStored(block[..], recs, layout, level, root, i)
    modifies block
    ensures HeaderStored(block[..], |recs|, layout, level, root, block.Length)
    ensures TocFits(layout, |recs|, level, block.Length) ==>
              Encodes(block[..], recs, layout, level, root, totals)
  {
    ghost var filled := block[..];
    var bs := block.Length;
    Put(block, 0x2C, FreeSpaceBytes(KeyBase(layout, |recs|, level, bs), ValueEnd(root, bs), keyUsed, valueUsed));
    if root {
      Put(block, bs - INFO_BYTES, InfoBytes(layout, totals, bs));
    }
    Finished(filled, block[..], recs, layout, level, root, totals, keyUsed, valueUsed);
  }

  method PutSpot(block: array<byte>, s: Spot)
    requires s.tocAt + |s.toc| <= block.Length && s.keyAt + |s.key| <= block.Length
    requires s.valueAt + |s.value| <= block.Length
    modifies block
    ensures block[..] == WriteSpot(old(block[..]), s)
  {
    Put(block, s.tocAt, s.toc);
    Put(block, s.keyAt, s.key);
    Put(block, s.valueAt, s.value);
  }

  lemma WriteSpotHeader(b: seq<byte>, s: Spot, h: seq<byte>)
    requires s.tocAt + |s.toc| <= |b| && s.keyAt + |s.key| <= |b| && s.valueAt + |s.value| <= |b|
    requires Field(b, 0x20, h)
    requires 0x20 + |h| <= TOC_BASE <= Min(s.tocAt, Min(s.keyAt, s.valueAt))
    ensures Field(WriteSpot(b, s), 0x20, h)
  {
    var b1 := Patch(b, s.tocAt, s.toc);
    PatchKeeps(b, s.tocAt, s.toc, 0x20, h);
    var b2 := Patch(b1, s.keyAt, s.key);
    PatchKeeps(b1, s.keyAt, s.key, 0x20, h);
    PatchKeeps(b2, s.valueAt, s.value, 0x20, h);
  }

  /** One round of the encoder's loop: table entry, key, value. */
  method StoreEntry(block: array<byte>, recs: seq<Record>, layout: Layout, level: nat, root: bool, i: nat,
                    ghost header: seq<byte>)
    requires BlockSize(block.Length) && i < |recs|
    requires NodeBytes(recs, layout, root, level, block.Length) <= block.Length
    requires TOC_BASE + i * Stride(layout) + Stride(layout) <= block.Length
    requires |header| == 12 && Field(block[..], 0x20, header)
    requires TocFits(layout, |recs|, level, block.Length) ==>
               forall j :: 0 <= j < i ==> EntryStored(block[..], recs, layout, level, root, j)
    modifies block
    ensures Field(block[..], 0x20, header)
    ensures TocFits(layout, |recs|, level, block.Length) ==>
              forall j :: 0 <= j <= i ==> EntryStored(block[..], recs, layout, level, root, j)
  {
    ghost var b := block[..];
    Places(recs, layout, level, root, block.Length, i);
    StrideStep(i, i + 1, Stride(layout));
    var s := SpotOf(recs, layout, level, root, block.Length, i);
    PutSpot(block, s);
    WriteSpotHeader(b, s, header);
    if TocFits(layout, |recs|, level, block.Length) {
      EntriesAfter(b, recs, layout, level, root, i);
    }
  }

  lemma EntriesAfter(b: seq<byte>, recs: seq<Record>, layout: Layout, level: nat, root: bool, i: nat)
    requires BlockSize(|b|) && i < |recs|
    requires NodeBytes(recs, layout, root, level, |b|) <= |b| && TocFits(layout, |recs|, level, |b|)
    requires forall j :: 0 <= j < i ==> EntryStored(b, recs, layout, level, root, j)
    ensures ValueBytes(recs[..i + 1]) <= ValueEnd(root, |b|)
    ensures SpotOk(SpotOf(recs, layout, level, root, |b|, i), |b|)
    ensures var c := WriteSpot(b, SpotOf(recs, layout, level, root, |b|, i));
            forall j :: 0 <= j <= i ==> EntryStored(c, recs, layout, level, root, j)
  {
    SpotFits(recs, layout, level, root, |b|, i);
    var s := SpotOf(recs, layout, level, root, |b|, i);
    WriteSpotHolds(b, s);
    forall j | 0 <= j < i ensures EntryStored(WriteSpot(b, s), recs, layout, level, root, j) {
      assert EntryStored(b, recs, layout, level, root, j);
      SpotFits(recs, layout, level, root, |b|, j);
      SpotsOrdered(recs, layout, level, root, |b|, j, i);
      WriteSpotKeeps(b, SpotOf(recs, layout, level, root, |b|, j), s);
    }
  }

  // ---- reading ------------------------------------------------------------------------------

  /** A decoded node; the two flags readers act on are kept as booleans. */
  datatype Node = Node(bytes: seq<byte>, leaf: bool, fixed: bool, level: nat, nkeys: nat, keyBase: nat, valueEnd: nat,
                       toc: nat) {
    /** What `DecodeNode` establishes: the table of contents lies inside the block. */
    predicate Ok() {
      && toc <= keyBase <= valueEnd <= |bytes|
      && nkeys * Stride() <= keyBase - toc
    }

    function Stride(): nat {
      if fixed then 4 else 8
    }
  }

  const FLAG_NO_HEADER: nat := 0x10

  function DecodeNode(b: seq<byte>, headerless: bool): (r: Result<Node>)
    requires |b| >= TOC_BASE
    ensures r.Ok? ==> r.value.Ok() && r.value.bytes == b
  {
    var flags := U16At(b, 0x20);
    if flags / FLAG_NO_HEADER % 2 == 1 && !headerless then
      Err(Unsupported)
    else
      var toc := TOC_BASE + U16At(b, 0x28);
      var tocLen := U16At(b, 0x2A);
      var nkeys := U32At(b, 0x24);
      var valueEnd := |b| - Trailer(flags % 2 == 1);
      if toc + tocLen > valueEnd then
        Err(Malformed)
      else if nkeys * (if flags / 4 % 2 == 1 then 4 else 8) > tocLen then
        Err(Malformed)
      else
        Ok(Node(b, flags / 2 % 2 == 1, flags / 4 % 2 == 1, U16At(b, 0x22), nkeys, toc + tocLen, valueEnd, toc))
  }

  /** The key and value slices of one record; a fixed node's run on to the value end. */
  function Slices(node: Node, keyOff: nat, keyLen: nat, valueOff: nat, valueLen: nat): (r: Result<Record>)
    requires node.Ok()
  {
    var keyAt := node.keyBase + keyOff;
    if keyAt >= node.valueEnd then
      Err(Malformed)
    else
      var keyEnd := if node.fixed then node.valueEnd else keyAt + keyLen;
      if keyEnd > node.valueEnd then
        Err(Malformed)
      else if node.valueEnd < valueOff || node.valueEnd - valueOff < node.keyBase then
        Err(Malformed)
      else
        var valueAt := node.valueEnd - valueOff;
        var end := if node.fixed then node.valueEnd else valueAt + valueLen;
        if end > node.valueEnd then
          Err(Malformed)
        else
          Ok(Record(node.bytes[keyAt..keyEnd], node.bytes[valueAt..end]))
  }

  function Entry(node: Node, index: nat): (r: Result<Record>)
    requires node.Ok() && index < node.nkeys
  {
    StrideStep(index, node.nkeys, node.Stride());
    var at := node.toc + index * node.Stride();
    var b := node.bytes;
    if node.fixed then Slices(node, U16At(b, at), 0, U16At(b, at + 2), 0)
    else Slices(node, U16At(b, at), U16At(b, at + 2), U16At(b, at + 4), U16At(b, at + 6))
  }

  lemma HeaderFields(b: seq<byte>, n: nat, layout: Layout, level: nat, root: bool, bs: nat)
    requires bs >= TOC_BASE && HeaderStored(b, n, layout, level, root, bs)
    requires n < U32 && level < U16 && TocLen(layout, n, level, bs) < U16
    ensures |b| >= 0x2C
    ensures U16At(b, 0x20) == NodeFlags(layout, root, level)
    ensures U16At(b, 0x22) == level
    ensures U32At(b, 0x24) == n
    ensures U16At(b, 0x28) == 0
    ensures U16At(b, 0x2A) == TocLen(layout, n, level, bs)
  {
    var f0, f1, f2, f3 := LeBytes(NodeFlags(layout, root, level), 2), LeBytes(level, 2), LeBytes(n, 4), LeBytes(0, 2);
    var f4 := LeBytes(TocLen(layout, n, level, bs), 2);
    FieldConcat(b, 0x20, f0 + f1 + f2 + f3, f4);
    FieldConcat(b, 0x20, f0 + f1 + f2, f3);
    FieldConcat(b, 0x20, f0 + f1, f2);
    FieldConcat(b, 0x20, f0, f1);
    FieldIs16(b, 0x20, NodeFlags(layout, root, level));
    FieldIs16(b, 0x22, level);
    FieldIs32(b, 0x24, n);
    FieldIs16(b, 0x28, 0);
    FieldIs16(b, 0x2A, TocLen(layout, n, level, bs));
  }

  /** The node the reader sees in an encoded block. */
  function View(b: seq<byte>, n: nat, layout: Layout, level: nat, root: bool): Node
    requires |b| >= TOC_BASE
  {
    Node(b, level == 0, layout.fixed.Some?, level, n, KeyBase(layout, n, level, |b|),
         ValueEnd(root, |b|), TOC_BASE)
  }

  /**
   * The reader accepts a written node exactly when its table of contents holds every record,
   * and then sees the written level, kind and count.
   */
  lemma DecodeEncoded(b: seq<byte>, recs: seq<Record>, layout: Layout, level: nat, root: bool)
    requires BlockSize(|b|) && level < U16
    requires NodeBytes(recs, layout, root, level, |b|) <= |b|
    requires HeaderStored(b, |recs|, layout, level, root, |b|)
    requires |recs| < U32
    ensures TocFits(layout, |recs|, level, |b|) ==>
              DecodeNode(b, false) == Ok(View(b, |recs|, layout, level, root))
    ensures !TocFits(layout, |recs|, level, |b|) ==> DecodeNode(b, false).Err?
  {
    hide HeaderStored, U16At, U32At, KeyBytes, ValueBytes, TocLen;
    HeaderFields(b, |recs|, layout, level, root, |b|);
  }

  /** One table-of-contents entry, read back field by field. */
  lemma TocFields(b: seq<byte>, at: nat, fixed: bool, keyOff: nat, keyLen: nat, valueOff: nat, valueLen: nat)
    requires Field(b, at, TocBytes(fixed, keyOff, keyLen, valueOff, valueLen))
    requires keyOff < U16 && keyLen < U16 && valueOff < U16 && valueLen < U16
    ensures at + (if fixed then 4 else 8) <= |b|
    ensures U16At(b, at) == keyOff
    ensures fixed ==> U16At(b, at + 2) == valueOff
    ensures !fixed ==> U16At(b, at + 2) == keyLen
    ensures !fixed ==> U16At(b, at + 4) == valueOff
    ensures !fixed ==> U16At(b, at + 6) == valueLen
  {
    var f0, f2 := LeBytes(keyOff, 2), LeBytes(valueOff, 2);
    if fixed {
      FieldConcat(b, at, f0, f2);
      FieldIs16(b, at + 2, valueOff);
    } else {
      var f1, f3 := LeBytes(keyLen, 2), LeBytes(valueLen, 2);
      FieldConcat(b, at, f0 + f1 + f2, f3);
      FieldConcat(b, at, f0 + f1, f2);
      FieldConcat(b, at, f0, f1);
      FieldIs16(b, at + 2, keyLen);
      FieldIs16(b, at + 4, valueOff);
      FieldIs16(b, at + 6, valueLen);
    }
    FieldIs16(b, at, keyOff);
  }

  /** Record i's key would begin at the very end of the value area. */
  predicate FlushKey(recs: seq<Record>, layout: Layout, level: nat, root: bool, bs: nat, i: nat)
    requires bs >= TOC_BASE && i < |recs|
  {
    KeyBase(layout, |recs|, level, bs) + KeyBytes(recs[..i]) == ValueEnd(root, bs)
  }

  /** Offsets that keep the key area below the value area cut out the slices they name. */
  lemma SlicesInside(node: Node, keyOff: nat, keyLen: nat, valueOff: nat, valueLen: nat)
    requires node.Ok() && node.keyBase + keyOff + keyLen + valueOff <= node.valueEnd
    requires valueLen <= valueOff
    ensures var keyAt, valueAt := node.keyBase + keyOff, node.valueEnd - valueOff;
            var r := Slices(node, keyOff, keyLen, valueOff, valueLen);
            if keyAt == node.valueEnd then r.Err?
            else if node.fixed then
              r == Ok(Record(node.bytes[keyAt..node.valueEnd], node.bytes[valueAt..node.valueEnd]))
            else
              r == Ok(Record(node.bytes[keyAt..keyAt + keyLen], node.bytes[valueAt..valueAt + valueLen]))
  {
  }

  lemma ViewOk(b: seq<byte>, recs: seq<Record>, layout: Layout, level: nat, root: bool)
    requires BlockSize(|b|) && NodeBytes(recs, layout, root, level, |b|) <= |b|
    requires TocFits(layout, |recs|, level, |b|)
    ensures View(b, |recs|, layout, level, root).Ok()
  {
  }

  lemma PrefixOfSlice(b: seq<byte>, at: nat, data: seq<byte>, end: nat)
    requires Field(b, at, data) && at + |data| <= end <= |b|
    ensures data <= b[at..end]
  {
    assert b[at..end][..|data|] == b[at..at + |data|];
  }

  lemma EntryIs(node: Node, i: nat, at: nat, keyOff: nat, keyLen: nat, valueOff: nat, valueLen: nat)
    requires node.Ok() && i < node.nkeys && at == node.toc + i * node.Stride()
    requires Field(node.bytes, at, TocBytes(node.fixed, keyOff, keyLen, valueOff, valueLen))
    requires keyOff < U16 && keyLen < U16 && valueOff < U16 && valueLen < U16
    ensures Entry(node, i) ==
            Slices(node, keyOff, if node.fixed then 0 else keyLen, valueOff, if node.fixed then 0 else valueLen)
  {
    TocFields(node.bytes, at, node.fixed, keyOff, keyLen, valueOff, valueLen);
  }

  /** What an entry read back means for a spot. */
  predicate EntryMatches(e: Result<Record>, s: Spot, node: Node) {
    && (e.Err? <==> s.keyAt == node.valueEnd)
    && (e.Ok? && !node.fixed ==> e.value == Record(s.key, s.value))
    && (e.Ok? && node.fixed ==> s.key <= e.value.key && s.value <= e.value.value)
  }

  lemma SlicesOfSpot(node: Node, s: Spot, keyOff: nat, valueOff: nat)
    requires node.Ok()
    requires s.keyAt == node.keyBase + keyOff && s.keyAt + |s.key| <= s.valueAt
    requires s.valueAt + valueOff == node.valueEnd && |s.value| <= valueOff
    requires Field(node.bytes, s.keyAt, s.key) && Field(node.bytes, s.valueAt, s.value)
    ensures EntryMatches(Slices(node, keyOff, if node.fixed then 0 else |s.key|, valueOff,
                                if node.fixed then 0 else |s.value|), s, node)
  {
    SlicesInside(node, keyOff, if node.fixed then 0 else |s.key|, valueOff, if node.fixed then 0 else |s.value|);
    PrefixOfSlice(node.bytes, s.keyAt, s.key, node.valueEnd);
    PrefixOfSlice(node.bytes, s.valueAt, s.value, node.valueEnd);
  }

  /** The reader cuts out of a node what a spot laid down in it. */
  lemma EntryOfSpot(node: Node, i: nat, s: Spot, keyOff: nat, valueOff: nat)
    requires node.Ok() && i < node.nkeys && |node.bytes| <= U16
    requires s.tocAt == node.toc + i * node.Stride()
    requires s.toc == TocBytes(node.fixed, keyOff, |s.key|, valueOff, |s.value|)
    requires s.keyAt == node.keyBase + keyOff && s.keyAt + |s.key| <= s.valueAt
    requires s.valueAt + valueOff == node.valueEnd && |s.value| <= valueOff
    requires node.keyBase > 0 && SpotHeld(node.bytes, s)
    ensures EntryMatches(Entry(node, i), s, node)
  {
    EntryIs(node, i, s.tocAt, keyOff, |s.key|, valueOff, |s.value|);
    SlicesOfSpot(node, s, keyOff, valueOff);
  }

  /**
   * Reading record i of a written node gives back what was written: exactly, or as a prefix in
   * a fixed-size node. It fails in one case only, an empty record flush with the value end.
   */
  lemma EntryEncoded(b: seq<byte>, recs: seq<Record>, layout: Layout, level: nat, root: bool, totals: Totals, i: nat)
    requires BlockSize(|b|) && NodeBytes(recs, layout, root, level, |b|) <= |b|
    requires TocFits(layout, |recs|, level, |b|) && i < |recs|
    requires Encodes(b, recs, layout, level, root, totals)
    ensures View(b, |recs|, layout, level, root).Ok()
    ensures var e := Entry(View(b, |recs|, layout, level, root), i);
            && (e.Err? <==> FlushKey(recs, layout, level, root, |b|, i))
            && (e.Err? ==> recs[i].key == [] && recs[i].value == [])
            && (e.Ok? && layout.fixed.None? ==> e.value == recs[i])
            && (e.Ok? && layout.fixed.Some? ==>
                  recs[i].key <= e.value.key && recs[i].value <= e.value.value)
  {
    ViewOk(b, recs, layout, level, root);
    assert EntryStored(b, recs, layout, level, root, i);
    Places(recs, layout, level, root, |b|, i);
    var s := SpotOf(recs, layout, level, root, |b|, i);
    EntryOfSpot(View(b, |recs|, layout, level, root), i, s, KeyBytes(recs[..i]), ValueBytes(recs[..i + 1]));
  }

  lemma {:induction false} BlankBytes(recs: seq<Record>)
    requires forall i :: 0 <= i < |recs| ==> recs[i] == Record([], [])
    ensures KeyBytes(recs) == 0 && ValueBytes(recs) == 0
  {
    if recs != [] {
      BlankBytes(recs[..|recs| - 1]);
    }
  }

  /** A node that is written and cannot be read: 500 empty records fill a root of 4096 bytes with their table alone. */
  method BlankRoot() returns (b: seq<byte>)
    ensures |b| == 4096 && DecodeNode(b, false).Ok? && DecodeNode(b, false).value.nkeys == 500
    ensures DecodeNode(b, false).value.Ok() && forall i: nat :: i < 500 ==> Entry(DecodeNode(b, false).value, i).Err?
  {
    hide HeaderStored, EntryStored, Entry, DecodeNode, Encodes;
    var recs := seq(500, _ => Record([], []));
    var layout, totals := Layout(None, 0x42, 0x0e), Totals(500, 1, 0, 0);
    BlankBytes(recs);
    assert NodeBytes(recs, layout, true, 0, 4096) == 4096;
    var r := EncodeTreeNode(4096, recs, layout, 0, true, totals);
    b := r.value;
    DecodeEncoded(b, recs, layout, 0, true);
    forall i: nat | i < 500 ensures View(b, 500, layout, 0, true).Ok() && Entry(View(b, 500, layout, 0, true), i).Err? {
      BlankBytes(recs[..i]);
      EntryEncoded(b, recs, layout, 0, true, totals, i);
    }
    ViewCount(b, 500, layout, 0, true);
  }

  lemma ViewCount(b: seq<byte>, n: nat, layout: Layout, level: nat, root: bool)
    requires |b| >= TOC_BASE
    ensures View(b, n, layout, level, root).nkeys == n
  {
  }

  // ---- when the fixed-size table of contents overflows ---------------------------------------

  /** Records of the sizes the layout prescribes, as many as wanted. */
  function Uniform(n: nat, ks: nat, vs: nat): (recs: seq<Record>)
    ensures |recs| == n
    ensures forall r :: r in recs ==> |r.key| == ks && |r.value| == vs
  {
    seq(n, _ => Record(seq(ks, _ => 0), seq(vs, _ => 0)))
  }

  lemma MulStep(x: int, size: nat)
    ensures x >= 1 ==> x * size >= size
  {
  }

  /** The room the records leave decides whether more than the table's capacity can fit. */
  lemma CapBound(area: nat, size: nat, n: nat, spare: nat)
    requires size >= 1 && n * size + area / (4 + size) * 4 + spare <= area
    requires area % (4 + size) < size + spare
    ensures n * 4 <= area / (4 + size) * 4
  {
    var cap := area / (4 + size);
    assert area == cap * (4 + size) + area % (4 + size);
    assert cap * (4 + size) == cap * 4 + cap * size;
    assert (n - cap) * size == n * size - cap * size;
    MulStep(n - cap, size);
  }

  lemma CapExceeded(area: nat, size: nat)
    requires size >= 1 && area % (4 + size) >= size
    ensures var n := area / (4 + size) + 1; n * size + (n - 1) * 4 <= area
  {
    var cap := area / (4 + size);
    assert area == cap * (4 + size) + area % (4 + size);
    assert cap * (4 + size) == cap * 4 + cap * size;
    assert (cap + 1) * size == cap * size + size;
  }

  lemma FixedNodeBytes(recs: seq<Record>, layout: Layout, level: nat, root: bool, bs: nat)
    requires bs >= TOC_BASE && layout.fixed.Some? && SizesOk(recs, layout, level)
    ensures var size := layout.fixed.value.0 + ValueSize(layout.fixed.value.1, level);
            NodeBytes(recs, layout, root, level, bs) ==
            TOC_BASE + (bs - TOC_BASE) / (4 + size) * 4 + |recs| * size + Trailer(root)
  {
    FixedPayload(recs, layout.fixed.value.0, ValueSize(layout.fixed.value.1, level));
  }

  /** Every list that fits by size has room in the table of contents. */
  ghost predicate TocAlwaysFits(layout: Layout, level: nat, bs: nat)
    requires bs >= TOC_BASE
  {
    forall recs: seq<Record> ::
      SizesOk(recs, layout, level) && NodeBytes(recs, layout, false, level, bs) <= bs
      ==> TocFits(layout, |recs|, level, bs)
  }

  predicate TocRoom(layout: Layout, level: nat, bs: nat)
    requires bs >= TOC_BASE
  {
    layout.fixed.Some? ==>
      var size := layout.fixed.value.0 + ValueSize(layout.fixed.value.1, level);
      (bs - TOC_BASE) % (4 + size) < size
  }

  lemma TocRoomSuffices(recs: seq<Record>, layout: Layout, level: nat, bs: nat)
    requires BlockSize(bs) && LayoutOk(layout) && TocRoom(layout, level, bs)
    requires SizesOk(recs, layout, level) && NodeBytes(recs, layout, false, level, bs) <= bs
    ensures TocFits(layout, |recs|, level, bs)
  {
    if layout.fixed.Some? {
      FixedNodeBytes(recs, layout, level, false, bs);
      CapBound(bs - TOC_BASE, layout.fixed.value.0 + ValueSize(layout.fixed.value.1, level), |recs|, 0);
    }
  }

  /**
   * For a non-root node, "fits by size" implies "the table of contents has room" for every
   * record list exactly when (bs - 56) % (4 + key + value) < key + value.
   */
  lemma FixedTocCondition(bs: nat, layout: Layout, level: nat)
    requires BlockSize(bs) && LayoutOk(layout)
    ensures TocAlwaysFits(layout, level, bs) <==> TocRoom(layout, level, bs)
  {
    if TocRoom(layout, level, bs) {
      forall recs: seq<Record> |
        SizesOk(recs, layout, level) && NodeBytes(recs, layout, false, level, bs) <= bs
        ensures TocFits(layout, |recs|, level, bs)
      {
        TocRoomSuffices(recs, layout, level, bs);
      }
    } else {
      var ks, vs := layout.fixed.value.0, ValueSize(layout.fixed.value.1, level);
      var recs := Uniform((bs - TOC_BASE) / (4 + (ks + vs)) + 1, ks, vs);
      FixedNodeBytes(recs, layout, level, false, bs);
      CapExceeded(bs - TOC_BASE, ks + vs);
      assert SizesOk(recs, layout, level) && NodeBytes(recs, layout, false, level, bs) <= bs;
      assert !TocFits(layout, |recs|, level, bs);
    }
  }

  /** A root leaves forty bytes to spare, so its table of contents always has room. */
  lemma RootTocFits(recs: seq<Record>, layout: Layout, level: nat, bs: nat)
    requires BlockSize(bs) && LayoutOk(layout)
    requires SizesOk(recs, layout, level) && NodeBytes(recs, layout, true, level, bs) <= bs
    ensures TocFits(layout, |recs|, level, bs)
  {
    if layout.fixed.Some? {
      FixedNodeBytes(recs, layout, level, true, bs);
      CapBound(bs - TOC_BASE, layout.fixed.value.0 + ValueSize(layout.fixed.value.1, level), |recs|, INFO_BYTES);
    }
  }

  /** Every fixed layout the program writes has room at 4096-byte blocks, at every level. */
  lemma TocRoomAt4096(level: nat, flags: nat, subtype: nat)
    ensures TocRoom(Layout(Some((16, 16)), flags, subtype), level, 4096)
    ensures TocRoom(Layout(Some((16, 8)), flags, subtype), level, 4096)
    ensures TocRoom(Layout(Some((8, 16)), flags, subtype), level, 4096)
  {
  }

  /** The object-map layout at 65536-byte blocks: a leaf the writer fills and no reader accepts. */
  lemma TocOverflowsAt65536()
    ensures !TocAlwaysFits(Layout(Some((16, 16)), 0x12, 0x0B), 0, 0x1_0000)
  {
    FixedTocCondition(0x1_0000, Layout(Some((16, 16)), 0x12, 0x0B), 0);
  }
}

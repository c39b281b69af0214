/**
 * The DEFLATE decoder (src/apfs_read.rs `inflate` and what it calls), against a declarative
 * reading of RFC 1951: what a stream of blocks looks like bit by bit, and what it stands for.
 */
module Inflate {
  import opened Bytes
  import opened Huffman

  // ---- literals and back-references ------------------------------------------------------------------

  const LENGTH_BASE: seq<nat> := [
    3, 4, 5, 6, 7, 8, 9, 10, 11, 13, 15, 17, 19, 23, 27, 31, 35, 43, 51, 59, 67, 83, 99, 115, 131,
    163, 195, 227, 258]
  const LENGTH_EXTRA: seq<nat> := [
    0, 0, 0, 0, 0, 0, 0, 0, 1, 1, 1, 1, 2, 2, 2, 2, 3, 3, 3, 3, 4, 4, 4, 4, 5, 5, 5, 5, 0]
  const DISTANCE_BASE: seq<nat> := [
    1, 2, 3, 4, 5, 7, 9, 13, 17, 25, 33, 49, 65, 97, 129, 193, 257, 385, 513, 769, 1025, 1537,
    2049, 3073, 4097, 6145, 8193, 12289, 16385, 24577]
  const DISTANCE_EXTRA: seq<nat> := [
    0, 0, 0, 0, 1, 1, 2, 2, 3, 3, 4, 4, 5, 5, 6, 6, 7, 7, 8, 8, 9, 9, 10, 10, 11, 11, 12, 12, 13, 13]

  const END_OF_BLOCK: nat := 256

  function LengthBase(i: nat): (b: nat)
    requires i < 29
    ensures b >= 3
  {
    LENGTH_BASE[i]
  }

  function LengthExtra(i: nat): nat
    requires i < 29
  {
    LENGTH_EXTRA[i]
  }

  function DistanceBase(i: nat): (b: nat)
    requires i < 30
    ensures b >= 1
  {
    DISTANCE_BASE[i]
  }

  function DistanceExtra(i: nat): nat
    requires i < 30
  {
    DISTANCE_EXTRA[i]
  }

  /** What one code group of a block says, down to its extra bits. */
  datatype Item =
    | Literal(b: nat)
    | Copy(lengthSymbol: nat, lengthExtra: nat, distanceSymbol: nat, distanceExtra: nat)

  predicate ExtraAt(bytes: seq<byte>, p: nat, n: nat, v: nat) {
    p + n <= 8 * |bytes| && Lsb(bytes, p, n) == v
  }

  /** The code length of a symbol, zero when it has none. */
  function LengthOf(lengths: seq<nat>, s: nat): nat {
    if s < |lengths| then lengths[s] else 0
  }

  /** How many bits the item takes. */
  function ItemBits(lit: seq<nat>, dist: seq<nat>, item: Item): nat {
    match item
    case Literal(b) => LengthOf(lit, b)
    case Copy(ls, _, ds, _) =>
      if ls < 29 && ds < 30 then LengthOf(lit, 257 + ls) + LengthExtra(ls) + LengthOf(dist, ds) + DistanceExtra(ds)
      else 0
  }

  /** The item is what the bits at p say. */
  predicate ItemAt(bytes: seq<byte>, p: nat, lit: seq<nat>, dist: seq<nat>, item: Item) {
    match item
    case Literal(b) => b < 256 && SymbolAt(bytes, p, lit, b)
    case Copy(ls, lx, ds, dx) =>
      && ls < 29 && ds < 30 && SymbolAt(bytes, p, lit, 257 + ls)
      && ExtraAt(bytes, p + LengthOf(lit, 257 + ls), LengthExtra(ls), lx)
      && SymbolAt(bytes, p + LengthOf(lit, 257 + ls) + LengthExtra(ls), dist, ds)
      && ExtraAt(bytes, p + LengthOf(lit, 257 + ls) + LengthExtra(ls) + LengthOf(dist, ds), DistanceExtra(ds), dx)
  }

  /** The bits at p say at most one thing. */
  lemma ItemUnique(bytes: seq<byte>, p: nat, lit: seq<nat>, dist: seq<nat>, a: Item, b: Item)
    requires ItemAt(bytes, p, lit, dist, a) && ItemAt(bytes, p, lit, dist, b)
    ensures a == b && !SymbolAt(bytes, p, lit, END_OF_BLOCK)
  {
    hide SymbolAt, Lsb;
    var s := if a.Literal? then a.b else 257 + a.lengthSymbol;
    var t := if b.Literal? then b.b else 257 + b.lengthSymbol;
    SymbolUnique(bytes, p, lit, s, t);
    NotTheEnd(bytes, p, lit, s);
    if a.Copy? {
      SymbolUnique(bytes, p + LengthOf(lit, s) + LengthExtra(a.lengthSymbol), dist, a.distanceSymbol, b.distanceSymbol);
    }
  }

  lemma NotTheEnd(bytes: seq<byte>, p: nat, lit: seq<nat>, s: nat)
    requires SymbolAt(bytes, p, lit, s) && s != END_OF_BLOCK
    ensures !SymbolAt(bytes, p, lit, END_OF_BLOCK)
  {
    hide SymbolAt;
    if SymbolAt(bytes, p, lit, END_OF_BLOCK) {
      SymbolUnique(bytes, p, lit, s, END_OF_BLOCK);
    }
  }

  // ---- what items stand for ---------------------------------------------------------------------------

  /** Copies n bytes from d back, one at a time, so a copy may read what it wrote itself. */
  function CopyOut(out: seq<byte>, n: nat, d: nat): (r: seq<byte>)
    requires 1 <= d <= |out|
    ensures |r| == |out| + n
    decreases n
  {
    if n == 0 then out else CopyOut(out + [out[|out| - d]], n - 1, d)
  }

  /** Every byte of the copy equals the byte d before it, even where the copy overlaps itself. */
  lemma {:induction false} CopyRepeats(out: seq<byte>, n: nat, d: nat)
    requires 1 <= d <= |out|
    ensures var r := CopyOut(out, n, d); out <= r && forall i :: |out| <= i < |out| + n ==> r[i] == r[i - d]
    decreases n
  {
    if n > 0 {
      var next := out + [out[|out| - d]];
      CopyRepeats(next, n - 1, d);
      var r := CopyOut(out, n, d);
      assert r[|out|] == next[|out|] && r[|out| - d] == next[|out| - d];
    }
  }

  /** A back-reference must reach into what has been produced; nothing may pass the limit. */
  predicate CanPut(out: seq<byte>, item: Item, limit: nat) {
    match item
    case Literal(b) => |out| < limit
    case Copy(ls, lx, ds, dx) =>
      ls < 29 && ds < 30 && DistanceBase(ds) + dx <= |out| && |out| + LengthBase(ls) + lx <= limit
  }

  function Put(out: seq<byte>, item: Item): seq<byte> {
    match item
    case Literal(b) => if b < 256 then out + [b] else out
    case Copy(ls, lx, ds, dx) =>
      if ls < 29 && ds < 30 && DistanceBase(ds) + dx <= |out| then
        CopyOut(out, LengthBase(ls) + lx, DistanceBase(ds) + dx)
      else out
  }

  function Expand(out: seq<byte>, items: seq<Item>): seq<byte> {
    if items == [] then out else Put(Expand(out, items[..|items| - 1]), items[|items| - 1])
  }

  predicate Feasible(out: seq<byte>, items: seq<Item>, limit: nat) {
    items == [] ||
    (Feasible(out, items[..|items| - 1], limit) && CanPut(Expand(out, items[..|items| - 1]), items[|items| - 1], limit))
  }

  lemma {:induction false} WithinLimit(out: seq<byte>, items: seq<Item>, limit: nat)
    requires Feasible(out, items, limit) && |out| <= limit
    ensures |Expand(out, items)| <= limit
  {
    if items != [] {
      WithinLimit(out, items[..|items| - 1], limit);
    }
  }

  lemma {:induction false} FeasiblePrefix(out: seq<byte>, items: seq<Item>, k: nat, limit: nat)
    requires Feasible(out, items, limit) && k <= |items|
    ensures Feasible(out, items[..k], limit)
    ensures k < |items| ==> CanPut(Expand(out, items[..k]), items[k], limit)
  {
    var n := |items| - 1;
    if k < n {
      FeasiblePrefix(out, items[..n], k, limit);
      assert items[..n][..k] == items[..k];
    } else if k == |items| {
      assert items[..k] == items;
    }
  }

  // ---- a coded block ------------------------------------------------------------------------------------

  function ItemsEnd(p: nat, lit: seq<nat>, dist: seq<nat>, items: seq<Item>): nat {
    if items == [] then p else ItemsEnd(p, lit, dist, items[..|items| - 1]) + ItemBits(lit, dist, items[|items| - 1])
  }

  predicate ItemsAt(bytes: seq<byte>, p: nat, lit: seq<nat>, dist: seq<nat>, items: seq<Item>) {
    items == [] ||
    var front := items[..|items| - 1];
    ItemsAt(bytes, p, lit, dist, front) && ItemAt(bytes, ItemsEnd(p, lit, dist, front), lit, dist, items[|items| - 1])
  }

  /** Items followed by the end-of-block symbol, from p up to q. */
  predicate CodedBlock(bytes: seq<byte>, p: nat, q: nat, lit: seq<nat>, dist: seq<nat>, items: seq<Item>) {
    var e := ItemsEnd(p, lit, dist, items);
    ItemsAt(bytes, p, lit, dist, items) && SymbolAt(bytes, e, lit, END_OF_BLOCK) && q == e + LengthOf(lit, END_OF_BLOCK)
  }

  lemma {:induction false} ItemsPrefix(bytes: seq<byte>, p: nat, lit: seq<nat>, dist: seq<nat>, items: seq<Item>,
                                       k: nat)
    requires ItemsAt(bytes, p, lit, dist, items) && k <= |items|
    ensures ItemsAt(bytes, p, lit, dist, items[..k])
    ensures k < |items| ==> ItemAt(bytes, ItemsEnd(p, lit, dist, items[..k]), lit, dist, items[k])
  {
    hide ItemAt, ItemBits;
    var n := |items| - 1;
    if k < n {
      ItemsPrefix(bytes, p, lit, dist, items[..n], k);
      assert items[..n][..k] == items[..k];
    } else if k == |items| {
      assert items[..k] == items;
    }
  }

  /** Whatever has been read so far is the beginning of any reading of the whole block. */
  lemma {:induction false} ReadingAgrees(bytes: seq<byte>, p: nat, q: nat, lit: seq<nat>, dist: seq<nat>,
                                         done: seq<Item>, h: seq<Item>)
    requires ItemsAt(bytes, p, lit, dist, done) && CodedBlock(bytes, p, q, lit, dist, h)
    ensures |done| <= |h| && h[..|done|] == done
  {
    hide ItemAt, ItemBits, SymbolAt;
    if done != [] {
      var n := |done| - 1;
      ReadingAgrees(bytes, p, q, lit, dist, done[..n], h);
      var e := ItemsEnd(p, lit, dist, done[..n]);
      ItemUnique(bytes, e, lit, dist, done[n], done[n]);
      assert h[..n] == done[..n];
      assert h[..|h|] == h;
      ItemsPrefix(bytes, p, lit, dist, h, n);
      ItemUnique(bytes, e, lit, dist, done[n], h[n]);
      assert h[..n + 1] == h[..n] + [h[n]] && done == done[..n] + [done[n]];
    }
  }

  /** If nothing that comes next can be put, no reading of the block is feasible. */
  lemma Stuck(bytes: seq<byte>, p: nat, lit: seq<nat>, dist: seq<nat>, out: seq<byte>, done: seq<Item>, limit: nat)
    requires ItemsAt(bytes, p, lit, dist, done)
    requires var e := ItemsEnd(p, lit, dist, done);
             && !SymbolAt(bytes, e, lit, END_OF_BLOCK)
             && forall item :: ItemAt(bytes, e, lit, dist, item) ==> !CanPut(Expand(out, done), item, limit)
    ensures forall q, h :: CodedBlock(bytes, p, q, lit, dist, h) ==> !Feasible(out, h, limit)
  {
    hide ItemAt, ItemBits, SymbolAt, CanPut;
    forall q, h | CodedBlock(bytes, p, q, lit, dist, h) ensures !Feasible(out, h, limit) {
      ReadingAgrees(bytes, p, q, lit, dist, done, h);
      var n := |done|;
      assert h[..|h|] == h;
      ItemsPrefix(bytes, p, lit, dist, h, n);
      if Feasible(out, h, limit) {
        FeasiblePrefix(out, h, n, limit);
      }
    }
  }

  /** The copy loop of the decoder. */
  method CopyBack(out: seq<byte>, n: nat, d: nat) returns (r: seq<byte>)
    requires 1 <= d <= |out|
    ensures r == CopyOut(out, n, d)
  {
    var start := |out| - d;
    r := out;
    for offset := 0 to n
      invariant |r| == |out| + offset && CopyOut(r, n - offset, d) == CopyOut(out, n, d)
    {
      r := r + [r[start + offset]];
    }
  }

  /** Where reading stands: the items so far, and what they have produced. */
  ghost predicate Reading(bytes: seq<byte>, p: nat, q: nat, lit: seq<nat>, dist: seq<nat>, out0: seq<byte>,
                          out: seq<byte>, limit: nat, items: seq<Item>)
  {
    && ItemsAt(bytes, p, lit, dist, items) && q == ItemsEnd(p, lit, dist, items)
    && Feasible(out0, items, limit) && out == Expand(out0, items)
  }

  lemma ReadingStarts(bytes: seq<byte>, p: nat, lit: seq<nat>, dist: seq<nat>, out: seq<byte>, limit: nat)
    ensures Reading(bytes, p, p, lit, dist, out, out, limit, [])
  {
  }

  lemma ReadingOn(bytes: seq<byte>, p: nat, q: nat, lit: seq<nat>, dist: seq<nat>, out0: seq<byte>, out: seq<byte>,
                  limit: nat, items: seq<Item>, item: Item)
    requires Reading(bytes, p, q, lit, dist, out0, out, limit, items) && ItemAt(bytes, q, lit, dist, item) &&
             CanPut(out, item, limit)
    ensures Reading(bytes, p, q + ItemBits(lit, dist, item), lit, dist, out0, Put(out, item), limit, items + [item])
  {
    hide ItemAt, ItemBits, CanPut, Put;
    assert (items + [item])[..|items|] == items;
  }

  lemma ReadingItems(bytes: seq<byte>, p: nat, q: nat, lit: seq<nat>, dist: seq<nat>, out0: seq<byte>, out: seq<byte>,
                     limit: nat, items: seq<Item>)
    requires Reading(bytes, p, q, lit, dist, out0, out, limit, items)
    ensures ItemsAt(bytes, p, lit, dist, items) && q == ItemsEnd(p, lit, dist, items) && out == Expand(out0, items)
  {
  }

  /** A reading that stops without the end of the block has no feasible completion. */
  ghost predicate NoReading(bytes: seq<byte>, p: nat, lit: seq<nat>, dist: seq<nat>, out: seq<byte>, limit: nat) {
    forall q, h :: CodedBlock(bytes, p, q, lit, dist, h) ==> !Feasible(out, h, limit)
  }

  /** No symbol comes next, or one that begins neither an item nor the end. */
  lemma StuckNoItem(bytes: seq<byte>, p: nat, q: nat, lit: seq<nat>, dist: seq<nat>, out0: seq<byte>, out: seq<byte>,
                    limit: nat, items: seq<Item>)
    requires Reading(bytes, p, q, lit, dist, out0, out, limit, items)
    requires forall s: nat :: s < 286 ==> !SymbolAt(bytes, q, lit, s)
    ensures NoReading(bytes, p, lit, dist, out0, limit)
  {
    hide SymbolAt, ItemBits, CanPut, Expand, Feasible;
    forall item ensures !ItemAt(bytes, q, lit, dist, item) {
      if item.Copy? && item.lengthSymbol < 29 {
        assert !SymbolAt(bytes, q, lit, 257 + item.lengthSymbol);
      }
    }
    Stuck(bytes, p, lit, dist, out0, items, limit);
  }

  /** The only item that could come next cannot be put. */
  lemma StuckItem(bytes: seq<byte>, p: nat, q: nat, lit: seq<nat>, dist: seq<nat>, out0: seq<byte>, out: seq<byte>,
                  limit: nat, items: seq<Item>, item: Item)
    requires Reading(bytes, p, q, lit, dist, out0, out, limit, items) && ItemAt(bytes, q, lit, dist, item) &&
             !CanPut(out, item, limit)
    ensures NoReading(bytes, p, lit, dist, out0, limit)
  {
    hide SymbolAt, ItemAt, ItemBits, CanPut, Expand, Feasible;
    ItemUnique(bytes, q, lit, dist, item, item);
    forall other | ItemAt(bytes, q, lit, dist, other) ensures !CanPut(out, other, limit) {
      ItemUnique(bytes, q, lit, dist, item, other);
    }
    Stuck(bytes, p, lit, dist, out0, items, limit);
  }

  /** A length symbol comes next, but what should follow it does not. */
  lemma StuckCopy(bytes: seq<byte>, p: nat, q: nat, lit: seq<nat>, dist: seq<nat>, out0: seq<byte>, out: seq<byte>,
                  limit: nat, items: seq<Item>, ls: nat)
    requires Reading(bytes, p, q, lit, dist, out0, out, limit, items) && ls < 29 && SymbolAt(bytes, q, lit, 257 + ls)
    requires forall lx, ds, dx :: !ItemAt(bytes, q, lit, dist, Copy(ls, lx, ds, dx))
    ensures NoReading(bytes, p, lit, dist, out0, limit)
  {
    hide SymbolAt, ItemBits, CanPut, Expand, Feasible, LengthExtra, DistanceExtra, Lsb, Reading;
    OnlyThisSymbol(bytes, q, lit, 257 + ls);
    forall item ensures !ItemAt(bytes, q, lit, dist, item) {
      match item {
        case Literal(b) =>
          assert b < 256 ==> !SymbolAt(bytes, q, lit, b);
        case Copy(l, lx, ds, dx) =>
          assert l < 29 && l != ls ==> !SymbolAt(bytes, q, lit, 257 + l);
      }
    }
    ReadingItems(bytes, p, q, lit, dist, out0, out, limit, items);
    Stuck(bytes, p, lit, dist, out0, items, limit);
  }

  /** The rest of a back-reference, after its length symbol. */
  method ReadCopy(reader: BitReader, distances: Table, ghost lit: seq<nat>, ghost dist: seq<nat>, ghost q: nat, ls: nat)
    returns (r: Result<(nat, nat)>, ghost item: Item)
    requires reader.Valid() && Built(distances, dist) && ls < 29 && SymbolAt(reader.bytes, q, lit, 257 + ls)
    requires reader.bit == q + LengthOf(lit, 257 + ls)
    modifies reader
    ensures reader.Valid() && old(reader.bit) <= reader.bit
    ensures r.Ok? ==> ItemAt(reader.bytes, q, lit, dist, item) && reader.bit == q + ItemBits(lit, dist, item)
    ensures r.Ok? ==> item.Copy? && item.lengthSymbol == ls && item.distanceSymbol < 30
    ensures r.Ok? ==>
              r.value == (LengthBase(ls) + item.lengthExtra, DistanceBase(item.distanceSymbol) + item.distanceExtra)
    ensures r.Err? ==> forall lx, ds, dx :: !ItemAt(reader.bytes, q, lit, dist, Copy(ls, lx, ds, dx))
  {
    hide Lsb, Built, SymbolAt, LengthBase, LengthExtra, DistanceBase, DistanceExtra;
    item := Literal(0);
    ghost var bytes := reader.bytes;
    var lx := reader.Take(LengthExtra(ls));
    if lx.Err? {
      return Err(lx.error), item;
    }
    ghost var at := reader.bit;
    var ds := Decode(reader, distances, dist);
    DecodedSymbol(bytes, at, reader.bit, dist, ds);
    if ds.Err? {
      return Err(ds.error), item;
    }
    if ds.value >= 30 {
      OnlyThisDistance(bytes, q, at, lit, dist, ls, ds.value);
      return Err(BadCode), item;
    }
    OnlyThisDistance(bytes, q, at, lit, dist, ls, ds.value);
    var dx := reader.Take(DistanceExtra(ds.value));
    if dx.Err? {
      return Err(dx.error), item;
    }
    item := Copy(ls, lx.value, ds.value, dx.value);
    r := Ok((LengthBase(ls) + lx.value, DistanceBase(ds.value) + dx.value));
  }

  lemma DecodedSymbol(bytes: seq<byte>, p: nat, q: nat, lengths: seq<nat>, r: Result<nat>)
    requires Decoded(bytes, p, q, lengths, r)
    ensures r.Ok? ==> SymbolAt(bytes, p, lengths, r.value) && q == p + LengthOf(lengths, r.value) && q > p
    ensures r.Err? ==> forall s: nat :: !SymbolAt(bytes, p, lengths, s)
  {
  }

  lemma OnlyThisDistance(bytes: seq<byte>, q: nat, at: nat, lit: seq<nat>, dist: seq<nat>, ls: nat, ds: nat)
    requires ls < 29 && at == q + LengthOf(lit, 257 + ls) + LengthExtra(ls) && SymbolAt(bytes, at, dist, ds)
    ensures forall lx, d, dx :: ItemAt(bytes, q, lit, dist, Copy(ls, lx, d, dx)) ==> d == ds
  {
    hide SymbolAt, LengthExtra, DistanceExtra, Lsb;
    forall lx, d, dx | ItemAt(bytes, q, lit, dist, Copy(ls, lx, d, dx)) ensures d == ds {
      SymbolUnique(bytes, at, dist, d, ds);
    }
  }

  /**
   * Decodes the items of a coded block up to its end. It succeeds exactly when the bits from
   * here on read as items and an end whose back-references all reach into the output and whose
   * output stays within the limit; the output is then what the items stand for.
   */
  method InflateCodedBlock(reader: BitReader, literals: Table, distances: Table, ghost lit: seq<nat>,
                           ghost dist: seq<nat>, limit: nat, out0: seq<byte>)
      returns (r: Result<seq<byte>>, ghost items: seq<Item>)
    requires reader.Valid() && Built(literals, lit) && Built(distances, dist)
    modifies reader
    ensures reader.Valid() && old(reader.bit) <= reader.bit
    ensures r.Ok? ==> CodedBlock(reader.bytes, old(reader.bit), reader.bit, lit, dist, items)
    ensures r.Ok? ==> Feasible(out0, items, limit) && r.value == Expand(out0, items)
    ensures r.Err? ==> NoReading(reader.bytes, old(reader.bit), lit, dist, out0, limit)
  {
    hide Built, Reading, NoReading, Decoded, SymbolAt, ItemAt, ItemBits, CodedBlock, Feasible, Expand, CopyOut,
         LengthBase, DistanceBase, CanPut, Put;
    var out := out0;
    items := [];
    ghost var bytes, p := reader.bytes, reader.bit;
    ReadingStarts(bytes, p, lit, dist, out0, limit);
    while true
      invariant reader.Valid() && p <= reader.bit
      invariant Reading(bytes, p, reader.bit, lit, dist, out0, out, limit, items)
      decreases 8 * |bytes| - reader.bit
    {
      ghost var q := reader.bit;
      var symbol := Decode(reader, literals, lit);
      DecodedSymbol(bytes, q, reader.bit, lit, symbol);
      if symbol.Err? {
        StuckNoItem(bytes, p, q, lit, dist, out0, out, limit, items);
        return Err(symbol.error), items;
      }
      var s := symbol.value;
      if s == END_OF_BLOCK {
        BlockRead(bytes, p, q, lit, dist, out0, out, limit, items);
        return Ok(out), items;
      }
      if s < 256 {
        LiteralItem(bytes, q, lit, dist, s, out, limit);
        if |out| >= limit {
          StuckItem(bytes, p, q, lit, dist, out0, out, limit, items, Literal(s));
          return Err(TooLarge), items;
        }
        ReadingOn(bytes, p, q, lit, dist, out0, out, limit, items, Literal(s));
        out := out + [s];
        items := items + [Literal(s)];
        continue;
      }
      var ls := s - 257;
      if ls >= 29 {
        OnlyThisSymbol(bytes, q, lit, s);
        StuckNoItem(bytes, p, q, lit, dist, out0, out, limit, items);
        return Err(BadCode), items;
      }
      var copy, item := ReadCopy(reader, distances, lit, dist, q, ls);
      if copy.Err? {
        StuckCopy(bytes, p, q, lit, dist, out0, out, limit, items, ls);
        return Err(copy.error), items;
      }
      var length, distance := copy.value.0, copy.value.1;
      CopyItem(out, item, limit, length, distance);
      if distance > |out| {
        StuckItem(bytes, p, q, lit, dist, out0, out, limit, items, item);
        return Err(TooFar), items;
      }
      if |out| + length > limit {
        StuckItem(bytes, p, q, lit, dist, out0, out, limit, items, item);
        return Err(TooLarge), items;
      }
      ReadingOn(bytes, p, q, lit, dist, out0, out, limit, items, item);
      out := CopyBack(out, length, distance);
      items := items + [item];
    }
  }

  lemma BlockRead(bytes: seq<byte>, p: nat, q: nat, lit: seq<nat>, dist: seq<nat>, out0: seq<byte>, out: seq<byte>,
                  limit: nat, items: seq<Item>)
    requires Reading(bytes, p, q, lit, dist, out0, out, limit, items) && SymbolAt(bytes, q, lit, END_OF_BLOCK)
    ensures CodedBlock(bytes, p, q + LengthOf(lit, END_OF_BLOCK), lit, dist, items) && Feasible(out0, items, limit) &&
            out == Expand(out0, items)
  {
  }

  lemma LiteralItem(bytes: seq<byte>, q: nat, lit: seq<nat>, dist: seq<nat>, s: nat, out: seq<byte>, limit: nat)
    requires SymbolAt(bytes, q, lit, s) && s < 256
    ensures ItemAt(bytes, q, lit, dist, Literal(s)) && ItemBits(lit, dist, Literal(s)) == LengthOf(lit, s)
    ensures CanPut(out, Literal(s), limit) <==> |out| < limit
    ensures Put(out, Literal(s)) == out + [s]
  {
  }

  lemma CopyItem(out: seq<byte>, item: Item, limit: nat, length: nat, distance: nat)
    requires item.Copy? && item.lengthSymbol < 29 && item.distanceSymbol < 30
    requires length == LengthBase(item.lengthSymbol) + item.lengthExtra &&
             distance == DistanceBase(item.distanceSymbol) + item.distanceExtra
    ensures CanPut(out, item, limit) <==> distance <= |out| && |out| + length <= limit
    ensures distance >= 1 && (distance <= |out| ==> Put(out, item) == CopyOut(out, length, distance))
  {
  }

  lemma OnlyThisSymbol(bytes: seq<byte>, q: nat, lit: seq<nat>, s: nat)
    requires SymbolAt(bytes, q, lit, s)
    ensures forall t: nat :: t != s ==> !SymbolAt(bytes, q, lit, t)
  {
    hide SymbolAt;
    forall t: nat | t != s ensures !SymbolAt(bytes, q, lit, t) {
      if SymbolAt(bytes, q, lit, t) {
        SymbolUnique(bytes, q, lit, s, t);
      }
    }
  }

  // ---- stored blocks ------------------------------------------------------------------------------------

  /** A byte-aligned length, its complement, and that many bytes. */
  predicate StoredAt(bytes: seq<byte>, p: nat, q: nat, data: seq<byte>) {
    var at := (p + 7) / 8;
    && at + 4 <= |bytes|
    && var len := U16At(bytes, at);
    && U16At(bytes, at + 2) == 0xffff - len && at + 4 + len <= |bytes|
    && data == bytes[at + 4..at + 4 + len] && q == 8 * (at + 4 + len)
  }

  method InflateStoredBlock(reader: BitReader, limit: nat, out: seq<byte>)
      returns (r: Result<seq<byte>>, ghost data: seq<byte>)
    requires reader.Valid()
    modifies reader
    ensures reader.Valid() && old(reader.bit) <= reader.bit
    ensures r.Ok? ==>
              StoredAt(reader.bytes, old(reader.bit), reader.bit, data) && |out| + |data| <= limit &&
              r.value == out + data
    ensures r.Err? ==> forall q, d :: StoredAt(reader.bytes, old(reader.bit), q, d) ==> |out| + |d| > limit
  {
    hide U16At;
    data := [];
    reader.AlignToByte();
    var stream, at := reader.bytes, reader.bit / 8;
    assert at == (old(reader.bit) + 7) / 8;
    if at + 4 > |stream| {
      return Err(Truncated), data;
    }
    var len, nlen := U16At(stream, at), U16At(stream, at + 2);
    if nlen != 0xffff - len {
      return Err(Malformed), data;
    }
    if at + 4 + len > |stream| {
      return Err(Truncated), data;
    }
    var body := stream[at + 4..at + 4 + len];
    if |out| + |body| > limit {
      return Err(TooLarge), data;
    }
    data := body;
    reader.bit := reader.bit + (4 + len) * 8;
    r := Ok(out + body);
  }

  // ---- the fixed codes ------------------------------------------------------------------------------------

  function Rep(v: nat, n: nat): (r: seq<nat>)
    ensures |r| == n && forall i :: 0 <= i < n ==> r[i] == v
  {
    seq(n, i => v)
  }

  /** Section 3.2.6 of RFC 1951. */
  function FixedLength(symbol: nat): nat {
    if symbol < 144 then 8 else if symbol < 256 then 9 else if symbol < 280 then 7 else 8
  }

  function FixedLiterals(): (r: seq<nat>)
    ensures |r| == 288
  {
    seq(288, i requires 0 <= i < 288 => FixedLength(i))
  }

  function FixedDistances(): seq<nat> {
    Rep(5, 32)
  }

  lemma KraftOne(lengths: seq<nat>, l: nat)
    requires InRange(lengths) && 0 < l <= MAX_BITS
    ensures InRange(lengths + [l]) && Kraft(lengths + [l]) == Kraft(lengths) + Pow2(MAX_BITS - l)
  {
    assert (lengths + [l])[..|lengths|] == lengths;
  }

  lemma {:induction false} KraftRep(lengths: seq<nat>, l: nat, n: nat)
    requires InRange(lengths) && 0 < l <= MAX_BITS
    ensures InRange(lengths + Rep(l, n)) && Kraft(lengths + Rep(l, n)) == Kraft(lengths) + n * Pow2(MAX_BITS - l)
  {
    hide Pow2, Kraft, InRange;
    if n == 0 {
      assert lengths + Rep(l, 0) == lengths;
    } else {
      KraftRep(lengths, l, n - 1);
      KraftOne(lengths + Rep(l, n - 1), l);
      assert lengths + Rep(l, n) == (lengths + Rep(l, n - 1)) + [l];
      OneMoreTime(n, Pow2(MAX_BITS - l));
    }
  }

  lemma OneMoreTime(n: nat, w: nat)
    requires n > 0
    ensures n * w == (n - 1) * w + w
  {
  }

  /** Both fixed codes are complete. */
  lemma FixedComplete()
    ensures Acceptable(FixedLiterals(), false) && Acceptable(FixedDistances(), false)
  {
    hide Kraft, Pow2;
    var none: seq<nat> := [];
    var a := none + Rep(8, 144);
    var b := a + Rep(9, 112);
    var c := b + Rep(7, 24);
    var d := c + Rep(8, 8);
    KraftEmpty();
    KraftRep(none, 8, 144);
    KraftRep(a, 9, 112);
    KraftRep(b, 7, 24);
    KraftRep(c, 8, 8);
    KraftRep(none, 5, 32);
    assert FixedLiterals() == d;
    assert FixedDistances() == none + Rep(5, 32);
    Powers();
  }

  lemma KraftEmpty()
    ensures InRange([]) && Kraft([]) == 0
  {
  }

  lemma Powers()
    ensures Pow2(6) == 64 && Pow2(7) == 128 && Pow2(8) == 256 && Pow2(10) == 1024 && Pow2(15) == 32768
  {
    assert Pow2(3) == 8;
    assert Pow2(6) == 64;
    assert Pow2(9) == 512;
    assert Pow2(12) == 4096;
  }

  // ---- the code lengths of a dynamic block ---------------------------------------------------------------

  /** One instruction for writing code lengths, with its extra bits. */
  datatype Run = Length(v: nat) | Previous(extra: nat) | Zeros(extra: nat) | ManyZeros(extra: nat)

  function RunSymbol(run: Run): nat {
    match run
    case Length(v) => v
    case Previous(_) => 16
    case Zeros(_) => 17
    case ManyZeros(_) => 18
  }

  function RunExtra(run: Run): nat {
    match run
    case Length(_) => 0
    case Previous(x) => x
    case Zeros(x) => x
    case ManyZeros(x) => x
  }

  function ExtraBits(symbol: nat): nat {
    if symbol == 16 then 2 else if symbol == 17 then 3 else if symbol == 18 then 7 else 0
  }

  function RunBits(cl: seq<nat>, run: Run): nat {
    LengthOf(cl, RunSymbol(run)) + ExtraBits(RunSymbol(run))
  }

  predicate RunAt(bytes: seq<byte>, p: nat, cl: seq<nat>, run: Run) {
    && (run.Length? ==> run.v < 16) && SymbolAt(bytes, p, cl, RunSymbol(run))
    && ExtraAt(bytes, p + LengthOf(cl, RunSymbol(run)), ExtraBits(RunSymbol(run)), RunExtra(run))
  }

  lemma RunUnique(bytes: seq<byte>, p: nat, cl: seq<nat>, a: Run, b: Run)
    requires RunAt(bytes, p, cl, a) && RunAt(bytes, p, cl, b)
    ensures a == b
  {
    hide SymbolAt, Lsb;
    SymbolUnique(bytes, p, cl, RunSymbol(a), RunSymbol(b));
  }

  /** The code lengths after carrying out an instruction. */
  function Lay(lengths: seq<nat>, run: Run): seq<nat> {
    match run
    case Length(v) => lengths + [v]
    case Previous(x) => if lengths == [] then [] else lengths + Rep(lengths[|lengths| - 1], 3 + x)
    case Zeros(x) => lengths + Rep(0, 3 + x)
    case ManyZeros(x) => lengths + Rep(0, 11 + x)
  }

  predicate CanLay(lengths: seq<nat>, run: Run, total: nat) {
    |lengths| < total && (run.Previous? ==> lengths != []) && |Lay(lengths, run)| <= total
  }

  function LayAll(runs: seq<Run>): seq<nat> {
    if runs == [] then [] else Lay(LayAll(runs[..|runs| - 1]), runs[|runs| - 1])
  }

  predicate Laid(runs: seq<Run>, total: nat) {
    runs == [] || (Laid(runs[..|runs| - 1], total) && CanLay(LayAll(runs[..|runs| - 1]), runs[|runs| - 1], total))
  }

  function RunsEnd(p: nat, cl: seq<nat>, runs: seq<Run>): nat {
    if runs == [] then p else RunsEnd(p, cl, runs[..|runs| - 1]) + RunBits(cl, runs[|runs| - 1])
  }

  predicate RunsAt(bytes: seq<byte>, p: nat, cl: seq<nat>, runs: seq<Run>) {
    runs == [] ||
    var front := runs[..|runs| - 1];
    RunsAt(bytes, p, cl, front) && RunAt(bytes, RunsEnd(p, cl, front), cl, runs[|runs| - 1])
  }

  /** Instructions that write exactly `total` code lengths. */
  predicate RunsFill(bytes: seq<byte>, p: nat, q: nat, cl: seq<nat>, total: nat, runs: seq<Run>) {
    RunsAt(bytes, p, cl, runs) && q == RunsEnd(p, cl, runs) && Laid(runs, total) && |LayAll(runs)| == total
  }

  lemma {:induction false} RunsPrefix(bytes: seq<byte>, p: nat, cl: seq<nat>, total: nat, runs: seq<Run>, k: nat)
    requires RunsAt(bytes, p, cl, runs) && Laid(runs, total) && k <= |runs|
    ensures RunsAt(bytes, p, cl, runs[..k]) && Laid(runs[..k], total)
    ensures k < |runs| ==>
              RunAt(bytes, RunsEnd(p, cl, runs[..k]), cl, runs[k]) && CanLay(LayAll(runs[..k]), runs[k], total)
  {
    hide RunAt, RunBits, Lay, CanLay;
    var n := |runs| - 1;
    if k < n {
      RunsPrefix(bytes, p, cl, total, runs[..n], k);
      assert runs[..n][..k] == runs[..k];
    } else if k == |runs| {
      assert runs[..k] == runs;
    }
  }

  lemma {:induction false} RunsAgree(bytes: seq<byte>, p: nat, q: nat, cl: seq<nat>, total: nat, done: seq<Run>,
                                     h: seq<Run>)
    requires RunsAt(bytes, p, cl, done) && Laid(done, total) && RunsFill(bytes, p, q, cl, total, h)
    ensures |done| <= |h| && h[..|done|] == done
  {
    hide RunAt, RunBits, Lay;
    if done != [] {
      var n := |done| - 1;
      RunsAgree(bytes, p, q, cl, total, done[..n], h);
      var e := RunsEnd(p, cl, done[..n]);
      assert h[..|h|] == h && h[..n] == done[..n];
      RunsPrefix(bytes, p, cl, total, h, n);
      RunUnique(bytes, e, cl, done[n], h[n]);
      assert h[..n + 1] == h[..n] + [h[n]] && done == done[..n] + [done[n]];
    }
  }

  /** No completion exists if nothing that comes next can be laid. */
  lemma RunsStuck(bytes: seq<byte>, p: nat, cl: seq<nat>, total: nat, done: seq<Run>)
    requires RunsAt(bytes, p, cl, done) && Laid(done, total) && |LayAll(done)| < total
    requires forall run :: RunAt(bytes, RunsEnd(p, cl, done), cl, run) ==> !CanLay(LayAll(done), run, total)
    ensures forall q, h :: !RunsFill(bytes, p, q, cl, total, h)
  {
    hide RunAt, RunBits, Lay, CanLay;
    forall q, h ensures !RunsFill(bytes, p, q, cl, total, h) {
      if RunsFill(bytes, p, q, cl, total, h) {
        RunsAgree(bytes, p, q, cl, total, done, h);
        RunsGoOn(bytes, p, q, cl, total, done, h);
      }
    }
  }

  lemma RunsGoOn(bytes: seq<byte>, p: nat, q: nat, cl: seq<nat>, total: nat, done: seq<Run>, h: seq<Run>)
    requires RunsFill(bytes, p, q, cl, total, h) && |LayAll(done)| < total && |done| <= |h| && h[..|done|] == done
    ensures exists run :: RunAt(bytes, RunsEnd(p, cl, done), cl, run) && CanLay(LayAll(done), run, total)
  {
    hide RunAt, RunBits, Lay, CanLay;
    assert h[..|h|] == h;
    RunsPrefix(bytes, p, cl, total, h, |done|);
  }

  ghost predicate NoRuns(bytes: seq<byte>, p: nat, cl: seq<nat>, total: nat) {
    forall q, h :: !RunsFill(bytes, p, q, cl, total, h)
  }

  ghost predicate Laying(bytes: seq<byte>, p: nat, q: nat, cl: seq<nat>, total: nat, lengths: seq<nat>,
                         runs: seq<Run>)
  {
    RunsAt(bytes, p, cl, runs) && q == RunsEnd(p, cl, runs) && Laid(runs, total) && lengths == LayAll(runs)
  }

  lemma LayingStarts(bytes: seq<byte>, p: nat, cl: seq<nat>, total: nat)
    ensures Laying(bytes, p, p, cl, total, [], [])
  {
  }

  lemma LayingOn(bytes: seq<byte>, p: nat, q: nat, cl: seq<nat>, total: nat, lengths: seq<nat>, runs: seq<Run>,
                 run: Run)
    requires Laying(bytes, p, q, cl, total, lengths, runs) && |lengths| < total && RunAt(bytes, q, cl, run)
    ensures CanLay(lengths, run, total) ==>
              Laying(bytes, p, q + RunBits(cl, run), cl, total, Lay(lengths, run), runs + [run])
    ensures !CanLay(lengths, run, total) ==> NoRuns(bytes, p, cl, total)
  {
    hide RunAt, RunBits, Lay, CanLay;
    assert (runs + [run])[..|runs|] == runs;
    if !CanLay(lengths, run, total) {
      forall other | RunAt(bytes, q, cl, other) ensures !CanLay(lengths, other, total) {
        RunUnique(bytes, q, cl, run, other);
      }
      RunsStuck(bytes, p, cl, total, runs);
    }
  }

  lemma LayingStuck(bytes: seq<byte>, p: nat, q: nat, cl: seq<nat>, total: nat, lengths: seq<nat>, runs: seq<Run>)
    requires Laying(bytes, p, q, cl, total, lengths, runs) && |lengths| < total && forall run ::
               !RunAt(bytes, q, cl, run)
    ensures NoRuns(bytes, p, cl, total)
  {
    hide RunAt, RunBits, Lay, CanLay;
    RunsStuck(bytes, p, cl, total, runs);
  }

  /** Reads one instruction. */
  method ReadRun(reader: BitReader, table: Table, ghost cl: seq<nat>) returns (r: Result<Run>)
    requires reader.Valid() && Built(table, cl) && |cl| == 19
    modifies reader
    ensures reader.Valid() && old(reader.bit) <= reader.bit
    ensures r.Ok? ==>
              RunAt(reader.bytes, old(reader.bit), cl, r.value) && reader.bit == old(reader.bit) + RunBits(cl, r.value)
    ensures r.Ok? ==> reader.bit > old(reader.bit)
    ensures r.Err? ==> forall run :: !RunAt(reader.bytes, old(reader.bit), cl, run)
  {
    hide Built, Decoded, SymbolAt, Lsb;
    ghost var bytes, p := reader.bytes, reader.bit;
    var symbol := Decode(reader, table, cl);
    DecodedSymbol(bytes, p, reader.bit, cl, symbol);
    if symbol.Err? {
      return Err(symbol.error);
    }
    var s := symbol.value;
    SymbolInRange(bytes, p, cl, s);
    OnlyThisSymbol(bytes, p, cl, s);
    var extra := reader.Take(ExtraBits(s));
    if extra.Err? {
      return Err(extra.error);
    }
    r := Ok(if s < 16 then Length(s) else if s == 16 then Previous(extra.value)
            else if s == 17 then Zeros(extra.value) else ManyZeros(extra.value));
    assert s < 16 ==> extra.value == 0 by {
      NoBits(bytes, p + LengthOf(cl, s));
    }
  }

  lemma NoBits(bytes: seq<byte>, p: nat)
    requires p <= 8 * |bytes|
    ensures Lsb(bytes, p, 0) == 0
  {
  }

  lemma SymbolInRange(bytes: seq<byte>, p: nat, lengths: seq<nat>, s: nat)
    requires SymbolAt(bytes, p, lengths, s)
    ensures s < |lengths|
  {
  }

  /** Reads instructions until `total` code lengths are there; fails exactly when no instructions fill them. */
  method ReadLengths(reader: BitReader, table: Table, ghost cl: seq<nat>, total: nat)
      returns (r: Result<seq<nat>>, ghost runs: seq<Run>)
    requires reader.Valid() && Built(table, cl) && |cl| == 19
    modifies reader
    ensures reader.Valid() && old(reader.bit) <= reader.bit
    ensures r.Ok? ==>
              RunsFill(reader.bytes, old(reader.bit), reader.bit, cl, total, runs) && r.value == LayAll(runs) &&
              |r.value| == total
    ensures r.Err? ==> NoRuns(reader.bytes, old(reader.bit), cl, total)
  {
    hide Built, Laying, NoRuns, RunAt, RunBits, RunsAt, Laid, LayAll, RunsEnd;
    ghost var bytes, p := reader.bytes, reader.bit;
    var lengths: seq<nat> := [];
    runs := [];
    LayingStarts(bytes, p, cl, total);
    while |lengths| < total
      invariant reader.Valid() && p <= reader.bit && |lengths| <= total
      invariant Laying(bytes, p, reader.bit, cl, total, lengths, runs)
      decreases 8 * |bytes| - reader.bit
    {
      ghost var q := reader.bit;
      var run := ReadRun(reader, table, cl);
      if run.Err? {
        LayingStuck(bytes, p, q, cl, total, lengths, runs);
        return Err(run.error), runs;
      }
      LayingOn(bytes, p, q, cl, total, lengths, runs, run.value);
      if run.value.Previous? && lengths == [] {
        return Err(BadCode), runs;
      }
      var next := Lay(lengths, run.value);
      if |next| > total {
        return Err(BadCode), runs;
      }
      lengths := next;
      runs := runs + [run.value];
    }
    LayingDone(bytes, p, reader.bit, cl, total, lengths, runs);
    r := Ok(lengths);
  }

  lemma LayingDone(bytes: seq<byte>, p: nat, q: nat, cl: seq<nat>, total: nat, lengths: seq<nat>, runs: seq<Run>)
    requires Laying(bytes, p, q, cl, total, lengths, runs) && |lengths| == total
    ensures RunsFill(bytes, p, q, cl, total, runs) && lengths == LayAll(runs)
  {
  }

  const CODE_LENGTH_ORDER: seq<nat> := [16, 17, 18, 0, 8, 7, 9, 6, 10, 5, 11, 4, 12, 3, 13, 2, 14, 1, 15]

  function OrderAt(i: nat): (s: nat)
    requires i < 19
    ensures s < 19
  {
    CODE_LENGTH_ORDER[i]
  }

  /** The first n code-length code lengths, three bits each, in their odd order. */
  function CodeLengths(bytes: seq<byte>, p: nat, n: nat): (cl: seq<nat>)
    requires n <= 19 && p + 3 * n <= 8 * |bytes|
    ensures |cl| == 19
  {
    if n == 0 then Rep(0, 19) else CodeLengths(bytes, p, n - 1)[OrderAt(n - 1) := Lsb(bytes, p + 3 * (n - 1), 3)]
  }

  /** Everything in front of the items of a dynamic block: the two codes it announces. */
  predicate HeaderAt(bytes: seq<byte>, p: nat, q: nat, lit: seq<nat>, dist: seq<nat>, runs: seq<Run>) {
    && p + 14 <= 8 * |bytes|
    && var literals, distances, n := Lsb(bytes, p, 5) + 257, Lsb(bytes, p + 5, 5) + 1, Lsb(bytes, p + 10, 4) + 4;
    && n <= 19 && p + 14 + 3 * n <= 8 * |bytes|
    && var cl := CodeLengths(bytes, p + 14, n);
    && Acceptable(cl, false) && RunsFill(bytes, p + 14 + 3 * n, q, cl, literals + distances, runs)
    && lit == LayAll(runs)[..literals] && dist == LayAll(runs)[literals..]
    && Acceptable(lit, false) && Acceptable(dist, true)
  }

  ghost predicate NoHeader(bytes: seq<byte>, p: nat) {
    forall q, lit, dist, runs :: !HeaderAt(bytes, p, q, lit, dist, runs)
  }

  method ReadCodeLengths(reader: BitReader, n: nat) returns (r: Result<seq<nat>>)
    requires reader.Valid() && n <= 19
    modifies reader
    ensures reader.Valid() && old(reader.bit) <= reader.bit
    ensures r.Ok? <==> old(reader.bit) + 3 * n <= 8 * |reader.bytes|
    ensures r.Ok? ==> r.value == CodeLengths(reader.bytes, old(reader.bit), n) && reader.bit == old(reader.bit) + 3 * n
  {
    hide Lsb, OrderAt;
    var cl := Rep(0, 19);
    for i := 0 to n
      invariant reader.Valid() && reader.bit == old(reader.bit) + 3 * i &&
                cl == CodeLengths(reader.bytes, old(reader.bit), i)
    {
      var v := reader.Take(3);
      if v.Err? {
        return Err(v.error);
      }
      cl := cl[OrderAt(i) := v.value];
    }
    r := Ok(cl);
  }

  /** Reads the two codes of a dynamic block; fails exactly when there is no well-formed header. */
  method DynamicCodes(reader: BitReader)
    returns (r: Result<(Table, Table)>, ghost lit: seq<nat>, ghost dist: seq<nat>, ghost runs: seq<Run>)
    requires reader.Valid()
    modifies reader
    ensures reader.Valid() && old(reader.bit) <= reader.bit
    ensures r.Ok? ==> HeaderAt(reader.bytes, old(reader.bit), reader.bit, lit, dist, runs)
    ensures r.Ok? ==> Built(r.value.0, lit) && Built(r.value.1, dist)
    ensures r.Err? ==> NoHeader(reader.bytes, old(reader.bit))
  {
    hide Lsb, Built, Acceptable, RunsFill, NoRuns, LayAll, CodeLengths, NoHeader, HeaderAt;
    lit, dist, runs := [], [], [];
    ghost var bytes, p := reader.bytes, reader.bit;
    var a := reader.Take(5);
    if a.Err? {
      HeaderShort(bytes, p);
      r := Err(a.error);
      return;
    }
    var b := reader.Take(5);
    if b.Err? {
      HeaderShort(bytes, p);
      r := Err(b.error);
      return;
    }
    var c := reader.Take(4);
    if c.Err? {
      HeaderShort(bytes, p);
      r := Err(c.error);
      return;
    }
    FourBits(bytes, p + 10);
    var literals, distances, n := a.value + 257, b.value + 1, c.value + 4;
    var cl := ReadCodeLengths(reader, n);
    if cl.Err? {
      NoCodeLengths(bytes, p, n);
      r := Err(cl.error);
      return;
    }
    var table := Build(cl.value, false);
    if table.Err? {
      NoLengthCode(bytes, p, n, cl.value);
      r := Err(table.error);
      return;
    }
    ghost var at := reader.bit;
    var lengths, found := ReadLengths(reader, table.value, cl.value, literals + distances);
    runs := found;
    if lengths.Err? {
      NoLengths(bytes, p, literals, distances, n, cl.value);
      r := Err(lengths.error);
      return;
    }
    lit, dist := lengths.value[..literals], lengths.value[literals..];
    var first := Build(lengths.value[..literals], false);
    HeaderIs(bytes, p, reader.bit, literals, distances, n, cl.value, runs, lit, dist);
    if first.Err? {
      r := Err(first.error);
      return;
    }
    var second := Build(lengths.value[literals..], true);
    if second.Err? {
      r := Err(second.error);
      return;
    }
    r := Ok((first.value, second.value));
  }

  lemma FourBits(bytes: seq<byte>, p: nat)
    requires p + 4 <= 8 * |bytes|
    ensures Lsb(bytes, p, 4) + 4 <= 19
  {
    assert Pow2(4) == 16;
  }

  lemma HeaderShort(bytes: seq<byte>, p: nat)
    requires p + 14 > 8 * |bytes|
    ensures NoHeader(bytes, p)
  {
  }

  lemma NoCodeLengths(bytes: seq<byte>, p: nat, n: nat)
    requires p + 14 <= 8 * |bytes| && n == Lsb(bytes, p + 10, 4) + 4 && p + 14 + 3 * n > 8 * |bytes|
    ensures NoHeader(bytes, p)
  {
    hide Lsb, Acceptable, RunsFill, LayAll, CodeLengths;
  }

  lemma NoLengthCode(bytes: seq<byte>, p: nat, n: nat, cl: seq<nat>)
    requires p + 14 <= 8 * |bytes| && n == Lsb(bytes, p + 10, 4) + 4 <= 19 && p + 14 + 3 * n <= 8 * |bytes|
    requires cl == CodeLengths(bytes, p + 14, n) && !Acceptable(cl, false)
    ensures NoHeader(bytes, p)
  {
    hide Lsb, Acceptable, RunsFill, LayAll, CodeLengths;
  }

  lemma NoLengths(bytes: seq<byte>, p: nat, literals: nat, distances: nat, n: nat, cl: seq<nat>)
    requires p + 14 <= 8 * |bytes| && literals == Lsb(bytes, p, 5) + 257 && distances == Lsb(bytes, p + 5, 5) + 1
    requires n == Lsb(bytes, p + 10, 4) + 4 <= 19 && p + 14 + 3 * n <= 8 * |bytes| &&
             cl == CodeLengths(bytes, p + 14, n)
    requires NoRuns(bytes, p + 14 + 3 * n, cl, literals + distances)
    ensures NoHeader(bytes, p)
  {
    hide Lsb, Acceptable, RunsFill, LayAll, CodeLengths;
  }

  /** With the instructions read, the header is there exactly when both codes are acceptable. */
  lemma HeaderIs(bytes: seq<byte>, p: nat, q: nat, literals: nat, distances: nat, n: nat, cl: seq<nat>,
                 runs: seq<Run>, lit: seq<nat>, dist: seq<nat>)
    requires p + 14 <= 8 * |bytes| && literals == Lsb(bytes, p, 5) + 257 && distances == Lsb(bytes, p + 5, 5) + 1
    requires n == Lsb(bytes, p + 10, 4) + 4 <= 19 && p + 14 + 3 * n <= 8 * |bytes| &&
             cl == CodeLengths(bytes, p + 14, n)
    requires Acceptable(cl, false) && RunsFill(bytes, p + 14 + 3 * n, q, cl, literals + distances, runs)
    requires |LayAll(runs)| == literals + distances && lit == LayAll(runs)[..literals] &&
             dist == LayAll(runs)[literals..]
    ensures HeaderAt(bytes, p, q, lit, dist, runs) <==> Acceptable(lit, false) && Acceptable(dist, true)
    ensures !(Acceptable(lit, false) && Acceptable(dist, true)) ==> NoHeader(bytes, p)
  {
    hide Lsb, Acceptable, LayAll, CodeLengths, Laid, RunsAt, RunsEnd;
    forall q2, lit2, dist2, runs2 | HeaderAt(bytes, p, q2, lit2, dist2, runs2) ensures runs2 == runs {
      SameRuns(bytes, p + 14 + 3 * n, q, q2, cl, literals + distances, runs, runs2);
    }
  }

  lemma SameRuns(bytes: seq<byte>, p: nat, q1: nat, q2: nat, cl: seq<nat>, total: nat, a: seq<Run>, b: seq<Run>)
    requires RunsFill(bytes, p, q1, cl, total, a) && RunsFill(bytes, p, q2, cl, total, b)
    ensures a == b
  {
    RunsAgree(bytes, p, q2, cl, total, a, b);
    RunsAgree(bytes, p, q1, cl, total, b, a);
    assert b[..|b|] == b;
  }

  // ---- whole streams --------------------------------------------------------------------------------------

  datatype Block =
    | Stored(data: seq<byte>)
    | Fixed(items: seq<Item>)
    | Dynamic(lit: seq<nat>, dist: seq<nat>, runs: seq<Run>, mid: nat, items: seq<Item>)

  /** The block without its three header bits, from p to q. */
  predicate BodyAt(bytes: seq<byte>, p: nat, q: nat, block: Block) {
    match block
    case Stored(data) => StoredAt(bytes, p, q, data)
    case Fixed(items) => CodedBlock(bytes, p, q, FixedLiterals(), FixedDistances(), items)
    case Dynamic(lit, dist, runs, mid, items) =>
      HeaderAt(bytes, p, mid, lit, dist, runs) && CodedBlock(bytes, mid, q, lit, dist, items)
  }

  function Kind(block: Block): nat {
    match block
    case Stored(_) => 0
    case Fixed(_) => 1
    case Dynamic(_, _, _, _, _) => 2
  }

  predicate BlockAt(bytes: seq<byte>, p: nat, q: nat, last: bool, block: Block) {
    && p + 3 <= 8 * |bytes| && Lsb(bytes, p, 1) == (if last then 1 else 0) && Lsb(bytes, p + 1, 2) == Kind(block)
    && BodyAt(bytes, p + 3, q, block)
  }

  predicate BlockFits(out: seq<byte>, block: Block, limit: nat) {
    match block
    case Stored(data) => |out| + |data| <= limit
    case Fixed(items) => Feasible(out, items, limit)
    case Dynamic(_, _, _, _, items) => Feasible(out, items, limit)
  }

  function PutBlock(out: seq<byte>, block: Block): seq<byte> {
    match block
    case Stored(data) => out + data
    case Fixed(items) => Expand(out, items)
    case Dynamic(_, _, _, _, items) => Expand(out, items)
  }

  /** A list of blocks from p to q; `marks` holds where each begins and where the last ends. */
  predicate BlocksAt(bytes: seq<byte>, blocks: seq<Block>, marks: seq<nat>, final: bool) {
    && |marks| == |blocks| + 1 && marks[0] == 0
    && forall i :: 0 <= i < |blocks| ==> BlockAt(bytes, marks[i], marks[i + 1], final && i == |blocks| - 1, blocks[i])
  }

  /** What the blocks stand for. */
  function Inflated(blocks: seq<Block>): seq<byte> {
    if blocks == [] then [] else PutBlock(Inflated(blocks[..|blocks| - 1]), blocks[|blocks| - 1])
  }

  predicate AllFit(blocks: seq<Block>, limit: nat) {
    blocks == [] ||
        (AllFit(blocks[..|blocks| - 1], limit) &&
         BlockFits(Inflated(blocks[..|blocks| - 1]), blocks[|blocks| - 1], limit))
  }

  /** A whole stream: at least one block, the last and only the last marked final. */
  predicate Deflated(bytes: seq<byte>, blocks: seq<Block>, marks: seq<nat>) {
    blocks != [] && BlocksAt(bytes, blocks, marks, true)
  }

  lemma {:induction false} OutputWithin(blocks: seq<Block>, limit: nat)
    requires AllFit(blocks, limit)
    ensures |Inflated(blocks)| <= limit
  {
    if blocks != [] {
      var front, b := blocks[..|blocks| - 1], blocks[|blocks| - 1];
      OutputWithin(front, limit);
      if !b.Stored? {
        WithinLimit(Inflated(front), b.items, limit);
      }
    }
  }

  /** Two readings of the same block body agree, if both fit. */
  lemma SameItems(bytes: seq<byte>, p: nat, q1: nat, q2: nat, lit: seq<nat>, dist: seq<nat>, a: seq<Item>, b: seq<Item>)
    requires CodedBlock(bytes, p, q1, lit, dist, a) && CodedBlock(bytes, p, q2, lit, dist, b)
    ensures a == b && q1 == q2
  {
    hide ItemsEnd, SymbolAt;
    ReadingAgrees(bytes, p, q2, lit, dist, a, b);
    ReadingAgrees(bytes, p, q1, lit, dist, b, a);
    assert b[..|b|] == b;
  }

  lemma SameHeader(bytes: seq<byte>, p: nat, q1: nat, q2: nat, lit1: seq<nat>, lit2: seq<nat>, dist1: seq<nat>,
                   dist2: seq<nat>, runs1: seq<Run>, runs2: seq<Run>)
    requires HeaderAt(bytes, p, q1, lit1, dist1, runs1) && HeaderAt(bytes, p, q2, lit2, dist2, runs2)
    ensures q1 == q2 && lit1 == lit2 && dist1 == dist2 && runs1 == runs2
  {
    hide Lsb, Acceptable, LayAll, CodeLengths, Laid, RunsAt, RunsEnd;
    var literals, distances, n := Lsb(bytes, p, 5) + 257, Lsb(bytes, p + 5, 5) + 1, Lsb(bytes, p + 10, 4) + 4;
    SameRuns(bytes, p + 14 + 3 * n, q1, q2, CodeLengths(bytes, p + 14, n), literals + distances, runs1, runs2);
  }

  /** The bits at p are at most one block. */
  lemma SameBlock(bytes: seq<byte>, p: nat, q1: nat, q2: nat, last1: bool, last2: bool, a: Block, b: Block)
    requires BlockAt(bytes, p, q1, last1, a) && BlockAt(bytes, p, q2, last2, b)
    ensures last1 == last2 && a == b && q1 == q2
  {
    hide Lsb, HeaderAt, CodedBlock, StoredAt, FixedLiterals, FixedDistances;
    match a {
      case Stored(x) =>
        SameStored(bytes, p + 3, q1, q2, x, b.data);
      case Fixed(x) =>
        SameItems(bytes, p + 3, q1, q2, FixedLiterals(), FixedDistances(), x, b.items);
      case Dynamic(lit, dist, runs, mid, x) =>
        SameHeader(bytes, p + 3, mid, b.mid, lit, b.lit, dist, b.dist, runs, b.runs);
        SameItems(bytes, mid, q1, q2, lit, dist, x, b.items);
    }
  }

  lemma SameStored(bytes: seq<byte>, p: nat, q1: nat, q2: nat, a: seq<byte>, b: seq<byte>)
    requires StoredAt(bytes, p, q1, a) && StoredAt(bytes, p, q2, b)
    ensures a == b && q1 == q2
  {
    hide U16At;
  }

  /** What has been read so far begins any whole stream. */
  lemma {:induction false} StreamAgrees(bytes: seq<byte>, done: seq<Block>, marks: seq<nat>, h: seq<Block>,
                                        hm: seq<nat>, k: nat)
    requires BlocksAt(bytes, done, marks, false) && Deflated(bytes, h, hm) && k <= |done|
    ensures k < |h| && h[..k] == done[..k] && hm[k] == marks[k]
  {
    hide BlockAt;
    if k > 0 {
      StreamAgrees(bytes, done, marks, h, hm, k - 1);
      var i := k - 1;
      assert BlockAt(bytes, marks[i], marks[i + 1], false, done[i]);
      assert BlockAt(bytes, hm[i], hm[i + 1], i == |h| - 1, h[i]);
      SameBlock(bytes, marks[i], marks[i + 1], hm[i + 1], false, i == |h| - 1, done[i], h[i]);
      assert h[..k] == h[..i] + [h[i]] && done[..k] == done[..i] + [done[i]];
    }
  }

  lemma {:induction false} FitPrefix(blocks: seq<Block>, k: nat, limit: nat)
    requires AllFit(blocks, limit) && k < |blocks|
    ensures AllFit(blocks[..k], limit) && BlockFits(Inflated(blocks[..k]), blocks[k], limit)
  {
    hide BlockFits, PutBlock;
    var n := |blocks| - 1;
    if k < n {
      FitPrefix(blocks[..n], k, limit);
      assert blocks[..n][..k] == blocks[..k];
    }
  }

  ghost predicate NoStream(bytes: seq<byte>, limit: nat) {
    forall h, hm :: Deflated(bytes, h, hm) ==> !AllFit(h, limit)
  }

  /** If no block that comes next fits, no stream does. */
  lemma StreamStuck(bytes: seq<byte>, done: seq<Block>, marks: seq<nat>, limit: nat)
    requires BlocksAt(bytes, done, marks, false)
    requires forall q, last, b :: BlockAt(bytes, marks[|done|], q, last, b) ==> !BlockFits(Inflated(done), b, limit)
    ensures NoStream(bytes, limit)
  {
    hide BlockAt, BlockFits, PutBlock;
    forall h, hm | Deflated(bytes, h, hm) ensures !AllFit(h, limit) {
      var n := |done|;
      StreamAgrees(bytes, done, marks, h, hm, n);
      assert BlockAt(bytes, hm[n], hm[n + 1], n == |h| - 1, h[n]);
      assert h[..n] == done;
      if AllFit(h, limit) {
        FitPrefix(h, n, limit);
      }
    }
  }

  /** Nothing that comes next fits: the body of the announced kind does not. */
  ghost predicate NoBody(bytes: seq<byte>, p: nat, kind: nat, out: seq<byte>, limit: nat) {
    forall q, b :: Kind(b) == kind && BodyAt(bytes, p, q, b) ==> !BlockFits(out, b, limit)
  }

  /** The body of a block, once its kind is known. */
  method InflateBody(reader: BitReader, kind: nat, limit: nat, out: seq<byte>)
      returns (r: Result<seq<byte>>, ghost block: Block)
    requires reader.Valid() && kind < 4
    modifies reader
    ensures reader.Valid() && old(reader.bit) <= reader.bit
    ensures r.Ok? ==> Kind(block) == kind && BodyAt(reader.bytes, old(reader.bit), reader.bit, block)
    ensures r.Ok? ==> BlockFits(out, block, limit) && r.value == PutBlock(out, block)
    ensures r.Err? ==> NoBody(reader.bytes, old(reader.bit), kind, out, limit)
  {
    hide StoredAt, HeaderAt, CodedBlock, Built, Acceptable, Feasible, Expand, NoReading, NoHeader, FixedLiterals,
         FixedDistances, NoBody;
    ghost var bytes, p := reader.bytes, reader.bit;
    block := Stored([]);
    if kind == 0 {
      var stored, data := InflateStoredBlock(reader, limit, out);
      block := Stored(data);
      if stored.Err? {
        NoStored(bytes, p, out, limit);
      }
      return stored, block;
    }
    if kind == 1 {
      FixedComplete();
      var literals := Build(FixedLiterals(), false);
      var distances := Build(FixedDistances(), false);
      var fixedOut, items :=
        InflateCodedBlock(reader, literals.value, distances.value, FixedLiterals(), FixedDistances(), limit, out);
      block := Fixed(items);
      if fixedOut.Err? {
        NoFixed(bytes, p, out, limit);
      }
      return fixedOut, block;
    }
    if kind == 2 {
      var codes, lit, dist, runs := DynamicCodes(reader);
      if codes.Err? {
        NoDynamicHeader(bytes, p, out, limit);
        return Err(codes.error), block;
      }
      ghost var mid := reader.bit;
      var dynamicOut, items := InflateCodedBlock(reader, codes.value.0, codes.value.1, lit, dist, limit, out);
      block := Dynamic(lit, dist, runs, mid, items);
      if dynamicOut.Err? {
        NoDynamic(bytes, p, mid, lit, dist, runs, out, limit);
      }
      return dynamicOut, block;
    }
    NoSuchKind(bytes, p, out, limit);
    r := Err(Unsupported);
  }

  lemma NoSuchKind(bytes: seq<byte>, p: nat, out: seq<byte>, limit: nat)
    ensures NoBody(bytes, p, 3, out, limit)
  {
    hide BodyAt, BlockFits;
  }

  lemma NoStored(bytes: seq<byte>, p: nat, out: seq<byte>, limit: nat)
    requires forall q, d :: StoredAt(bytes, p, q, d) ==> |out| + |d| > limit
    ensures NoBody(bytes, p, 0, out, limit)
  {
    hide StoredAt, HeaderAt, CodedBlock, Feasible;
  }

  lemma NoFixed(bytes: seq<byte>, p: nat, out: seq<byte>, limit: nat)
    requires NoReading(bytes, p, FixedLiterals(), FixedDistances(), out, limit)
    ensures NoBody(bytes, p, 1, out, limit)
  {
    hide StoredAt, HeaderAt, CodedBlock, Feasible, FixedLiterals, FixedDistances;
  }

  lemma NoDynamicHeader(bytes: seq<byte>, p: nat, out: seq<byte>, limit: nat)
    requires NoHeader(bytes, p)
    ensures NoBody(bytes, p, 2, out, limit)
  {
    hide StoredAt, HeaderAt, CodedBlock, Feasible;
  }

  lemma NoDynamic(bytes: seq<byte>, p: nat, mid: nat, lit: seq<nat>, dist: seq<nat>, runs: seq<Run>, out: seq<byte>,
                  limit: nat)
    requires HeaderAt(bytes, p, mid, lit, dist, runs) && NoReading(bytes, mid, lit, dist, out, limit)
    ensures NoBody(bytes, p, 2, out, limit)
  {
    hide StoredAt, HeaderAt, CodedBlock, Feasible;
    forall q, b | Kind(b) == 2 && BodyAt(bytes, p, q, b) ensures !BlockFits(out, b, limit) {
      SameHeader(bytes, p, mid, b.mid, lit, b.lit, dist, b.dist, runs, b.runs);
    }
  }

  /**
   * Decodes a DEFLATE stream. It always terminates, never produces more than `limit` bytes and
   * succeeds exactly when the bytes begin with a stream of well-formed blocks whose output stays
   * within the limit; the result is what those blocks stand for, and how many bytes they take.
   */
  method InflateStream(stream: seq<byte>, limit: nat)
    returns (r: Result<(seq<byte>, nat)>, ghost blocks: seq<Block>, ghost marks: seq<nat>)
    ensures r.Ok? ==> Deflated(stream, blocks, marks) && AllFit(blocks, limit) && |r.value.0| <= limit
    ensures r.Ok? ==> r.value.0 == Inflated(blocks) && r.value.1 == (marks[|blocks|] + 7) / 8 <= |stream|
    ensures r.Err? ==> NoStream(stream, limit)
  {
    hide BlocksAt, NoStream, BodyAt, Lsb, BlockFits, PutBlock, AllFit, Inflated, NoBody, Deflated;
    var reader := new BitReader(stream);
    var out: seq<byte> := [];
    blocks, marks := [], [0];
    StreamStarts(stream, limit);
    while true
      invariant reader.Valid() && reader.bytes == stream && |marks| == |blocks| + 1 && marks[|blocks|] == reader.bit
      invariant BlocksAt(stream, blocks, marks, false) && AllFit(blocks, limit) && out == Inflated(blocks)
      decreases 8 * |stream| - reader.bit
    {
      ghost var p := reader.bit;
      var flag := reader.Take(1);
      if flag.Err? {
        NoBlockHeader(stream, blocks, marks, limit);
        r := Err(flag.error);
        return;
      }
      var kind := reader.Take(2);
      if kind.Err? {
        NoBlockHeader(stream, blocks, marks, limit);
        r := Err(kind.error);
        return;
      }
      TwoBits(stream, p);
      var body, block := InflateBody(reader, kind.value, limit, out);
      if body.Err? {
        NoBlock(stream, blocks, marks, limit);
        r := Err(body.error);
        return;
      }
      OneMore(stream, blocks, marks, flag.value == 1, block, reader.bit, limit);
      out := body.value;
      blocks, marks := blocks + [block], marks + [reader.bit];
      if flag.value == 1 {
        OutputWithin(blocks, limit);
        reader.AlignToByte();
        r := Ok((out, reader.bit / 8));
        return;
      }
    }
  }

  lemma StreamStarts(bytes: seq<byte>, limit: nat)
    ensures BlocksAt(bytes, [], [0], false) && AllFit([], limit) && Inflated([]) == []
  {
  }

  lemma TwoBits(bytes: seq<byte>, p: nat)
    requires p + 3 <= 8 * |bytes|
    ensures Lsb(bytes, p, 1) < 2 && Lsb(bytes, p + 1, 2) < 4
  {
    assert Pow2(1) == 2 && Pow2(2) == 4;
  }

  lemma NoBlockHeader(bytes: seq<byte>, blocks: seq<Block>, marks: seq<nat>, limit: nat)
    requires BlocksAt(bytes, blocks, marks, false) && marks[|blocks|] + 3 > 8 * |bytes|
    ensures NoStream(bytes, limit)
  {
    hide BodyAt, BlockFits, Inflated;
    StreamStuck(bytes, blocks, marks, limit);
  }

  lemma NoBlock(bytes: seq<byte>, blocks: seq<Block>, marks: seq<nat>, limit: nat)
    requires BlocksAt(bytes, blocks, marks, false) && marks[|blocks|] + 3 <= 8 * |bytes|
    requires NoBody(bytes, marks[|blocks|] + 3, Lsb(bytes, marks[|blocks|] + 1, 2), Inflated(blocks), limit)
    ensures NoStream(bytes, limit)
  {
    hide BodyAt, BlockFits, Inflated, Lsb;
    StreamStuck(bytes, blocks, marks, limit);
  }

  lemma OneMore(bytes: seq<byte>, blocks: seq<Block>, marks: seq<nat>, last: bool, block: Block, q: nat, limit: nat)
    requires BlocksAt(bytes, blocks, marks, false) && AllFit(blocks, limit)
    requires var p := marks[|blocks|];
             && p + 3 <= 8 * |bytes| && (last <==> Lsb(bytes, p, 1) == 1) && Lsb(bytes, p, 1) < 2 &&
                Lsb(bytes, p + 1, 2) == Kind(block)
             && BodyAt(bytes, p + 3, q, block)
    requires BlockFits(Inflated(blocks), block, limit)
    ensures BlocksAt(bytes, blocks + [block], marks + [q], last)
    ensures AllFit(blocks + [block], limit) && Inflated(blocks + [block]) == PutBlock(Inflated(blocks), block)
    ensures last ==> Deflated(bytes, blocks + [block], marks + [q])
  {
    hide BodyAt, BlockFits, Lsb, PutBlock;
    var more, ends := blocks + [block], marks + [q];
    assert more[..|blocks|] == blocks;
    forall i | 0 <= i < |more| ensures BlockAt(bytes, ends[i], ends[i + 1], last && i == |more| - 1, more[i]) {
      if i < |blocks| {
        assert BlockAt(bytes, marks[i], marks[i + 1], false, blocks[i]);
      }
    }
  }

  /** One stored block holding up to 65535 bytes, as section 3.2.4 of RFC 1951 lays it out. */
  function StoreBytes(data: seq<byte>): seq<byte>
    requires |data| < U16
  {
    [1] + LeBytes(|data|, 2) + LeBytes(0xffff - |data|, 2) + data
  }

  /** Storing and inflating gives the bytes back. */
  lemma StoreRoundTrip(data: seq<byte>)
    requires |data| < U16
    ensures Deflated(StoreBytes(data), [Stored(data)], [0, 8 * (5 + |data|)]) && Inflated([Stored(data)]) == data
    ensures forall h, hm :: Deflated(StoreBytes(data), h, hm) ==> h == [Stored(data)]
  {
    var bytes := StoreBytes(data);
    StoredHeader(bytes);
    StoredBody(data, bytes);
    var block, q := Stored(data), 8 * (5 + |data|);
    assert BlockAt(bytes, 0, q, true, block);
    assert Inflated([block][..0]) == [];
    forall h, hm | Deflated(bytes, h, hm) ensures h == [block] {
      assert BlockAt(bytes, hm[0], hm[1], 0 == |h| - 1, h[0]);
      SameBlock(bytes, 0, q, hm[1], true, 0 == |h| - 1, block, h[0]);
    }
  }

  lemma StoredHeader(bytes: seq<byte>)
    requires |bytes| > 0 && bytes[0] == 1
    ensures Lsb(bytes, 0, 1) == 1 && Lsb(bytes, 1, 2) == 0
  {
    assert Pow2(0) == 1 && Pow2(1) == 2 && Pow2(2) == 4;
    assert BitAt(bytes, 0) == 1 && BitAt(bytes, 1) == 0 && BitAt(bytes, 2) == 0;
    assert Lsb(bytes, 0, 0) == 0 && Lsb(bytes, 1, 0) == 0 && Lsb(bytes, 1, 1) == 0;
  }

  lemma StoredBody(data: seq<byte>, bytes: seq<byte>)
    requires |data| < U16 && bytes == StoreBytes(data)
    ensures StoredAt(bytes, 3, 8 * (5 + |data|), data)
  {
    hide Le, LeBytes, Pow256;
    var len := |data|;
    assert bytes[1..3] == LeBytes(len, 2) && bytes[3..5] == LeBytes(0xffff - len, 2) && bytes[5..5 + len] == data;
    Fits16(len);
    Fits16(0xffff - len);
  }
}

/**
 * Canonical Huffman codes as section 3.2.2 of RFC 1951 defines them, and the table-driven
 * decoder for them (src/apfs_read.rs `BitReader`, `Huffman`).
 */
module Huffman {
  import opened Bytes

  const MAX_BITS: nat := 15

  // ---- bits --------------------------------------------------------------------------------------

  /** Bit p of the stream: bytes in order, the low bit of a byte first. */
  function BitAt(bytes: seq<byte>, p: nat): (b: nat)
    requires p < 8 * |bytes|
    ensures b < 2
  {
    (bytes[p / 8] / Pow2(p % 8)) % 2
  }

  /** n bits from p as a number, the first bit the most significant: how codes are packed. */
  function Msb(bytes: seq<byte>, p: nat, n: nat): (v: nat)
    requires p + n <= 8 * |bytes|
    ensures v < Pow2(n)
  {
    if n == 0 then 0 else 2 * Msb(bytes, p, n - 1) + BitAt(bytes, p + n - 1)
  }

  /** n bits from p as a number, the first bit the least significant: how everything else is packed. */
  function Lsb(bytes: seq<byte>, p: nat, n: nat): (v: nat)
    requires p + n <= 8 * |bytes|
    ensures v < Pow2(n)
  {
    if n == 0 then 0 else Lsb(bytes, p, n - 1) + Pow2(n - 1) * BitAt(bytes, p + n - 1)
  }

  class BitReader {
    const bytes: seq<byte>
    var bit: nat

    ghost predicate Valid()
      reads this
    {
      bit <= 8 * |bytes|
    }

    constructor (bytes: seq<byte>)
      ensures Valid() && this.bytes == bytes && bit == 0
    {
      this.bytes, bit := bytes, 0;
    }

    /** Takes `count` bits; fails exactly when fewer are left, and then all are used up. */
    method Take(count: nat) returns (r: Result<nat>)
      requires Valid()
      modifies this
      ensures Valid()
      ensures r.Ok? <==> old(bit) + count <= 8 * |bytes|
      ensures r.Ok? ==> bit == old(bit) + count && r.value == Lsb(bytes, old(bit), count)
      ensures r.Err? ==> bit == 8 * |bytes| && r.error == Truncated
    {
      hide BitAt;
      var value := 0;
      var weight := 1;
      for shift := 0 to count
        invariant Valid() && bit == old(bit) + shift
        invariant weight == Pow2(shift) && value == Lsb(bytes, old(bit), shift)
      {
        if bit / 8 >= |bytes| {
          return Err(Truncated);
        }
        value := value + weight * BitAt(bytes, bit);
        weight := 2 * weight;
        bit := bit + 1;
      }
      r := Ok(value);
    }

    method AlignToByte()
      requires Valid()
      modifies this
      ensures Valid() && bit % 8 == 0 && old(bit) <= bit < old(bit) + 8
    {
      bit := (bit + 7) / 8 * 8;
    }
  }

  // ---- the canonical code ------------------------------------------------------------------------

  /** How many symbols have code length l. */
  function Count(lengths: seq<nat>, l: nat): (n: nat)
    ensures n <= |lengths|
  {
    if lengths == [] then 0 else Count(lengths[..|lengths| - 1], l) + if lengths[|lengths| - 1] == l then 1 else 0
  }

  /** The first value past the codes of length l. */
  function Next(lengths: seq<nat>, l: nat): nat
    decreases l, 1
  {
    if l == 0 then 0 else FirstCode(lengths, l) + Count(lengths, l)
  }

  /** The smallest code of length l: `code = (code + bl_count[bits-1]) << 1`. */
  function FirstCode(lengths: seq<nat>, l: nat): nat
    requires l > 0
    decreases l, 0
  {
    2 * Next(lengths, l - 1)
  }

  predicate Coded(lengths: seq<nat>, s: nat) {
    s < |lengths| && 0 < lengths[s] <= MAX_BITS
  }

  /** How many smaller symbols have the same code length. */
  function Rank(lengths: seq<nat>, s: nat): nat
    requires s < |lengths|
  {
    Count(lengths[..s], lengths[s])
  }

  /** Symbols of one length get consecutive codes, in symbol order. */
  function Code(lengths: seq<nat>, s: nat): nat
    requires Coded(lengths, s)
  {
    FirstCode(lengths, lengths[s]) + Rank(lengths, s)
  }

  /** The symbol's code is what comes next in the stream. */
  predicate SymbolAt(bytes: seq<byte>, p: nat, lengths: seq<nat>, s: nat) {
    Coded(lengths, s) && p + lengths[s] <= 8 * |bytes| && Msb(bytes, p, lengths[s]) == Code(lengths, s)
  }

  lemma {:induction false} CountPrefix(lengths: seq<nat>, i: nat, j: nat, l: nat)
    requires i <= j <= |lengths|
    ensures Count(lengths[..i], l) <= Count(lengths[..j], l)
  {
    if i < j {
      CountPrefix(lengths, i, j - 1, l);
      assert lengths[..j][..j - 1] == lengths[..j - 1];
    }
  }

  lemma CountNext(lengths: seq<nat>, s: nat, l: nat)
    requires s < |lengths|
    ensures Count(lengths[..s + 1], l) == Count(lengths[..s], l) + if lengths[s] == l then 1 else 0
  {
    assert lengths[..s + 1][..s] == lengths[..s];
  }

  /** Ranks of one length are distinct and below its count. */
  lemma RankOrder(lengths: seq<nat>, s: nat, t: nat)
    requires s < t < |lengths| && lengths[s] == lengths[t]
    ensures Rank(lengths, s) < Rank(lengths, t) < Count(lengths, lengths[t])
  {
    var l := lengths[t];
    CountNext(lengths, s, l);
    CountPrefix(lengths, s + 1, t, l);
    RankBelow(lengths, t);
  }

  lemma RankBelow(lengths: seq<nat>, s: nat)
    requires s < |lengths|
    ensures Rank(lengths, s) < Count(lengths, lengths[s])
  {
    CountNext(lengths, s, lengths[s]);
    CountPrefix(lengths, s + 1, |lengths|, lengths[s]);
    assert lengths[..|lengths|] == lengths;
  }

  /** Every rank below the count is some symbol's. */
  lemma {:induction false} RankTaken(lengths: seq<nat>, l: nat, r: nat, n: nat) returns (s: nat)
    requires n <= |lengths| && r < Count(lengths[..n], l)
    ensures s < n && lengths[s] == l && Rank(lengths, s) == r
  {
    CountNext(lengths, n - 1, l);
    if lengths[n - 1] == l && r == Count(lengths[..n - 1], l) {
      s := n - 1;
    } else {
      s := RankTaken(lengths, l, r, n - 1);
    }
  }

  /** How many symbols have a shorter code. */
  function Offset(lengths: seq<nat>, l: nat): nat {
    if l <= 1 then 0 else Offset(lengths, l - 1) + Count(lengths, l - 1)
  }

  lemma {:induction false} OffsetGrows(lengths: seq<nat>, k: nat, l: nat)
    requires 0 < k < l
    ensures Offset(lengths, k) + Count(lengths, k) <= Offset(lengths, l)
  {
    if k < l - 1 {
      OffsetGrows(lengths, k, l - 1);
    }
  }

  /** Where a symbol stands in the table ordered by length, then symbol. */
  function Place(lengths: seq<nat>, s: nat): nat
    requires Coded(lengths, s)
  {
    Offset(lengths, lengths[s]) + Rank(lengths, s)
  }

  lemma PlaceFacts(lengths: seq<nat>, s: nat, t: nat)
    requires Coded(lengths, s) && Coded(lengths, t)
    ensures Place(lengths, s) < Offset(lengths, MAX_BITS + 1)
    ensures s != t ==> Place(lengths, s) != Place(lengths, t)
  {
    hide Offset, Count;
    RankBelow(lengths, s);
    RankBelow(lengths, t);
    OffsetGrows(lengths, lengths[s], MAX_BITS + 1);
    if s != t && lengths[s] == lengths[t] {
      RankOrder(lengths, Min(s, t), Max(s, t));
    } else if lengths[s] < lengths[t] {
      OffsetGrows(lengths, lengths[s], lengths[t]);
    } else if lengths[t] < lengths[s] {
      OffsetGrows(lengths, lengths[t], lengths[s]);
    }
  }

  // ---- building the tables -----------------------------------------------------------------------

  datatype Table = Table(counts: seq<nat>, symbols: seq<nat>)

  /** The table is the one for these lengths. */
  ghost predicate Built(h: Table, lengths: seq<nat>) {
    && |h.counts| == MAX_BITS + 1
    && (forall l :: 1 <= l <= MAX_BITS ==> h.counts[l] == Count(lengths, l))
    && |h.symbols| == Offset(lengths, MAX_BITS + 1)
    && (forall s: nat :: Coded(lengths, s) ==> Place(lengths, s) < |h.symbols| && h.symbols[Place(lengths, s)] == s)
  }

  predicate InRange(lengths: seq<nat>) {
    forall i :: 0 <= i < |lengths| ==> lengths[i] <= MAX_BITS
  }

  /** The share of the code space taken, in units of the longest code (the Kraft sum times 2^15). */
  function Kraft(lengths: seq<nat>): nat
    requires InRange(lengths)
  {
    if lengths == [] then 0 else
    var l := lengths[|lengths| - 1];
    Kraft(lengths[..|lengths| - 1]) + if l == 0 then 0 else Pow2(MAX_BITS - l)
  }

  /** The same sum, collected by code length up to l. */
  function KraftTo(lengths: seq<nat>, l: nat): nat
    requires l <= MAX_BITS
  {
    if l == 0 then 0 else KraftTo(lengths, l - 1) + Count(lengths, l) * Pow2(MAX_BITS - l)
  }

  lemma {:induction false} KraftPush(lengths: seq<nat>, x: nat, l: nat)
    requires l <= MAX_BITS && x <= MAX_BITS
    ensures KraftTo(lengths + [x], l) == KraftTo(lengths, l) + if 0 < x <= l then Pow2(MAX_BITS - x) else 0
  {
    if l > 0 {
      KraftPush(lengths, x, l - 1);
      assert (lengths + [x])[..|lengths|] == lengths;
      var w := Pow2(MAX_BITS - l);
      assert (Count(lengths, l) + 1) * w == Count(lengths, l) * w + w;
    }
  }

  lemma {:induction false} KraftByLength(lengths: seq<nat>)
    requires InRange(lengths)
    ensures Kraft(lengths) == KraftTo(lengths, MAX_BITS)
  {
    if lengths == [] {
      KraftNone(MAX_BITS);
    } else {
      var front, x := lengths[..|lengths| - 1], lengths[|lengths| - 1];
      KraftByLength(front);
      KraftPush(front, x, MAX_BITS);
      assert lengths == front + [x];
    }
  }

  lemma {:induction false} KraftNone(l: nat)
    requires l <= MAX_BITS
    ensures KraftTo([], l) == 0
  {
    if l > 0 {
      KraftNone(l - 1);
    }
  }

  /** The code values used up to length l, scaled to the longest code, are the Kraft sum so far. */
  lemma {:induction false} NextIsKraft(lengths: seq<nat>, l: nat)
    requires l <= MAX_BITS
    ensures Next(lengths, l) * Pow2(MAX_BITS - l) == KraftTo(lengths, l)
  {
    if l > 0 {
      NextIsKraft(lengths, l - 1);
      var w := Pow2(MAX_BITS - l);
      assert Pow2(MAX_BITS - (l - 1)) == 2 * w;
      NextStep(Next(lengths, l - 1), Count(lengths, l), w);
    }
  }

  lemma NextStep(next: nat, count: nat, w: nat)
    ensures (2 * next + count) * w == next * (2 * w) + count * w
  {
  }

  /** Once a level is over-full, all longer ones are. */
  lemma {:induction false} OverfullStays(lengths: seq<nat>, k: nat, l: nat)
    requires k <= l
    ensures Next(lengths, k) > Pow2(k) ==> Next(lengths, l) > Pow2(l)
  {
    if k < l {
      OverfullStays(lengths, k, l - 1);
    }
  }

  lemma NextAtEnd(lengths: seq<nat>)
    requires InRange(lengths)
    ensures Next(lengths, MAX_BITS) == Kraft(lengths)
  {
    hide Next, Kraft, KraftTo;
    KraftByLength(lengths);
    NextIsKraft(lengths, MAX_BITS);
  }

  /** What the builder accepts: a complete code, or where allowed a code of at most one symbol. */
  predicate Acceptable(lengths: seq<nat>, allowIncomplete: bool) {
    && InRange(lengths)
    && (Kraft(lengths) == Pow2(MAX_BITS) ||
        (Kraft(lengths) < Pow2(MAX_BITS) && allowIncomplete && |lengths| - Count(lengths, 0) <= 1))
  }

  /** Counts the lengths; fails on one beyond the maximum. */
  method Tally(lengths: seq<nat>) returns (counts: array<nat>, ok: bool)
    ensures fresh(counts) && counts.Length == MAX_BITS + 1
    ensures ok <==> InRange(lengths)
    ensures ok ==> forall l :: 0 <= l <= MAX_BITS ==> counts[l] == Count(lengths, l)
  {
    counts := new nat[MAX_BITS + 1](_ => 0);
    for s := 0 to |lengths|
      invariant InRange(lengths[..s])
      invariant forall l :: 0 <= l <= MAX_BITS ==> counts[l] == Count(lengths[..s], l)
    {
      if lengths[s] > MAX_BITS {
        return counts, false;
      }
      assert lengths[..s + 1][..s] == lengths[..s];
      counts[lengths[s]] := counts[lengths[s]] + 1;
    }
    assert lengths[..|lengths|] == lengths;
    ok := true;
  }

  /** The spare code space at the longest length; negative if the code is over-full. */
  method Spare(lengths: seq<nat>, counts: seq<nat>) returns (spare: int)
    requires |counts| == MAX_BITS + 1 && forall l :: 1 <= l <= MAX_BITS ==> counts[l] == Count(lengths, l)
    ensures spare >= 0 ==> spare == Pow2(MAX_BITS) - Next(lengths, MAX_BITS)
    ensures spare < 0 <==> Next(lengths, MAX_BITS) > Pow2(MAX_BITS)
  {
    hide Count;
    spare := 1;
    for l := 1 to MAX_BITS + 1
      invariant spare == Pow2(l - 1) - Next(lengths, l - 1) && spare >= 0
    {
      spare := 2 * spare - counts[l];
      assert spare == Pow2(l) - Next(lengths, l);
      if spare < 0 {
        OverfullStays(lengths, l, MAX_BITS);
        return;
      }
    }
  }

  lemma {:induction false} CodedCount(lengths: seq<nat>)
    requires InRange(lengths)
    ensures |lengths| - Count(lengths, 0) == Offset(lengths, MAX_BITS + 1)
  {
    if lengths == [] {
      OffsetNone(MAX_BITS + 1);
    } else {
      var front, x := lengths[..|lengths| - 1], lengths[|lengths| - 1];
      CodedCount(front);
      OffsetPush(front, x, MAX_BITS + 1);
      assert lengths == front + [x];
    }
  }

  lemma {:induction false} OffsetNone(l: nat)
    ensures Offset([], l) == 0
  {
    if l > 1 {
      OffsetNone(l - 1);
    }
  }

  lemma {:induction false} OffsetPush(lengths: seq<nat>, x: nat, l: nat)
    ensures Offset(lengths + [x], l) == Offset(lengths, l) + if 0 < x < l then 1 else 0
  {
    if l > 1 {
      OffsetPush(lengths, x, l - 1);
      assert (lengths + [x])[..|lengths|] == lengths;
    }
  }

  /** The table filled for the first n symbols. */
  ghost predicate Filled(lengths: seq<nat>, offsets: seq<nat>, symbols: seq<nat>, n: nat) {
    && n <= |lengths| && |offsets| == MAX_BITS + 2 && |symbols| == Offset(lengths, MAX_BITS + 1)
    && (forall l :: 1 <= l <= MAX_BITS ==> offsets[l] == Offset(lengths, l) + Count(lengths[..n], l))
    && (forall s: nat :: s < n && Coded(lengths, s) ==>
          Place(lengths, s) < |symbols| && symbols[Place(lengths, s)] == s)
  }

  lemma FillStarts(lengths: seq<nat>, offsets: seq<nat>, symbols: seq<nat>)
    requires |offsets| == MAX_BITS + 2 && |symbols| == Offset(lengths, MAX_BITS + 1)
    requires forall l :: 1 <= l <= MAX_BITS ==> offsets[l] == Offset(lengths, l)
    ensures Filled(lengths, offsets, symbols, 0)
  {
    hide Offset, Place;
  }

  lemma FillNext(lengths: seq<nat>, offsets: seq<nat>, symbols: seq<nat>, s: nat)
    requires Filled(lengths, offsets, symbols, s) && s < |lengths| && lengths[s] <= MAX_BITS
    ensures if lengths[s] == 0 then Filled(lengths, offsets, symbols, s + 1)
            else
              var at := offsets[lengths[s]];
              at < |symbols| && Filled(lengths, offsets[lengths[s] := at + 1], symbols[at := s], s + 1)
  {
    hide Offset, Count;
    forall l | 1 <= l <= MAX_BITS
      ensures Count(lengths[..s + 1], l) == Count(lengths[..s], l) + if lengths[s] == l then 1 else 0
    {
      CountNext(lengths, s, l);
    }
    if lengths[s] != 0 {
      assert Place(lengths, s) == offsets[lengths[s]];
      PlaceFacts(lengths, s, s);
      forall t: nat | t < s && Coded(lengths, t) ensures Place(lengths, t) != Place(lengths, s) {
        PlaceFacts(lengths, t, s);
      }
    }
  }

  /** Orders the coded symbols by length, then by symbol. */
  method SortSymbols(lengths: seq<nat>, counts: seq<nat>, coded: nat) returns (symbols: array<nat>)
    requires coded == |lengths| - Count(lengths, 0)
    requires InRange(lengths) && |counts| == MAX_BITS + 1 && forall l :: 1 <= l <= MAX_BITS ==>
               counts[l] == Count(lengths, l)
    ensures fresh(symbols) && Built(Table(counts, symbols[..]), lengths)
  {
    hide Count, Offset, Filled, Place, InRange, Built;
    var offsets := new nat[MAX_BITS + 2](_ => 0);
    OffsetStart(lengths);
    for l := 1 to MAX_BITS + 1
      invariant forall k :: 1 <= k <= l ==> offsets[k] == Offset(lengths, k)
    {
      OffsetNext(lengths, l);
      offsets[l + 1] := offsets[l] + counts[l];
    }
    CodedCount(lengths);
    symbols := new nat[coded](_ => 0);
    FillStarts(lengths, offsets[..], symbols[..]);
    for s := 0 to |lengths|
      invariant Filled(lengths, offsets[..], symbols[..], s)
    {
      InRangeAt(lengths, s);
      FilledSize(lengths, offsets[..], symbols[..], s);
      FillNext(lengths, offsets[..], symbols[..], s);
      ghost var was, had := offsets[..], symbols[..];
      if lengths[s] != 0 {
        var at := offsets[lengths[s]];
        symbols[at] := s;
        offsets[lengths[s]] := at + 1;
        assert symbols[..] == had[at := s] && offsets[..] == was[lengths[s] := at + 1];
      }
    }
    FillDone(lengths, offsets[..], symbols[..], counts);
  }

  /** Builds the table, or refuses lengths that are no acceptable code. */
  method Build(lengths: seq<nat>, allowIncomplete: bool) returns (r: Result<Table>)
    ensures r.Ok? <==> Acceptable(lengths, allowIncomplete)
    ensures r.Ok? ==> Built(r.value, lengths)
  {
    hide Count, Kraft, Next, Offset, InRange, Pow2, Built;
    var counts, ok := Tally(lengths);
    if !ok {
      return Err(BadCode);
    }
    NextAtEnd(lengths);
    var coded := |lengths| - counts[0];
    counts[0] := 0;
    var spare := Spare(lengths, counts[..]);
    if spare < 0 || (spare > 0 && !(allowIncomplete && coded <= 1)) {
      return Err(BadCode);
    }
    var symbols := SortSymbols(lengths, counts[..], coded);
    r := Ok(Table(counts[..], symbols[..]));
  }

  lemma InRangeAt(lengths: seq<nat>, s: nat)
    requires InRange(lengths) && s < |lengths|
    ensures lengths[s] <= MAX_BITS
  {
  }

  lemma OffsetStart(lengths: seq<nat>)
    ensures Offset(lengths, 1) == 0
  {
  }

  lemma OffsetNext(lengths: seq<nat>, l: nat)
    requires l > 0
    ensures Offset(lengths, l + 1) == Offset(lengths, l) + Count(lengths, l)
  {
  }

  lemma FilledSize(lengths: seq<nat>, offsets: seq<nat>, symbols: seq<nat>, s: nat)
    requires Filled(lengths, offsets, symbols, s)
    ensures |offsets| == MAX_BITS + 2
  {
  }

  lemma FillDone(lengths: seq<nat>, offsets: seq<nat>, symbols: seq<nat>, counts: seq<nat>)
    requires Filled(lengths, offsets, symbols, |lengths|) && |counts| == MAX_BITS + 1
    requires forall l :: 1 <= l <= MAX_BITS ==> counts[l] == Count(lengths, l)
    ensures Built(Table(counts, symbols), lengths)
  {
    hide Offset, Place, Count;
  }

  // ---- decoding ------------------------------------------------------------------------------------

  /** What the decoder knows after n bits: none of the shorter codes matched. */
  ghost predicate Unmatched(bytes: seq<byte>, p: nat, lengths: seq<nat>, n: nat) {
    p + n <= 8 * |bytes| && Msb(bytes, p, n) >= Next(lengths, n)
  }

  /** No symbol with a code of at most n bits comes next. */
  lemma UnmatchedNone(bytes: seq<byte>, p: nat, lengths: seq<nat>, n: nat, s: nat)
    requires Unmatched(bytes, p, lengths, n) && Coded(lengths, s) && lengths[s] <= n
    ensures !SymbolAt(bytes, p, lengths, s)
  {
    hide BitAt, Count;
    UnmatchedBefore(bytes, p, lengths, lengths[s], n);
    RankBelow(lengths, s);
  }

  lemma {:induction false} UnmatchedBefore(bytes: seq<byte>, p: nat, lengths: seq<nat>, k: nat, n: nat)
    requires Unmatched(bytes, p, lengths, n) && k <= n
    ensures Unmatched(bytes, p, lengths, k)
  {
    hide BitAt, Count;
    if k < n {
      assert FirstCode(lengths, n) == 2 * Next(lengths, n - 1);
      UnmatchedBefore(bytes, p, lengths, k, n - 1);
    }
  }

  /** A code that comes next is not cut short by a shorter one: the code is prefix-free. */
  lemma {:induction false} CodeUnmatched(bytes: seq<byte>, p: nat, lengths: seq<nat>, s: nat, k: nat)
    requires SymbolAt(bytes, p, lengths, s) && k < lengths[s]
    ensures Unmatched(bytes, p, lengths, k)
    decreases lengths[s] - k
  {
    hide BitAt, Count;
    var l := lengths[s];
    if k == l - 1 {
      assert FirstCode(lengths, l) == 2 * Next(lengths, l - 1);
    } else {
      CodeUnmatched(bytes, p, lengths, s, k + 1);
      assert FirstCode(lengths, k + 1) == 2 * Next(lengths, k);
    }
  }

  /** At most one symbol's code comes next. */
  lemma SymbolUnique(bytes: seq<byte>, p: nat, lengths: seq<nat>, s: nat, t: nat)
    requires SymbolAt(bytes, p, lengths, s) && SymbolAt(bytes, p, lengths, t)
    ensures s == t
  {
    hide BitAt, Count, Msb;
    if lengths[s] < lengths[t] {
      CodeUnmatched(bytes, p, lengths, t, lengths[s]);
      UnmatchedNone(bytes, p, lengths, lengths[s], s);
    } else if lengths[t] < lengths[s] {
      CodeUnmatched(bytes, p, lengths, s, lengths[t]);
      UnmatchedNone(bytes, p, lengths, lengths[t], t);
    } else if s != t {
      RankOrder(lengths, Min(s, t), Max(s, t));
    }
  }

  /** What the decoder does with the bits left. */
  ghost predicate Decoded(bytes: seq<byte>, p: nat, q: nat, lengths: seq<nat>, r: Result<nat>) {
    match r
    case Ok(s) => SymbolAt(bytes, p, lengths, s) && q == p + lengths[s]
    case Err(e) =>
      && (forall s: nat :: !SymbolAt(bytes, p, lengths, s))
      && (e == Truncated ==> p + MAX_BITS > 8 * |bytes|)
      && (e != Truncated ==>
            e == BadCode && p + MAX_BITS <= 8 * |bytes| && Msb(bytes, p, MAX_BITS) >= Next(lengths, MAX_BITS))
  }

  /**
   * Reads one symbol: bit by bit, comparing with the first code of each length. Succeeds exactly
   * when the code of some symbol comes next, returns that symbol and takes exactly its code.
   */
  method Decode(reader: BitReader, h: Table, ghost lengths: seq<nat>) returns (r: Result<nat>)
    requires reader.Valid() && Built(h, lengths)
    modifies reader
    ensures reader.Valid() && old(reader.bit) <= reader.bit
    ensures Decoded(reader.bytes, old(reader.bit), reader.bit, lengths, r)
  {
    hide BitAt, Count, Msb, Lsb, Next, Offset, Place, Built, Unmatched, Decoded;
    ghost var bytes, p := reader.bytes, reader.bit;
    var code, first, index := 0, 0, 0;
    DecodeStarts(bytes, p, lengths);
    BuiltSizes(h, lengths);
    for l := 1 to MAX_BITS + 1
      invariant reader.Valid() && reader.bit == p + l - 1
      invariant Unmatched(bytes, p, lengths, l - 1)
      invariant p + l - 1 <= 8 * |bytes| && code == 2 * Msb(bytes, p, l - 1)
      invariant first == FirstCode(lengths, l) && index == Offset(lengths, l)
    {
      var bit := reader.Take(1);
      if bit.Err? {
        DecodeTruncated(bytes, p, lengths, l - 1);
        return Err(Truncated);
      }
      DecodeBit(bytes, p, l, lengths);
      code := code + bit.value;
      var count := h.counts[l];
      BuiltAt(h, lengths, l, code - first);
      if code - first < count {
        DecodeFound(bytes, p, lengths, l, h, code);
        return Ok(h.symbols[index + code - first]);
      }
      DecodeOn(bytes, p, lengths, l);
      index := index + count;
      first := 2 * (first + count);
      code := 2 * code;
    }
    DecodeUnknown(bytes, p, lengths);
    r := Err(BadCode);
  }

  lemma DecodeStarts(bytes: seq<byte>, p: nat, lengths: seq<nat>)
    requires p <= 8 * |bytes|
    ensures Unmatched(bytes, p, lengths, 0) && Msb(bytes, p, 0) == 0 && FirstCode(lengths, 1) == 0 &&
            Offset(lengths, 1) == 0
  {
  }

  lemma BuiltSizes(h: Table, lengths: seq<nat>)
    requires Built(h, lengths)
    ensures |h.counts| == MAX_BITS + 1
  {
  }

  lemma DecodeBit(bytes: seq<byte>, p: nat, l: nat, lengths: seq<nat>)
    requires l > 0 && p + l <= 8 * |bytes| && Unmatched(bytes, p, lengths, l - 1)
    ensures Lsb(bytes, p + l - 1, 1) == BitAt(bytes, p + l - 1)
    ensures Msb(bytes, p, l) == 2 * Msb(bytes, p, l - 1) + BitAt(bytes, p + l - 1)
    ensures Msb(bytes, p, l) >= FirstCode(lengths, l)
  {
    hide BitAt;
    assert Pow2(0) == 1 && Lsb(bytes, p + l - 1, 0) == 0;
  }

  /** The table entry for a code of length l is the symbol with that code. */
  lemma BuiltAt(h: Table, lengths: seq<nat>, l: nat, r: nat)
    requires Built(h, lengths) && 1 <= l <= MAX_BITS
    ensures h.counts[l] == Count(lengths, l)
    ensures r < Count(lengths, l) ==>
              && Offset(lengths, l) + r < |h.symbols|
              && var s := h.symbols[Offset(lengths, l) + r];
              Coded(lengths, s) && lengths[s] == l && Rank(lengths, s) == r
  {
    hide Offset, Count;
    if r < Count(lengths, l) {
      assert lengths[..|lengths|] == lengths;
      var s := RankTaken(lengths, l, r, |lengths|);
      assert Coded(lengths, s);
    }
  }

  lemma DecodeFound(bytes: seq<byte>, p: nat, lengths: seq<nat>, l: nat, h: Table, code: nat)
    requires Built(h, lengths) && 1 <= l <= MAX_BITS && p + l <= 8 * |bytes| && code == Msb(bytes, p, l)
    requires FirstCode(lengths, l) <= code < FirstCode(lengths, l) + Count(lengths, l)
    ensures Offset(lengths, l) + code - FirstCode(lengths, l) < |h.symbols|
    ensures Decoded(bytes, p, p + l, lengths, Ok(h.symbols[Offset(lengths, l) + code - FirstCode(lengths, l)]))
  {
    hide Offset, Count, Built, Msb;
    BuiltAt(h, lengths, l, code - FirstCode(lengths, l));
  }

  lemma DecodeOn(bytes: seq<byte>, p: nat, lengths: seq<nat>, l: nat)
    requires l > 0 && p + l <= 8 * |bytes| && Msb(bytes, p, l) >= FirstCode(lengths, l) + Count(lengths, l)
    ensures Unmatched(bytes, p, lengths, l) && Offset(lengths, l + 1) == Offset(lengths, l) + Count(lengths, l)
    ensures FirstCode(lengths, l + 1) == 2 * (FirstCode(lengths, l) + Count(lengths, l))
  {
  }

  lemma DecodeTruncated(bytes: seq<byte>, p: nat, lengths: seq<nat>, n: nat)
    requires Unmatched(bytes, p, lengths, n) && p + n == 8 * |bytes| && n < MAX_BITS
    ensures Decoded(bytes, p, 8 * |bytes|, lengths, Err(Truncated))
  {
    hide Unmatched;
    forall s: nat ensures !SymbolAt(bytes, p, lengths, s) {
      if Coded(lengths, s) && lengths[s] <= n {
        UnmatchedNone(bytes, p, lengths, n, s);
      }
    }
  }

  lemma DecodeUnknown(bytes: seq<byte>, p: nat, lengths: seq<nat>)
    requires Unmatched(bytes, p, lengths, MAX_BITS)
    ensures Decoded(bytes, p, p + MAX_BITS, lengths, Err(BadCode))
  {
    hide Msb, Next;
    forall s: nat ensures !SymbolAt(bytes, p, lengths, s) {
      if Coded(lengths, s) {
        UnmatchedNone(bytes, p, lengths, MAX_BITS, s);
      }
    }
  }

  /** A complete code never meets an unknown code while 15 bits are left (Kraft equality). */
  lemma CompleteNeverUnknown(bytes: seq<byte>, p: nat, q: nat, lengths: seq<nat>, r: Result<nat>)
    requires InRange(lengths) && Kraft(lengths) == Pow2(MAX_BITS) && Decoded(bytes, p, q, lengths, r)
    ensures p + MAX_BITS <= 8 * |bytes| ==> r.Ok?
    ensures r.Err? ==> r.error == Truncated
  {
    hide Kraft, Next, Pow2;
    NextAtEnd(lengths);
  }

  lemma UnknownCode(bytes: seq<byte>, p: nat, lengths: seq<nat>)
    requires InRange(lengths) && p + MAX_BITS <= 8 * |bytes| && Msb(bytes, p, MAX_BITS) >= Kraft(lengths)
    ensures forall s: nat :: !SymbolAt(bytes, p, lengths, s)
  {
    hide Kraft, Next, Pow2, Msb;
    NextAtEnd(lengths);
    DecodeUnknown(bytes, p, lengths);
  }

  /** The largest number of n bits. */
  lemma {:induction false} AllOnes(n: nat)
    requires n <= 16
    ensures Msb([255, 255], 0, n) == Pow2(n) - 1
  {
    if n > 0 {
      AllOnes(n - 1);
      OneBit(n - 1);
    }
  }

  lemma OneBit(p: nat)
    requires p < 16
    ensures BitAt([255, 255], p) == 1
  {
    assert Pow2(0) == 1 && Pow2(1) == 2 && Pow2(2) == 4 && Pow2(3) == 8;
    assert Pow2(4) == 16 && Pow2(5) == 32 && Pow2(6) == 64 && Pow2(7) == 128;
    var k := p % 8;
    assert k == 0 || k == 1 || k == 2 || k == 3 || k == 4 || k == 5 || k == 6 || k == 7;
  }

  /**
   * A code that is not over-full leaves a string of 15 bits that no symbol's code begins exactly
   * when it is incomplete: all ones.
   */
  lemma IncompleteHasUnknown(lengths: seq<nat>)
    requires InRange(lengths) && Kraft(lengths) <= Pow2(MAX_BITS)
    ensures Kraft(lengths) < Pow2(MAX_BITS) <==> forall s: nat :: !SymbolAt([255, 255], 0, lengths, s)
  {
    hide Kraft, Next, Pow2, Msb;
    AllOnes(MAX_BITS);
    if Kraft(lengths) < Pow2(MAX_BITS) {
      UnknownCode([255, 255], 0, lengths);
    } else {
      CompleteCovers([255, 255], 0, lengths);
    }
  }

  lemma {:induction false} NoneUnmatched(bytes: seq<byte>, p: nat, lengths: seq<nat>, n: nat)
    requires n <= MAX_BITS && p + n <= 8 * |bytes| && forall s: nat :: !SymbolAt(bytes, p, lengths, s)
    ensures Unmatched(bytes, p, lengths, n)
  {
    hide Msb, Count, SymbolAt, Next, Unmatched;
    if n == 0 {
      DecodeStarts(bytes, p, lengths);
    } else {
      NoneUnmatched(bytes, p, lengths, n - 1);
      DecodeBit(bytes, p, n, lengths);
      if Msb(bytes, p, n) < FirstCode(lengths, n) + Count(lengths, n) {
        RankedSymbol(bytes, p, lengths, n);
      } else {
        DecodeOn(bytes, p, lengths, n);
      }
    }
  }

  lemma RankedSymbol(bytes: seq<byte>, p: nat, lengths: seq<nat>, n: nat)
    requires 1 <= n <= MAX_BITS && p + n <= 8 * |bytes|
    requires FirstCode(lengths, n) <= Msb(bytes, p, n) < FirstCode(lengths, n) + Count(lengths, n)
    ensures exists s: nat :: SymbolAt(bytes, p, lengths, s)
  {
    hide Msb, Count, Next;
    assert lengths[..|lengths|] == lengths;
    var s := RankTaken(lengths, n, Msb(bytes, p, n) - FirstCode(lengths, n), |lengths|);
    assert SymbolAt(bytes, p, lengths, s);
  }

  /** With a complete code some symbol's code comes next. */
  lemma CompleteCovers(bytes: seq<byte>, p: nat, lengths: seq<nat>)
    requires InRange(lengths) && Kraft(lengths) == Pow2(MAX_BITS) && p + MAX_BITS <= 8 * |bytes|
    ensures exists s: nat :: SymbolAt(bytes, p, lengths, s)
  {
    hide Kraft, Next, Pow2, Msb, SymbolAt;
    if forall s: nat :: !SymbolAt(bytes, p, lengths, s) {
      NoneUnmatched(bytes, p, lengths, MAX_BITS);
      NextAtEnd(lengths);
    }
  }
}

/**
 * The sort key of a catalog record (src/apfs_write.rs `record_sort_key`, src/apfs_replace.rs
 * `catalog_sort_key`) against the order the verifier demands (src/apfs_verify.rs `RecordTail`).
 */
module SortKey {
  import opened Bytes
  import opened DirectoryKey

  const J_XATTR: nat := 4
  const J_SIBLING_LINK: nat := 5
  const J_FILE_EXTENT: nat := 8
  const J_SNAP_NAME: nat := 11

  // ---- orders ----------------------------------------------------------------------------------------

  /** Byte strings in dictionary order, as `Vec<u8>` compares. */
  predicate LexLess(a: seq<byte>, b: seq<byte>) {
    b != [] && (a == [] || a[0] < b[0] || (a[0] == b[0] && LexLess(a[1..], b[1..])))
  }

  lemma {:induction false} LexTrichotomy(a: seq<byte>, b: seq<byte>)
    ensures a == b || LexLess(a, b) || LexLess(b, a)
    ensures !(LexLess(a, b) && LexLess(b, a)) && !LexLess(a, a)
  {
    if a != [] && b != [] {
      LexTrichotomy(a[1..], b[1..]);
      assert a == [a[0]] + a[1..] && b == [b[0]] + b[1..];
    }
    LexNotSelf(a);
  }

  lemma {:induction false} LexNotSelf(a: seq<byte>)
    ensures !LexLess(a, a)
  {
    if a != [] {
      LexNotSelf(a[1..]);
    }
  }

  /** The n big-endian bytes of v. */
  function BeBytes(v: nat, n: nat): (s: seq<byte>)
    requires v < Pow256(n)
    ensures |s| == n
  {
    if n == 0 then [] else BeBytes(v / 256, n - 1) + [v % 256]
  }

  /** Big-endian bytes in front of a string: the number decides, then the string. */
  lemma {:induction false} BeOrder(x: nat, y: nat, n: nat, s: seq<byte>, t: seq<byte>)
    requires x < Pow256(n) && y < Pow256(n)
    ensures LexLess(BeBytes(x, n) + s, BeBytes(y, n) + t) <==> x < y || (x == y && LexLess(s, t))
    ensures BeBytes(x, n) + s == BeBytes(y, n) + t <==> x == y && s == t
    decreases n
  {
    hide LexLess;
    if n == 0 {
      assert BeBytes(x, n) + s == s && BeBytes(y, n) + t == t;
    } else {
      var a, b := [x % 256] + s, [y % 256] + t;
      BeOrder(x / 256, y / 256, n - 1, a, b);
      ConcatAssoc(BeBytes(x / 256, n - 1), [x % 256], s);
      ConcatAssoc(BeBytes(y / 256, n - 1), [y % 256], t);
      OneByte(x % 256, y % 256, s, t);
    }
  }

  lemma OneByte(x: byte, y: byte, s: seq<byte>, t: seq<byte>)
    ensures LexLess([x] + s, [y] + t) <==> x < y || (x == y && LexLess(s, t))
    ensures [x] + s == [y] + t <==> x == y && s == t
  {
    var a, b := [x] + s, [y] + t;
    assert a[0] == x && a[1..] == s && b[0] == y && b[1..] == t;
  }

  // ---- keys ------------------------------------------------------------------------------------------

  function Header(key: seq<byte>): nat
    requires |key| >= 8
  {
    U64At(key, 0)
  }

  function ObjectId(key: seq<byte>): nat
    requires |key| >= 8
  {
    Header(key) % ID_SPAN
  }

  function Kind(key: seq<byte>): nat
    requires |key| >= 8
  {
    Header(key) / ID_SPAN
  }

  /** What records are sorted by: object id, kind and a byte string. */
  datatype Sort = Sort(id: nat, kind: nat, tail: seq<byte>)

  predicate SortLess(a: Sort, b: Sort) {
    a.id < b.id || (a.id == b.id && (a.kind < b.kind || (a.kind == b.kind && LexLess(a.tail, b.tail))))
  }

  /** `record_sort_key`. */
  function RecordSortKey(key: seq<byte>): Sort
    requires |key| >= 8
  {
    var kind := Kind(key);
    var tail :=
      if kind == J_DIR_REC && |key| >= 12 then HashBytes(key) + key[12..]
      else if (kind == J_XATTR || kind == J_SNAP_NAME) && |key| >= 10 then key[10..]
      else if (kind == J_SIBLING_LINK || kind == J_FILE_EXTENT) && |key| >= 16 then NumberBytes(key)
      else key[8..];
    Sort(ObjectId(key), kind, tail)
  }

  function HashBytes(key: seq<byte>): seq<byte>
    requires |key| >= 12
  {
    Widths();
    BeBytes(U32At(key, 8) / 1024, 4)
  }

  function NumberBytes(key: seq<byte>): seq<byte>
    requires |key| >= 16
  {
    Widths();
    BeBytes(U64At(key, 8), 8)
  }

  /** `catalog_sort_key`. */
  function CatalogSortKey(key: seq<byte>, layout: KeyLayout): Sort
    requires |key| >= 8
  {
    if layout == Plain && |key| >= 10 && Kind(key) == J_DIR_REC then Sort(ObjectId(key), J_DIR_REC, key[10..])
    else RecordSortKey(key)
  }

  /** What the verifier compares after object id and kind. */
  datatype Tail = Number(v: nat) | Named(prefix: nat, name: seq<byte>) | Raw(bytes: seq<byte>)

  function TailOf(key: seq<byte>, layout: KeyLayout): Tail
    requires |key| >= 8
  {
    var kind := Kind(key);
    if kind == J_DIR_REC && |key| >= NameOffset(layout) then
      Named(if layout == Plain then 0 else U32At(key, 8) / 1024, key[NameOffset(layout)..])
    else if (kind == J_XATTR || kind == J_SNAP_NAME) && |key| >= 10 then Named(0, key[10..])
    else if (kind == J_SIBLING_LINK || kind == J_FILE_EXTENT) && |key| >= 16 then Number(U64At(key, 8))
    else Raw(key[8..])
  }

  /** The derived order of `RecordTail`: numbers, then names, then other bytes. */
  predicate TailLess(a: Tail, b: Tail) {
    match (a, b)
    case (Number(v), Number(w)) => v < w
    case (Named(p, s), Named(q, t)) => p < q || (p == q && LexLess(s, t))
    case (Raw(s), Raw(t)) => LexLess(s, t)
    case (Number(_), _) => true
    case (Named(_, _), Raw(_)) => true
    case (_, _) => false
  }

  /** The strict order the verifier demands of neighbouring records. */
  predicate VerifierLess(a: seq<byte>, b: seq<byte>, layout: KeyLayout)
    requires |a| >= 8 && |b| >= 8
  {
    ObjectId(a) < ObjectId(b) ||
    (ObjectId(a) == ObjectId(b) &&
     (Kind(a) < Kind(b) || (Kind(a) == Kind(b) && TailLess(TailOf(a, layout), TailOf(b, layout)))))
  }

  /** The key holds at least the fixed part of its kind. */
  predicate LongEnough(key: seq<byte>, layout: KeyLayout) {
    && |key| >= 8
    && (Kind(key) == J_DIR_REC ==> |key| >= NameOffset(layout))
    && (Kind(key) == J_XATTR || Kind(key) == J_SNAP_NAME ==> |key| >= 10)
    && (Kind(key) == J_SIBLING_LINK || Kind(key) == J_FILE_EXTENT ==> |key| >= 16)
  }

  /** Sorting by the key is sorting in the verifier's order: the key is an order embedding. */
  lemma OrderEmbedding(a: seq<byte>, b: seq<byte>, layout: KeyLayout)
    requires LongEnough(a, layout) && LongEnough(b, layout)
    ensures SortLess(CatalogSortKey(a, layout), CatalogSortKey(b, layout)) <==> VerifierLess(a, b, layout)
    ensures CatalogSortKey(a, layout) == CatalogSortKey(b, layout) <==>
            ObjectId(a) == ObjectId(b) && Kind(a) == Kind(b) && TailOf(a, layout) == TailOf(b, layout)
  {
    hide LexLess, BeBytes, Pow256, U32At, U64At;
    if Kind(a) == Kind(b) {
      if Kind(a) == J_DIR_REC && layout == Hashed {
        HashOrder(a, b);
      } else if Kind(a) == J_SIBLING_LINK || Kind(a) == J_FILE_EXTENT {
        NumberOrder(a, b);
      }
    }
  }

  lemma HashOrder(a: seq<byte>, b: seq<byte>)
    requires |a| >= 12 && |b| >= 12
    ensures var x, y := U32At(a, 8) / 1024, U32At(b, 8) / 1024;
            && (LexLess(HashBytes(a) + a[12..], HashBytes(b) + b[12..]) <==>
                x < y || (x == y && LexLess(a[12..], b[12..])))
            && (HashBytes(a) + a[12..] == HashBytes(b) + b[12..] <==> x == y && a[12..] == b[12..])
  {
    hide LexLess, BeBytes, U32At, Pow256;
    Widths();
    BeOrder(U32At(a, 8) / 1024, U32At(b, 8) / 1024, 4, a[12..], b[12..]);
  }

  lemma NumberOrder(a: seq<byte>, b: seq<byte>)
    requires |a| >= 16 && |b| >= 16
    ensures LexLess(NumberBytes(a), NumberBytes(b)) <==> U64At(a, 8) < U64At(b, 8)
    ensures NumberBytes(a) == NumberBytes(b) <==> U64At(a, 8) == U64At(b, 8)
  {
    hide BeBytes, U64At, Pow256;
    Widths();
    BeOrder(U64At(a, 8), U64At(b, 8), 8, [], []);
    assert NumberBytes(a) + [] == NumberBytes(a) && NumberBytes(b) + [] == NumberBytes(b);
    assert !LexLess([], []);
  }

  // ---- sorted lists ------------------------------------------------------------------------------------

  predicate AllLong(keys: seq<seq<byte>>, layout: KeyLayout) {
    forall i :: 0 <= i < |keys| ==> LongEnough(keys[i], layout)
  }

  /** The order a sort by the key leaves. */
  predicate SortedByKey(keys: seq<seq<byte>>, layout: KeyLayout)
    requires AllLong(keys, layout)
  {
    forall i, j :: 0 <= i < j < |keys| ==> !SortLess(CatalogSortKey(keys[j], layout), CatalogSortKey(keys[i], layout))
  }

  /** The verifier's check of neighbours. */
  predicate StrictlyOrdered(keys: seq<seq<byte>>, layout: KeyLayout)
    requires AllLong(keys, layout)
  {
    forall i :: 0 < i < |keys| ==> VerifierLess(keys[i - 1], keys[i], layout)
  }

  lemma SortTotal(a: Sort, b: Sort)
    ensures a == b || SortLess(a, b) || SortLess(b, a)
    ensures !(SortLess(a, b) && SortLess(b, a)) && !SortLess(a, a)
  {
    LexTrichotomy(a.tail, b.tail);
    LexNotSelf(a.tail);
  }

  /** A sorted list passes the verifier exactly when neighbours have different sort keys. */
  lemma SortedPasses(keys: seq<seq<byte>>, layout: KeyLayout)
    requires AllLong(keys, layout) && SortedByKey(keys, layout)
    ensures StrictlyOrdered(keys, layout) <==>
            forall i :: 0 < i < |keys| ==> CatalogSortKey(keys[i - 1], layout) != CatalogSortKey(keys[i], layout)
  {
    hide SortLess, VerifierLess, CatalogSortKey, Kind;
    forall i | 0 < i < |keys|
      ensures VerifierLess(keys[i - 1], keys[i], layout) <==>
                CatalogSortKey(keys[i - 1], layout) != CatalogSortKey(keys[i], layout)
    {
      var a, b := keys[i - 1], keys[i];
      EmbeddedLess(a, b, layout);
      SortTotal(CatalogSortKey(a, layout), CatalogSortKey(b, layout));
    }
  }

  lemma EmbeddedLess(a: seq<byte>, b: seq<byte>, layout: KeyLayout)
    requires LongEnough(a, layout) && LongEnough(b, layout)
    ensures |a| >= 8 && |b| >= 8
    ensures SortLess(CatalogSortKey(a, layout), CatalogSortKey(b, layout)) <==> VerifierLess(a, b, layout)
  {
    hide SortLess, VerifierLess, CatalogSortKey;
    OrderEmbedding(a, b, layout);
  }

  /** The key is exactly as long as it says. */
  predicate ExactKey(key: seq<byte>, layout: KeyLayout) {
    && LongEnough(key, layout)
    && (Kind(key) == J_DIR_REC && layout == Hashed ==> U32At(key, 8) % 1024 == |key| - 12)
    && (Kind(key) == J_DIR_REC && layout == Plain ==> U16At(key, 8) == |key| - 10)
    && (Kind(key) == J_XATTR || Kind(key) == J_SNAP_NAME ==> U16At(key, 8) == |key| - 10)
    && (Kind(key) == J_SIBLING_LINK || Kind(key) == J_FILE_EXTENT ==> |key| == 16)
  }

  /** Numbers read from equal positions are equal only if the bytes are. */
  lemma SameBytes(a: seq<byte>, b: seq<byte>)
    requires |a| == |b| && Le(a) == Le(b)
    ensures a == b
  {
    LeBytesRoundTrip(a);
    LeBytesRoundTrip(b);
  }

  /** Different well-formed keys have different sort keys, so sorting them always passes the verifier. */
  lemma DistinctSortKeys(a: seq<byte>, b: seq<byte>, layout: KeyLayout)
    requires ExactKey(a, layout) && ExactKey(b, layout) && CatalogSortKey(a, layout) == CatalogSortKey(b, layout)
    ensures a == b
  {
    hide BeBytes, Le, LexLess;
    OrderEmbedding(a, b, layout);
    assert Header(a) == Header(b);
    SameBytes(a[0..8], b[0..8]);
    if Kind(a) == J_DIR_REC && layout == Hashed {
      assert |a[12..]| == |b[12..]|;
      assert U32At(a, 8) == U32At(b, 8);
      SameBytes(a[8..12], b[8..12]);
      Pieces(a, b, 12);
    } else if Kind(a) == J_DIR_REC || Kind(a) == J_XATTR || Kind(a) == J_SNAP_NAME {
      assert |a[10..]| == |b[10..]|;
      assert U16At(a, 8) == U16At(b, 8);
      SameBytes(a[8..10], b[8..10]);
      Pieces(a, b, 10);
    } else if Kind(a) == J_SIBLING_LINK || Kind(a) == J_FILE_EXTENT {
      SameBytes(a[8..16], b[8..16]);
      Pieces(a, b, 16);
    } else {
      Pieces(a, b, 8);
    }
  }

  lemma Pieces(a: seq<byte>, b: seq<byte>, n: nat)
    requires 8 <= n <= |a| && n <= |b| && a[0..8] == b[0..8] && a[8..n] == b[8..n] && a[n..] == b[n..]
    ensures a == b
  {
    assert a == a[0..8] + a[8..n] + a[n..] && b == b[0..8] + b[8..n] + b[n..];
  }

  /** Sorting distinct well-formed keys always passes the verifier's strict check. */
  lemma DistinctKeysPass(keys: seq<seq<byte>>, layout: KeyLayout)
    requires forall i :: 0 <= i < |keys| ==> ExactKey(keys[i], layout)
    requires forall i, j :: 0 <= i < j < |keys| ==> keys[i] != keys[j]
    requires AllLong(keys, layout) && SortedByKey(keys, layout)
    ensures StrictlyOrdered(keys, layout)
  {
    hide SortLess, VerifierLess, CatalogSortKey, Kind, ExactKey, SortedByKey;
    SortedPasses(keys, layout);
    forall i | 0 < i < |keys| ensures CatalogSortKey(keys[i - 1], layout) != CatalogSortKey(keys[i], layout) {
      if CatalogSortKey(keys[i - 1], layout) == CatalogSortKey(keys[i], layout) {
        DistinctSortKeys(keys[i - 1], keys[i], layout);
      }
    }
  }

  /** On plain names the hashed key can disagree with the verifier: it compares the wrong bytes. */
  lemma PlainNamesNeedOwnKey(head: seq<byte>)
    requires |head| == 8 && Kind(head) == J_DIR_REC
    ensures var a, b := head + [4, 0, 1, 9, 9, 0], head + [4, 0, 2, 0, 0, 0];
            && Kind(a) == J_DIR_REC && Kind(b) == J_DIR_REC
            && VerifierLess(a, b, Plain) && !SortLess(RecordSortKey(a), RecordSortKey(b))
  {
    var a, b := head + [4, 0, 1, 9, 9, 0], head + [4, 0, 2, 0, 0, 0];
    assert a[0..8] == head && b[0..8] == head && head[0..8] == head;
    assert a[10..][0] == 1 && b[10..][0] == 2;
    FourBytes(a[8..12], 4, 0, 1, 9);
    FourBytes(b[8..12], 4, 0, 2, 0);
    HashOrder(a, b);
  }

  /** A plain directory key of at least two name bytes, exactly as long as its length field says. */
  predicate PlainKey(key: seq<byte>) {
    |key| >= 12 && Kind(key) == J_DIR_REC && U16At(key, 8) == |key| - 10 && |key| < 1034
  }

  /** The first two name bytes do not pull in different directions. */
  predicate SameDirection(a: seq<byte>, b: seq<byte>) {
    |a| >= 12 && |b| >= 12 && (a[10] == b[10] || a[11] == b[11] || (a[10] < b[10] <==> a[11] < b[11]))
  }

  /** What the hashed sort key takes for a hash is the two first name bytes, the second one first. */
  lemma PlainHash(key: seq<byte>)
    requires |key| >= 12 && U16At(key, 8) < 1024
    ensures var p: int, q: int := key[10], key[11];
            U32At(key, 8) / 1024 == 64 * p + 16384 * q
  {
    FourBytes(key[8..12], key[8], key[9], key[10], key[11]);
    TwoBytes(key[8..10], key[8], key[9]);
  }

  lemma TwoBytes(s: seq<byte>, p: byte, q: byte)
    requires s == [p, q]
    ensures Le(s) == p + 256 * q
  {
    assert Le(s[2..]) == 0;
    assert Le(s[1..]) == q;
  }

  /**
   * On two plain names of one directory the hashed sort key orders as the verifier does exactly
   * when the first two bytes of the names do not pull in different directions.
   */
  lemma PlainNamesOrder(a: seq<byte>, b: seq<byte>)
    requires |a| >= 12 && |b| >= 12 && ObjectId(a) == ObjectId(b) && Kind(a) == J_DIR_REC && Kind(b) == J_DIR_REC
    requires U16At(a, 8) < 1024 && U16At(b, 8) < 1024
    ensures (SortLess(RecordSortKey(a), RecordSortKey(b)) <==> VerifierLess(a, b, Plain)) <==> SameDirection(a, b)
    ensures RecordSortKey(a) == RecordSortKey(b) <==> a[10..] == b[10..]
  {
    hide LexLess, U32At, U16At, BeBytes;
    PlainHash(a);
    PlainHash(b);
    HashOrder(a, b);
    OneByte(a[11], b[11], a[12..], b[12..]);
    OneByte(a[10], b[10], [a[11]] + a[12..], [b[11]] + b[12..]);
    assert a[10..] == [a[10]] + ([a[11]] + a[12..]) && b[10..] == [b[10]] + ([b[11]] + b[12..]);
    TwoDigits(a[10], a[11], b[10], b[11]);
  }

  lemma TwoDigits(p: int, q: int, r: int, t: int)
    requires 0 <= p < 256 && 0 <= q < 256 && 0 <= r < 256 && 0 <= t < 256
    ensures 64 * p + 16384 * q < 64 * r + 16384 * t <==> q < t || (q == t && p < r)
    ensures 64 * p + 16384 * q == 64 * r + 16384 * t <==> p == r && q == t
  {
  }

  /** The order `ensure_file_records` leaves the entries of a directory in, whatever the layout. */
  predicate SortedAsHashed(keys: seq<seq<byte>>)
    requires forall i :: 0 <= i < |keys| ==> |keys[i]| >= 8
  {
    forall i, j :: 0 <= i < j < |keys| ==> !SortLess(RecordSortKey(keys[j]), RecordSortKey(keys[i]))
  }

  /**
   * Different entries of one plain directory, sorted by the hashed key, pass the verifier exactly
   * when no two neighbours pull in different directions.
   */
  lemma PlainListPasses(keys: seq<seq<byte>>, id: nat)
    requires forall i :: 0 <= i < |keys| ==> PlainKey(keys[i]) && ObjectId(keys[i]) == id
    requires forall i, j :: 0 <= i < j < |keys| ==> keys[i] != keys[j]
    requires AllLong(keys, Plain) && SortedAsHashed(keys)
    ensures StrictlyOrdered(keys, Plain) <==> forall i :: 0 < i < |keys| ==> SameDirection(keys[i - 1], keys[i])
  {
    hide SortLess, VerifierLess, RecordSortKey, SameDirection;
    forall i | 0 < i < |keys|
      ensures VerifierLess(keys[i - 1], keys[i], Plain) <==> SameDirection(keys[i - 1], keys[i])
    {
      var a, b := keys[i - 1], keys[i];
      PlainNamesOrder(a, b);
      SortTotal(RecordSortKey(a), RecordSortKey(b));
      if a[10..] == b[10..] {
        PlainDiffer(a, b);
      }
    }
  }

  lemma PlainDiffer(a: seq<byte>, b: seq<byte>)
    requires PlainKey(a) && PlainKey(b) && ObjectId(a) == ObjectId(b) && a[10..] == b[10..]
    ensures a == b
  {
    hide Le;
    SameBytes(a[0..8], b[0..8]);
    SameBytes(a[8..10], b[8..10]);
    Pieces(a, b, 10);
  }

  lemma FourBytes(s: seq<byte>, p: byte, q: byte, r: byte, t: byte)
    requires s == [p, q, r, t]
    ensures Le(s) == p + 256 * (q + 256 * (r + 256 * t))
  {
    assert Le(s[4..]) == 0;
    assert Le(s[3..]) == t;
    assert Le(s[2..]) == r + 256 * t;
    assert Le(s[1..]) == q + 256 * (r + 256 * t);
  }
}

/** Bytes, little-endian integers and the error type shared by every module. */
module Bytes {

  type byte = x: int | 0 <= x < 256

  /** Why an operation is refused; the source's message texts are not modelled. */
  datatype Fault =
    | Capacity | RecordSize | OutsideContainer | RepeatedBlock | BadChecksum | Malformed
    | ShortRecord | Unmapped | NoSpace | Overflow | Underflow | Overlap | WrongLevel | TooLong
    | Unsupported | NotFound | WrongType | Truncated | BadCode | TooFar | TooLarge

  datatype Result<+T> = Ok(value: T) | Err(error: Fault)

  datatype Option<+T> = None | Some(value: T)

  const U16: int := 0x1_0000
  const U32: int := 0x1_0000_0000
  const U64: int := 0x1_0000_0000_0000_0000

  /** ASCII text as bytes. */
  function Text(s: string): (r: seq<byte>)
    requires forall i :: 0 <= i < |s| ==> s[i] < 128 as char
    ensures |r| == |s| && forall i :: 0 <= i < |s| ==> r[i] == s[i] as int
  {
    seq(|s|, i requires 0 <= i < |s| => s[i] as int)
  }

  /** 256 to the power n: the number of values n bytes can hold. */
  function Pow256(n: nat): (p: nat)
    ensures p >= 1
  {
    if n == 0 then 1 else 256 * Pow256(n - 1)
  }

  function Pow2(n: nat): (p: nat)
    ensures p >= 1
  {
    if n == 0 then 1 else 2 * Pow2(n - 1)
  }

  /** The number a little-endian byte string denotes. */
  function Le(s: seq<byte>): (v: nat)
    ensures v < Pow256(|s|)
  {
    if s == [] then 0 else s[0] + 256 * Le(s[1..])
  }

  /** The n low bytes of v, least significant first (`to_le_bytes` after a cast). */
  function LeBytes(v: nat, n: nat): (s: seq<byte>)
    ensures |s| == n
  {
    if n == 0 then [] else [v % 256] + LeBytes(v / 256, n - 1)
  }

  lemma {:induction false} LeRoundTrip(v: nat, n: nat)
    requires v < Pow256(n)
    ensures Le(LeBytes(v, n)) == v
  {
    if n != 0 {
      LeRoundTrip(v / 256, n - 1);
      assert LeBytes(v, n)[1..] == LeBytes(v / 256, n - 1);
    }
  }

  lemma {:induction false} LeBytesRoundTrip(s: seq<byte>)
    ensures LeBytes(Le(s), |s|) == s
  {
    if s != [] {
      LeBytesRoundTrip(s[1..]);
      assert Le(s) % 256 == s[0] && Le(s) / 256 == Le(s[1..]);
    }
  }

  lemma Widths()
    ensures Pow256(1) == 0x100 && Pow256(2) == U16 && Pow256(4) == U32 && Pow256(8) == U64
  {
    assert Pow256(1) == 0x100;
    assert Pow256(2) == U16;
    assert Pow256(3) == 0x100_0000;
    assert Pow256(4) == U32;
    assert Pow256(5) == 0x100_0000_0000;
    assert Pow256(6) == 0x1_0000_0000_0000;
    assert Pow256(7) == 0x100_0000_0000_0000;
  }

  function U16At(b: seq<byte>, at: nat): (v: nat)
    requires at + 2 <= |b|
    ensures v < U16
  {
    Widths();
    Le(b[at..at + 2])
  }

  function U32At(b: seq<byte>, at: nat): (v: nat)
    requires at + 4 <= |b|
    ensures v < U32
  {
    Widths();
    Le(b[at..at + 4])
  }

  function U64At(b: seq<byte>, at: nat): (v: nat)
    requires at + 8 <= |b|
    ensures v < U64
  {
    Widths();
    Le(b[at..at + 8])
  }

  /** `v.to_le_bytes()` of the given width, for a value that fits it. */
  lemma Fits16(v: nat)
    requires v < U16
    ensures Le(LeBytes(v, 2)) == v
  {
    Widths();
    LeRoundTrip(v, 2);
  }

  lemma Fits32(v: nat)
    requires v < U32
    ensures Le(LeBytes(v, 4)) == v
  {
    Widths();
    LeRoundTrip(v, 4);
  }

  lemma Fits64(v: nat)
    requires v < U64
    ensures Le(LeBytes(v, 8)) == v
  {
    Widths();
    LeRoundTrip(v, 8);
  }

  /** `b` with `data` copied over `b[at..]`, as `copy_from_slice` does. */
  function Patch(b: seq<byte>, at: nat, data: seq<byte>): (r: seq<byte>)
    requires at + |data| <= |b|
    ensures |r| == |b|
  {
    b[..at] + data + b[at + |data|..]
  }

  method Put(block: array<byte>, at: nat, data: seq<byte>)
    requires at + |data| <= block.Length
    modifies block
    ensures block[..] == Patch(old(block[..]), at, data)
  {
    for i := 0 to |data|
      invariant forall k :: 0 <= k < at ==> block[k] == old(block[k])
      invariant forall k :: at <= k < at + i ==> block[k] == data[k - at]
      invariant forall k :: at + i <= k < block.Length ==> block[k] == old(block[k])
    {
      block[at + i] := data[i];
    }
  }

  /** `b` carries `data` at offset `at`. */
  predicate Field(b: seq<byte>, at: nat, data: seq<byte>) {
    at + |data| <= |b| && b[at..at + |data|] == data
  }

  /** Two adjacent fields make one, and back. */
  lemma FieldConcat(b: seq<byte>, at: nat, x: seq<byte>, y: seq<byte>)
    ensures Field(b, at, x + y) <==> Field(b, at, x) && Field(b, at + |x|, y)
  {
    if at + |x| + |y| <= |b| {
      var both := b[at..at + |x| + |y|];
      assert both[..|x|] == b[at..at + |x|] && both[|x|..] == b[at + |x|..at + |x| + |y|];
      assert (x + y)[..|x|] == x && (x + y)[|x|..] == y;
      assert both == both[..|x|] + both[|x|..];
    }
  }

  /** Equal stretches have equal fields. */
  lemma SliceCarried(b: seq<byte>, c: seq<byte>, lo: nat, hi: nat, from: nat, to: nat)
    requires lo <= from <= to <= hi <= |b| && hi <= |c|
    requires b[lo..hi] == c[lo..hi]
    ensures b[from..to] == c[from..to]
  {
    forall k | from <= k < to ensures b[k] == c[k] {
      assert b[lo..hi][k - lo] == b[k] && c[lo..hi][k - lo] == c[k];
    }
  }

  lemma PatchWrites(b: seq<byte>, at: nat, data: seq<byte>)
    requires at + |data| <= |b|
    ensures Field(Patch(b, at, data), at, data)
  {
  }

  /** A patch leaves every field it does not touch as it was. */
  lemma PatchKeeps(b: seq<byte>, at: nat, data: seq<byte>, other: nat, kept: seq<byte>)
    requires at + |data| <= |b|
    requires Field(b, other, kept)
    requires other + |kept| <= at || at + |data| <= other
    ensures Field(Patch(b, at, data), other, kept)
  {
  }

  lemma PatchElsewhere(b: seq<byte>, at: nat, data: seq<byte>, lo: nat, hi: nat)
    requires at + |data| <= |b|
    requires lo <= hi <= |b|
    requires hi <= at || at + |data| <= lo
    ensures Patch(b, at, data)[lo..hi] == b[lo..hi]
  {
  }

  lemma FieldIs16(b: seq<byte>, at: nat, v: nat)
    requires Field(b, at, LeBytes(v, 2)) && v < U16
    ensures U16At(b, at) == v
  {
    Fits16(v);
  }

  lemma FieldIs32(b: seq<byte>, at: nat, v: nat)
    requires Field(b, at, LeBytes(v, 4)) && v < U32
    ensures U32At(b, at) == v
  {
    Fits32(v);
  }

  lemma FieldIs64(b: seq<byte>, at: nat, v: nat)
    requires Field(b, at, LeBytes(v, 8)) && v < U64
    ensures at + 8 <= |b| && U64At(b, at) == v
  {
    Fits64(v);
  }

  function Zeros(n: nat): (z: seq<byte>)
    ensures |z| == n && forall i :: 0 <= i < n ==> z[i] == 0
  {
    seq(n, i => 0)
  }

  /** The next multiple of eight. */
  function Align8(n: nat): (r: nat)
    ensures n <= r < n + 8 && r % 8 == 0
  {
    (n + 7) / 8 * 8
  }

  function Max(a: int, b: int): int {
    if a >= b then a else b
  }

  function Min(a: int, b: int): int {
    if a <= b then a else b
  }

  /** `div_ceil` on unsigned integers. */
  function DivCeil(a: nat, b: nat): (r: nat)
    requires b > 0
    ensures r * b >= a && (r > 0 ==> (r - 1) * b < a)
  {
    var q := a / b;
    assert a == q * b + a % b;
    if a % b == 0 then q else
      assert (q + 1) * b == q * b + b;
      q + 1
  }

  lemma DivMod(q: nat, n: nat, r: nat)
    requires r < n
    ensures (q * n + r) / n == q && (q * n + r) % n == r
  {
    var x := q * n + r;
    QuotientUnique(q, x / n, n, r, x % n);
  }

  lemma QuotientUnique(i: nat, q: nat, n: nat, s: nat, r: nat)
    requires s < n && r < n && i * n + s == q * n + r
    ensures i == q && s == r
  {
    assert (q - i) * n == s - r;
    if q > i {
      StepOver(q - i, n);
    } else if q < i {
      StepOver(i - q, n);
    }
  }

  lemma MulMono(a: nat, b: nat, n: nat)
    requires a <= b
    ensures a * n <= b * n
  {
  }

  lemma StepOver(k: nat, n: nat)
    requires k > 0
    ensures k * n >= n
  {
  }

  lemma ConcatAssoc<T>(a: seq<T>, b: seq<T>, c: seq<T>)
    ensures (a + b) + c == a + (b + c)
  {
  }

  function Concat<T>(parts: seq<seq<T>>): seq<T> {
    if parts == [] then [] else parts[0] + Concat(parts[1..])
  }
}

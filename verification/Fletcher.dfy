/** Fletcher-64 sealing and checking of object blocks (src/apfs_image.rs, src/apfs_verify.rs). */
module Fletcher {
  import opened Bytes

  /** The modulus, 2^32 - 1. */
  const M: int := 0xFFFF_FFFF

  /** The residue modulo 2^32 - 1. */
  function Rem(x: int): (r: nat)
    ensures r < M
  {
    x % 0xFFFF_FFFF
  }

  /** Equal residues are residues of numbers whose difference vanishes. */
  lemma RemDiff(a: int, b: int)
    ensures Rem(a) == Rem(b) <==> Rem(a - b) == 0
  {
    var q := (a - b) / 0xFFFF_FFFF;
    assert a - b == 0xFFFF_FFFF * q + Rem(a - b);
  }

  lemma RemAdd(a: int, b: int)
    ensures Rem(Rem(a) + b) == Rem(a + b)
    ensures Rem(a + Rem(b)) == Rem(a + b)
  {
    RemPlus(a, b);
    RemPlus(b, a);
  }

  lemma RemPlus(a: int, b: int)
    ensures Rem(Rem(a) + b) == Rem(a + b)
  {
    var p := a / 0xFFFF_FFFF;
    assert Rem(a) + b - (a + b) == 0xFFFF_FFFF * -p;
    RemDiff(Rem(a) + b, a + b);
  }

  /** The whole 32-bit words of a byte string; a short tail is dropped (`as_chunks::<4>().0`). */
  function Words(b: seq<byte>): (ws: seq<nat>)
    ensures |ws| == |b| / 4
    ensures forall i :: 0 <= i < |ws| ==> ws[i] <= M
  {
    seq(|b| / 4, i requires 0 <= i < |b| / 4 => U32At(b, 4 * i))
  }

  lemma WordsConcat(a: seq<byte>, b: seq<byte>)
    requires |a| % 4 == 0
    ensures Words(a + b) == Words(a) + Words(b)
  {
    forall i | 0 <= i < |a + b| / 4 ensures Words(a + b)[i] == (Words(a) + Words(b))[i] {
      if i < |a| / 4 {
        assert (a + b)[4 * i..4 * i + 4] == a[4 * i..4 * i + 4];
      } else {
        var j := i - |a| / 4;
        assert (a + b)[4 * i..4 * i + 4] == b[4 * j..4 * j + 4];
      }
    }
  }

  // ---- reference meaning: plain and running totals, without any reduction -----------------

  function Total(ws: seq<nat>): nat {
    if ws == [] then 0 else Total(ws[..|ws| - 1]) + ws[|ws| - 1]
  }

  /** The sum of all non-empty prefix totals. */
  function RunningTotal(ws: seq<nat>): nat {
    if ws == [] then 0 else RunningTotal(ws[..|ws| - 1]) + Total(ws)
  }

  lemma Snoc(ws: seq<nat>, k: nat)
    requires k < |ws|
    ensures Total(ws[..k + 1]) == Total(ws[..k]) + ws[k]
    ensures RunningTotal(ws[..k + 1]) == RunningTotal(ws[..k]) + Total(ws[..k + 1])
  {
    assert ws[..k + 1][..k] == ws[..k];
  }

  /** The two running sums of the source, `(lo, hi)`. */
  method FletcherSums(body: seq<byte>) returns (lo: nat, hi: nat)
    ensures lo == Rem(Total(Words(body)))
    ensures hi == Rem(RunningTotal(Words(body)))
  {
    lo, hi := 0, 0;
    ghost var ws := Words(body);
    for k := 0 to |body| / 4
      invariant lo == Rem(Total(ws[..k])) && hi == Rem(RunningTotal(ws[..k]))
    {
      lo, hi := Accumulate(ws, k, lo, hi, U32At(body, 4 * k));
    }
    assert ws[..|body| / 4] == ws;
  }

  /** One word more. */
  method Accumulate(ghost ws: seq<nat>, ghost k: nat, lo: nat, hi: nat, word: nat) returns (lo': nat, hi': nat)
    requires k < |ws| && word == ws[k]
    requires lo == Rem(Total(ws[..k])) && hi == Rem(RunningTotal(ws[..k]))
    ensures lo' == Rem(Total(ws[..k + 1])) && hi' == Rem(RunningTotal(ws[..k + 1]))
  {
    Snoc(ws, k);
    RemAdd(Total(ws[..k]), ws[k]);
    RemAdd(RunningTotal(ws[..k]), Rem(Total(ws[..k + 1])));
    RemAdd(RunningTotal(ws[..k]), Total(ws[..k + 1]));
    lo' := Rem(lo + word);
    hi' := Rem(hi + lo');
  }

  /** The checksum words of a block body with the given plain and running totals. */
  function First(lo: nat, hi: nat): (c: nat)
    ensures 1 <= c <= M
  {
    M - Rem(lo + hi)
  }

  function Second(lo: nat, hi: nat): (c: nat)
    ensures 1 <= c <= M
  {
    M - Rem(lo + First(lo, hi))
  }

  /** `fletcher64`: the checksum of everything after the first eight bytes. */
  method Fletcher64(block: seq<byte>) returns (sum: nat)
    requires |block| >= 8
    ensures sum == Checksum(block)
  {
    var lo, hi := FletcherSums(block[8..]);
    var c1 := M - Rem(lo + hi);
    var c2 := M - Rem(lo + c1);
    sum := c2 * U32 + c1;
  }

  ghost function Checksum(block: seq<byte>): (sum: nat)
    requires |block| >= 8
    ensures sum < U64
  {
    var lo := Rem(Total(Words(block[8..])));
    var hi := Rem(RunningTotal(Words(block[8..])));
    Second(lo, hi) * U32 + First(lo, hi)
  }

  /** The value `Seal` leaves in place of `block`. */
  ghost function Sealed(block: seq<byte>): (r: seq<byte>)
    requires |block| >= 8
    ensures |r| == |block|
    ensures r[8..] == block[8..]
  {
    LeBytes(Checksum(block), 8) + block[8..]
  }

  method Seal(block: array<byte>)
    requires block.Length >= 8
    modifies block
    ensures block[..] == Sealed(old(block[..]))
  {
    ghost var before := block[..];
    var sum := Fletcher64(block[..]);
    var bytes := LeBytes(sum, 8);
    Put(block, 0, bytes);
    assert block[..] == bytes + before[8..];
  }

  /** `fletcher64_valid` and `checksum_valid`: both look at the plain sum only. */
  method ChecksumValid(block: seq<byte>) returns (ok: bool)
    ensures ok == Valid(block)
  {
    if |block| < 8 || |block| % 4 != 0 {
      return false;
    }
    var lo, _ := FletcherSums(block);
    ok := lo == 0;
  }

  predicate Valid(block: seq<byte>) {
    |block| >= 8 && |block| % 4 == 0 && Rem(Total(Words(block))) == 0
  }

  // ---- sealing ------------------------------------------------------------------------------

  lemma {:induction false} TotalConcat(a: seq<nat>, b: seq<nat>)
    ensures Total(a + b) == Total(a) + Total(b)
  {
    if b == [] {
      assert a + b == a;
    } else {
      assert (a + b)[..|a + b| - 1] == a + b[..|b| - 1];
      TotalConcat(a, b[..|b| - 1]);
    }
  }

  /** Two numbers fit side by side in eight bytes. */
  lemma SplitWords(lo: nat, hi: nat)
    requires lo < U32
    ensures LeBytes(hi * U32 + lo, 8) == LeBytes(lo, 4) + LeBytes(hi, 4)
  {
    var v0 := hi * U32 + lo;
    var v1, v2, v3 := v0 / 256, v0 / 256 / 256, v0 / 256 / 256 / 256;
    assert v1 == hi * 0x100_0000 + lo / 256 && v0 % 256 == lo % 256;
    assert v2 == hi * 0x1_0000 + lo / 256 / 256 && v1 % 256 == lo / 256 % 256;
    assert v3 == hi * 0x100 + lo / 256 / 256 / 256 && v2 % 256 == lo / 256 / 256 % 256;
    assert v3 / 256 == hi && v3 % 256 == lo / 256 / 256 / 256 % 256;
    assert LeBytes(v0, 8) == [v0 % 256, v1 % 256, v2 % 256, v3 % 256] + LeBytes(hi, 4) by {
      assert LeBytes(v0, 8) == [v0 % 256] + LeBytes(v1, 7);
      assert LeBytes(v1, 7) == [v1 % 256] + LeBytes(v2, 6);
      assert LeBytes(v2, 6) == [v2 % 256] + LeBytes(v3, 5);
      assert LeBytes(v3, 5) == [v3 % 256] + LeBytes(hi, 4);
    }
    FourBytes(lo);
  }

  lemma FourBytes(lo: nat)
    ensures LeBytes(lo, 4) ==
            [lo % 256, lo / 256 % 256, lo / 256 / 256 % 256, lo / 256 / 256 / 256 % 256]
  {
    assert LeBytes(lo, 4) == [lo % 256] + LeBytes(lo / 256, 3);
    assert LeBytes(lo / 256, 3) == [lo / 256 % 256] + LeBytes(lo / 256 / 256, 2);
    assert LeBytes(lo / 256 / 256, 2) ==
           [lo / 256 / 256 % 256] + LeBytes(lo / 256 / 256 / 256, 1);
    assert LeBytes(lo / 256 / 256 / 256, 1) == [lo / 256 / 256 / 256 % 256];
  }

  /** The words of a sealed block: the two checksum words, then the body's. */
  lemma SealedWords(block: seq<byte>)
    requires |block| >= 8
    ensures var lo := Rem(Total(Words(block[8..])));
            var hi := Rem(RunningTotal(Words(block[8..])));
            Words(Sealed(block)) == [First(lo, hi), Second(lo, hi)] + Words(block[8..])
  {
    hide Words, LeBytes, Total, RunningTotal, Rem, First, Second;
    var lo := Rem(Total(Words(block[8..])));
    var hi := Rem(RunningTotal(Words(block[8..])));
    var c1, c2 := First(lo, hi), Second(lo, hi);
    SplitWords(c1, c2);
    FrontWords(c1, c2, block[8..]);
  }

  lemma FrontWords(c1: nat, c2: nat, body: seq<byte>)
    requires c1 < U32 && c2 < U32
    ensures Words(LeBytes(c1, 4) + LeBytes(c2, 4) + body) == [c1, c2] + Words(body)
  {
    hide Words, LeBytes;
    OneWord(c1);
    OneWord(c2);
    WordsConcat(LeBytes(c1, 4) + LeBytes(c2, 4), body);
    WordsConcat(LeBytes(c1, 4), LeBytes(c2, 4));
  }

  /** Sealing any block of whole words makes it pass the check. */
  lemma SealMakesValid(block: seq<byte>)
    requires |block| >= 8 && |block| % 4 == 0
    ensures Valid(Sealed(block))
  {
    SealedWords(block);
    var ws := Words(block[8..]);
    var lo, hi := Rem(Total(ws)), Rem(RunningTotal(ws));
    var c1, c2 := First(lo, hi), Second(lo, hi);
    TotalConcat([c1, c2], ws);
    TotalPair(c1, c2);
    SecondCancels(lo, hi);
    RemAdd(c1 + c2, Total(ws));
  }

  lemma TotalPair(a: nat, b: nat)
    ensures Total([a, b]) == a + b
  {
    assert [a, b][..1] == [a];
    assert Total([a]) == Total([a][..0]) + a;
  }

  lemma FirstCancels(lo: nat, hi: nat)
    ensures Rem(lo + hi + First(lo, hi)) == 0
  {
    RemDiff(lo + hi + First(lo, hi), M);
    RemDiff(lo + hi, Rem(lo + hi));
  }

  lemma SecondCancels(lo: nat, hi: nat)
    ensures Rem(lo + First(lo, hi) + Second(lo, hi)) == 0
  {
    var s := lo + First(lo, hi);
    RemDiff(s + Second(lo, hi), M);
    RemDiff(s, Rem(s));
  }

  /** c1 makes plain plus running total vanish exactly when it is the first checksum word. */
  lemma FirstChoice(t: nat, r: nat, c1: nat)
    ensures Rem(t + r + c1) == 0 <==> Rem(c1) == Rem(First(Rem(t), Rem(r)))
  {
    var d1 := First(Rem(t), Rem(r));
    FirstCancels(Rem(t), Rem(r));
    RemAdd2(t, r, d1);
    RemZero(c1 - d1, t + r + d1);
    RemDiff(c1, d1);
  }

  /** Given the first word, c2 makes the plain total vanish exactly when it is the second one. */
  lemma SecondChoice(t: nat, hi: nat, c1: nat, c2: nat)
    requires Rem(c1) == Rem(First(Rem(t), hi))
    ensures Rem(t + c1 + c2) == 0 <==> Rem(c2) == Rem(Second(Rem(t), hi))
  {
    var d1, d2 := First(Rem(t), hi), Second(Rem(t), hi);
    SecondCancels(Rem(t), hi);
    RemAdd(t, d1 + d2);
    RemDiff(c1, d1);
    RemZero(t + d1 + d2, c1 - d1);
    RemZero(c2 - d2, t + c1 + d2);
    RemDiff(c2, d2);
  }

  lemma RemZero(a: int, b: int)
    requires Rem(b) == 0
    ensures Rem(a + b) == Rem(a)
  {
    RemAdd(a, b);
  }

  lemma RemAdd2(a: int, b: int, c: int)
    ensures Rem(Rem(a) + Rem(b) + c) == Rem(a + b + c)
  {
    RemAdd(a, Rem(b) + c);
    RemAdd(b, a + c);
  }

  /**
   * The checksum pair is the one pair, up to multiples of the modulus, for which both Fletcher
   * sums vanish when it is appended after the body.
   */
  lemma ChecksumPairUnique(ws: seq<nat>, c1: nat, c2: nat)
    ensures var lo := Rem(Total(ws));
            var hi := Rem(RunningTotal(ws));
            (Rem(Total(ws + [c1, c2])) == 0 && Rem(RunningTotal(ws + [c1, c2])) == 0) <==>
            (Rem(c1) == Rem(First(lo, hi)) && Rem(c2) == Rem(Second(lo, hi)))
  {
    PairUnique(Total(ws), RunningTotal(ws), c1, c2);
    AppendedTotals(ws, c1, c2);
  }

  lemma PairUnique(t: nat, r: nat, c1: nat, c2: nat)
    ensures (Rem(t + c1 + c2) == 0 && Rem(r + t + c1 + t + c1 + c2) == 0) <==>
            (Rem(c1) == Rem(First(Rem(t), Rem(r))) && Rem(c2) == Rem(Second(Rem(t), Rem(r))))
  {
    FirstChoice(t, r, c1);
    if Rem(t + c1 + c2) == 0 {
      RemZero(t + r + c1, t + c1 + c2);
    }
    if Rem(c1) == Rem(First(Rem(t), Rem(r))) {
      SecondChoice(t, Rem(r), c1, c2);
    }
  }

  lemma AppendedTotals(ws: seq<nat>, c1: nat, c2: nat)
    ensures Total(ws + [c1, c2]) == Total(ws) + c1 + c2
    ensures RunningTotal(ws + [c1, c2]) ==
            RunningTotal(ws) + Total(ws) + c1 + Total(ws) + c1 + c2
  {
    var all := ws + [c1, c2];
    Snoc(all, |ws|);
    Snoc(all, |ws| + 1);
    assert all[..|ws|] == ws && all[..|ws| + 2] == all;
  }

  // ---- what the check can and cannot tell ----------------------------------------------------

  lemma {:induction false} TotalUpdate(ws: seq<nat>, i: nat, w: nat)
    requires i < |ws|
    ensures Total(ws[i := w]) == Total(ws) - ws[i] + w
  {
    var n := |ws| - 1;
    if i == n {
      assert ws[i := w][..n] == ws[..n];
    } else {
      TotalUpdate(ws[..n], i, w);
      assert ws[i := w][..n] == ws[..n][i := w];
    }
  }

  lemma SmallMultiples(v: nat, w: nat)
    requires v < U32 && w < U32
    ensures Rem(v - w) == 0 <==> v == w || (v == 0 && w == M) || (v == M && w == 0)
  {
  }

  lemma PatchWord(block: seq<byte>, i: nat, data: seq<byte>)
    requires i < |block| / 4 && |data| == 4
    ensures Words(Patch(block, 4 * i, data)) == Words(block)[i := Le(data)]
  {
    hide Le, Patch;
    var ws, after := Words(block), Patch(block, 4 * i, data);
    assert 4 * i + 4 <= |block|;
    forall k | 0 <= k < |ws| ensures Words(after)[k] == ws[i := Le(data)][k] {
      if k == i {
        PatchWrites(block, 4 * i, data);
      } else {
        PatchElsewhere(block, 4 * i, data, 4 * k, 4 * k + 4);
      }
    }
  }

  /**
   * Overwriting one aligned word of a block that passes keeps it passing exactly when the word
   * changes by a multiple of 2^32 - 1, that is, not at all or between 0 and 0xFFFFFFFF.
   */
  lemma OneWordChange(block: seq<byte>, i: nat, word: nat)
    requires Valid(block) && i < |block| / 4 && word < U32
    ensures Valid(Patch(block, 4 * i, LeBytes(word, 4))) <==>
            Rem(word - Words(block)[i]) == 0
    ensures Valid(Patch(block, 4 * i, LeBytes(word, 4))) <==>
            word == Words(block)[i] || (word == 0 && Words(block)[i] == M) ||
            (word == M && Words(block)[i] == 0)
  {
    var ws := Words(block);
    Fits32(word);
    PatchWord(block, i, LeBytes(word, 4));
    TotalUpdate(ws, i, word);
    RemZero(word - ws[i], Total(ws));
    SmallMultiples(word, ws[i]);
  }

  /** `b` with the aligned words i and j exchanged. */
  function SwapWords(b: seq<byte>, i: nat, j: nat): (r: seq<byte>)
    requires i < |b| / 4 && j < |b| / 4
    ensures |r| == |b|
  {
    Patch(Patch(b, 4 * i, b[4 * j..4 * j + 4]), 4 * j, b[4 * i..4 * i + 4])
  }

  /** The check cannot see the order of words: exchanging any two of them changes nothing. */
  lemma CheckIgnoresOrder(b: seq<byte>, i: nat, j: nat)
    requires i < |b| / 4 && j < |b| / 4
    ensures Valid(SwapWords(b, i, j)) == Valid(b)
  {
    var ws, p, q := Words(b), b[4 * i..4 * i + 4], b[4 * j..4 * j + 4];
    PatchWord(b, i, q);
    PatchWord(Patch(b, 4 * i, q), j, p);
    SwapTotal(ws, i, j);
  }

  lemma SwapTotal(ws: seq<nat>, i: nat, j: nat)
    requires i < |ws| && j < |ws|
    ensures Total(ws[i := ws[j]][j := ws[i]]) == Total(ws)
  {
    TotalUpdate(ws, i, ws[j]);
    TotalUpdate(ws[i := ws[j]], j, ws[i]);
  }

  /** The stored checksum is the one `Seal` would store, up to multiples of the modulus. */
  ghost predicate Genuine(block: seq<byte>)
    requires |block| >= 8
  {
    var lo := Rem(Total(Words(block[8..])));
    var hi := Rem(RunningTotal(Words(block[8..])));
    Rem(Le(block[..4])) == Rem(First(lo, hi)) && Rem(Le(block[4..8])) == Rem(Second(lo, hi))
  }

  /**
   * The check accepts a stored checksum `Seal` would not have written exactly when the second
   * Fletcher sum, which the source computes and drops, does not vanish.
   */
  lemma ValidVersusGenuine(block: seq<byte>)
    requires |block| >= 8 && |block| % 4 == 0
    ensures var ws := Words(block[8..]) + [Le(block[..4]), Le(block[4..8])];
            Genuine(block) <==> Valid(block) && Rem(RunningTotal(ws)) == 0
  {
    hide Words, Le, Total, RunningTotal, Rem, First, Second;
    var c1, c2, body := Le(block[..4]), Le(block[4..8]), Words(block[8..]);
    ChecksumPairUnique(body, c1, c2);
    assert block == block[..8] + block[8..];
    WordsConcat(block[..8], block[8..]);
    TwoWords(block[..8]);
    assert block[..8][..4] == block[..4] && block[..8][4..8] == block[4..8];
    TotalConcat([c1, c2], body);
    TotalConcat(body, [c1, c2]);
  }

  lemma TwoWords(b: seq<byte>)
    requires |b| == 8
    ensures Words(b) == [Le(b[..4]), Le(b[4..8])]
  {
    hide Le;
    assert b[4 * 0..4 * 0 + 4] == b[..4] && b[4 * 1..4 * 1 + 4] == b[4..8];
  }

  lemma LoneTotal(z: nat)
    ensures Total([z]) == z && RunningTotal([z]) == z
  {
    var ws: seq<nat> := [z];
    assert ws[..0] == [] && |ws| == 1 && ws[0] == z;
    assert Total([]) == 0 && RunningTotal([]) == 0;
  }

  lemma ThreeTotals(x: nat, y: nat, z: nat)
    ensures Total([x] + [y] + [z]) == x + y + z
    ensures RunningTotal([z] + [x, y]) == z + z + x + z + x + y
  {
    var ws: seq<nat> := [z];
    LoneTotal(z);
    AppendedTotals(ws, x, y);
    var vs: seq<nat> := [x] + [y] + [z];
    Snoc(vs, 2);
    Snoc(vs, 1);
    Snoc(vs, 0);
    assert vs[..3] == vs && vs[..0] == [];
  }

  /** Three words whose plain sum vanishes pass the check; the running sum is free. */
  lemma Unsealed(b: seq<byte>, x: nat, y: nat, z: nat)
    requires |b| == 12 && Words(b) == [x] + [y] + [z] && Words(b[8..]) == [z]
    requires Le(b[..4]) == x && Le(b[4..8]) == y
    requires Rem(x + y + z) == 0 && Rem(z + z + x + z + x + y) != 0
    ensures Valid(b) && !Genuine(b)
  {
    ThreeTotals(x, y, z);
    ValidVersusGenuine(b);
  }

  lemma UnsealedExists(x: nat, y: nat, z: nat) returns (b: seq<byte>)
    requires x < U32 && y < U32 && z < U32
    requires Rem(x + y + z) == 0 && Rem(z + z + x + z + x + y) != 0
    ensures |b| == 12 && Valid(b) && !Genuine(b)
  {
    OneWord(x);
    OneWord(y);
    OneWord(z);
    var p, q, r := LeBytes(x, 4), LeBytes(y, 4), LeBytes(z, 4);
    ThreeParts(p, q, r);
    b := p + q + r;
    Unsealed(b, x, y, z);
  }

  /** A twelve-byte block the check accepts although its checksum is not the genuine one. */
  lemma UnsealedBlockPasses()
    ensures exists b: seq<byte> :: |b| == 12 && Valid(b) && !Genuine(b)
  {
    var b := UnsealedExists(1, M - 1, 0);
  }

  lemma ThreeParts(p: seq<byte>, q: seq<byte>, r: seq<byte>)
    requires |p| == |q| == 4 && |r| == 4
    ensures var b := p + q + r;
            && Words(b) == Words(p) + Words(q) + Words(r)
            && b[..4] == p && b[4..8] == q && b[8..] == r
  {
    WordsConcat(p + q, r);
    WordsConcat(p, q);
  }

  lemma OneWord(x: nat)
    requires x < U32
    ensures Words(LeBytes(x, 4)) == [x] && Le(LeBytes(x, 4)) == x
  {
    Fits32(x);
    var s := LeBytes(x, 4);
    assert s[4 * 0..4 * 0 + 4] == s;
  }
}

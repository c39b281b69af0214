/**
 * Directory record keys byte by byte (src/apfs_write.rs `drec_key`, src/apfs_verify.rs
 * `DrecKeyLayout`): the program writes hashed keys only, and reads hashed or plain ones.
 */
module DirectoryKey {
  import opened Bytes

  datatype KeyLayout = Hashed | Plain

  const J_DIR_REC: nat := 9
  const ID_SPAN: nat := 0x1000_0000_0000_0000

  /** The bitwise or of two numbers. */
  function Or(a: nat, b: nat): nat
    decreases a + b
  {
    if a == 0 then b else if b == 0 then a
    else (if a % 2 == 1 || b % 2 == 1 then 1 else 0) + 2 * Or(a / 2, b / 2)
  }

  /** The hash above ten bits of length; a longer length runs into the hash. */
  function Packed(hash: nat, length: nat): nat {
    Or(hash, length / 1024) * 1024 + length % 1024
  }

  function DrecKey(parent: nat, hash: nat, name: seq<byte>): (key: seq<byte>)
    ensures |key| == 13 + |name|
  {
    LeBytes(J_DIR_REC * ID_SPAN + parent, 8) + LeBytes(Packed(hash, |name| + 1), 4) + name + [0]
  }

  function NameOffset(layout: KeyLayout): nat {
    match layout case Plain => 10 case Hashed => 12
  }

  /** The length field, which counts a terminating zero. */
  function NameLength(layout: KeyLayout, key: seq<byte>): Option<nat> {
    if |key| < NameOffset(layout) then None else
    match layout
    case Plain => Some(U16At(key, 8))
    case Hashed => Some(U32At(key, 8) % 1024)
  }

  /** The bytes between the length field and the terminating zero. */
  function NameText(layout: KeyLayout, key: seq<byte>): seq<byte>
    requires |key| > NameOffset(layout)
  {
    key[NameOffset(layout)..|key| - 1]
  }

  lemma {:induction false} LowBytes(v: nat, n: nat)
    ensures Le(LeBytes(v, n)) == v % Pow256(n)
  {
    if n != 0 {
      LowBytes(v / 256, n - 1);
      var s := LeBytes(v, n);
      assert s[0] == v % 256 && s[1..] == LeBytes(v / 256, n - 1);
      DigitStep(v, Pow256(n - 1));
    }
  }

  lemma DigitStep(v: nat, p: nat)
    requires p > 0
    ensures v % (256 * p) == v % 256 + 256 * (v / 256 % p)
  {
    var q := v / 256;
    DigitsOf(v, p, q, q / p, q % p, v % 256);
  }

  lemma DigitsOf(v: nat, p: nat, q: nat, a: nat, b: nat, r: nat)
    requires b < p && r < 256 && v == 256 * q + r && q == a * p + b
    ensures v % (256 * p) == r + 256 * b
  {
    Digits(a, p, b, r);
  }

  lemma Digits(a: nat, p: nat, b: nat, r: nat)
    requires b < p && r < 256
    ensures (256 * (a * p + b) + r) % (256 * p) == r + 256 * b
  {
    assert a * (256 * p) == 256 * (a * p);
    DivMod(a, 256 * p, 256 * b + r);
  }

  lemma SplitBytes(v: nat)
    ensures LeBytes(v, 4) == LeBytes(v, 2) + LeBytes(v / U16, 2)
  {
    assert v / 256 / 256 == v / U16;
    assert LeBytes(v, 4) == [v % 256] + ([v / 256 % 256] + LeBytes(v / 256 / 256, 2));
    assert LeBytes(v, 2) == [v % 256] + ([v / 256 % 256] + []);
  }

  /** Under its own layout a written key reads as it was meant: the name, and ten bits of its length. */
  lemma HashedKey(parent: nat, hash: nat, name: seq<byte>)
    ensures var key := DrecKey(parent, hash, name);
            NameLength(Hashed, key) == Some((|name| + 1) % 1024) && NameText(Hashed, key) == name
  {
    hide LeBytes, Le;
    var key, v := DrecKey(parent, hash, name), Packed(hash, |name| + 1);
    assert key[8..12] == LeBytes(v, 4);
    LowBytes(v, 4);
    Widths();
    LowTen(v, |name| + 1, hash);
    assert key[12..|key| - 1] == name;
  }

  lemma LowTen(v: nat, length: nat, hash: nat)
    requires v == Packed(hash, length)
    ensures v % U32 % 1024 == length % 1024
  {
    hide Or;
    var h := Or(hash, length / 1024);
    assert v == h * 1024 + length % 1024;
    assert v % 1024 == length % 1024;
    assert v % U32 % 1024 == v % 1024;
  }

  /** Under the plain layout the name starts two bytes early, in the hash. */
  lemma PlainKeyReads(parent: nat, hash: nat, name: seq<byte>)
    ensures var key, v := DrecKey(parent, hash, name), Packed(hash, |name| + 1);
            NameLength(Plain, key) == Some(v % U16) && NameText(Plain, key) == LeBytes(v / U16, 2) + name
  {
    hide LeBytes, Le;
    var key, v := DrecKey(parent, hash, name), Packed(hash, |name| + 1);
    SplitBytes(v);
    assert key[8..10] == LeBytes(v, 2);
    LowBytes(v, 2);
    Widths();
    assert key[10..|key| - 1] == LeBytes(v / U16, 2) + name;
  }

  /** For a name of at most 1022 bytes the length is not disturbed exactly when six bits of the hash are zero. */
  lemma ShortLength(hash: nat, length: nat)
    requires length < 1024
    ensures Packed(hash, length) % U16 == length <==> hash % 64 == 0
    ensures Packed(hash, length) / U16 == hash / 64
  {
    assert Packed(hash, length) == hash * 1024 + length;
    var q, r := hash / 64, hash % 64;
    assert hash * 1024 + length == q * U16 + (r * 1024 + length);
    QuotientUnique((hash * 1024 + length) / U16, q, U16, (hash * 1024 + length) % U16, r * 1024 + length);
  }
}

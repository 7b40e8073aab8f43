/**
 Result message IDs (scripts/verify-stateless-phase0.py): "br1_" followed by the unpadded
 base64url text of a hash over a length-prefixed pair of UTF-8 strings. The hash is a parameter;
 everything around it is proved injective.
 */
module ResultIds {
  import opened Bytes
  import opened Options

  // ----- UTF-8 (RFC 3629, section 3) -----

  function Utf8Char(c: char): (bytes: ByteString) {
    var i := c as int;
    if i < 0x80 then [i]
    else if i < 0x800 then [0xC0 + i / 0x40, 0x80 + i % 0x40]
    else if i < 0x10000 then [0xE0 + i / 0x1000, 0x80 + i / 0x40 % 0x40, 0x80 + i % 0x40]
    else [0xF0 + i / 0x40000, 0x80 + i / 0x1000 % 0x40, 0x80 + i / 0x40 % 0x40, 0x80 + i % 0x40]
  }

  function Utf8(s: string): ByteString {
    if s == [] then [] else Utf8Char(s[0]) + Utf8(s[1..])
  }

  /** The digits of n in base 64 below its 64^3-fold, and likewise in base 256, determine n. */
  lemma Base64Digits(n: nat)
    ensures n == n / 0x40 * 0x40 + n % 0x40
    ensures n == n / 0x1000 * 0x1000 + n / 0x40 % 0x40 * 0x40 + n % 0x40
    ensures n == n / 0x40000 * 0x40000 + n / 0x1000 % 0x40 * 0x1000 + n / 0x40 % 0x40 * 0x40 + n % 0x40
  {
    assert n / 0x1000 == n / 0x40 / 0x40;
    assert n / 0x40000 == n / 0x1000 / 0x40;
  }

  lemma Base256Digits(n: nat)
    ensures n == n / 0x100_0000 * 0x100_0000 + n / 0x1_0000 % 0x100 * 0x1_0000 + n / 0x100 % 0x100 * 0x100 + n % 0x100
  {
    assert n / 0x1_0000 == n / 0x100 / 0x100;
    assert n / 0x100_0000 == n / 0x1_0000 / 0x100;
  }

  lemma Utf8CharInjective(c: char, d: char)
    requires Utf8Char(c) == Utf8Char(d)
    ensures c == d
  {
    var a, b := Utf8Char(c), Utf8Char(d);
    Base64Digits(c as int);
    Base64Digits(d as int);
    assert a[0] == b[0] && a[|a| - 1] == b[|b| - 1];
    if |a| > 2 {
      assert a[1] == b[1] && a[2] == b[2];
    }
    assert c as int == d as int;
  }

  /** The lead byte gives the length, so one encoded character is never a proper prefix of another. */
  lemma LeadByteGivesLength(c: char, d: char)
    requires Utf8Char(c)[0] == Utf8Char(d)[0]
    ensures |Utf8Char(c)| == |Utf8Char(d)|
  {
  }

  lemma {:induction false} Utf8Injective(s: string, t: string)
    requires Utf8(s) == Utf8(t)
    ensures s == t
    decreases |s|
  {
    if s == [] || t == [] {
      assert |Utf8(s)| == |Utf8(t)|;
    } else {
      var a, b := Utf8Char(s[0]), Utf8Char(t[0]);
      assert a[0] == Utf8(s)[0] == Utf8(t)[0] == b[0];
      LeadByteGivesLength(s[0], t[0]);
      assert a == Utf8(s)[..|a|] == Utf8(t)[..|b|] == b;
      Utf8CharInjective(s[0], t[0]);
      assert Utf8(s[1..]) == Utf8(s)[|a|..] == Utf8(t)[|b|..] == Utf8(t[1..]);
      Utf8Injective(s[1..], t[1..]);
    }
  }

  // ----- The hashed preimage -----

  const MAX_LENGTH: nat := 0x1_0000_0000

  /** The bytes literal b"boutique.result.v1\0". */
  const DOMAIN_TAG: ByteString := [
    0x62, 0x6F, 0x75, 0x74, 0x69, 0x71, 0x75, 0x65, 0x2E,
    0x72, 0x65, 0x73, 0x75, 0x6C, 0x74, 0x2E,
    0x76, 0x31, 0x00]

  /** Four bytes, most significant first. */
  function BigEndian32(n: nat): ByteString
    requires n < MAX_LENGTH
  {
    [n / 0x100_0000, n / 0x1_0000 % 0x100, n / 0x100 % 0x100, n % 0x100]
  }

  function PrefixedFields(i: ByteString, s: ByteString): ByteString
    requires |i| < MAX_LENGTH && |s| < MAX_LENGTH
  {
    BigEndian32(|i|) + i + (BigEndian32(|s|) + s)
  }

  /** No preimage for an input or slot of 2^32 bytes or more: packing its length fails. */
  function Preimage(input: string, slot: string): Option<ByteString> {
    var i, s := Utf8(input), Utf8(slot);
    if |i| < MAX_LENGTH && |s| < MAX_LENGTH then
      Some(DOMAIN_TAG + PrefixedFields(i, s))
    else
      None
  }

  lemma BigEndian32Injective(m: nat, n: nat)
    requires m < MAX_LENGTH && n < MAX_LENGTH && BigEndian32(m) == BigEndian32(n)
    ensures m == n
  {
    Base256Digits(m);
    Base256Digits(n);
    var a, b := BigEndian32(m), BigEndian32(n);
    assert a[0] == b[0] && a[1] == b[1] && a[2] == b[2] && a[3] == b[3];
  }

  /** A length-prefixed field is delimited: what follows it does not matter. */
  lemma PrefixedFieldInjective(a: ByteString, x: ByteString, b: ByteString, y: ByteString)
    requires |a| < MAX_LENGTH && |b| < MAX_LENGTH
    requires BigEndian32(|a|) + a + x == BigEndian32(|b|) + b + y
    ensures a == b && x == y
  {
    var l, r := BigEndian32(|a|) + a + x, BigEndian32(|b|) + b + y;
    assert BigEndian32(|a|) == l[..4] == r[..4] == BigEndian32(|b|);
    BigEndian32Injective(|a|, |b|);
    assert a == l[4..4 + |a|] == r[4..4 + |b|] == b;
    assert x == l[4 + |a|..] == r[4 + |b|..] == y;
  }

  lemma PrefixedFieldsInjective(a: ByteString, s: ByteString, b: ByteString, t: ByteString)
    requires |a| < MAX_LENGTH && |s| < MAX_LENGTH && |b| < MAX_LENGTH && |t| < MAX_LENGTH
    requires PrefixedFields(a, s) == PrefixedFields(b, t)
    ensures a == b && s == t
  {
    var x, y := BigEndian32(|s|) + s, BigEndian32(|t|) + t;
    PrefixedFieldInjective(a, x, b, y);
    assert x == x + [] && y == y + [];
    PrefixedFieldInjective(s, [], t, []);
  }

  lemma PreimageInjective(a: string, s: string, b: string, t: string)
    requires Preimage(a, s).Some? && Preimage(b, t).Some?
    ensures Preimage(a, s) == Preimage(b, t) <==> a == b && s == t
  {
    if Preimage(a, s) == Preimage(b, t) {
      var n := |DOMAIN_TAG|;
      var p, q := PrefixedFields(Utf8(a), Utf8(s)), PrefixedFields(Utf8(b), Utf8(t));
      assert p == (DOMAIN_TAG + p)[n..] == (DOMAIN_TAG + q)[n..] == q;
      PrefixedFieldsInjective(Utf8(a), Utf8(s), Utf8(b), Utf8(t));
      Utf8Injective(a, b);
      Utf8Injective(s, t);
    }
  }

  // ----- Unpadded base64url (RFC 4648, section 5) -----

  function Symbol(i: nat): char
    requires i < 64
  {
    if i < 26 then 'A' + i as char
    else if i < 52 then 'a' + (i - 26) as char
    else if i < 62 then '0' + (i - 52) as char
    else if i == 62 then '-'
    else '_'
  }

  lemma SymbolInjective(i: nat, j: nat)
    requires i < 64 && j < 64 && Symbol(i) == Symbol(j)
    ensures i == j
  {
  }

  function Base64Url(b: ByteString): string {
    if |b| == 0 then ""
    else if |b| == 1 then [Symbol(b[0] / 4), Symbol(b[0] % 4 * 16)]
    else if |b| == 2 then [Symbol(b[0] / 4), Symbol(b[0] % 4 * 16 + b[1] / 16), Symbol(b[1] % 16 * 4)]
    else
      [Symbol(b[0] / 4), Symbol(b[0] % 4 * 16 + b[1] / 16), Symbol(b[1] % 16 * 4 + b[2] / 64), Symbol(b[2] % 64)]
      + Base64Url(b[3..])
  }

  /** The four numbers below 64 that encode three bytes. */
  function Sextets(x: Byte, y: Byte, z: Byte): (nat, nat, nat, nat) {
    (x / 4, x % 4 * 16 + y / 16, y % 16 * 4 + z / 64, z % 64)
  }

  lemma SextetsInjective(x: Byte, y: Byte, z: Byte, x2: Byte, y2: Byte, z2: Byte)
    requires Sextets(x, y, z) == Sextets(x2, y2, z2)
    ensures x == x2 && y == y2 && z == z2
  {
    SplitParts(16, x % 4, y / 16, x2 % 4, y2 / 16);
    SplitParts(4, y % 16, z / 64, y2 % 16, z2 / 64);
    SplitParts(4, x / 4, x % 4, x2 / 4, x2 % 4);
    SplitParts(16, y / 16, y % 16, y2 / 16, y2 % 16);
    SplitParts(64, z / 64, z % 64, z2 / 64, z2 % 64);
  }

  /** Four symbols determine three bytes. */
  lemma GroupInjective(a: ByteString, b: ByteString)
    requires |a| >= 3 && |b| >= 3 && Base64Url(a)[..4] == Base64Url(b)[..4]
    ensures a[0] == b[0] && a[1] == b[1] && a[2] == b[2]
  {
    var x, y := Base64Url(a)[..4], Base64Url(b)[..4];
    var m, n := Sextets(a[0], a[1], a[2]), Sextets(b[0], b[1], b[2]);
    SameSymbol(x, y, 0, m.0, n.0);
    SameSymbol(x, y, 1, m.1, n.1);
    SameSymbol(x, y, 2, m.2, n.2);
    SameSymbol(x, y, 3, m.3, n.3);
    SextetsInjective(a[0], a[1], a[2], b[0], b[1], b[2]);
  }

  lemma SameSymbol(x: string, y: string, k: nat, i: nat, j: nat)
    requires x == y && k < |x| && i < 64 && j < 64 && x[k] == Symbol(i) && y[k] == Symbol(j)
    ensures i == j
  {
    SymbolInjective(i, j);
  }

  /** Two numbers put together as high and low part come apart again. */
  lemma SplitParts(n: nat, high: nat, low: nat, high2: nat, low2: nat)
    requires n in {4, 16, 64} && low < n && low2 < n
    ensures high * n + low == high2 * n + low2 <==> high == high2 && low == low2
  {
  }

  /** The last two or three symbols determine the last one or two bytes. */
  lemma TailInjective(a: ByteString, b: ByteString)
    requires 1 <= |a| == |b| <= 2 && Base64Url(a) == Base64Url(b)
    ensures a == b
  {
    var x, y := Base64Url(a), Base64Url(b);
    assert x[0] == y[0] && x[1] == y[1];
    SymbolInjective(a[0] / 4, b[0] / 4);
    if |a| == 2 {
      assert x[2] == y[2];
      SymbolInjective(a[0] % 4 * 16 + a[1] / 16, b[0] % 4 * 16 + b[1] / 16);
      SymbolInjective(a[1] % 16 * 4, b[1] % 16 * 4);
    } else {
      SymbolInjective(a[0] % 4 * 16, b[0] % 4 * 16);
    }
  }

  lemma Base64UrlLength(a: ByteString)
    ensures |Base64Url(a)|
            == if |a| == 0 then 0 else if |a| == 1 then 2 else if |a| == 2 then 3 else 4 + |Base64Url(a[3..])|
    ensures |a| >= 3 ==> Base64Url(a)[4..] == Base64Url(a[3..])
  {
  }

  lemma {:induction false} Base64UrlInjective(a: ByteString, b: ByteString)
    requires Base64Url(a) == Base64Url(b)
    ensures a == b
    decreases |a|
  {
    Base64UrlLength(a);
    Base64UrlLength(b);
    if |a| >= 3 && |b| >= 3 {
      GroupInjective(a, b);
      assert a[..3] == b[..3];
      Base64UrlInjective(a[3..], b[3..]);
      assert a == a[..3] + a[3..] && b == b[..3] + b[3..];
    } else if 1 <= |a| <= 2 {
      TailInjective(a, b);
    }
  }

  // ----- Derived IDs -----

  type Hash = ByteString -> ByteString

  function DeriveResultMessageId(hash: Hash, input: string, slot: string): Option<string> {
    match Preimage(input, slot)
    case Some(preimage) => Some("br1_" + Base64Url(hash(preimage)))
    case None => None
  }

  /** Two derived IDs are equal only for the same input and slot, or when the hash collides on two
      different preimages: the encoding around the hash adds no collision of its own. */
  lemma DerivedIdsEqualIff(hash: Hash, a: string, s: string, b: string, t: string)
    requires Preimage(a, s).Some? && Preimage(b, t).Some?
    ensures DeriveResultMessageId(hash, a, s) == DeriveResultMessageId(hash, b, t)
            <==> ((a == b && s == t)
                  || (Preimage(a, s) != Preimage(b, t) && hash(Preimage(a, s).value) == hash(Preimage(b, t).value)))
  {
    PreimageInjective(a, s, b, t);
    var x, y := DeriveResultMessageId(hash, a, s).value, DeriveResultMessageId(hash, b, t).value;
    if x == y {
      assert Base64Url(hash(Preimage(a, s).value)) == x[4..] == y[4..] == Base64Url(hash(Preimage(b, t).value));
      Base64UrlInjective(hash(Preimage(a, s).value), hash(Preimage(b, t).value));
    }
  }
}

/**
 Reading result message IDs backwards: decoders for UTF-8 (RFC 3629, section 3), for the length-prefixed
 preimage and for unpadded base64url (RFC 4648, section 5), written from their formats, and the proof
 that they undo what ResultIds builds (scripts/verify-stateless-phase0.py).
 */
module IdDecoding {
  import opened Bytes
  import opened Options
  import opened ResultIds

  // ----- UTF-8 -----

  function At(b: ByteString, i: nat): int
    requires i < |b|
  {
    b[i]
  }

  /** The six bits of a continuation byte. */
  function Six(b: ByteString, i: nat): int
    requires i < |b|
  {
    At(b, i) - 0x80
  }

  /** The code point at the front of `b`, and its length in bytes. */
  function CodePoint(b: ByteString): Option<(int, nat)> {
    if |b| >= 1 && b[0] < 0x80 then Some((b[0], 1))
    else if |b| >= 2 && 0xC0 <= b[0] < 0xE0 then Some(((At(b, 0) - 0xC0) * 0x40 + Six(b, 1), 2))
    else if |b| >= 3 && 0xE0 <= b[0] < 0xF0 then
      Some(((At(b, 0) - 0xE0) * 0x1000 + Six(b, 1) * 0x40 + Six(b, 2), 3))
    else if |b| >= 4 && 0xF0 <= b[0] < 0xF8 then
      Some(((At(b, 0) - 0xF0) * 0x40000 + Six(b, 1) * 0x1000 + Six(b, 2) * 0x40 + Six(b, 3), 4))
    else None
  }

  predicate IsScalar(i: int) {
    0 <= i < 0xD800 || 0xE000 <= i < 0x11_0000
  }

  function DecodeUtf8(b: ByteString): Option<string>
    decreases |b|
  {
    if b == [] then Some("")
    else
      match CodePoint(b)
      case None => None
      case Some(first) =>
        if !IsScalar(first.0) || first.1 > |b| || first.1 == 0 then None
        else
          match DecodeUtf8(b[first.1..])
          case None => None
          case Some(rest) => Some([first.0 as char] + rest)
  }

  lemma CodePointOf(c: char, rest: ByteString)
    ensures CodePoint(Utf8Char(c) + rest) == Some((c as int, |Utf8Char(c)|))
  {
    Base64Digits(c as int);
    var b := Utf8Char(c) + rest;
    assert b[0] == Utf8Char(c)[0];
    if |Utf8Char(c)| > 1 {
      assert b[1] == Utf8Char(c)[1];
    }
    if |Utf8Char(c)| > 2 {
      assert b[2] == Utf8Char(c)[2];
    }
    if |Utf8Char(c)| > 3 {
      assert b[3] == Utf8Char(c)[3];
    }
  }

  lemma {:induction false} Utf8Decodes(s: string)
    ensures DecodeUtf8(Utf8(s)) == Some(s)
    decreases |s|
  {
    if s != "" {
      var first, rest := Utf8Char(s[0]), Utf8(s[1..]);
      CodePointOf(s[0], rest);
      assert (first + rest)[|first|..] == rest;
      Utf8Decodes(s[1..]);
      assert [s[0]] + s[1..] == s;
    }
  }

  // ----- The preimage -----

  /** The ASCII bytes of boutique.result.v1 and a NUL. */
  const TAG: ByteString := [
    0x62, 0x6F, 0x75, 0x74, 0x69, 0x71, 0x75, 0x65, 0x2E, 0x72, 0x65, 0x73, 0x75, 0x6C, 0x74, 0x2E, 0x76, 0x31, 0x00]

  /** A four-byte big-endian length and as many bytes; what follows is the second part. */
  function ReadPrefixed(b: ByteString): Option<(ByteString, ByteString)> {
    if |b| < 4 then None
    else
      var length: nat := ((At(b, 0) * 256 + At(b, 1)) * 256 + At(b, 2)) * 256 + At(b, 3);
      if |b| < 4 + length then None else Some((b[4..4 + length], b[4 + length..]))
  }

  function ReadPreimage(b: ByteString): Option<(string, string)> {
    if |b| < |TAG| || b[..|TAG|] != TAG then None
    else
      match ReadPrefixed(b[|TAG|..])
      case None => None
      case Some(input) =>
        match ReadPrefixed(input.1)
        case None => None
        case Some(slot) =>
          if slot.1 != [] then None
          else
            match (DecodeUtf8(input.0), DecodeUtf8(slot.0))
            case (Some(i), Some(s)) => Some((i, s))
            case _ => None
  }

  lemma PrefixedReads(field: ByteString, rest: ByteString)
    requires |field| < MAX_LENGTH
    ensures ReadPrefixed(BigEndian32(|field|) + field + rest) == Some((field, rest))
  {
    var b := BigEndian32(|field|) + field + rest;
    Base256Digits(|field|);
    assert b[..4] == BigEndian32(|field|);
    assert b[0] == b[..4][0] && b[1] == b[..4][1] && b[2] == b[..4][2] && b[3] == b[..4][3];
    assert b[4..4 + |field|] == field && b[4 + |field|..] == rest;
  }

  /** The preimage of an ID can be read back: input and slot are in it as they were given. */
  lemma PreimageReads(input: string, slot: string)
    requires Preimage(input, slot).Some?
    ensures ReadPreimage(Preimage(input, slot).value) == Some((input, slot))
  {
    var i, s := Utf8(input), Utf8(slot);
    FieldsRead(i, s);
    TagTaken(PrefixedFields(i, s));
    Utf8Decodes(input);
    Utf8Decodes(slot);
  }

  lemma FieldsRead(i: ByteString, s: ByteString)
    requires |i| < MAX_LENGTH && |s| < MAX_LENGTH
    ensures ReadPrefixed(PrefixedFields(i, s)) == Some((i, BigEndian32(|s|) + s))
    ensures ReadPrefixed(BigEndian32(|s|) + s) == Some((s, []))
  {
    PrefixedReads(i, BigEndian32(|s|) + s);
    assert BigEndian32(|s|) + s == BigEndian32(|s|) + s + [];
    PrefixedReads(s, []);
  }

  lemma TagTaken(fields: ByteString)
    ensures |DOMAIN_TAG + fields| >= |TAG|
    ensures (DOMAIN_TAG + fields)[..|TAG|] == TAG && (DOMAIN_TAG + fields)[|TAG|..] == fields
  {
  }

  // ----- Unpadded base64url -----

  /** The value of a symbol: A to Z, a to z, 0 to 9, minus, underscore. */
  function Digit(c: char): Option<nat> {
    if 'A' <= c <= 'Z' then Some((c - 'A') as nat)
    else if 'a' <= c <= 'z' then Some((c - 'a') as nat + 26)
    else if '0' <= c <= '9' then Some((c - '0') as nat + 52)
    else if c == '-' then Some(62)
    else if c == '_' then Some(63)
    else None
  }

  lemma DigitOfSymbol(i: nat)
    requires i < 64
    ensures Digit(Symbol(i)) == Some(i)
  {
  }

  /** The digits of a text. */
  function Digits(text: string): Option<seq<nat>> {
    if text == "" then Some([])
    else
      match (Digit(text[0]), Digits(text[1..]))
      case (Some(first), Some(rest)) => Some([first] + rest)
      case _ => None
  }

  /** Six bits a digit, most significant first; the bits that do not fill a byte are dropped. */
  function Unpack(digits: seq<nat>): seq<nat>
    decreases |digits|
  {
    if |digits| < 2 then []
    else if |digits| == 2 then [digits[0] * 4 + digits[1] / 16]
    else if |digits| == 3 then [digits[0] * 4 + digits[1] / 16, digits[1] % 16 * 16 + digits[2] / 4]
    else
      [digits[0] * 4 + digits[1] / 16, digits[1] % 16 * 16 + digits[2] / 4, digits[2] % 4 * 64 + digits[3]]
      + Unpack(digits[4..])
  }

  /** The digits that a byte string is packed into. */
  function Pack(b: ByteString): seq<nat>
    decreases |b|
  {
    if |b| == 0 then []
    else if |b| == 1 then [b[0] / 4, b[0] % 4 * 16]
    else if |b| == 2 then [b[0] / 4, b[0] % 4 * 16 + b[1] / 16, b[1] % 16 * 4]
    else
      [b[0] / 4, b[0] % 4 * 16 + b[1] / 16, b[1] % 16 * 4 + b[2] / 64, b[2] % 64] + Pack(b[3..])
  }

  lemma {:induction false} DigitsConcat(a: string, b: string)
    requires Digits(a).Some? && Digits(b).Some?
    ensures Digits(a + b) == Some(Digits(a).value + Digits(b).value)
    decreases |a|
  {
    if a == "" {
      assert a + b == b;
      assert [] + Digits(b).value == Digits(b).value;
    } else {
      assert (a + b)[1..] == a[1..] + b;
      DigitsConcat(a[1..], b);
      assert [Digit(a[0]).value] + (Digits(a[1..]).value + Digits(b).value)
          == [Digit(a[0]).value] + Digits(a[1..]).value + Digits(b).value;
    }
  }

  lemma OneDigit(x: nat)
    requires x < 64
    ensures Digits([Symbol(x)]) == Some([x])
  {
    DigitOfSymbol(x);
    var text := [Symbol(x)];
    assert text[1..] == "" && Digits(text[1..]) == Some([]);
    assert [x] + [] == [x];
  }

  lemma DigitsOfTwo(x: nat, y: nat)
    requires x < 64 && y < 64
    ensures Digits([Symbol(x), Symbol(y)]) == Some([x, y])
  {
    OneDigit(x);
    OneDigit(y);
    DigitsConcat([Symbol(x)], [Symbol(y)]);
    assert [Symbol(x)] + [Symbol(y)] == [Symbol(x), Symbol(y)] && [x] + [y] == [x, y];
  }

  lemma DigitsOfFour(p: nat, q: nat, r: nat, s: nat)
    requires p < 64 && q < 64 && r < 64 && s < 64
    ensures Digits([Symbol(p), Symbol(q), Symbol(r), Symbol(s)]) == Some([p, q, r, s])
  {
    DigitsOfTwo(p, q);
    DigitsOfTwo(r, s);
    DigitsConcat([Symbol(p), Symbol(q)], [Symbol(r), Symbol(s)]);
    assert [Symbol(p), Symbol(q)] + [Symbol(r), Symbol(s)] == [Symbol(p), Symbol(q), Symbol(r), Symbol(s)];
    assert [p, q] + [r, s] == [p, q, r, s];
  }

  lemma DigitsOfThree(p: nat, q: nat, r: nat)
    requires p < 64 && q < 64 && r < 64
    ensures Digits([Symbol(p), Symbol(q), Symbol(r)]) == Some([p, q, r])
  {
    DigitsOfTwo(p, q);
    OneDigit(r);
    DigitsConcat([Symbol(p), Symbol(q)], [Symbol(r)]);
    assert [Symbol(p), Symbol(q)] + [Symbol(r)] == [Symbol(p), Symbol(q), Symbol(r)] && [p, q] + [r] == [p, q, r];
  }

  /** The text of the last one or two bytes. */
  lemma TailDigits(b: ByteString)
    requires |b| <= 2
    ensures Digits(Base64Url(b)) == Some(Pack(b))
  {
    if |b| == 1 {
      DigitsOfTwo(b[0] / 4, b[0] % 4 * 16);
    } else if |b| == 2 {
      DigitsOfThree(b[0] / 4, b[0] % 4 * 16 + b[1] / 16, b[1] % 16 * 4);
    }
  }

  lemma {:induction false} TextDigits(b: ByteString)
    ensures Digits(Base64Url(b)) == Some(Pack(b))
    decreases |b|
  {
    if |b| <= 2 {
      TailDigits(b);
    } else {
      var p, q := b[0] / 4, b[0] % 4 * 16 + b[1] / 16;
      var r, s := b[1] % 16 * 4 + b[2] / 64, b[2] % 64;
      DigitsOfFour(p, q, r, s);
      TextDigits(b[3..]);
      DigitsConcat([Symbol(p), Symbol(q), Symbol(r), Symbol(s)], Base64Url(b[3..]));
    }
  }

  lemma {:induction false} UnpackPack(b: ByteString)
    ensures Unpack(Pack(b)) == b
    decreases |b|
  {
    if |b| >= 3 {
      UnpackGroup(b[0], b[1], b[2]);
      assert Pack(b)[4..] == Pack(b[3..]);
      UnpackPack(b[3..]);
      assert b == [b[0], b[1], b[2]] + b[3..];
    } else if |b| > 0 {
      UnpackGroup(b[0], if |b| > 1 then b[1] else 0, 0);
    }
  }

  lemma UnpackGroup(x: Byte, y: Byte, z: Byte)
    ensures x / 4 * 4 + (x % 4 * 16 + y / 16) / 16 == x
    ensures (x % 4 * 16 + y / 16) % 16 * 16 + (y % 16 * 4 + z / 64) / 4 == y
    ensures (y % 16 * 4 + z / 64) % 4 * 64 + z % 64 == z
  {
  }

  function DecodeBase64Url(text: string): Option<seq<nat>> {
    match Digits(text)
    case None => None
    case Some(digits) => Some(Unpack(digits))
  }

  /** Decoding the text gives the bytes back. */
  lemma Base64UrlDecodes(b: ByteString)
    ensures DecodeBase64Url(Base64Url(b)) == Some(b)
  {
    TextDigits(b);
    UnpackPack(b);
  }

  /** An ID is its prefix and the text of the hash of the bytes that name input and slot. */
  lemma IdReads(hash: Hash, input: string, slot: string)
    requires DeriveResultMessageId(hash, input, slot).Some?
    ensures var id := DeriveResultMessageId(hash, input, slot).value;
            && |id| >= 4 && id[..4] == "br1_"
            && exists preimage :: ReadPreimage(preimage) == Some((input, slot))
                 && DecodeBase64Url(id[4..]) == Some(hash(preimage))
  {
    var preimage := Preimage(input, slot).value;
    PreimageReads(input, slot);
    Base64UrlDecodes(hash(preimage));
    var id := DeriveResultMessageId(hash, input, slot).value;
    assert id[..4] == "br1_" && id[4..] == Base64Url(hash(preimage));
  }
}

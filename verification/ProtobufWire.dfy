/**
 The protobuf wire reader of scripts/verify-phase0-contracts.py (Protocol Buffers Encoding
 specification, "Base 128 Varints" and "Message Structure").

 The specification functions read from the front of what is left; the methods keep an offset, as
 the source does. Shifting a seven-bit group past the bits already read and or-ing it in is written
 as addition.
 */
module ProtobufWire {
  import opened Bytes
  import opened Options

  // ----- Varints -----

  const MAX_VARINT_BYTES := 10

  function Pow128(n: nat): nat {
    if n == 0 then 1 else 128 * Pow128(n - 1)
  }

  /** The varint at the front of `s`, of at most `budget` bytes, and how many bytes it takes. */
  function Varint(s: ByteString, budget: nat): Option<(nat, nat)> {
    if budget == 0 || s == [] then None
    else if s[0] < 128 then Some((s[0], 1))
    else
      match Varint(s[1..], budget - 1)
      case Some(rest) => Some((s[0] - 128 + 128 * rest.0, rest.1 + 1))
      case None => None
  }

  function EncodeVarint(v: nat): ByteString {
    if v < 128 then [v] else [v % 128 + 128] + EncodeVarint(v / 128)
  }

  /** A decoded varint always advances and stays within the data and its budget. */
  lemma {:induction false} VarintBounds(s: ByteString, budget: nat)
    ensures var r := Varint(s, budget);
            r.Some? ==> 1 <= r.value.1 <= |s| && r.value.1 <= budget && r.value.0 < Pow128(budget)
    decreases budget
  {
    if budget > 0 && s != [] {
      if s[0] >= 128 {
        VarintBounds(s[1..], budget - 1);
      } else {
        PowGrows(budget);
      }
    }
  }

  /** Groups of seven bits, least significant first. */
  function GroupValue(b: ByteString): nat {
    if b == [] then 0 else b[0] % 128 + 128 * GroupValue(b[1..])
  }

  /** A varint ends at its first byte below 128, also when it is longer than it need be, and has the
      value of its groups; there is none without such a byte among the first `budget`. */
  lemma {:induction false} VarintIsGroups(s: ByteString, budget: nat)
    ensures Varint(s, budget).Some? <==> exists k :: 0 <= k < |s| && k < budget && s[k] < 128
    ensures var r := Varint(s, budget);
            r.Some? ==>
              && 1 <= r.value.1 <= |s|
              && s[r.value.1 - 1] < 128 && (forall i :: 0 <= i < r.value.1 - 1 ==> s[i] >= 128)
              && r.value.0 == GroupValue(s[..r.value.1])
    decreases budget
  {
    if budget > 0 && s != [] {
      if s[0] < 128 {
        assert s[..1] == [s[0]];
      } else {
        var rest := s[1..];
        VarintIsGroups(rest, budget - 1);
        if Varint(rest, budget - 1).Some? {
          var n := Varint(rest, budget - 1).value.1;
          assert s[..n + 1][1..] == rest[..n];
          assert s[n] == rest[n - 1];
        }
        forall k | 0 <= k < |s| && k < budget && s[k] < 128
          ensures 0 <= k - 1 < |rest| && rest[k - 1] < 128
        {
        }
      }
    }
  }

  /** The first `n` bytes of both are there and the same. */
  ghost predicate Agree(s: ByteString, t: ByteString, n: nat) {
    n <= |s| && n <= |t| && forall i :: 0 <= i < n ==> s[i] == t[i]
  }

  /** A decoded varint depends only on the bytes it takes. */
  lemma {:induction false} VarintLocal(s: ByteString, t: ByteString, budget: nat)
    requires Varint(s, budget).Some? && Agree(s, t, Varint(s, budget).value.1)
    ensures Varint(t, budget) == Varint(s, budget)
    decreases budget
  {
    VarintBounds(s, budget);
    if s[0] >= 128 {
      VarintBounds(s[1..], budget - 1);
      VarintLocal(s[1..], t[1..], budget - 1);
    }
  }

  lemma {:induction false} PowGrows(n: nat)
    requires n > 0
    ensures Pow128(n) >= 128
  {
    if n > 1 {
      PowGrows(n - 1);
    }
  }

  /** Decoding inverts encoding, whatever follows. */
  lemma {:induction false} VarintRoundTrip(v: nat, budget: nat, rest: ByteString)
    requires budget > 0 && v < Pow128(budget)
    ensures Varint(EncodeVarint(v) + rest, budget) == Some((v, |EncodeVarint(v)|))
    decreases v
  {
    var s := EncodeVarint(v) + rest;
    if v >= 128 {
      assert Pow128(1) == 128;
      assert s[1..] == EncodeVarint(v / 128) + rest;
      VarintRoundTrip(v / 128, budget - 1, rest);
    }
  }

  datatype WireError = InvalidVarint | ZeroField | UnsupportedType(wireType: nat) | Truncated

  /** What is left to read at `offset` completes the varint at `start`, of which `read` groups worth
      `value` have been read. */
  ghost predicate Continues(data: ByteString, start: nat, read: nat, value: nat, scale: nat)
    requires start + read <= |data| && read <= MAX_VARINT_BYTES
  {
    match Varint(data[start + read..], MAX_VARINT_BYTES - read)
    case Some(r) => Varint(data[start..], MAX_VARINT_BYTES) == Some((value + scale * r.0, read + r.1))
    case None => Varint(data[start..], MAX_VARINT_BYTES) == None
  }

  lemma Distribute(scale: nat, digit: nat, rest: nat)
    ensures scale * (digit + 128 * rest) == digit * scale + scale * 128 * rest
  {
  }

  lemma ReadGroup(data: ByteString, start: nat, read: nat, value: nat, scale: nat)
    requires start + read < |data| && read < MAX_VARINT_BYTES && Continues(data, start, read, value, scale)
    ensures var byte := data[start + read]; var next := value + byte % 128 * scale;
            if byte < 128 then Varint(data[start..], MAX_VARINT_BYTES) == Some((next, read + 1))
            else Continues(data, start, read + 1, next, scale * 128)
  {
    var rest := data[start + read..];
    assert rest[0] == data[start + read] && rest[1..] == data[start + read + 1..];
    var digit := rest[0] % 128;
    var tail := Varint(rest[1..], MAX_VARINT_BYTES - read - 1);
    if rest[0] < 128 {
      assert digit == rest[0] && scale * digit == digit * scale;
    } else if tail.Some? {
      assert digit == rest[0] - 128;
      Distribute(scale, digit, tail.value.0);
    }
  }

  /** read_varint. `scale` is 2 to the power `shift`. */
  method ReadVarint(data: ByteString, start: nat) returns (result: Result<(nat, nat), WireError>)
    requires start <= |data|
    ensures match Varint(data[start..], MAX_VARINT_BYTES)
            case Some(r) => result == Ok((r.0, start + r.1))
            case None => result == Err(InvalidVarint)
  {
    var value: nat, offset: nat, shift: nat, scale: nat := 0, start, 0, 1;
    ghost var read := 0;
    while offset < |data|
      invariant offset == start + read <= |data| && shift == 7 * read < 70 && scale == Pow128(read)
      invariant Continues(data, start, read, value, scale)
    {
      ReadGroup(data, start, read, value, scale);
      var byte: nat := data[offset];
      offset := offset + 1;
      value := value + byte % 128 * scale;
      if byte < 128 {
        return Ok((value, offset));
      }
      shift, scale := shift + 7, scale * 128;
      read := read + 1;
      if shift >= 70 {
        break;
      }
    }
    return Err(InvalidVarint);
  }

  // ----- Fields -----

  datatype Payload =
    | VarintValue(value: nat)
    | Fixed64(bytes: ByteString)
    | Chunk(bytes: ByteString)
    | Fixed32(bytes: ByteString)

  datatype Field = Field(number: nat, payload: Payload)

  function WireType(payload: Payload): nat {
    match payload
    case VarintValue(_) => 0
    case Fixed64(_) => 1
    case Chunk(_) => 2
    case Fixed32(_) => 5
  }

  function Take(p: ByteString, from: nat, length: nat): Option<ByteString> {
    if from + length <= |p| then Some(p[from..from + length]) else None
  }

  /** The payload at the front of `p`, and how many bytes it takes. */
  function ReadPayload(wireType: nat, p: ByteString): Result<(Payload, nat), WireError> {
    if wireType == 0 then
      match Varint(p, MAX_VARINT_BYTES)
      case None => Err(InvalidVarint)
      case Some(r) => Ok((VarintValue(r.0), r.1))
    else if wireType == 1 then
      match Take(p, 0, 8)
      case None => Err(Truncated)
      case Some(bytes) => Ok((Fixed64(bytes), 8))
    else if wireType == 2 then
      match Varint(p, MAX_VARINT_BYTES)
      case None => Err(InvalidVarint)
      case Some(r) =>
        (match Take(p, r.1, r.0)
         case None => Err(Truncated)
         case Some(bytes) => Ok((Chunk(bytes), r.1 + r.0)))
    else if wireType == 5 then
      match Take(p, 0, 4)
      case None => Err(Truncated)
      case Some(bytes) => Ok((Fixed32(bytes), 4))
    else Err(UnsupportedType(wireType))
  }

  lemma PayloadBounds(wireType: nat, p: ByteString)
    ensures ReadPayload(wireType, p).Ok? ==> 1 <= ReadPayload(wireType, p).value.1 <= |p|
    ensures ReadPayload(wireType, p).Ok? ==> WireType(ReadPayload(wireType, p).value.0) == wireType
    ensures ReadPayload(wireType, p).Ok? && wireType == 2 ==> |ReadPayload(wireType, p).value.0.bytes| < |p|
  {
    VarintBounds(p, MAX_VARINT_BYTES);
  }

  /** The field at the front of `s`, and how many bytes it takes. */
  function ReadField(s: ByteString): (r: Result<(Field, nat), WireError>)
    ensures r.Ok? ==> 2 <= r.value.1 <= |s|
  {
    match Varint(s, MAX_VARINT_BYTES)
    case None => Err(InvalidVarint)
    case Some(tag) =>
      if tag.0 / 8 == 0 then Err(ZeroField)
      else
        VarintBounds(s, MAX_VARINT_BYTES);
        PayloadBounds(tag.0 % 8, s[tag.1..]);
        match ReadPayload(tag.0 % 8, s[tag.1..])
        case Err(error) => Err(error)
        case Ok(r) => Ok((Field(tag.0 / 8, r.0), tag.1 + r.1))
  }

  lemma TakeLocal(p: ByteString, q: ByteString, from: nat, length: nat)
    requires Agree(p, q, from + length)
    ensures Take(q, from, length) == Take(p, from, length)
  {
    assert p[from..from + length] == q[from..from + length];
  }

  lemma PayloadLocal(wireType: nat, p: ByteString, q: ByteString)
    requires ReadPayload(wireType, p).Ok? && Agree(p, q, ReadPayload(wireType, p).value.1)
    ensures ReadPayload(wireType, q) == ReadPayload(wireType, p)
  {
    if wireType == 0 {
      VarintLocal(p, q, MAX_VARINT_BYTES);
    } else if wireType == 2 {
      var r := Varint(p, MAX_VARINT_BYTES).value;
      VarintLocal(p, q, MAX_VARINT_BYTES);
      TakeLocal(p, q, r.1, r.0);
    } else {
      TakeLocal(p, q, 0, ReadPayload(wireType, p).value.1);
    }
  }

  /** A decoded field depends only on the bytes it takes. */
  lemma FieldLocal(s: ByteString, t: ByteString)
    requires ReadField(s).Ok? && Agree(s, t, ReadField(s).value.1)
    ensures ReadField(t) == ReadField(s)
  {
    var tag := Varint(s, MAX_VARINT_BYTES).value;
    VarintBounds(s, MAX_VARINT_BYTES);
    PayloadBounds(tag.0 % 8, s[tag.1..]);
    VarintLocal(s, t, MAX_VARINT_BYTES);
    PayloadLocal(tag.0 % 8, s[tag.1..], t[tag.1..]);
  }

  function EncodePayload(payload: Payload): ByteString {
    match payload
    case VarintValue(value) => EncodeVarint(value)
    case Fixed64(bytes) => bytes
    case Chunk(bytes) => EncodeVarint(|bytes|) + bytes
    case Fixed32(bytes) => bytes
  }

  function Tag(field: Field): nat {
    field.number * 8 + WireType(field.payload)
  }

  function EncodeField(field: Field): ByteString {
    EncodeVarint(Tag(field)) + EncodePayload(field.payload)
  }

  predicate PayloadFits(payload: Payload) {
    match payload
    case VarintValue(value) => value < Pow128(MAX_VARINT_BYTES)
    case Fixed64(bytes) => |bytes| == 8
    case Chunk(bytes) => |bytes| < Pow128(MAX_VARINT_BYTES)
    case Fixed32(bytes) => |bytes| == 4
  }

  predicate WellFormed(field: Field) {
    field.number > 0 && Tag(field) < Pow128(MAX_VARINT_BYTES) && PayloadFits(field.payload)
  }

  lemma TakeFront(a: ByteString, bytes: ByteString, rest: ByteString)
    ensures Take(a + bytes + rest, |a|, |bytes|) == Some(bytes)
  {
    assert (a + bytes + rest)[|a|..|a| + |bytes|] == bytes;
  }

  lemma PayloadRoundTrip(payload: Payload, rest: ByteString)
    requires PayloadFits(payload)
    ensures ReadPayload(WireType(payload), EncodePayload(payload) + rest) == Ok((payload, |EncodePayload(payload)|))
  {
    match payload
    case VarintValue(value) => VarintRoundTrip(value, MAX_VARINT_BYTES, rest);
    case Chunk(bytes) =>
      assert EncodePayload(payload) + rest == EncodeVarint(|bytes|) + (bytes + rest);
      VarintRoundTrip(|bytes|, MAX_VARINT_BYTES, bytes + rest);
      TakeFront(EncodeVarint(|bytes|), bytes, rest);
    case Fixed64(bytes) =>
      assert bytes + rest == [] + bytes + rest;
      TakeFront([], bytes, rest);
    case Fixed32(bytes) =>
      assert bytes + rest == [] + bytes + rest;
      TakeFront([], bytes, rest);
  }

  lemma TagRoundTrip(field: Field, rest: ByteString)
    requires WellFormed(field)
    ensures var tag := EncodeVarint(Tag(field)); var s := EncodeField(field) + rest;
            && Varint(s, MAX_VARINT_BYTES) == Some((Tag(field), |tag|))
            && |tag| <= |s| && s[|tag|..] == EncodePayload(field.payload) + rest
    ensures Tag(field) / 8 == field.number && Tag(field) % 8 == WireType(field.payload)
  {
    var tag := EncodeVarint(Tag(field));
    var tail := EncodePayload(field.payload) + rest;
    assert EncodeField(field) + rest == tag + tail;
    VarintRoundTrip(Tag(field), MAX_VARINT_BYTES, tail);
  }

  lemma FieldRoundTrip(field: Field, rest: ByteString)
    requires WellFormed(field)
    ensures ReadField(EncodeField(field) + rest) == Ok((field, |EncodeField(field)|))
  {
    TagRoundTrip(field, rest);
    PayloadRoundTrip(field.payload, rest);
  }

  /** Whatever is decoded can be encoded again. */
  lemma DecodedFieldIsWellFormed(s: ByteString)
    ensures ReadField(s).Ok? ==> WellFormed(ReadField(s).value.0)
  {
    if ReadField(s).Ok? {
      var tag := Varint(s, MAX_VARINT_BYTES).value;
      VarintBounds(s, MAX_VARINT_BYTES);
      PayloadBounds(tag.0 % 8, s[tag.1..]);
      VarintBounds(s[tag.1..], MAX_VARINT_BYTES);
    }
  }

  // ----- Whole messages -----

  function Prepend(field: Field, rest: Result<seq<Field>, WireError>): Result<seq<Field>, WireError> {
    match rest
    case Ok(fields) => Ok([field] + fields)
    case Err(error) => Err(error)
  }

  /** All fields of `s`, or the first error. */
  function DecodeFields(s: ByteString): Result<seq<Field>, WireError>
    decreases |s|
  {
    if s == [] then Ok([])
    else
      match ReadField(s)
      case Err(error) => Err(error)
      case Ok(r) => Prepend(r.0, DecodeFields(s[r.1..]))
  }

  function EncodeFields(fields: seq<Field>): ByteString
    decreases |fields|
  {
    if fields == [] then [] else EncodeField(fields[0]) + EncodeFields(fields[1..])
  }

  ghost predicate AllWellFormed(fields: seq<Field>) {
    forall i :: 0 <= i < |fields| ==> WellFormed(fields[i])
  }

  /** Encoding then decoding is the identity, also in front of any other data. */
  lemma {:induction false} FieldsRoundTrip(fields: seq<Field>)
    requires AllWellFormed(fields)
    ensures DecodeFields(EncodeFields(fields)) == Ok(fields)
    decreases |fields|
  {
    if fields != [] {
      var rest := EncodeFields(fields[1..]);
      FieldRoundTrip(fields[0], rest);
      assert EncodeFields(fields)[|EncodeField(fields[0])|..] == rest;
      FieldsRoundTrip(fields[1..]);
      assert [fields[0]] + fields[1..] == fields;
    }
  }

  /** Decoding a concatenation concatenates the decodes: a decoded message has used exactly its own
      bytes. */
  lemma {:induction false} DecodeConcatenation(a: ByteString, b: ByteString)
    requires DecodeFields(a).Ok?
    ensures DecodeFields(a + b) == PrependAll(DecodeFields(a).value, DecodeFields(b))
    decreases |a|
  {
    if a == [] {
      assert a + b == b;
      PrependNone(DecodeFields(b));
    } else {
      var r := ReadField(a).value;
      FieldLocal(a, a + b);
      assert (a + b)[r.1..] == a[r.1..] + b;
      DecodeConcatenation(a[r.1..], b);
      PrependOneMore(r.0, DecodeFields(a[r.1..]).value, DecodeFields(b));
    }
  }

  function PrependAll(fields: seq<Field>, rest: Result<seq<Field>, WireError>): Result<seq<Field>, WireError> {
    match rest
    case Ok(more) => Ok(fields + more)
    case Err(error) => Err(error)
  }

  lemma PrependNone(rest: Result<seq<Field>, WireError>)
    ensures PrependAll([], rest) == rest
  {
    if rest.Ok? {
      assert [] + rest.value == rest.value;
    }
  }

  lemma PrependOneMore(field: Field, fields: seq<Field>, rest: Result<seq<Field>, WireError>)
    ensures PrependAll([field] + fields, rest) == Prepend(field, PrependAll(fields, rest))
    ensures PrependAll(fields + [field], rest) == PrependAll(fields, Prepend(field, rest))
  {
    if rest.Ok? {
      assert [field] + fields + rest.value == [field] + (fields + rest.value);
      assert fields + [field] + rest.value == fields + ([field] + rest.value);
    }
  }

  /** Re-encoding what was decoded, whatever its original spelling, decodes to the same fields. */
  lemma {:induction false} DecodedIsWellFormed(s: ByteString)
    ensures DecodeFields(s).Ok? ==> AllWellFormed(DecodeFields(s).value)
    decreases |s|
  {
    if s != [] && ReadField(s).Ok? {
      DecodedFieldIsWellFormed(s);
      DecodedIsWellFormed(s[ReadField(s).value.1..]);
    }
  }

  lemma CanonicalForm(s: ByteString)
    requires DecodeFields(s).Ok?
    ensures DecodeFields(EncodeFields(DecodeFields(s).value)) == DecodeFields(s)
  {
    DecodedIsWellFormed(s);
    FieldsRoundTrip(DecodeFields(s).value);
  }

  /** A length-delimited value is strictly shorter than the message it comes from. */
  lemma {:induction false} ChunksAreShorter(s: ByteString, i: nat)
    requires DecodeFields(s).Ok? && i < |DecodeFields(s).value| && DecodeFields(s).value[i].payload.Chunk?
    ensures |DecodeFields(s).value[i].payload.bytes| < |s|
    decreases |s|
  {
    var r := ReadField(s).value;
    if i > 0 {
      ChunksAreShorter(s[r.1..], i - 1);
    } else {
      var tag := Varint(s, MAX_VARINT_BYTES).value;
      VarintBounds(s, MAX_VARINT_BYTES);
      PayloadBounds(tag.0 % 8, s[tag.1..]);
    }
  }

  /** data[from : from + length], which stops at the end of the data. */
  function Slice(data: ByteString, from: nat, length: nat): ByteString
    requires from <= |data|
  {
    if from + length <= |data| then data[from..from + length] else data[from..]
  }

  lemma SliceIsTake(data: ByteString, start: nat, from: nat, length: nat)
    requires start + from <= |data|
    ensures Take(data[start..], from, length)
            == if start + from + length <= |data| then Some(Slice(data, start + from, length)) else None
  {
    if start + from + length <= |data| {
      assert data[start..][from..from + length] == data[start + from..start + from + length];
    }
  }

  /** The part of a round of wire_fields that reads the value. */
  method NextPayload(data: ByteString, wireType: nat, start: nat) returns (result: Result<(Payload, nat), WireError>)
    requires start <= |data|
    ensures match ReadPayload(wireType, data[start..])
            case Ok(r) => result == Ok((r.0, start + r.1))
            case Err(error) => result == Err(error)
  {
    var payload: Payload;
    var offset := start;
    if wireType == 0 {
      var value := ReadVarint(data, start);
      if value.Err? {
        return Err(value.error);
      }
      VarintBounds(data[start..], MAX_VARINT_BYTES);
      payload, offset := VarintValue(value.value.0), value.value.1;
    } else if wireType == 1 {
      SliceIsTake(data, start, 0, 8);
      payload, offset := Fixed64(Slice(data, start, 8)), start + 8;
    } else if wireType == 2 {
      var length := ReadVarint(data, start);
      if length.Err? {
        return Err(length.error);
      }
      VarintBounds(data[start..], MAX_VARINT_BYTES);
      SliceIsTake(data, start, length.value.1 - start, length.value.0);
      payload, offset := Chunk(Slice(data, length.value.1, length.value.0)), length.value.1 + length.value.0;
    } else if wireType == 5 {
      SliceIsTake(data, start, 0, 4);
      payload, offset := Fixed32(Slice(data, start, 4)), start + 4;
    } else {
      return Err(UnsupportedType(wireType));
    }
    if offset > |data| {
      return Err(Truncated);
    }
    return Ok((payload, offset));
  }

  /** One round of the loop of wire_fields. */
  method NextField(data: ByteString, start: nat) returns (result: Result<(Field, nat), WireError>)
    requires start < |data|
    ensures match ReadField(data[start..])
            case Ok(r) => result == Ok((r.0, start + r.1))
            case Err(error) => result == Err(error)
  {
    var rest := data[start..];
    var tag := ReadVarint(data, start);
    if tag.Err? {
      return Err(tag.error);
    }
    VarintBounds(rest, MAX_VARINT_BYTES);
    var number, wireType := tag.value.0 / 8, tag.value.0 % 8;
    if number == 0 {
      return Err(ZeroField);
    }
    assert rest[tag.value.1 - start..] == data[tag.value.1..];
    var value := NextPayload(data, wireType, tag.value.1);
    if value.Err? {
      return Err(value.error);
    }
    return Ok((Field(number, value.value.0), value.value.1));
  }

  /** The fields read before `offset`, and what is still to be decoded. */
  ghost predicate Pending(data: ByteString, fields: seq<Field>, offset: nat) {
    offset <= |data| && DecodeFields(data) == PrependAll(fields, DecodeFields(data[offset..]))
  }

  lemma PendingStart(data: ByteString)
    ensures Pending(data, [], 0)
  {
    assert data[0..] == data;
    PrependNone(DecodeFields(data));
  }

  lemma DecodeNext(data: ByteString, offset: nat, field: Field, end: nat)
    requires offset < end <= |data| && ReadField(data[offset..]) == Ok((field, end - offset))
    ensures DecodeFields(data[offset..]) == Prepend(field, DecodeFields(data[end..]))
  {
    assert data[offset..][end - offset..] == data[end..];
  }

  lemma PendingStep(data: ByteString, fields: seq<Field>, offset: nat, field: Field, end: nat)
    requires Pending(data, fields, offset)
    requires offset < end <= |data| && ReadField(data[offset..]) == Ok((field, end - offset))
    ensures Pending(data, fields + [field], end)
  {
    DecodeNext(data, offset, field, end);
    PrependOneMore(field, fields, DecodeFields(data[end..]));
  }

  lemma PendingError(data: ByteString, fields: seq<Field>, offset: nat, error: WireError)
    requires Pending(data, fields, offset) && offset < |data|
    requires ReadField(data[offset..]) == Err(error)
    ensures DecodeFields(data) == Err(error)
  {
  }

  lemma PendingEnd(data: ByteString, fields: seq<Field>)
    requires Pending(data, fields, |data|)
    ensures DecodeFields(data) == Ok(fields)
  {
    assert data[|data|..] == [] && fields + [] == fields;
  }

  /** wire_fields, collected by its callers into a list; a list that is returned has used up all of
      the data. */
  method WireFields(data: ByteString) returns (result: Result<seq<Field>, WireError>)
    ensures result == DecodeFields(data)
  {
    var fields: seq<Field> := [];
    var offset: nat := 0;
    PendingStart(data);
    while offset < |data|
      invariant Pending(data, fields, offset)
      decreases |data| - offset
    {
      var next := NextField(data, offset);
      if next.Err? {
        PendingError(data, fields, offset, next.error);
        return Err(next.error);
      }
      PendingStep(data, fields, offset, next.value.0, next.value.1);
      fields := fields + [next.value.0];
      offset := next.value.1;
    }
    PendingEnd(data, fields);
    return Ok(fields);
  }
}

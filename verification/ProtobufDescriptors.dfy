/**
 Reading message and enum descriptors out of wire data (values, text_value, int_value, parse_enum
 and parse_message in scripts/verify-phase0-contracts.py; field numbers of DescriptorProto).

 Names stay byte strings: that they are valid UTF-8 is not modelled. A read descriptor is a tree of
 fields and nested messages; reading it back from any of its encodings gives exactly the flattened
 tree.
 */
module ProtobufDescriptors {
  import opened Bytes
  import opened Options
  import opened ProtobufWire

  // ----- values, text_value, int_value -----

  function Chunks(fields: seq<Field>, number: nat): seq<ByteString>
    decreases |fields|
  {
    if fields == [] then []
    else
      (if fields[0].number == number && fields[0].payload.Chunk? then [fields[0].payload.bytes] else [])
      + Chunks(fields[1..], number)
  }

  function Varints(fields: seq<Field>, number: nat): seq<nat>
    decreases |fields|
  {
    if fields == [] then []
    else
      (if fields[0].number == number && fields[0].payload.VarintValue? then [fields[0].payload.value] else [])
      + Varints(fields[1..], number)
  }

  function TextValue(fields: seq<Field>, number: nat): ByteString {
    if Chunks(fields, number) == [] then [] else Chunks(fields, number)[0]
  }

  function IntValue(fields: seq<Field>, number: nat): nat {
    if Varints(fields, number) == [] then 0 else Varints(fields, number)[0]
  }

  // ----- What is read -----

  /** One entry of a message's fields: name, label (its cardinality), type, type name and proto3_optional. */
  datatype FieldInfo = FieldInfo(name: ByteString, cardinality: nat, kind: nat, typeName: ByteString, optional: bool)

  datatype Tables = Tables(messages: map<ByteString, map<nat, FieldInfo>>, enums: map<ByteString, map<ByteString, nat>>)

  /** f"{prefix}.{name}" */
  function Qualify(prefix: ByteString, name: ByteString): ByteString {
    prefix + [0x2E] + name
  }

  function ParseFieldInfos(raws: seq<ByteString>, infos: map<nat, FieldInfo>): Result<map<nat, FieldInfo>, WireError>
    decreases |raws|
  {
    if raws == [] then Ok(infos)
    else
      match DecodeFields(raws[0])
      case Err(error) => Err(error)
      case Ok(fields) =>
        var info := FieldInfo(TextValue(fields, 1), IntValue(fields, 4), IntValue(fields, 5), TextValue(fields, 6),
            IntValue(fields, 17) != 0);
        ParseFieldInfos(raws[1..], infos[IntValue(fields, 3) := info])
  }

  function ParseEnumValues(raws: seq<ByteString>, values: map<ByteString, nat>): Result<map<ByteString, nat>, WireError>
    decreases |raws|
  {
    if raws == [] then Ok(values)
    else
      match DecodeFields(raws[0])
      case Err(error) => Err(error)
      case Ok(fields) => ParseEnumValues(raws[1..], values[TextValue(fields, 1) := IntValue(fields, 2)])
  }

  function ParseEnums(raws: seq<ByteString>, prefix: ByteString, tables: Tables): Result<Tables, WireError>
    decreases |raws|
  {
    if raws == [] then Ok(tables)
    else
      match DecodeFields(raws[0])
      case Err(error) => Err(error)
      case Ok(fields) =>
        match ParseEnumValues(Chunks(fields, 2), map[])
        case Err(error) => Err(error)
        case Ok(values) =>
          ParseEnums(raws[1..], prefix, tables.(enums := tables.enums[Qualify(prefix, TextValue(fields, 1)) := values]))
  }

  lemma {:induction false} ChunkIsShorter(s: ByteString, number: nat, i: nat)
    requires DecodeFields(s).Ok? && i < |Chunks(DecodeFields(s).value, number)|
    ensures |Chunks(DecodeFields(s).value, number)[i]| < |s|
  {
    var k := ChunkSource(DecodeFields(s).value, number, i);
    ChunksAreShorter(s, k);
  }

  lemma {:induction false} ChunkSource(fields: seq<Field>, number: nat, i: nat) returns (k: nat)
    requires i < |Chunks(fields, number)|
    ensures k < |fields| && fields[k].payload == Chunk(Chunks(fields, number)[i])
    decreases |fields|
  {
    var here := if fields[0].number == number && fields[0].payload.Chunk? then 1 else 0;
    if i < here {
      k := 0;
    } else {
      var rest := ChunkSource(fields[1..], number, i - here);
      k := rest + 1;
    }
  }

  /** parse_message. It terminates because a nested message is strictly shorter than the message
      around it. */
  function ParseMessage(data: ByteString, prefix: ByteString, tables: Tables): Result<Tables, WireError>
    decreases |data|, 1, 0
  {
    match DecodeFields(data)
    case Err(error) => Err(error)
    case Ok(fields) =>
      var name := Qualify(prefix, TextValue(fields, 1));
      match ParseFieldInfos(Chunks(fields, 2), map[])
      case Err(error) => Err(error)
      case Ok(infos) =>
        assert forall i :: 0 <= i < |Chunks(fields, 3)| ==> |Chunks(fields, 3)[i]| < |data| by {
          forall i | 0 <= i < |Chunks(fields, 3)| ensures |Chunks(fields, 3)[i]| < |data| {
            ChunkIsShorter(data, 3, i);
          }
        }
        match ParseNested(Chunks(fields, 3), |data|, name, tables.(messages := tables.messages[name := infos]))
        case Err(error) => Err(error)
        case Ok(nested) => ParseEnums(Chunks(fields, 4), name, nested)
  }

  function ParseNested(raws: seq<ByteString>, bound: nat, prefix: ByteString, tables: Tables): Result<Tables, WireError>
    requires forall i :: 0 <= i < |raws| ==> |raws[i]| < bound
    decreases bound, 0, |raws|
  {
    if raws == [] then Ok(tables)
    else
      match ParseMessage(raws[0], prefix, tables)
      case Err(error) => Err(error)
      case Ok(first) => ParseNested(raws[1..], bound, prefix, first)
  }

  // ----- The descriptors, and their encoding -----

  datatype FieldDescriptor = FieldDescriptor(number: nat, info: FieldInfo)

  datatype EnumValue = EnumValue(name: ByteString, number: nat)

  datatype EnumDescriptor = EnumDescriptor(name: ByteString, values: seq<EnumValue>)

  datatype MessageDescriptor = MessageDescriptor(
    name: ByteString,
    fields: seq<FieldDescriptor>,
    nested: seq<MessageDescriptor>,
    enums: seq<EnumDescriptor>)

  function FieldDescriptorFields(f: FieldDescriptor): seq<Field> {
    [Field(1, Chunk(f.info.name)), Field(3, VarintValue(f.number)), Field(4, VarintValue(f.info.cardinality)),
     Field(5, VarintValue(f.info.kind)), Field(6, Chunk(f.info.typeName)),
         Field(17, VarintValue(if f.info.optional then 1 else 0))]
  }

  function EnumValueFields(v: EnumValue): seq<Field> {
    [Field(1, Chunk(v.name)), Field(2, VarintValue(v.number))]
  }

  /** One length-delimited field of number `number` for each chunk. */
  function ChunkFields(number: nat, chunks: seq<ByteString>): seq<Field> {
    seq(|chunks|, i requires 0 <= i < |chunks| => Field(number, Chunk(chunks[i])))
  }

  function EncodeFieldDescriptors(fields: seq<FieldDescriptor>): seq<ByteString> {
    seq(|fields|, i requires 0 <= i < |fields| => EncodeFields(FieldDescriptorFields(fields[i])))
  }

  function EncodeEnumValues(values: seq<EnumValue>): seq<ByteString> {
    seq(|values|, i requires 0 <= i < |values| => EncodeFields(EnumValueFields(values[i])))
  }

  function EnumFields(e: EnumDescriptor): seq<Field> {
    [Field(1, Chunk(e.name))] + ChunkFields(2, EncodeEnumValues(e.values))
  }

  function EncodeEnums(enums: seq<EnumDescriptor>): seq<ByteString> {
    seq(|enums|, i requires 0 <= i < |enums| => EncodeFields(EnumFields(enums[i])))
  }

  function MessageFields(m: MessageDescriptor): seq<Field>
    decreases m, 1
  {
    [Field(1, Chunk(m.name))] + ChunkFields(2, EncodeFieldDescriptors(m.fields))
    + ChunkFields(3, EncodeMessages(m.nested)) + ChunkFields(4, EncodeEnums(m.enums))
  }

  function EncodeMessages(messages: seq<MessageDescriptor>): (chunks: seq<ByteString>)
    decreases messages, 0
  {
    if messages == [] then [] else [EncodeFields(MessageFields(messages[0]))] + EncodeMessages(messages[1..])
  }

  // ----- What the tables should become -----

  function FieldTable(fields: seq<FieldDescriptor>, infos: map<nat, FieldInfo>): map<nat, FieldInfo>
    decreases |fields|
  {
    if fields == [] then infos else FieldTable(fields[1..], infos[fields[0].number := fields[0].info])
  }

  function ValueTable(values: seq<EnumValue>, table: map<ByteString, nat>): map<ByteString, nat>
    decreases |values|
  {
    if values == [] then table else ValueTable(values[1..], table[values[0].name := values[0].number])
  }

  function AddEnums(enums: seq<EnumDescriptor>, prefix: ByteString, tables: Tables): Tables
    decreases |enums|
  {
    if enums == [] then tables
    else
      AddEnums(enums[1..], prefix,
          tables.(enums := tables.enums[Qualify(prefix, enums[0].name) := ValueTable(enums[0].values, map[])]))
  }

  /** A message enters the tables under its qualified name, then its nested messages and its enums
      under names qualified by it. */
  function AddMessage(m: MessageDescriptor, prefix: ByteString, tables: Tables): Tables
    decreases m, 1
  {
    var name := Qualify(prefix, m.name);
    var own := tables.(messages := tables.messages[name := FieldTable(m.fields, map[])]);
    AddEnums(m.enums, name, AddMessages(m.nested, name, own))
  }

  function AddMessages(messages: seq<MessageDescriptor>, prefix: ByteString, tables: Tables): Tables
    decreases messages, 0
  {
    if messages == [] then tables else AddMessages(messages[1..], prefix, AddMessage(messages[0], prefix, tables))
  }

  // ----- Encodable descriptors -----

  ghost predicate EnumFits(e: EnumDescriptor) {
    && AllWellFormed(EnumFields(e))
    && forall i :: 0 <= i < |e.values| ==> AllWellFormed(EnumValueFields(e.values[i]))
  }

  /** Every number and every length in the tree can be written as a varint. */
  ghost predicate Fits(m: MessageDescriptor)
    decreases m
  {
    && AllWellFormed(MessageFields(m))
    && (forall i :: 0 <= i < |m.fields| ==> AllWellFormed(FieldDescriptorFields(m.fields[i])))
    && (forall i :: 0 <= i < |m.nested| ==> Fits(m.nested[i]))
    && (forall i :: 0 <= i < |m.enums| ==> EnumFits(m.enums[i]))
  }

  // ----- Round trip -----

  lemma {:induction false} ChunksConcat(a: seq<Field>, b: seq<Field>, number: nat)
    ensures Chunks(a + b, number) == Chunks(a, number) + Chunks(b, number)
    decreases |a|
  {
    if a == [] {
      assert a + b == b;
    } else {
      assert (a + b)[1..] == a[1..] + b;
      ChunksConcat(a[1..], b, number);
    }
  }

  lemma {:induction false} ChunksOfChunkFields(n: nat, chunks: seq<ByteString>, number: nat)
    ensures Chunks(ChunkFields(n, chunks), number) == if n == number then chunks else []
    decreases |chunks|
  {
    if chunks != [] {
      assert ChunkFields(n, chunks)[1..] == ChunkFields(n, chunks[1..]);
      ChunksOfChunkFields(n, chunks[1..], number);
    }
  }

  lemma ChunksOfMessage(m: MessageDescriptor, number: nat)
    ensures Chunks(MessageFields(m), number)
            == if number == 1 then [m.name]
               else if number == 2 then EncodeFieldDescriptors(m.fields)
               else if number == 3 then EncodeMessages(m.nested)
               else if number == 4 then EncodeEnums(m.enums)
               else []
  {
    var own := [Field(1, Chunk(m.name))];
    var f, n, e := ChunkFields(2, EncodeFieldDescriptors(m.fields)), ChunkFields(3, EncodeMessages(m.nested)),
        ChunkFields(4, EncodeEnums(m.enums));
    ChunksConcat(own, f, number);
    ChunksConcat(own + f, n, number);
    ChunksConcat(own + f + n, e, number);
    assert own[1..] == [];
    ChunksOfChunkFields(2, EncodeFieldDescriptors(m.fields), number);
    ChunksOfChunkFields(3, EncodeMessages(m.nested), number);
    ChunksOfChunkFields(4, EncodeEnums(m.enums), number);
  }

  lemma ChunksOfEnum(e: EnumDescriptor, number: nat)
    ensures Chunks(EnumFields(e), number)
            == if number == 1 then [e.name] else if number == 2 then EncodeEnumValues(e.values) else []
  {
    var own := [Field(1, Chunk(e.name))];
    ChunksConcat(own, ChunkFields(2, EncodeEnumValues(e.values)), number);
    assert own[1..] == [];
    ChunksOfChunkFields(2, EncodeEnumValues(e.values), number);
  }

  /** The first field with a number and the right wire type gives the value. */
  lemma {:induction false} IntValueIs(fields: seq<Field>, number: nat, k: nat)
    requires k < |fields| && fields[k].number == number && fields[k].payload.VarintValue?
    requires forall j :: 0 <= j < k ==> fields[j].number != number
    ensures IntValue(fields, number) == fields[k].payload.value
    decreases k
  {
    if k > 0 {
      IntValueIs(fields[1..], number, k - 1);
    }
  }

  lemma {:induction false} TextValueIs(fields: seq<Field>, number: nat, k: nat)
    requires k < |fields| && fields[k].number == number && fields[k].payload.Chunk?
    requires forall j :: 0 <= j < k ==> fields[j].number != number
    ensures TextValue(fields, number) == fields[k].payload.bytes
    decreases k
  {
    if k > 0 {
      TextValueIs(fields[1..], number, k - 1);
    }
  }

  lemma ReadFieldDescriptor(f: FieldDescriptor)
    ensures var fields := FieldDescriptorFields(f);
            && IntValue(fields, 3) == f.number
            && FieldInfo(TextValue(fields, 1), IntValue(fields, 4), IntValue(fields, 5), TextValue(fields, 6),
                IntValue(fields, 17) != 0) == f.info
  {
    var fields := FieldDescriptorFields(f);
    TextValueIs(fields, 1, 0);
    IntValueIs(fields, 3, 1);
    IntValueIs(fields, 4, 2);
    IntValueIs(fields, 5, 3);
    TextValueIs(fields, 6, 4);
    IntValueIs(fields, 17, 5);
  }

  lemma ReadEnumValue(v: EnumValue)
    ensures TextValue(EnumValueFields(v), 1) == v.name && IntValue(EnumValueFields(v), 2) == v.number
  {
    TextValueIs(EnumValueFields(v), 1, 0);
    IntValueIs(EnumValueFields(v), 2, 1);
  }

  // ----- Any spelling of a descriptor -----

  /** Scalar fields read the same: in any order, among fields with other numbers, repeated later, or
      left out where they have the default value. */
  ghost predicate ReadsAs(fields: seq<Field>, canonical: seq<Field>, numbers: set<nat>) {
    forall n :: n in numbers ==>
      TextValue(fields, n) == TextValue(canonical, n) && IntValue(fields, n) == IntValue(canonical, n)
  }

  ghost predicate SpellsField(raw: ByteString, f: FieldDescriptor) {
    && DecodeFields(raw).Ok?
    && ReadsAs(DecodeFields(raw).value, FieldDescriptorFields(f), {1, 3, 4, 5, 6, 17})
  }

  ghost predicate SpellsEnumValue(raw: ByteString, v: EnumValue) {
    DecodeFields(raw).Ok? && ReadsAs(DecodeFields(raw).value, EnumValueFields(v), {1, 2})
  }

  ghost predicate SpellsEnum(raw: ByteString, e: EnumDescriptor) {
    && DecodeFields(raw).Ok?
    && var fields := DecodeFields(raw).value;
       && TextValue(fields, 1) == e.name
       && |Chunks(fields, 2)| == |e.values|
       && forall i :: 0 <= i < |e.values| ==> SpellsEnumValue(Chunks(fields, 2)[i], e.values[i])
  }

  /** Any encoding of a message descriptor: its own fields in any order among others, and so on for
      everything in it. */
  ghost predicate SpellsMessage(raw: ByteString, m: MessageDescriptor)
    decreases m
  {
    && DecodeFields(raw).Ok?
    && var fields := DecodeFields(raw).value;
       && TextValue(fields, 1) == m.name
       && |Chunks(fields, 2)| == |m.fields|
       && (forall i :: 0 <= i < |m.fields| ==> SpellsField(Chunks(fields, 2)[i], m.fields[i]))
       && |Chunks(fields, 3)| == |m.nested|
       && (forall i :: 0 <= i < |m.nested| ==> SpellsMessage(Chunks(fields, 3)[i], m.nested[i]))
       && |Chunks(fields, 4)| == |m.enums|
       && forall i :: 0 <= i < |m.enums| ==> SpellsEnum(Chunks(fields, 4)[i], m.enums[i])
  }

  lemma {:induction false} SpelledFieldsParse(raws: seq<ByteString>, fields: seq<FieldDescriptor>,
      infos: map<nat, FieldInfo>)
    requires |raws| == |fields| && forall i :: 0 <= i < |fields| ==> SpellsField(raws[i], fields[i])
    ensures ParseFieldInfos(raws, infos) == Ok(FieldTable(fields, infos))
    decreases |fields|
  {
    if fields != [] {
      assert SpellsField(raws[0], fields[0]);
      ReadFieldDescriptor(fields[0]);
      SpelledFieldsParse(raws[1..], fields[1..], infos[fields[0].number := fields[0].info]);
    }
  }

  lemma {:induction false} SpelledValuesParse(raws: seq<ByteString>, values: seq<EnumValue>,
      table: map<ByteString, nat>)
    requires |raws| == |values| && forall i :: 0 <= i < |values| ==> SpellsEnumValue(raws[i], values[i])
    ensures ParseEnumValues(raws, table) == Ok(ValueTable(values, table))
    decreases |values|
  {
    if values != [] {
      assert SpellsEnumValue(raws[0], values[0]);
      ReadEnumValue(values[0]);
      SpelledValuesParse(raws[1..], values[1..], table[values[0].name := values[0].number]);
    }
  }

  lemma {:induction false} SpelledEnumsParse(raws: seq<ByteString>, enums: seq<EnumDescriptor>, prefix: ByteString,
      tables: Tables)
    requires |raws| == |enums| && forall i :: 0 <= i < |enums| ==> SpellsEnum(raws[i], enums[i])
    ensures ParseEnums(raws, prefix, tables) == Ok(AddEnums(enums, prefix, tables))
    decreases |enums|
  {
    if enums != [] {
      assert SpellsEnum(raws[0], enums[0]);
      var table := ValueTable(enums[0].values, map[]);
      SpelledValuesParse(Chunks(DecodeFields(raws[0]).value, 2), enums[0].values, map[]);
      SpelledEnumsParse(raws[1..], enums[1..], prefix,
                        tables.(enums := tables.enums[Qualify(prefix, enums[0].name) := table]));
    }
  }

  /** Reading any encoding of a message descriptor adds exactly the flattened tree to the tables, at
      any depth of nesting. */
  lemma {:induction false} SpelledMessageParses(raw: ByteString, m: MessageDescriptor, prefix: ByteString,
      tables: Tables)
    requires SpellsMessage(raw, m)
    ensures ParseMessage(raw, prefix, tables) == Ok(AddMessage(m, prefix, tables))
    decreases m, 1
  {
    var fields := DecodeFields(raw).value;
    var name := Qualify(prefix, m.name);
    var own := tables.(messages := tables.messages[name := FieldTable(m.fields, map[])]);
    SpelledFieldsParse(Chunks(fields, 2), m.fields, map[]);
    forall i | 0 <= i < |Chunks(fields, 3)|
      ensures |Chunks(fields, 3)[i]| < |raw|
    {
      ChunkIsShorter(raw, 3, i);
    }
    SpelledMessagesParse(Chunks(fields, 3), m.nested, |raw|, name, own);
    SpelledEnumsParse(Chunks(fields, 4), m.enums, name, AddMessages(m.nested, name, own));
  }

  lemma {:induction false} SpelledMessagesParse(
    raws: seq<ByteString>, messages: seq<MessageDescriptor>, bound: nat, prefix: ByteString, tables: Tables)
    requires |raws| == |messages| && forall i :: 0 <= i < |messages| ==> SpellsMessage(raws[i], messages[i])
    requires forall i :: 0 <= i < |raws| ==> |raws[i]| < bound
    ensures ParseNested(raws, bound, prefix, tables) == Ok(AddMessages(messages, prefix, tables))
    decreases messages, 0
  {
    if messages != [] {
      assert SpellsMessage(raws[0], messages[0]);
      SpelledMessageParses(raws[0], messages[0], prefix, tables);
      SpelledMessagesParse(raws[1..], messages[1..], bound, prefix, AddMessage(messages[0], prefix, tables));
    }
  }

  // ----- The encodings are spellings -----

  lemma EncodedFieldSpells(f: FieldDescriptor)
    requires AllWellFormed(FieldDescriptorFields(f))
    ensures SpellsField(EncodeFields(FieldDescriptorFields(f)), f)
  {
    FieldsRoundTrip(FieldDescriptorFields(f));
  }

  lemma EncodedEnumSpells(e: EnumDescriptor)
    requires EnumFits(e)
    ensures SpellsEnum(EncodeFields(EnumFields(e)), e)
  {
    FieldsRoundTrip(EnumFields(e));
    ChunksOfEnum(e, 1);
    ChunksOfEnum(e, 2);
    forall i | 0 <= i < |e.values|
      ensures SpellsEnumValue(EncodeEnumValues(e.values)[i], e.values[i])
    {
      FieldsRoundTrip(EnumValueFields(e.values[i]));
    }
  }

  lemma {:induction false} EncodedMessageSpells(m: MessageDescriptor)
    requires Fits(m)
    ensures SpellsMessage(EncodeFields(MessageFields(m)), m)
    decreases m, 1
  {
    FieldsRoundTrip(MessageFields(m));
    ChunksOfMessage(m, 1);
    ChunksOfMessage(m, 2);
    ChunksOfMessage(m, 3);
    ChunksOfMessage(m, 4);
    forall i | 0 <= i < |m.fields|
      ensures SpellsField(EncodeFieldDescriptors(m.fields)[i], m.fields[i])
    {
      EncodedFieldSpells(m.fields[i]);
    }
    EncodedMessagesSpell(m.nested);
    forall i | 0 <= i < |m.enums|
      ensures SpellsEnum(EncodeEnums(m.enums)[i], m.enums[i])
    {
      EncodedEnumSpells(m.enums[i]);
    }
  }

  lemma {:induction false} EncodeMessagesAt(messages: seq<MessageDescriptor>, i: nat)
    requires i < |messages|
    ensures |EncodeMessages(messages)| == |messages|
    ensures EncodeMessages(messages)[i] == EncodeFields(MessageFields(messages[i]))
    decreases |messages|
  {
    if |messages| > 1 {
      EncodeMessagesAt(messages[1..], if i > 0 then i - 1 else 0);
    }
  }

  lemma {:induction false} EncodedMessagesSpell(messages: seq<MessageDescriptor>)
    requires forall i :: 0 <= i < |messages| ==> Fits(messages[i])
    ensures |EncodeMessages(messages)| == |messages|
    ensures forall i :: 0 <= i < |messages| ==> SpellsMessage(EncodeMessages(messages)[i], messages[i])
    decreases messages, 0
  {
    forall i | 0 <= i < |messages|
      ensures |EncodeMessages(messages)| == |messages| && SpellsMessage(EncodeMessages(messages)[i], messages[i])
    {
      EncodeMessagesAt(messages, i);
      EncodedMessageSpells(messages[i]);
    }
  }

  lemma FieldInfosRoundTrip(fields: seq<FieldDescriptor>, infos: map<nat, FieldInfo>)
    requires forall i :: 0 <= i < |fields| ==> AllWellFormed(FieldDescriptorFields(fields[i]))
    ensures ParseFieldInfos(EncodeFieldDescriptors(fields), infos) == Ok(FieldTable(fields, infos))
  {
    forall i | 0 <= i < |fields|
      ensures SpellsField(EncodeFieldDescriptors(fields)[i], fields[i])
    {
      EncodedFieldSpells(fields[i]);
    }
    SpelledFieldsParse(EncodeFieldDescriptors(fields), fields, infos);
  }

  lemma EnumsRoundTrip(enums: seq<EnumDescriptor>, prefix: ByteString, tables: Tables)
    requires forall i :: 0 <= i < |enums| ==> EnumFits(enums[i])
    ensures ParseEnums(EncodeEnums(enums), prefix, tables) == Ok(AddEnums(enums, prefix, tables))
  {
    forall i | 0 <= i < |enums|
      ensures SpellsEnum(EncodeEnums(enums)[i], enums[i])
    {
      EncodedEnumSpells(enums[i]);
    }
    SpelledEnumsParse(EncodeEnums(enums), enums, prefix, tables);
  }

  /** Encoding then parsing is the identity on descriptor trees. */
  lemma MessageRoundTrip(m: MessageDescriptor, prefix: ByteString, tables: Tables)
    requires Fits(m)
    ensures ParseMessage(EncodeFields(MessageFields(m)), prefix, tables) == Ok(AddMessage(m, prefix, tables))
  {
    EncodedMessageSpells(m);
    SpelledMessageParses(EncodeFields(MessageFields(m)), m, prefix, tables);
  }

  /** A field without its default: an encoder may leave it out. */
  predicate IsDefault(field: Field) {
    field.payload == VarintValue(0) || field.payload == Chunk([])
  }

  function OmitDefaults(fields: seq<Field>): seq<Field>
    decreases |fields|
  {
    if fields == [] then []
    else (if IsDefault(fields[0]) then [] else [fields[0]]) + OmitDefaults(fields[1..])
  }

  predicate DistinctNumbers(fields: seq<Field>) {
    forall i, j :: 0 <= i < j < |fields| ==> fields[i].number != fields[j].number
  }

  lemma ConsReads(first: Field, rest: seq<Field>, n: nat)
    ensures Chunks([first] + rest, n)
         == (if first.number == n && first.payload.Chunk? then [first.payload.bytes] else []) + Chunks(rest, n)
    ensures Varints([first] + rest, n)
         == (if first.number == n && first.payload.VarintValue? then [first.payload.value] else []) + Varints(rest, n)
  {
    assert ([first] + rest)[1..] == rest;
  }

  lemma OmitFirst(fields: seq<Field>)
    requires fields != []
    ensures OmitDefaults(fields)
         == if IsDefault(fields[0]) then OmitDefaults(fields[1..]) else [fields[0]] + OmitDefaults(fields[1..])
  {
  }

  lemma {:induction false} AbsentReadsDefault(fields: seq<Field>, n: nat)
    requires forall i :: 0 <= i < |fields| ==> fields[i].number != n
    ensures Chunks(fields, n) == [] && Varints(fields, n) == []
    ensures Chunks(OmitDefaults(fields), n) == [] && Varints(OmitDefaults(fields), n) == []
    decreases |fields|
  {
    if fields != [] {
      AbsentReadsDefault(fields[1..], n);
      OmitFirst(fields);
      ConsReads(fields[0], OmitDefaults(fields[1..]), n);
    }
  }

  /** Leaving out default values does not change what is read. */
  lemma {:induction false} OmittedReadsAs(fields: seq<Field>, n: nat)
    requires DistinctNumbers(fields)
    ensures TextValue(OmitDefaults(fields), n) == TextValue(fields, n)
    ensures IntValue(OmitDefaults(fields), n) == IntValue(fields, n)
    decreases |fields|
  {
    if fields != [] {
      var first, rest := fields[0], fields[1..];
      assert fields == [first] + rest;
      OmitFirst(fields);
      ConsReads(first, rest, n);
      ConsReads(first, OmitDefaults(rest), n);
      if first.number == n {
        assert forall i :: 0 <= i < |rest| ==> rest[i] == fields[i + 1];
        AbsentReadsDefault(rest, n);
      } else {
        OmittedReadsAs(rest, n);
      }
    }
  }

  lemma {:induction false} OmittedWellFormed(fields: seq<Field>)
    requires AllWellFormed(fields)
    ensures AllWellFormed(OmitDefaults(fields))
    decreases |fields|
  {
    if fields != [] {
      OmittedWellFormed(fields[1..]);
    }
  }

  /** Fields written without their defaults are read back as the same scalars. */
  lemma OmittedDecodes(fields: seq<Field>, numbers: set<nat>)
    requires AllWellFormed(fields) && DistinctNumbers(fields)
    ensures DecodeFields(EncodeFields(OmitDefaults(fields))) == Ok(OmitDefaults(fields))
    ensures ReadsAs(OmitDefaults(fields), fields, numbers)
  {
    OmittedWellFormed(fields);
    FieldsRoundTrip(OmitDefaults(fields));
    OmittedReadsAll(fields, numbers);
  }

  /** The encodings that leave out default values, as protoc writes them, are spellings too. */
  lemma OmittedFieldSpells(f: FieldDescriptor)
    requires AllWellFormed(FieldDescriptorFields(f))
    ensures SpellsField(EncodeFields(OmitDefaults(FieldDescriptorFields(f))), f)
  {
    OmittedDecodes(FieldDescriptorFields(f), {1, 3, 4, 5, 6, 17});
  }

  lemma OmittedValueSpells(v: EnumValue)
    requires AllWellFormed(EnumValueFields(v))
    ensures SpellsEnumValue(EncodeFields(OmitDefaults(EnumValueFields(v))), v)
  {
    OmittedDecodes(EnumValueFields(v), {1, 2});
  }

  lemma OmittedReadsAll(fields: seq<Field>, numbers: set<nat>)
    requires DistinctNumbers(fields)
    ensures ReadsAs(OmitDefaults(fields), fields, numbers)
  {
    forall n | n in numbers
      ensures TextValue(OmitDefaults(fields), n) == TextValue(fields, n)
      ensures IntValue(OmitDefaults(fields), n) == IntValue(fields, n)
    {
      OmittedReadsAs(fields, n);
    }
  }

  // ----- The methods that fill the dictionaries -----

  method ReadFieldInfos(raws: seq<ByteString>) returns (result: Result<map<nat, FieldInfo>, WireError>)
    ensures result == ParseFieldInfos(raws, map[])
  {
    var infos: map<nat, FieldInfo> := map[];
    assert raws[0..] == raws;
    for i := 0 to |raws|
      invariant ParseFieldInfos(raws, map[]) == ParseFieldInfos(raws[i..], infos)
    {
      var decoded := WireFields(raws[i]);
      assert raws[i..][0] == raws[i] && raws[i..][1..] == raws[i + 1..];
      if decoded.Err? {
        return Err(decoded.error);
      }
      var fields := decoded.value;
      infos := infos[IntValue(fields, 3) := FieldInfo(TextValue(fields, 1), IntValue(fields, 4), IntValue(fields, 5),
          TextValue(fields, 6), IntValue(fields, 17) != 0)];
    }
    return Ok(infos);
  }

  method ReadEnumValues(raws: seq<ByteString>) returns (result: Result<map<ByteString, nat>, WireError>)
    ensures result == ParseEnumValues(raws, map[])
  {
    var values: map<ByteString, nat> := map[];
    assert raws[0..] == raws;
    for i := 0 to |raws|
      invariant ParseEnumValues(raws, map[]) == ParseEnumValues(raws[i..], values)
    {
      var decoded := WireFields(raws[i]);
      assert raws[i..][0] == raws[i] && raws[i..][1..] == raws[i + 1..];
      if decoded.Err? {
        return Err(decoded.error);
      }
      values := values[TextValue(decoded.value, 1) := IntValue(decoded.value, 2)];
    }
    return Ok(values);
  }

  /** The two dictionaries that parse_message fills in place. */
  class DescriptorTables {
    var messages: map<ByteString, map<nat, FieldInfo>>
    var enums: map<ByteString, map<ByteString, nat>>

    function State(): Tables
      reads this
    {
      Tables(messages, enums)
    }

    constructor ()
      ensures State() == Tables(map[], map[])
    {
      messages, enums := map[], map[];
    }

    method AddMessageFrom(data: ByteString, prefix: ByteString) returns (failure: Option<WireError>)
      modifies this
      ensures match ParseMessage(data, prefix, old(State()))
              case Ok(tables) => failure == None && State() == tables
              case Err(error) => failure == Some(error)
      decreases |data|, 1
    {
      var decoded := WireFields(data);
      if decoded.Err? {
        return Some(decoded.error);
      }
      var fields := decoded.value;
      var name := Qualify(prefix, TextValue(fields, 1));
      var infos := ReadFieldInfos(Chunks(fields, 2));
      if infos.Err? {
        return Some(infos.error);
      }
      messages := messages[name := infos.value];
      forall i | 0 <= i < |Chunks(fields, 3)|
        ensures |Chunks(fields, 3)[i]| < |data|
      {
        ChunkIsShorter(data, 3, i);
      }
      failure := AddNestedFrom(Chunks(fields, 3), |data|, name);
      if failure.Some? {
        return;
      }
      failure := AddEnumsFrom(Chunks(fields, 4), name);
    }

    /** The loop over the nested messages. */
    method AddNestedFrom(raws: seq<ByteString>, bound: nat, prefix: ByteString) returns (failure: Option<WireError>)
      requires forall i :: 0 <= i < |raws| ==> |raws[i]| < bound
      modifies this
      ensures match ParseNested(raws, bound, prefix, old(State()))
              case Ok(tables) => failure == None && State() == tables
              case Err(error) => failure == Some(error)
      decreases bound, 0
    {
      assert raws[0..] == raws;
      for i := 0 to |raws|
        invariant ParseNested(raws, bound, prefix, old(State())) == ParseNested(raws[i..], bound, prefix, State())
      {
        assert raws[i..][0] == raws[i] && raws[i..][1..] == raws[i + 1..];
        failure := AddMessageFrom(raws[i], prefix);
        if failure.Some? {
          return;
        }
      }
      return None;
    }

    method AddEnumsFrom(raws: seq<ByteString>, prefix: ByteString) returns (failure: Option<WireError>)
      modifies this
      ensures match ParseEnums(raws, prefix, old(State()))
              case Ok(tables) => failure == None && State() == tables
              case Err(error) => failure == Some(error)
    {
      assert raws[0..] == raws;
      for i := 0 to |raws|
        invariant ParseEnums(raws, prefix, old(State())) == ParseEnums(raws[i..], prefix, State())
      {
        assert raws[i..][0] == raws[i] && raws[i..][1..] == raws[i + 1..];
        var decoded := WireFields(raws[i]);
        if decoded.Err? {
          return Some(decoded.error);
        }
        var values := ReadEnumValues(Chunks(decoded.value, 2));
        if values.Err? {
          return Some(values.error);
        }
        enums := enums[Qualify(prefix, TextValue(decoded.value, 1)) := values.value];
      }
      return None;
    }
  }
}

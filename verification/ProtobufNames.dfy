/**
 Under which names the descriptor parser enters messages and enums into its tables (parse_message in
 scripts/verify-phase0-contracts.py): the path from the outermost message down, joined by dots.
 */
module ProtobufNames {
  import opened Bytes
  import opened ProtobufDescriptors

  type Path = seq<ByteString>

  /** A prefix and the parts of a path, with a dot before each part. */
  function Join(prefix: ByteString, path: Path): ByteString
    decreases |path|
  {
    if path == [] then prefix else Join(prefix + [0x2E] + path[0], path[1..])
  }

  /** The paths of a message and of all messages nested in it. */
  ghost function MessagePaths(m: MessageDescriptor): set<Path>
    decreases m, 1
  {
    {[m.name]} + set p | p in AllMessagePaths(m.nested) :: [m.name] + p
  }

  ghost function AllMessagePaths(messages: seq<MessageDescriptor>): set<Path>
    decreases messages, 0
  {
    if messages == [] then {} else MessagePaths(messages[0]) + AllMessagePaths(messages[1..])
  }

  /** The paths of all enums in a message. */
  ghost function EnumPaths(m: MessageDescriptor): set<Path>
    decreases m, 1
  {
    (set p | p in EnumNames(m.enums) :: [m.name] + p) + set p | p in AllEnumPaths(m.nested) :: [m.name] + p
  }

  ghost function AllEnumPaths(messages: seq<MessageDescriptor>): set<Path>
    decreases messages, 0
  {
    if messages == [] then {} else EnumPaths(messages[0]) + AllEnumPaths(messages[1..])
  }

  ghost function EnumNames(enums: seq<EnumDescriptor>): set<Path>
    decreases |enums|
  {
    if enums == [] then {} else {[enums[0].name]} + EnumNames(enums[1..])
  }

  ghost function Joined(prefix: ByteString, paths: set<Path>): set<ByteString> {
    set p | p in paths :: Join(prefix, p)
  }

  // ----- What is entered -----

  lemma JoinedUnion(prefix: ByteString, a: set<Path>, b: set<Path>)
    ensures Joined(prefix, a + b) == Joined(prefix, a) + Joined(prefix, b)
  {
  }

  /** Paths below a name are joined after it. */
  lemma JoinedBelow(prefix: ByteString, name: ByteString, paths: set<Path>)
    ensures Joined(prefix, set p | p in paths :: [name] + p) == Joined(prefix + [0x2E] + name, paths)
  {
    var below := set p | p in paths :: [name] + p;
    forall p | p in paths
      ensures Join(prefix, [name] + p) == Join(prefix + [0x2E] + name, p)
    {
      assert ([name] + p)[1..] == p;
    }
    forall n | n in Joined(prefix, below)
      ensures n in Joined(prefix + [0x2E] + name, paths)
    {
      var q :| q in below && n == Join(prefix, q);
      var p :| p in paths && q == [name] + p;
    }
    forall n | n in Joined(prefix + [0x2E] + name, paths)
      ensures n in Joined(prefix, below)
    {
      var p :| p in paths && n == Join(prefix + [0x2E] + name, p);
      assert [name] + p in below;
    }
  }

  lemma JoinedOne(prefix: ByteString, name: ByteString)
    ensures Joined(prefix, {[name]}) == {prefix + [0x2E] + name}
  {
    assert Join(prefix, [name]) == prefix + [0x2E] + name;
    assert [name] in {[name]};
  }

  lemma {:induction false} EnumsEntered(enums: seq<EnumDescriptor>, prefix: ByteString, tables: Tables)
    ensures var after := AddEnums(enums, prefix, tables);
            && after.messages == tables.messages
            && after.enums.Keys == tables.enums.Keys + Joined(prefix, EnumNames(enums))
    decreases |enums|
  {
    if enums != [] {
      var name := prefix + [0x2E] + enums[0].name;
      var first := tables.(enums := tables.enums[name := ValueTable(enums[0].values, map[])]);
      EnumsEntered(enums[1..], prefix, first);
      JoinedOne(prefix, enums[0].name);
      JoinedUnion(prefix, {[enums[0].name]}, EnumNames(enums[1..]));
    }
  }

  /** Parsing a message enters exactly the messages and the enums in it, at any depth, each under the
      dot-joined path to it. */
  lemma {:induction false} NamesArePaths(m: MessageDescriptor, prefix: ByteString, tables: Tables)
    ensures var after := AddMessage(m, prefix, tables);
            && after.messages.Keys == tables.messages.Keys + Joined(prefix, MessagePaths(m))
            && after.enums.Keys == tables.enums.Keys + Joined(prefix, EnumPaths(m))
    decreases m, 1
  {
    var name := prefix + [0x2E] + m.name;
    var own := tables.(messages := tables.messages[name := FieldTable(m.fields, map[])]);
    AllNamesArePaths(m.nested, name, own);
    EnumsEntered(m.enums, name, AddMessages(m.nested, name, own));
    JoinedOne(prefix, m.name);
    JoinedBelow(prefix, m.name, AllMessagePaths(m.nested));
    JoinedUnion(prefix, {[m.name]}, set p | p in AllMessagePaths(m.nested) :: [m.name] + p);
    JoinedBelow(prefix, m.name, EnumNames(m.enums));
    JoinedBelow(prefix, m.name, AllEnumPaths(m.nested));
    JoinedUnion(prefix, set p | p in EnumNames(m.enums) :: [m.name] + p,
                set p | p in AllEnumPaths(m.nested) :: [m.name] + p);
  }

  lemma {:induction false} AllNamesArePaths(messages: seq<MessageDescriptor>, prefix: ByteString, tables: Tables)
    ensures var after := AddMessages(messages, prefix, tables);
            && after.messages.Keys == tables.messages.Keys + Joined(prefix, AllMessagePaths(messages))
            && after.enums.Keys == tables.enums.Keys + Joined(prefix, AllEnumPaths(messages))
    decreases messages, 0
  {
    if messages != [] {
      var first := AddMessage(messages[0], prefix, tables);
      NamesArePaths(messages[0], prefix, tables);
      AllNamesArePaths(messages[1..], prefix, first);
      JoinedUnion(prefix, MessagePaths(messages[0]), AllMessagePaths(messages[1..]));
      JoinedUnion(prefix, EnumPaths(messages[0]), AllEnumPaths(messages[1..]));
    }
  }

  // ----- Different paths, different names -----

  predicate WithoutDots(path: Path) {
    forall i :: 0 <= i < |path| ==> 0x2E !in path[i]
  }

  /** What joining a path adds to its prefix. */
  function Tail(path: Path): ByteString
    decreases |path|
  {
    if path == [] then [] else [0x2E] + path[0] + Tail(path[1..])
  }

  lemma {:induction false} JoinIsTail(prefix: ByteString, path: Path)
    ensures Join(prefix, path) == prefix + Tail(path)
    decreases |path|
  {
    if path == [] {
      assert prefix + [] == prefix;
    } else {
      JoinIsTail(prefix + [0x2E] + path[0], path[1..]);
      assert prefix + [0x2E] + path[0] + Tail(path[1..]) == prefix + ([0x2E] + path[0] + Tail(path[1..]));
    }
  }

  /** The first part of a path is as long as it is in any equal text. */
  lemma FirstPartFits(a: ByteString, x: Path, b: ByteString, y: Path)
    requires 0x2E !in b && a + Tail(x) == b + Tail(y)
    ensures |a| >= |b|
  {
    assert forall i :: 0 <= i < |b| ==> b[i] != 0x2E;
    assert forall i :: 0 <= i < |b| ==> (a + Tail(x))[i] == b[i];
    assert x != [] ==> (a + Tail(x))[|a|] == 0x2E;
  }

  lemma {:induction false} TailInjective(p: Path, q: Path)
    requires WithoutDots(p) && WithoutDots(q) && Tail(p) == Tail(q)
    ensures p == q
    decreases |p|
  {
    if p != [] && q != [] {
      var a, b := p[0] + Tail(p[1..]), q[0] + Tail(q[1..]);
      assert Tail(p)[1..] == a && Tail(q)[1..] == b;
      FirstPartFits(p[0], p[1..], q[0], q[1..]);
      FirstPartFits(q[0], q[1..], p[0], p[1..]);
      assert p[0] == a[..|p[0]|] == b[..|q[0]|] == q[0];
      assert Tail(p[1..]) == a[|p[0]|..] == b[|q[0]|..] == Tail(q[1..]);
      TailInjective(p[1..], q[1..]);
      assert p == [p[0]] + p[1..] && q == [q[0]] + q[1..];
    }
  }

  /** Messages at different places have different names, also if they are called the same. */
  lemma PathsStayApart(prefix: ByteString, p: Path, q: Path)
    requires WithoutDots(p) && WithoutDots(q)
    ensures Join(prefix, p) == Join(prefix, q) <==> p == q
  {
    if Join(prefix, p) == Join(prefix, q) {
      JoinIsTail(prefix, p);
      JoinIsTail(prefix, q);
      assert Tail(p) == (prefix + Tail(p))[|prefix|..] == (prefix + Tail(q))[|prefix|..] == Tail(q);
      TailInjective(p, q);
    }
  }

  // ----- What a field table holds -----

  /** The table of a message has its field numbers, and for each what the last field with it says. */
  lemma {:induction false} LastFieldWins(fields: seq<FieldDescriptor>, infos: map<nat, FieldInfo>, n: nat)
    ensures n in FieldTable(fields, infos) <==> n in infos || exists i :: 0 <= i < |fields| && fields[i].number == n
    ensures forall i | 0 <= i < |fields| ::
              fields[i].number == n && (forall j :: i < j < |fields| ==> fields[j].number != n) ==>
                FieldTable(fields, infos)[n] == fields[i].info
    ensures n in infos && (forall i :: 0 <= i < |fields| ==> fields[i].number != n) ==>
              FieldTable(fields, infos)[n] == infos[n]
    decreases |fields|
  {
    if fields != [] {
      var rest := fields[1..];
      assert forall i :: 0 < i < |fields| ==> fields[i] == rest[i - 1];
      LastFieldWins(rest, infos[fields[0].number := fields[0].info], n);
    }
  }
}

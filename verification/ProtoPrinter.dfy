/** A `.proto` file as declarations, its text, and the schema it declares. */
module ProtoPrinter {
  import opened Wrappers
  import opened Text
  import opened WireSchema
  import opened ProtoLexer
  import opened ProtoParser

  datatype Label = Singular | Optional | Repeated

  datatype FieldDecl = FieldDecl(presence: Label, typeName: string, name: string, number: nat)

  datatype Item = Plain(decl: FieldDecl) | Oneof(name: string, members: seq<FieldDecl>)

  datatype MessageDecl = MessageDecl(name: string, items: seq<Item>)

  datatype EnumDecl = EnumDecl(name: string, values: seq<(string, nat)>)

  datatype RpcDecl = RpcDecl(name: string, request: string, response: string)

  datatype FileDecl = FileDecl(package: string, enums: seq<EnumDecl>, messages: seq<MessageDecl>, service: Option<ServiceDecl>)

  datatype ServiceDecl = ServiceDecl(name: string, rpcs: seq<RpcDecl>)

  // The schema a file declares.

  function FieldOf(d: FieldDecl, oneof: Option<string>): Field {
    Field(d.typeName, d.name, d.number, d.presence == Repeated, oneof)
  }

  function MembersOf(ds: seq<FieldDecl>, oneof: string): seq<Field> {
    if ds == [] then [] else [FieldOf(ds[0], Some(oneof))] + MembersOf(ds[1..], oneof)
  }

  function ItemFields(item: Item): seq<Field> {
    match item
    case Plain(d) => [FieldOf(d, None)]
    case Oneof(name, members) => MembersOf(members, name)
  }

  function ItemOneofs(item: Item): seq<string> {
    if item.Oneof? then [item.name] else []
  }

  function FieldsOf(items: seq<Item>): seq<Field> {
    if items == [] then [] else ItemFields(items[0]) + FieldsOf(items[1..])
  }

  function OneofsOf(items: seq<Item>): seq<string> {
    if items == [] then [] else ItemOneofs(items[0]) + OneofsOf(items[1..])
  }

  function MessageOf(d: MessageDecl): Message {
    Message(d.name, FieldsOf(d.items), OneofsOf(d.items))
  }

  function MessagesOf(ds: seq<MessageDecl>): seq<Message> {
    if ds == [] then [] else [MessageOf(ds[0])] + MessagesOf(ds[1..])
  }

  function EnumsOf(ds: seq<EnumDecl>): seq<string> {
    if ds == [] then [] else [ds[0].name] + EnumsOf(ds[1..])
  }

  function RpcsOf(ds: seq<RpcDecl>): seq<(string, string)> {
    if ds == [] then [] else [(ds[0].name, ds[0].request)] + RpcsOf(ds[1..])
  }

  /** What a file adds to the schema so far. */
  function Declares(schema: Schema, f: FileDecl): Schema {
    Schema(
      f.package,
      if f.service.Some? then f.service.value.name else schema.service,
      schema.messages + MessagesOf(f.messages),
      schema.enums + EnumsOf(f.enums),
      schema.rpcs + if f.service.Some? then RpcsOf(f.service.value.rpcs) else [])
  }

  // Its tokens.

  function LabelTokens(l: Label): seq<Token> {
    match l
    case Singular => []
    case Optional => [Word("optional")]
    case Repeated => [Word("repeated")]
  }

  function FieldWords(d: FieldDecl): seq<Token> {
    LabelTokens(d.presence) + [Word(d.typeName), Word(d.name), Equals, Word(Decimal(d.number))]
  }

  function FieldsTokens(ds: seq<FieldDecl>): seq<Token> {
    if ds == [] then [] else FieldWords(ds[0]) + [Semi] + FieldsTokens(ds[1..])
  }

  function Header(keyword: string, name: string): seq<Token> {
    [Word(keyword), Word(name), LBrace]
  }

  function ItemTokens(item: Item): seq<Token> {
    match item
    case Plain(d) => FieldWords(d) + [Semi]
    case Oneof(name, members) => Header("oneof", name) + FieldsTokens(members) + [RBrace]
  }

  function ItemsTokens(items: seq<Item>): seq<Token> {
    if items == [] then [] else ItemTokens(items[0]) + ItemsTokens(items[1..])
  }

  function MessageTokens(d: MessageDecl): seq<Token> {
    Header("message", d.name) + ItemsTokens(d.items) + [RBrace]
  }

  function ValueWords(v: (string, nat)): seq<Token> {
    [Word(v.0), Equals, Word(Decimal(v.1))]
  }

  function ValuesTokens(vs: seq<(string, nat)>): seq<Token> {
    if vs == [] then [] else ValueWords(vs[0]) + [Semi] + ValuesTokens(vs[1..])
  }

  function EnumTokens(d: EnumDecl): seq<Token> {
    Header("enum", d.name) + ValuesTokens(d.values) + [RBrace]
  }

  function RpcWords(d: RpcDecl): seq<Token> {
    [Word("rpc"), Word(d.name), LParen, Word(d.request), RParen, Word("returns"), LParen, Word(d.response), RParen]
  }

  function RpcsTokens(ds: seq<RpcDecl>): seq<Token> {
    if ds == [] then [] else RpcWords(ds[0]) + [Semi] + RpcsTokens(ds[1..])
  }

  function ServiceTokens(d: ServiceDecl): seq<Token> {
    Header("service", d.name) + RpcsTokens(d.rpcs) + [RBrace]
  }

  function EnumsTokens(ds: seq<EnumDecl>): seq<Token> {
    if ds == [] then [] else EnumTokens(ds[0]) + EnumsTokens(ds[1..])
  }

  function MessagesTokens(ds: seq<MessageDecl>): seq<Token> {
    if ds == [] then [] else MessageTokens(ds[0]) + MessagesTokens(ds[1..])
  }

  function Preamble(package: string): seq<Token> {
    [Word("syntax"), Equals, Word("proto3")] + [Semi] + ([Word("package"), Word(package)] + [Semi])
  }

  function FileTokens(f: FileDecl): seq<Token> {
    Preamble(f.package) + EnumsTokens(f.enums) + MessagesTokens(f.messages)
    + if f.service.Some? then ServiceTokens(f.service.value) else []
  }

  // Declarations the parser accepts.

  predicate Name(s: string) {
    s != "" && AllWordChars(s)
  }

  predicate TypeName(s: string) {
    Name(s) && s != "repeated" && s != "optional" && !StartsWith(s, "map")
  }

  predicate FieldDeclOk(d: FieldDecl) {
    TypeName(d.typeName) && Name(d.name) && 1 <= d.number < FIELD_NUMBER_END
  }

  predicate ItemOk(item: Item) {
    match item
    case Plain(d) => FieldDeclOk(d)
    case Oneof(name, members) =>
      Name(name) && forall i :: 0 <= i < |members| ==> FieldDeclOk(members[i]) && members[i].presence != Repeated
  }

  predicate DistinctNumbers(fields: seq<Field>) {
    forall i, j :: 0 <= i < j < |fields| ==> fields[i].number != fields[j].number
  }

  predicate DistinctStrings(ss: seq<string>) {
    forall i, j :: 0 <= i < j < |ss| ==> ss[i] != ss[j]
  }

  predicate MessageDeclOk(d: MessageDecl) {
    && Name(d.name)
    && (forall i :: 0 <= i < |d.items| ==> ItemOk(d.items[i]))
    && DistinctNumbers(FieldsOf(d.items)) && DistinctStrings(OneofsOf(d.items))
  }

  predicate MessageDeclsOk(ds: seq<MessageDecl>) {
    ds == [] || (MessageDeclOk(ds[0]) && MessageDeclsOk(ds[1..]))
  }

  predicate EnumDeclOk(d: EnumDecl) {
    Name(d.name) && forall i :: 0 <= i < |d.values| ==> Name(d.values[i].0)
  }

  predicate RpcDeclOk(d: RpcDecl) {
    Name(d.name) && Name(d.request) && Name(d.response) && !Contains(d.request, "stream")
  }

  predicate ServiceDeclOk(d: ServiceDecl) {
    Name(d.name) && forall i :: 0 <= i < |d.rpcs| ==> RpcDeclOk(d.rpcs[i])
  }

  predicate FileDeclOk(f: FileDecl) {
    && Name(f.package)
    && (forall i :: 0 <= i < |f.enums| ==> EnumDeclOk(f.enums[i]))
    && MessageDeclsOk(f.messages)
    && (f.service.Some? ==> ServiceDeclOk(f.service.value))
  }

  // The parser reads them back.

  predicate Inside(t: Token) {
    !t.LBrace? && !t.RBrace? && !t.Semi?
  }

  function Between(schema: Schema, blocks: seq<Block>): ParserState {
    ParserState(schema, blocks, [])
  }

  lemma {:induction false} RunConcat(st: ParserState, a: seq<Token>, b: seq<Token>)
    requires Run(st, a).Ok?
    ensures Run(st, a + b) == Run(Run(st, a).value, b)
    decreases |a|
  {
    if a == [] {
      assert a + b == b;
    } else {
      assert (a + b)[1..] == a[1..] + b;
      RunConcat(Step(st, a[0]).value, a[1..], b);
    }
  }

  lemma {:induction false} RunWords(st: ParserState, words: seq<Token>)
    requires forall i :: 0 <= i < |words| ==> Inside(words[i])
    ensures Run(st, words) == Ok(st.(statement := st.statement + words))
    decreases |words|
  {
    if words == [] {
      assert st.statement + words == st.statement;
    } else {
      RunWords(st.(statement := st.statement + [words[0]]), words[1..]);
      assert st.statement + [words[0]] + words[1..] == st.statement + words;
    }
  }

  lemma RunOne(st: ParserState, t: Token)
    ensures Run(st, [t]) == Step(st, t)
  {
    var r := Step(st, t);
    if r.Ok? {
      assert [t][1..] == [];
    }
  }

  lemma RunStatement(schema: Schema, blocks: seq<Block>, words: seq<Token>, schema': Schema)
    requires forall i :: 0 <= i < |words| ==> Inside(words[i])
    requires Interpret(schema, blocks, words) == Ok(schema')
    ensures Run(Between(schema, blocks), words + [Semi]) == Ok(Between(schema', blocks))
  {
    RunWords(Between(schema, blocks), words);
    RunConcat(Between(schema, blocks), words, [Semi]);
    RunOne(ParserState(schema, blocks, [] + words), Semi);
    assert [] + words == words;
  }

  lemma RunHeader(schema: Schema, blocks: seq<Block>, keyword: string, name: string)
    ensures Run(Between(schema, blocks), Header(keyword, name)) ==
      OpenBlock(ParserState(schema, blocks, [Word(keyword), Word(name)]))
  {
    var words := [Word(keyword), Word(name)];
    RunWords(Between(schema, blocks), words);
    RunConcat(Between(schema, blocks), words, [LBrace]);
    RunOne(ParserState(schema, blocks, [] + words), LBrace);
    assert [] + words == words && words + [LBrace] == Header(keyword, name);
  }

  /** A schema with its last message grown. */
  function Grown(schema: Schema, fields: seq<Field>, oneofs: seq<string>): Schema
    requires schema.messages != []
  {
    var m := LastMessage(schema);
    SetLastMessage(schema, m.(fields := m.fields + fields, oneofs := m.oneofs + oneofs))
  }

  lemma GrownTwice(schema: Schema, f: seq<Field>, o: seq<string>, f': seq<Field>, o': seq<string>)
    requires schema.messages != []
    ensures Grown(Grown(schema, f, o), f', o') == Grown(schema, f + f', o + o')
    ensures LastMessage(Grown(schema, f, o)) ==
      LastMessage(schema).(fields := LastMessage(schema).fields + f, oneofs := LastMessage(schema).oneofs + o)
  {
    var m := LastMessage(schema);
    assert m.fields + f + f' == m.fields + (f + f') && m.oneofs + o + o' == m.oneofs + (o + o');
  }
}

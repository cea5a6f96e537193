/** The block-stack parser that turns tokens into a schema. */
module ProtoParser {
  import opened Wrappers
  import opened Text
  import opened Sorting
  import opened WireSchema
  import opened ProtoLexer

  datatype Kind = MessageKind | EnumKind | ServiceKind | OneofKind

  datatype Block = Block(kind: Kind, name: string)

  datatype ParserState = ParserState(schema: Schema, blocks: seq<Block>, statement: seq<Token>)

  datatype ParseError =
    | MalformedHeader | UnexpectedHeader | NestedMessage | OneofOutsideMessage | DuplicateOneof
    | UnterminatedStatement | UnbalancedClose | UnbalancedOpen | SecondService
    | MalformedPackage | SecondPackage
    | StreamingRpc | UnexpectedServiceStatement
    | UnexpectedMessageStatement | MapField | BadNumber | NumberOutOfRange | DuplicateNumber | RepeatedOneofMember
    | NoMessageContext | MessageContextDrift | NotEnclosedByMessage
    | MissingPackage | MissingService | NoMessages | NoRpcs

  const U32_MAX: nat := 0xFFFF_FFFF
  const FIELD_NUMBER_END: nat := 536_870_912

  // Blocks.

  predicate InMessage(blocks: seq<Block>) {
    exists i :: 0 <= i < |blocks| && blocks[i].kind == MessageKind
  }

  function LastMessage(schema: Schema): Message
    requires schema.messages != []
  {
    schema.messages[|schema.messages| - 1]
  }

  function SetLastMessage(schema: Schema, m: Message): Schema
    requires schema.messages != []
  {
    schema.(messages := schema.messages[..|schema.messages| - 1] + [m])
  }

  function OpenOneof(st: ParserState, name: string): Result<ParserState, ParseError> {
    if st.blocks == [] || st.blocks[|st.blocks| - 1].kind != MessageKind then Err(OneofOutsideMessage)
    else if st.schema.messages == [] then Err(NoMessageContext)
    else
      var m := LastMessage(st.schema);
      if name in m.oneofs then Err(DuplicateOneof)
      else Ok(ParserState(
        SetLastMessage(st.schema, m.(oneofs := m.oneofs + [name])), st.blocks + [Block(OneofKind, name)], []))
  }

  function OpenMessage(st: ParserState, name: string): Result<ParserState, ParseError> {
    if InMessage(st.blocks) then Err(NestedMessage)
    else Ok(ParserState(
      st.schema.(messages := st.schema.messages + [Message(name, [], [])]), st.blocks + [Block(MessageKind, name)], []))
  }

  function OpenPlain(st: ParserState, kind: Kind, name: string): Result<ParserState, ParseError> {
    Ok(st.(blocks := st.blocks + [Block(kind, name)], statement := []))
  }

  function KindOf(keyword: string): Option<Kind> {
    if keyword == "message" then Some(MessageKind)
    else if keyword == "enum" then Some(EnumKind)
    else if keyword == "service" then Some(ServiceKind)
    else if keyword == "oneof" then Some(OneofKind)
    else None
  }

  function OpenKind(st: ParserState, kind: Kind, name: string): Result<ParserState, ParseError> {
    match kind
    case MessageKind => OpenMessage(st, name)
    case OneofKind => OpenOneof(st, name)
    case _ => OpenPlain(st, kind, name)
  }

  function OpenBlock(st: ParserState): Result<ParserState, ParseError> {
    if |st.statement| != 2 then Err(MalformedHeader)
    else
      var kind := KindOf(Spelled(st.statement[0]));
      if kind.None? then Err(UnexpectedHeader) else OpenKind(st, kind.value, Spelled(st.statement[1]))
  }

  function CloseBlock(st: ParserState): Result<ParserState, ParseError> {
    if st.statement != [] then Err(UnterminatedStatement)
    else if st.blocks == [] then Err(UnbalancedClose)
    else
      var rest, b := st.blocks[..|st.blocks| - 1], st.blocks[|st.blocks| - 1];
      match b.kind
      case EnumKind => Ok(st.(schema := st.schema.(enums := st.schema.enums + [b.name]), blocks := rest))
      case ServiceKind =>
        if st.schema.service != "" then Err(SecondService)
        else Ok(st.(schema := st.schema.(service := b.name), blocks := rest))
      case _ => Ok(st.(blocks := rest))
  }

  // Statements.

  predicate StartsWith(s: string, prefix: string) {
    |prefix| <= |s| && s[..|prefix|] == prefix
  }

  predicate Contains(s: string, part: string) {
    StartsWith(s, part) || (s != "" && Contains(s[1..], part))
  }

  function FileStatement(schema: Schema, words: seq<Token>): Result<Schema, ParseError>
    requires words != []
  {
    if words[0] != Word("package") then Ok(schema)
    else if |words| != 2 then Err(MalformedPackage)
    else if schema.package == "" then Ok(schema.(package := Spelled(words[1])))
    else if schema.package == Spelled(words[1]) then Ok(schema)
    else Err(SecondPackage)
  }

  function ServiceStatement(schema: Schema, words: seq<Token>): Result<Schema, ParseError> {
    if |words| != 9 || words[0] != Word("rpc") || words[2] != LParen || words[4] != RParen
       || words[5] != Word("returns") || words[6] != LParen || words[8] != RParen
    then Err(UnexpectedServiceStatement)
    else if Contains(Spelled(words[3]), "stream") then Err(StreamingRpc)
    else Ok(schema.(rpcs := schema.rpcs + [(Spelled(words[1]), Spelled(words[3]))]))
  }

  /** A decimal field number of 32 bits. */
  function ParseNumber(s: string): Option<nat> {
    if s != "" && Digits(s) && Value(s) <= U32_MAX then Some(Value(s)) else None
  }

  /** The message a statement in block `i` belongs to. */
  function Owner(blocks: seq<Block>): Result<string, ParseError>
    requires blocks != []
  {
    var n := |blocks|;
    if blocks[n - 1].kind != OneofKind then Ok(blocks[n - 1].name)
    else if n < 2 || blocks[n - 2].kind != MessageKind then Err(NotEnclosedByMessage)
    else Ok(blocks[n - 2].name)
  }

  predicate HasNumber(fields: seq<Field>, number: nat) {
    exists i :: 0 <= i < |fields| && fields[i].number == number
  }

  function AddField(schema: Schema, owner: string, block: Block, f: Field): Result<Schema, ParseError> {
    if schema.messages == [] then Err(NoMessageContext)
    else
      var m := LastMessage(schema);
      if m.name != owner then Err(MessageContextDrift)
      else if HasNumber(m.fields, f.number) then Err(DuplicateNumber)
      else if block.kind == OneofKind && f.repeated then Err(RepeatedOneofMember)
      else Ok(SetLastMessage(schema, m.(fields := m.fields + [f])))
  }

  function FieldStatement(schema: Schema, owner: string, block: Block, words: seq<Token>): Result<Schema, ParseError>
    requires words != []
  {
    var repeated := words[0] == Word("repeated");
    var rest := if repeated || words[0] == Word("optional") then words[1..] else words;
    if |rest| != 4 || rest[2] != Equals then Err(UnexpectedMessageStatement)
    else if StartsWith(Spelled(rest[0]), "map") then Err(MapField)
    else
      var number := ParseNumber(Spelled(rest[3]));
      if number.None? then Err(BadNumber)
      else if !(1 <= number.value < FIELD_NUMBER_END) then Err(NumberOutOfRange)
      else
        var oneof := if block.kind == OneofKind then Some(block.name) else None;
        AddField(schema, owner, block, Field(Spelled(rest[0]), Spelled(rest[1]), number.value, repeated, oneof))
  }

  function Interpret(schema: Schema, blocks: seq<Block>, words: seq<Token>): Result<Schema, ParseError> {
    if words == [] then Ok(schema)
    else if blocks == [] then FileStatement(schema, words)
    else
      var b := blocks[|blocks| - 1];
      match b.kind
      case EnumKind => Ok(schema)
      case ServiceKind => ServiceStatement(schema, words)
      case _ =>
        var owner := Owner(blocks);
        if owner.Err? then Err(owner.error) else FieldStatement(schema, owner.value, b, words)
  }

  // The loop.

  function Step(st: ParserState, t: Token): Result<ParserState, ParseError> {
    match t
    case LBrace => OpenBlock(st)
    case RBrace => CloseBlock(st)
    case Semi =>
      var schema := Interpret(st.schema, st.blocks, st.statement);
      if schema.Err? then Err(schema.error) else Ok(st.(schema := schema.value, statement := []))
    case _ => Ok(st.(statement := st.statement + [t]))
  }

  /** All the tokens, one after the other, stopping at the first error. */
  function Run(st: ParserState, tokens: seq<Token>): Result<ParserState, ParseError>
    decreases tokens
  {
    if tokens == [] then Ok(st)
    else
      var next := Step(st, tokens[0]);
      if next.Err? then next else Run(next.value, tokens[1..])
  }

  /** One file: the stack starts and must end empty. */
  function ParseFile(schema: Schema, tokens: seq<Token>): Result<Schema, ParseError> {
    var end := Run(ParserState(schema, [], []), tokens);
    if end.Err? then Err(end.error)
    else if end.value.blocks != [] then Err(UnbalancedOpen)
    else Ok(end.value.schema)
  }

  method ParseTokens(schema: Schema, tokens: seq<Token>) returns (r: Result<Schema, ParseError>)
    ensures r == ParseFile(schema, tokens)
  {
    var st := ParserState(schema, [], []);
    var index := 0;
    assert tokens[0..] == tokens;
    while index < |tokens|
      invariant 0 <= index <= |tokens|
      invariant Run(st, tokens[index..]) == Run(ParserState(schema, [], []), tokens)
    {
      assert tokens[index..][1..] == tokens[index + 1..];
      var next := Step(st, tokens[index]);
      if next.Err? {
        return Err(next.error);
      }
      st := next.value;
      index := index + 1;
    }
    if st.blocks != [] {
      return Err(UnbalancedOpen);
    }
    return Ok(st.schema);
  }

  const EMPTY := Schema("", "", [], [], [])

  predicate MessageBefore(a: Message, b: Message) {
    Before(a.name, b.name)
  }

  predicate RpcBefore(a: (string, string), b: (string, string)) {
    Before(a.0, b.0) || (a.0 == b.0 && Before(a.1, b.1))
  }

  function ByName(ms: seq<Message>): seq<Message> {
    Sort((a, b) => MessageBefore(a, b), ms)
  }

  function ByMethod(rpcs: seq<(string, string)>): seq<(string, string)> {
    Sort((a, b) => RpcBefore(a, b), rpcs)
  }

  /** The last checks, and the order the tables are emitted in. */
  function Finish(schema: Schema): Result<Schema, ParseError> {
    if schema.package == "" then Err(MissingPackage)
    else if schema.service == "" then Err(MissingService)
    else if schema.messages == [] then Err(NoMessages)
    else if schema.rpcs == [] then Err(NoRpcs)
    else Ok(schema.(messages := ByName(schema.messages), rpcs := ByMethod(schema.rpcs)))
  }

  /** File after file into one schema. */
  function ParseFiles(schema: Schema, files: seq<seq<string>>): Result<Schema, ParseError>
    decreases files
  {
    if files == [] then Ok(schema)
    else
      var next := ParseFile(schema, LexAll(files[0]));
      if next.Err? then next else ParseFiles(next.value, files[1..])
  }

  function SchemaOfFiles(files: seq<seq<string>>): Result<Schema, ParseError> {
    var schema := ParseFiles(EMPTY, files);
    if schema.Err? then schema else Finish(schema.value)
  }

  method ParseSchema(files: seq<seq<string>>) returns (r: Result<Schema, ParseError>)
    ensures r == SchemaOfFiles(files)
  {
    var schema := EMPTY;
    assert files[0..] == files;
    for i := 0 to |files|
      invariant ParseFiles(schema, files[i..]) == ParseFiles(EMPTY, files)
    {
      assert files[i..][1..] == files[i + 1..];
      var tokens := Tokenize(files[i]);
      var next := ParseTokens(schema, tokens);
      if next.Err? {
        return next;
      }
      schema := next.value;
    }
    return Finish(schema);
  }

  // What every token stream keeps.

  /**
   At most one message is open, it is the last one recorded, and an open oneof stands directly inside it
   and is one of its oneofs.
   */
  ghost predicate StackOk(st: ParserState) {
    && (forall i, j :: 0 <= i < j < |st.blocks| ==> !(st.blocks[i].kind == MessageKind && st.blocks[j].kind == MessageKind))
    && (forall i :: 0 <= i < |st.blocks| && st.blocks[i].kind == MessageKind ==>
          st.schema.messages != [] && LastMessage(st.schema).name == st.blocks[i].name)
    && (forall i :: 0 <= i < |st.blocks| && st.blocks[i].kind == OneofKind ==>
          && i > 0 && st.blocks[i - 1].kind == MessageKind
          && st.schema.messages != [] && st.blocks[i].name in LastMessage(st.schema).oneofs)
  }

  /** A message the tables can be built from. */
  ghost predicate MessageOk(m: Message) {
    && (forall i, j :: 0 <= i < j < |m.fields| ==> m.fields[i].number != m.fields[j].number)
    && (forall i, j :: 0 <= i < j < |m.oneofs| ==> m.oneofs[i] != m.oneofs[j])
    && (forall i :: 0 <= i < |m.fields| ==>
          && 1 <= m.fields[i].number < FIELD_NUMBER_END && !StartsWith(m.fields[i].typeName, "map")
          && (m.fields[i].oneof.Some? ==> m.fields[i].oneof.value in m.oneofs && !m.fields[i].repeated))
  }

  ghost predicate MessagesOk(schema: Schema) {
    forall i :: 0 <= i < |schema.messages| ==> MessageOk(schema.messages[i])
  }

  /** No request is streamed. */
  ghost predicate RpcsOk(schema: Schema) {
    forall i :: 0 <= i < |schema.rpcs| ==> !Contains(schema.rpcs[i].1, "stream")
  }

  ghost predicate SchemaOk(schema: Schema) {
    MessagesOk(schema) && RpcsOk(schema)
  }

  /** Errors no input can cause. */
  predicate Internal(e: ParseError) {
    e == NoMessageContext || e == MessageContextDrift || e == NotEnclosedByMessage
  }
}

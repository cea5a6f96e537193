/** What the parser keeps on every token stream, well formed or not. */
module ProtoInvariant {
  import opened Wrappers
  import opened Text
  import opened Sorting
  import opened WireSchema
  import opened ProtoLexer
  import opened ProtoParser

  /** A step's outcome: no internal error, and the invariant in any new state. */
  ghost predicate Sound(r: Result<ParserState, ParseError>) {
    match r
    case Ok(st) => StackOk(st) && SchemaOk(st.schema)
    case Err(e) => !Internal(e)
  }

  lemma OpenOneofSound(st: ParserState, name: string)
    requires StackOk(st) && SchemaOk(st.schema)
    ensures Sound(OpenOneof(st, name))
  {
    var n := |st.blocks|;
    if n > 0 && st.blocks[n - 1].kind == MessageKind {
      assert st.schema.messages != [];
      var m := LastMessage(st.schema);
      assert MessageOk(m);
      if name !in m.oneofs {
        assert MessageOk(m.(oneofs := m.oneofs + [name]));
      }
    }
  }

  lemma OpenMessageSound(st: ParserState, name: string)
    requires StackOk(st) && SchemaOk(st.schema)
    ensures Sound(OpenMessage(st, name))
  {
    assert MessageOk(Message(name, [], []));
    forall i | 0 <= i < |st.blocks| && st.blocks[i].kind == OneofKind
      ensures InMessage(st.blocks)
    {
      assert st.blocks[i - 1].kind == MessageKind;
    }
  }

  lemma OpenPlainSound(st: ParserState, kind: Kind, name: string)
    requires StackOk(st) && SchemaOk(st.schema) && (kind == EnumKind || kind == ServiceKind)
    ensures Sound(OpenPlain(st, kind, name))
  {
  }

  lemma OpenBlockSound(st: ParserState)
    requires StackOk(st) && SchemaOk(st.schema)
    ensures Sound(OpenBlock(st))
  {
    if |st.statement| == 2 {
      var kind, name := KindOf(Spelled(st.statement[0])), Spelled(st.statement[1]);
      match kind
      case Some(MessageKind) => OpenMessageSound(st, name);
      case Some(OneofKind) => OpenOneofSound(st, name);
      case Some(k) => OpenPlainSound(st, k, name);
      case None =>
    }
  }

  lemma CloseBlockSound(st: ParserState)
    requires StackOk(st) && SchemaOk(st.schema)
    ensures Sound(CloseBlock(st))
  {
  }

  /** Appending a checked field to the last message keeps everything. */
  lemma AddFieldSound(st: ParserState, owner: string, b: Block, f: Field)
    requires StackOk(st) && SchemaOk(st.schema) && st.blocks != [] && b == st.blocks[|st.blocks| - 1]
    requires b.kind == MessageKind || b.kind == OneofKind
    requires Owner(st.blocks) == Ok(owner)
    requires !StartsWith(f.typeName, "map")
    requires 1 <= f.number < FIELD_NUMBER_END && f.oneof == if b.kind == OneofKind then Some(b.name) else None
    ensures var r := AddField(st.schema, owner, b, f);
      match r
      case Ok(schema) => Sound(Ok(st.(schema := schema, statement := [])))
      case Err(e) => !Internal(e)
  {
    var m := LastMessage(st.schema);
    assert m.name == owner;
    assert MessageOk(m);
    var r := AddField(st.schema, owner, b, f);
    if r.Ok? {
      assert MessageOk(m.(fields := m.fields + [f]));
    }
  }

  lemma OwnerFound(st: ParserState)
    requires StackOk(st) && st.blocks != []
    ensures Owner(st.blocks).Ok?
  {
  }

  lemma InterpretSound(st: ParserState)
    requires StackOk(st) && SchemaOk(st.schema)
    ensures var r := Interpret(st.schema, st.blocks, st.statement);
      match r
      case Ok(schema) => Sound(Ok(st.(schema := schema, statement := [])))
      case Err(e) => !Internal(e)
  {
    var words := st.statement;
    if words != [] && st.blocks != [] {
      var b := st.blocks[|st.blocks| - 1];
      if b.kind == ServiceKind {
        ServiceStatementSound(st);
      } else if b.kind == MessageKind || b.kind == OneofKind {
        OwnerFound(st);
        FieldStatementSound(st, Owner(st.blocks).value, b, words);
      }
    }
  }

  lemma ServiceStatementSound(st: ParserState)
    requires StackOk(st) && SchemaOk(st.schema)
    ensures var r := ServiceStatement(st.schema, st.statement);
      match r
      case Ok(schema) => Sound(Ok(st.(schema := schema, statement := [])))
      case Err(e) => !Internal(e)
  {
  }

  lemma FieldStatementSound(st: ParserState, owner: string, b: Block, words: seq<Token>)
    requires StackOk(st) && SchemaOk(st.schema) && st.blocks != [] && b == st.blocks[|st.blocks| - 1]
    requires (b.kind == MessageKind || b.kind == OneofKind) && Owner(st.blocks) == Ok(owner) && words != []
    ensures var r := FieldStatement(st.schema, owner, b, words);
      match r
      case Ok(schema) => Sound(Ok(st.(schema := schema, statement := [])))
      case Err(e) => !Internal(e)
  {
    var repeated := words[0] == Word("repeated");
    var rest := if repeated || words[0] == Word("optional") then words[1..] else words;
    if |rest| == 4 && !StartsWith(Spelled(rest[0]), "map") && ParseNumber(Spelled(rest[3])).Some? {
      var n := ParseNumber(Spelled(rest[3])).value;
      var oneof := if b.kind == OneofKind then Some(b.name) else None;
      if 1 <= n < FIELD_NUMBER_END {
        AddFieldSound(st, owner, b, Field(Spelled(rest[0]), Spelled(rest[1]), n, repeated, oneof));
      }
    }
  }

  lemma StepSound(st: ParserState, t: Token)
    requires StackOk(st) && SchemaOk(st.schema)
    ensures Sound(Step(st, t))
  {
    match t
    case LBrace => OpenBlockSound(st);
    case RBrace => CloseBlockSound(st);
    case Semi => InterpretSound(st);
    case _ =>
  }

  /**
   Whatever the tokens, the open message is the last one recorded and oneofs stand directly inside it, so
   the checks for a missing message, for context drift and for the enclosing block are never the ones
   that fail; and every message recorded has distinct field numbers in range and declared oneofs.
   */
  lemma {:induction false} EveryStreamSound(st: ParserState, tokens: seq<Token>)
    requires StackOk(st) && SchemaOk(st.schema)
    ensures Sound(Run(st, tokens))
    decreases |tokens|
  {
    if tokens != [] {
      StepSound(st, tokens[0]);
      var next := Step(st, tokens[0]);
      if next.Ok? {
        EveryStreamSound(next.value, tokens[1..]);
      }
    }
  }

  lemma EveryFileSound(schema: Schema, tokens: seq<Token>)
    requires SchemaOk(schema)
    ensures match ParseFile(schema, tokens) case Ok(s) => SchemaOk(s) case Err(e) => !Internal(e)
  {
    EveryStreamSound(ParserState(schema, [], []), tokens);
  }

  lemma {:induction false} EveryInputSound(schema: Schema, files: seq<seq<string>>)
    requires SchemaOk(schema)
    ensures match ParseFiles(schema, files) case Ok(s) => SchemaOk(s) case Err(e) => !Internal(e)
    decreases files
  {
    if files != [] {
      EveryFileSound(schema, LexAll(files[0]));
      var next := ParseFile(schema, LexAll(files[0]));
      if next.Ok? {
        EveryInputSound(next.value, files[1..]);
      }
    }
  }

  lemma MessageOrder()
    ensures Weak((a: Message, b: Message) => MessageBefore(a, b))
  {
    forall a: Message, b: Message
      ensures MessageBefore(a, b) ==> !MessageBefore(b, a)
    {
      BeforeTotal(a.name, b.name);
    }
    forall a: Message, b: Message, c: Message | MessageBefore(a, c)
      ensures MessageBefore(a, b) || MessageBefore(b, c)
    {
      BeforeBetween(a.name, b.name, c.name);
    }
  }

  lemma BeforeBetween(a: string, b: string, c: string)
    requires Before(a, c)
    ensures Before(a, b) || Before(b, c)
  {
    BeforeTotal(a, b);
    if Before(b, a) {
      BeforeTransitive(b, a, c);
    }
  }

  lemma RpcOrder()
    ensures Weak((a: (string, string), b: (string, string)) => RpcBefore(a, b))
  {
    forall a: (string, string), b: (string, string)
      ensures RpcBefore(a, b) ==> !RpcBefore(b, a)
    {
      BeforeTotal(a.0, b.0);
      BeforeTotal(a.1, b.1);
    }
    forall a: (string, string), b: (string, string), c: (string, string) | RpcBefore(a, c)
      ensures RpcBefore(a, b) || RpcBefore(b, c)
    {
      RpcBetween(a, b, c);
    }
  }

  lemma RpcBetween(a: (string, string), b: (string, string), c: (string, string))
    requires RpcBefore(a, c)
    ensures RpcBefore(a, b) || RpcBefore(b, c)
  {
    BeforeTotal(a.0, b.0);
    BeforeTotal(b.0, c.0);
    if Before(a.0, c.0) {
      BeforeBetween(a.0, b.0, c.0);
    } else {
      BeforeBetween(a.1, b.1, c.1);
    }
  }

  ghost predicate NamesAscend(ms: seq<Message>) {
    Sorted((a: Message, b: Message) => MessageBefore(a, b), ms)
  }

  ghost predicate MethodsAscend(rpcs: seq<(string, string)>) {
    Sorted((a: (string, string), b: (string, string)) => RpcBefore(a, b), rpcs)
  }

  ghost predicate InTableOrder(s: Schema) {
    NamesAscend(s.messages) && MethodsAscend(s.rpcs)
  }

  lemma ByNameSound(ms: seq<Message>)
    requires forall i :: 0 <= i < |ms| ==> MessageOk(ms[i])
    ensures NamesAscend(ByName(ms)) && forall i :: 0 <= i < |ByName(ms)| ==> MessageOk(ByName(ms)[i])
  {
    MessageOrder();
    SortSorts((a: Message, b: Message) => MessageBefore(a, b), ms);
    PermutedMessagesOk(ms, ByName(ms));
  }

  lemma ByMethodSound(rpcs: seq<(string, string)>)
    requires forall i :: 0 <= i < |rpcs| ==> !Contains(rpcs[i].1, "stream")
    ensures MethodsAscend(ByMethod(rpcs)) && forall i :: 0 <= i < |ByMethod(rpcs)| ==> !Contains(ByMethod(rpcs)[i].1, "stream")
  {
    RpcOrder();
    SortSorts((a: (string, string), b: (string, string)) => RpcBefore(a, b), rpcs);
    PermutedRpcsOk(rpcs, ByMethod(rpcs));
  }

  lemma FinishSound(schema: Schema)
    requires SchemaOk(schema)
    ensures match Finish(schema) case Ok(s) => SchemaOk(s) && InTableOrder(s) case Err(e) => !Internal(e)
  {
    ByNameSound(schema.messages);
    ByMethodSound(schema.rpcs);
  }

  /** Whatever the files, a schema that comes out is fit for the tables, and sorted; nothing fails internally. */
  lemma ParsedSchemaSound(files: seq<seq<string>>)
    ensures match SchemaOfFiles(files) case Ok(s) => SchemaOk(s) && InTableOrder(s) case Err(e) => !Internal(e)
  {
    EveryInputSound(EMPTY, files);
    var r := ParseFiles(EMPTY, files);
    if r.Ok? {
      FinishSound(r.value);
    }
  }

  lemma PermutedMessagesOk(a: seq<Message>, b: seq<Message>)
    requires multiset(a) == multiset(b) && forall i :: 0 <= i < |a| ==> MessageOk(a[i])
    ensures forall i :: 0 <= i < |b| ==> MessageOk(b[i])
  {
    forall i | 0 <= i < |b|
      ensures MessageOk(b[i])
    {
      assert b[i] in multiset(a);
      var j :| 0 <= j < |a| && a[j] == b[i];
    }
  }

  lemma PermutedRpcsOk(a: seq<(string, string)>, b: seq<(string, string)>)
    requires multiset(a) == multiset(b) && forall i :: 0 <= i < |a| ==> !Contains(a[i].1, "stream")
    ensures forall i :: 0 <= i < |b| ==> !Contains(b[i].1, "stream")
  {
    forall i | 0 <= i < |b|
      ensures !Contains(b[i].1, "stream")
    {
      assert b[i] in multiset(a);
      var j :| 0 <= j < |a| && a[j] == b[i];
    }
  }

  // Braces.

  /** How much deeper `tokens` leave the nesting. */
  function Depth(tokens: seq<Token>): int {
    if tokens == [] then 0
    else
      var t := tokens[|tokens| - 1];
      Depth(tokens[..|tokens| - 1]) + (if t.LBrace? then 1 else if t.RBrace? then -1 else 0)
  }

  lemma DepthFront(tokens: seq<Token>)
    requires tokens != []
    ensures Depth(tokens) == Depth([tokens[0]]) + Depth(tokens[1..])
  {
    if |tokens| == 1 {
      assert tokens == [tokens[0]] && tokens[1..] == [];
    } else {
      var init := tokens[..|tokens| - 1];
      DepthFront(init);
      assert tokens[1..][..|tokens| - 2] == init[1..];
    }
  }

  lemma StepDepth(st: ParserState, t: Token)
    requires Step(st, t).Ok?
    ensures |Step(st, t).value.blocks| == |st.blocks| + Depth([t])
  {
    assert [t][..0] == [] && Depth([t][..0]) == 0;
  }

  /** The stack is as high as the braces are deep, at every point of every stream that is not refused. */
  lemma {:induction false} StackIsDepth(st: ParserState, tokens: seq<Token>, n: nat)
    requires Run(st, tokens).Ok? && n <= |tokens|
    ensures 0 <= |st.blocks| + Depth(tokens[..n])
    ensures |Run(st, tokens).value.blocks| == |st.blocks| + Depth(tokens)
    decreases |tokens|
  {
    if tokens == [] {
      assert tokens[..n] == [];
    } else {
      var next := Step(st, tokens[0]).value;
      StepDepth(st, tokens[0]);
      DepthFront(tokens);
      if n == 0 {
        assert tokens[..0] == [];
        StackIsDepth(next, tokens[1..], 0);
      } else {
        StackIsDepth(next, tokens[1..], n - 1);
        DepthFront(tokens[..n]);
        assert tokens[..n][1..] == tokens[1..][..n - 1];
      }
    }
  }

  /** An accepted file has balanced braces. */
  lemma AcceptedIsBalanced(schema: Schema, tokens: seq<Token>, n: nat)
    requires ParseFile(schema, tokens).Ok? && n <= |tokens|
    ensures Depth(tokens) == 0 && Depth(tokens[..n]) >= 0
  {
    StackIsDepth(ParserState(schema, [], []), tokens, n);
  }
}

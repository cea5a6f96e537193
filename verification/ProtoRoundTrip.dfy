/** Printing declarations and parsing the tokens gives the declared schema. */
module ProtoRoundTrip {
  import opened Wrappers
  import opened Text
  import opened WireSchema
  import opened ProtoLexer
  import opened ProtoParser
  import opened ProtoPrinter

  // Fields.

  lemma NumberRead(n: nat)
    requires n < FIELD_NUMBER_END
    ensures ParseNumber(Decimal(n)) == Some(n)
  {
    DecimalRoundTrip(n);
  }

  lemma FieldInside(d: FieldDecl)
    ensures forall i :: 0 <= i < |FieldWords(d)| ==> Inside(FieldWords(d)[i])
  {
  }

  /** The words of a field, without its label. */
  function Core(d: FieldDecl): seq<Token> {
    [Word(d.typeName), Word(d.name), Equals, Word(Decimal(d.number))]
  }

  lemma LabelRead(d: FieldDecl)
    requires FieldDeclOk(d)
    ensures var words := FieldWords(d);
      && words != []
      && (words[0] == Word("repeated") <==> d.presence == Repeated)
      && (if words[0] == Word("repeated") || words[0] == Word("optional") then words[1..] else words) == Core(d)
  {
    assert FieldWords(d) == LabelTokens(d.presence) + Core(d);
  }

  /** The block a field statement stands in, and the message it belongs to. */
  ghost predicate Context(schema: Schema, blocks: seq<Block>) {
    && schema.messages != [] && blocks != []
    && (blocks[|blocks| - 1].kind == MessageKind || blocks[|blocks| - 1].kind == OneofKind)
    && Owner(blocks) == Ok(LastMessage(schema).name)
  }

  function OneofHere(blocks: seq<Block>): Option<string>
    requires blocks != []
  {
    var b := blocks[|blocks| - 1];
    if b.kind == OneofKind then Some(b.name) else None
  }

  /** What those words say. */
  lemma CoreRead(d: FieldDecl)
    requires FieldDeclOk(d)
    ensures var rest := Core(d);
      && Spelled(rest[0]) == d.typeName && Spelled(rest[1]) == d.name && rest[2] == Equals
      && !StartsWith(Spelled(rest[0]), "map") && ParseNumber(Spelled(rest[3])) == Some(d.number)
  {
    NumberRead(d.number);
  }

  /** The words of a field are read as that field. */
  lemma FieldParsed(schema: Schema, owner: string, b: Block, d: FieldDecl)
    requires FieldDeclOk(d)
    ensures FieldWords(d) != []
    ensures FieldStatement(schema, owner, b, FieldWords(d)) ==
      AddField(schema, owner, b, FieldOf(d, if b.kind == OneofKind then Some(b.name) else None))
  {
    LabelRead(d);
    CoreRead(d);
  }

  lemma FieldRead(schema: Schema, blocks: seq<Block>, d: FieldDecl)
    requires Context(schema, blocks) && FieldDeclOk(d)
    requires !HasNumber(LastMessage(schema).fields, d.number)
    requires OneofHere(blocks).Some? ==> d.presence != Repeated
    ensures Interpret(schema, blocks, FieldWords(d)) == Ok(Grown(schema, [FieldOf(d, OneofHere(blocks))], []))
  {
    var m, b := LastMessage(schema), blocks[|blocks| - 1];
    FieldParsed(schema, m.name, b, d);
    assert m.oneofs + [] == m.oneofs;
  }

  lemma FieldRuns(schema: Schema, blocks: seq<Block>, d: FieldDecl)
    requires Context(schema, blocks) && FieldDeclOk(d)
    requires !HasNumber(LastMessage(schema).fields, d.number)
    requires OneofHere(blocks).Some? ==> d.presence != Repeated
    ensures Run(Between(schema, blocks), FieldWords(d) + [Semi])
         == Ok(Between(Grown(schema, [FieldOf(d, OneofHere(blocks))], []), blocks))
  {
    FieldRead(schema, blocks, d);
    FieldInside(d);
    RunStatement(schema, blocks, FieldWords(d), Grown(schema, [FieldOf(d, OneofHere(blocks))], []));
  }

  /** The first new number is none of the old ones. */
  lemma FirstIsNew(old_: seq<Field>, f: Field, rest: seq<Field>)
    requires DistinctNumbers(old_ + ([f] + rest))
    ensures !HasNumber(old_, f.number)
    ensures DistinctNumbers(old_ + [f] + rest)
  {
    var all := old_ + ([f] + rest);
    assert all == old_ + [f] + rest;
    forall i | 0 <= i < |old_|
      ensures old_[i].number != f.number
    {
      assert all[i] == old_[i] && all[|old_|] == f;
    }
  }

  /** The members of a oneof, one statement each. */
  lemma {:induction false} MembersRun(schema: Schema, blocks: seq<Block>, ds: seq<FieldDecl>)
    requires Context(schema, blocks) && OneofHere(blocks).Some?
    requires forall i :: 0 <= i < |ds| ==> FieldDeclOk(ds[i]) && ds[i].presence != Repeated
    requires DistinctNumbers(LastMessage(schema).fields + MembersOf(ds, OneofHere(blocks).value))
    ensures Run(Between(schema, blocks), FieldsTokens(ds))
         == Ok(Between(Grown(schema, MembersOf(ds, OneofHere(blocks).value), []), blocks))
    decreases |ds|
  {
    var o := OneofHere(blocks).value;
    if ds == [] {
      GrownByNothing(schema);
    } else {
      var f, rest := FieldOf(ds[0], Some(o)), MembersOf(ds[1..], o);
      FirstIsNew(LastMessage(schema).fields, f, rest);
      FieldRuns(schema, blocks, ds[0]);
      var next := Grown(schema, [f], []);
      GrownTwice(schema, [f], [], rest, []);
      MembersRun(next, blocks, ds[1..]);
      RunConcat(Between(schema, blocks), FieldWords(ds[0]) + [Semi], FieldsTokens(ds[1..]));
      var none: seq<string> := [];
      assert none + [] == none;
    }
  }

  lemma GrownByNothing(schema: Schema)
    requires schema.messages != []
    ensures Grown(schema, [], []) == schema
  {
    var m := LastMessage(schema);
    assert m.fields + [] == m.fields && m.oneofs + [] == m.oneofs;
    assert schema.messages[..|schema.messages| - 1] + [m] == schema.messages;
  }

  // Messages.

  lemma RunClose(schema: Schema, blocks: seq<Block>, b: Block)
    requires b.kind == MessageKind || b.kind == OneofKind
    ensures Run(Between(schema, blocks + [b]), [RBrace]) == Ok(Between(schema, blocks))
  {
    RunOne(Between(schema, blocks + [b]), RBrace);
    assert (blocks + [b])[..|blocks|] == blocks;
  }

  ghost predicate AtMessage(schema: Schema, blocks: seq<Block>) {
    Context(schema, blocks) && blocks[|blocks| - 1].kind == MessageKind
  }

  lemma OneofOpens(schema: Schema, blocks: seq<Block>, name: string)
    requires AtMessage(schema, blocks) && name !in LastMessage(schema).oneofs
    ensures var blocks', schema' := blocks + [Block(OneofKind, name)], Grown(schema, [], [name]);
      && Run(Between(schema, blocks), Header("oneof", name)) == Ok(Between(schema', blocks'))
      && Context(schema', blocks') && OneofHere(blocks') == Some(name)
  {
    RunHeader(schema, blocks, "oneof", name);
    var m := LastMessage(schema);
    assert m.fields + [] == m.fields;
  }

  lemma OneofRuns(schema: Schema, blocks: seq<Block>, name: string, ds: seq<FieldDecl>)
    requires AtMessage(schema, blocks) && ItemOk(Oneof(name, ds)) && name !in LastMessage(schema).oneofs
    requires DistinctNumbers(LastMessage(schema).fields + MembersOf(ds, name))
    ensures Run(Between(schema, blocks), ItemTokens(Oneof(name, ds)))
         == Ok(Between(Grown(schema, MembersOf(ds, name), [name]), blocks))
  {
    var blocks', schema' := blocks + [Block(OneofKind, name)], Grown(schema, [], [name]);
    var start := Between(schema, blocks);
    OneofOpens(schema, blocks, name);
    var fs := MembersOf(ds, name);
    GrownTwice(schema, [], [name], fs, []);
    assert LastMessage(schema').fields == LastMessage(schema).fields + [] == LastMessage(schema).fields;
    MembersRun(schema', blocks', ds);
    assert [] + fs == fs && [name] + [] == [name];
    RunConcat(start, Header("oneof", name), FieldsTokens(ds));
    RunConcat(start, Header("oneof", name) + FieldsTokens(ds), [RBrace]);
    RunClose(Grown(schema, fs, [name]), blocks, Block(OneofKind, name));
  }

  lemma ItemRuns(schema: Schema, blocks: seq<Block>, item: Item)
    requires AtMessage(schema, blocks) && ItemOk(item)
    requires DistinctNumbers(LastMessage(schema).fields + ItemFields(item))
    requires DistinctStrings(LastMessage(schema).oneofs + ItemOneofs(item))
    ensures Run(Between(schema, blocks), ItemTokens(item))
         == Ok(Between(Grown(schema, ItemFields(item), ItemOneofs(item)), blocks))
  {
    var m := LastMessage(schema);
    match item
    case Plain(d) =>
      assert [FieldOf(d, None)] + [] == [FieldOf(d, None)];
      FirstIsNew(m.fields, FieldOf(d, None), []);
      FieldRuns(schema, blocks, d);
    case Oneof(name, ds) =>
      assert m.oneofs + [name] + [] == m.oneofs + [name];
      NewString(m.oneofs, name, []);
      OneofRuns(schema, blocks, name, ds);
  }

  lemma NewString(old_: seq<string>, s: string, rest: seq<string>)
    requires DistinctStrings(old_ + [s] + rest)
    ensures s !in old_
  {
    var all := old_ + [s] + rest;
    forall i | 0 <= i < |old_|
      ensures old_[i] != s
    {
      assert all[i] == old_[i] && all[|old_|] == s;
    }
  }

  lemma DistinctParts(a: seq<Field>, b: seq<Field>, c: seq<Field>)
    requires DistinctNumbers(a + (b + c))
    ensures DistinctNumbers(a + b) && DistinctNumbers(a + b + c)
  {
    assert a + (b + c) == a + b + c;
    assert forall i :: 0 <= i < |a + b| ==> (a + b + c)[i] == (a + b)[i];
  }

  lemma DistinctNames(a: seq<string>, b: seq<string>, c: seq<string>)
    requires DistinctStrings(a + (b + c))
    ensures DistinctStrings(a + b) && DistinctStrings(a + b + c)
  {
    assert a + (b + c) == a + b + c;
    assert forall i :: 0 <= i < |a + b| ==> (a + b + c)[i] == (a + b)[i];
  }

  lemma {:induction false} ItemsRun(schema: Schema, blocks: seq<Block>, items: seq<Item>)
    requires AtMessage(schema, blocks) && forall i :: 0 <= i < |items| ==> ItemOk(items[i])
    requires DistinctNumbers(LastMessage(schema).fields + FieldsOf(items))
    requires DistinctStrings(LastMessage(schema).oneofs + OneofsOf(items))
    ensures Run(Between(schema, blocks), ItemsTokens(items))
         == Ok(Between(Grown(schema, FieldsOf(items), OneofsOf(items)), blocks))
    decreases |items|
  {
    if items == [] {
      GrownByNothing(schema);
    } else {
      var m, rest := LastMessage(schema), items[1..];
      var fs, os := ItemFields(items[0]), ItemOneofs(items[0]);
      DistinctParts(m.fields, fs, FieldsOf(rest));
      DistinctNames(m.oneofs, os, OneofsOf(rest));
      ItemRuns(schema, blocks, items[0]);
      GrownTwice(schema, fs, os, FieldsOf(rest), OneofsOf(rest));
      ItemsRun(Grown(schema, fs, os), blocks, rest);
      RunConcat(Between(schema, blocks), ItemTokens(items[0]), ItemsTokens(rest));
    }
  }

  /** A block is its header, its body and its closing brace. */
  lemma BlockRuns(
    start: ParserState, head: seq<Token>, inside: ParserState, body: seq<Token>, last: ParserState, end: ParserState)
    requires Run(start, head) == Ok(inside) && Run(inside, body) == Ok(last) && Run(last, [RBrace]) == Ok(end)
    ensures Run(start, head + body + [RBrace]) == Ok(end)
  {
    RunConcat(start, head, body);
    RunConcat(start, head + body, [RBrace]);
  }

  lemma MessageOpens(schema: Schema, name: string)
    ensures var begun, b := schema.(messages := schema.messages + [Message(name, [], [])]), Block(MessageKind, name);
      Run(Between(schema, []), Header("message", name)) == Ok(Between(begun, [b])) && AtMessage(begun, [b])
  {
    RunHeader(schema, [], "message", name);
    assert [] + [Block(MessageKind, name)] == [Block(MessageKind, name)];
  }

  lemma MessageRuns(schema: Schema, d: MessageDecl)
    requires MessageDeclOk(d)
    ensures Run(Between(schema, []), MessageTokens(d))
         == Ok(Between(schema.(messages := schema.messages + [MessageOf(d)]), []))
  {
    var begun := schema.(messages := schema.messages + [Message(d.name, [], [])]);
    var b, fs, os := Block(MessageKind, d.name), FieldsOf(d.items), OneofsOf(d.items);
    MessageOpens(schema, d.name);
    assert [] + fs == fs && [] + os == os;
    ItemsRun(begun, [b], d.items);
    RunClose(Grown(begun, fs, os), [], b);
    assert [] + [b] == [b];
    assert Grown(begun, fs, os) == schema.(messages := schema.messages + [MessageOf(d)]);
    BlockRuns(
      Between(schema, []), Header("message", d.name), Between(begun, [b]), ItemsTokens(d.items),
      Between(Grown(begun, fs, os), [b]), Between(Grown(begun, fs, os), []));
  }

  lemma AppendsBoth(schema: Schema, a: seq<Token>, m: Message, b: seq<Token>, ms: seq<Message>)
    requires Run(Between(schema, []), a) == Ok(Between(schema.(messages := schema.messages + [m]), []))
    requires Run(Between(schema.(messages := schema.messages + [m]), []), b)
          == Ok(Between(schema.(messages := schema.messages + [m] + ms), []))
    ensures Run(Between(schema, []), a + b) == Ok(Between(schema.(messages := schema.messages + ([m] + ms)), []))
  {
    assert schema.messages + [m] + ms == schema.messages + ([m] + ms);
    RunConcat(Between(schema, []), a, b);
  }

  lemma {:induction false} MessagesRun(schema: Schema, ds: seq<MessageDecl>)
    requires MessageDeclsOk(ds)
    ensures Run(Between(schema, []), MessagesTokens(ds))
         == Ok(Between(schema.(messages := schema.messages + MessagesOf(ds)), []))
    decreases |ds|
  {
    if ds == [] {
      assert schema.messages + [] == schema.messages;
    } else {
      MessageRuns(schema, ds[0]);
      MessagesRun(schema.(messages := schema.messages + [MessageOf(ds[0])]), ds[1..]);
      AppendsBoth(schema, MessageTokens(ds[0]), MessageOf(ds[0]), MessagesTokens(ds[1..]), MessagesOf(ds[1..]));
    }
  }

  // Enums and services.

  lemma {:induction false} ValuesRun(schema: Schema, blocks: seq<Block>, vs: seq<(string, nat)>)
    requires blocks != [] && blocks[|blocks| - 1].kind == EnumKind
    ensures Run(Between(schema, blocks), ValuesTokens(vs)) == Ok(Between(schema, blocks))
    decreases |vs|
  {
    if vs != [] {
      RunStatement(schema, blocks, ValueWords(vs[0]), schema);
      ValuesRun(schema, blocks, vs[1..]);
      RunConcat(Between(schema, blocks), ValueWords(vs[0]) + [Semi], ValuesTokens(vs[1..]));
    }
  }

  lemma PlainOpens(schema: Schema, keyword: string, kind: Kind, name: string)
    requires KindOf(keyword) == Some(kind) && (kind == EnumKind || kind == ServiceKind)
    ensures Run(Between(schema, []), Header(keyword, name)) == Ok(Between(schema, [Block(kind, name)]))
  {
    RunHeader(schema, [], keyword, name);
    assert [] + [Block(kind, name)] == [Block(kind, name)];
  }

  lemma PlainCloses(schema: Schema, b: Block)
    requires schema.service == "" || b.kind == EnumKind
    requires b.kind == EnumKind || b.kind == ServiceKind
    ensures Run(Between(schema, [b]), [RBrace]) ==
      Ok(Between(if b.kind == EnumKind then schema.(enums := schema.enums + [b.name]) else schema.(service := b.name), []))
  {
    RunOne(Between(schema, [b]), RBrace);
    assert [b][..0] == [];
  }

  lemma EnumRuns(schema: Schema, d: EnumDecl)
    ensures Run(Between(schema, []), EnumTokens(d)) == Ok(Between(schema.(enums := schema.enums + [d.name]), []))
  {
    var b := Block(EnumKind, d.name);
    PlainOpens(schema, "enum", EnumKind, d.name);
    ValuesRun(schema, [b], d.values);
    PlainCloses(schema, b);
    BlockRuns(
      Between(schema, []), Header("enum", d.name), Between(schema, [b]), ValuesTokens(d.values), Between(schema, [b]),
      Between(schema.(enums := schema.enums + [d.name]), []));
  }

  lemma {:induction false} EnumsRun(schema: Schema, ds: seq<EnumDecl>)
    ensures Run(Between(schema, []), EnumsTokens(ds)) == Ok(Between(schema.(enums := schema.enums + EnumsOf(ds)), []))
    decreases |ds|
  {
    if ds == [] {
      assert schema.enums + [] == schema.enums;
    } else {
      EnumRuns(schema, ds[0]);
      EnumsRun(schema.(enums := schema.enums + [ds[0].name]), ds[1..]);
      assert schema.enums + [ds[0].name] + EnumsOf(ds[1..]) == schema.enums + EnumsOf(ds);
      RunConcat(Between(schema, []), EnumTokens(ds[0]), EnumsTokens(ds[1..]));
    }
  }

  lemma RpcRuns(schema: Schema, blocks: seq<Block>, d: RpcDecl)
    requires blocks != [] && blocks[|blocks| - 1].kind == ServiceKind && RpcDeclOk(d)
    ensures Run(Between(schema, blocks), RpcWords(d) + [Semi])
         == Ok(Between(schema.(rpcs := schema.rpcs + [(d.name, d.request)]), blocks))
  {
    RunStatement(schema, blocks, RpcWords(d), schema.(rpcs := schema.rpcs + [(d.name, d.request)]));
  }

  lemma {:induction false} RpcsRun(schema: Schema, blocks: seq<Block>, ds: seq<RpcDecl>)
    requires blocks != [] && blocks[|blocks| - 1].kind == ServiceKind
    requires forall i :: 0 <= i < |ds| ==> RpcDeclOk(ds[i])
    ensures Run(Between(schema, blocks), RpcsTokens(ds)) == Ok(Between(schema.(rpcs := schema.rpcs + RpcsOf(ds)), blocks))
    decreases |ds|
  {
    if ds == [] {
      assert schema.rpcs + [] == schema.rpcs;
    } else {
      var rpc := (ds[0].name, ds[0].request);
      RpcRuns(schema, blocks, ds[0]);
      RpcsRun(schema.(rpcs := schema.rpcs + [rpc]), blocks, ds[1..]);
      assert schema.rpcs + [rpc] + RpcsOf(ds[1..]) == schema.rpcs + RpcsOf(ds);
      RunConcat(Between(schema, blocks), RpcWords(ds[0]) + [Semi], RpcsTokens(ds[1..]));
    }
  }

  lemma ServiceRuns(schema: Schema, d: ServiceDecl)
    requires ServiceDeclOk(d) && schema.service == ""
    ensures Run(Between(schema, []), ServiceTokens(d))
         == Ok(Between(schema.(service := d.name, rpcs := schema.rpcs + RpcsOf(d.rpcs)), []))
  {
    var b, filled := Block(ServiceKind, d.name), schema.(rpcs := schema.rpcs + RpcsOf(d.rpcs));
    PlainOpens(schema, "service", ServiceKind, d.name);
    RpcsRun(schema, [b], d.rpcs);
    PlainCloses(filled, b);
    BlockRuns(
      Between(schema, []), Header("service", d.name), Between(schema, [b]), RpcsTokens(d.rpcs), Between(filled, [b]),
      Between(filled.(service := d.name), []));
  }
}

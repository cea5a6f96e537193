/** Whole files: printing them as text and parsing the text gives the schema they declare. */
module ProtoFiles {
  import opened Wrappers
  import opened Text
  import opened WireSchema
  import opened ProtoLexer
  import opened ProtoParser
  import opened ProtoPrinter
  import opened ProtoRoundTrip

  lemma PreambleRuns(schema: Schema, package: string)
    requires package != "" && (schema.package == "" || schema.package == package)
    ensures Run(Between(schema, []), Preamble(package)) == Ok(Between(schema.(package := package), []))
  {
    var syntax_, pkg := [Word("syntax"), Equals, Word("proto3")], [Word("package"), Word(package)];
    RunStatement(schema, [], syntax_, schema);
    RunStatement(schema, [], pkg, schema.(package := package));
    RunConcat(Between(schema, []), syntax_ + [Semi], pkg + [Semi]);
  }

  lemma EnumsThenMessages(schema: Schema, f: FileDecl)
    requires FileDeclOk(f)
    ensures Run(Between(schema, []), EnumsTokens(f.enums) + MessagesTokens(f.messages))
         == Ok(Between(schema.(
              enums := schema.enums + EnumsOf(f.enums), messages := schema.messages + MessagesOf(f.messages)), []))
  {
    EnumsRun(schema, f.enums);
    MessagesRun(schema.(enums := schema.enums + EnumsOf(f.enums)), f.messages);
    RunConcat(Between(schema, []), EnumsTokens(f.enums), MessagesTokens(f.messages));
  }

  /** A file that may follow `schema`: one package throughout, one service in all. */
  predicate Follows(schema: Schema, f: FileDecl) {
    && FileDeclOk(f)
    && (schema.package == "" || schema.package == f.package)
    && (f.service.Some? ==> schema.service == "")
  }

  function ServicePart(f: FileDecl): seq<Token> {
    if f.service.Some? then ServiceTokens(f.service.value) else []
  }

  lemma ServicePartRuns(schema: Schema, f: FileDecl)
    requires Follows(schema, f)
    ensures Run(Between(schema, []), ServicePart(f))
         == Ok(Between(schema.(
              service := if f.service.Some? then f.service.value.name else schema.service,
              rpcs := schema.rpcs + if f.service.Some? then RpcsOf(f.service.value.rpcs) else []), []))
  {
    if f.service.Some? {
      ServiceRuns(schema, f.service.value);
    } else {
      assert schema.rpcs + [] == schema.rpcs;
    }
  }

  /** Three runs, one after the other. */
  lemma RunThree(
    start: ParserState, a: seq<Token>, mid: ParserState, b: seq<Token>, last: ParserState, c: seq<Token>, end: ParserState)
    requires Run(start, a) == Ok(mid) && Run(mid, b) == Ok(last) && Run(last, c) == Ok(end)
    ensures Run(start, a + b + c) == Ok(end)
  {
    RunConcat(start, a, b);
    RunConcat(start, a + b, c);
  }

  lemma FileParts(f: FileDecl)
    ensures FileTokens(f) == Preamble(f.package) + (EnumsTokens(f.enums) + MessagesTokens(f.messages)) + ServicePart(f)
  {
  }

  lemma FileRead(schema: Schema, f: FileDecl)
    requires Follows(schema, f)
    ensures ParseFile(schema, FileTokens(f)) == Ok(Declares(schema, f))
  {
    var named := schema.(package := f.package);
    var body := named.(enums := named.enums + EnumsOf(f.enums), messages := named.messages + MessagesOf(f.messages));
    PreambleRuns(schema, f.package);
    EnumsThenMessages(named, f);
    ServicePartRuns(body, f);
    var es, ms := EnumsTokens(f.enums), MessagesTokens(f.messages);
    FileParts(f);
    RunThree(
      Between(schema, []), Preamble(f.package), Between(named, []), es + ms, Between(body, []), ServicePart(f),
      Between(Declares(schema, f), []));
  }

  // The tokens can be spelled.

  ghost predicate AllPrintable(tokens: seq<Token>) {
    forall t :: t in tokens ==> Printable(t)
  }

  lemma DigitsAreWords(s: string)
    requires Digits(s)
    ensures AllWordChars(s)
  {
    forall i | 0 <= i < |s|
      ensures WordChar(s[i])
    {
      assert Digit(s[i]);
    }
  }

  lemma FieldWordsPrintable(d: FieldDecl)
    requires FieldDeclOk(d)
    ensures AllPrintable(FieldWords(d))
  {
    DigitsAreWords(Decimal(d.number));
    assert AllPrintable(LabelTokens(d.presence));
  }

  lemma {:induction false} FieldsPrintable(ds: seq<FieldDecl>)
    requires forall i :: 0 <= i < |ds| ==> FieldDeclOk(ds[i])
    ensures AllPrintable(FieldsTokens(ds))
  {
    if ds != [] {
      FieldWordsPrintable(ds[0]);
      FieldsPrintable(ds[1..]);
    }
  }

  lemma {:induction false} ItemsPrintable(items: seq<Item>)
    requires forall i :: 0 <= i < |items| ==> ItemOk(items[i])
    ensures AllPrintable(ItemsTokens(items))
  {
    if items != [] {
      ItemsPrintable(items[1..]);
      match items[0]
      case Plain(d) => FieldWordsPrintable(d);
      case Oneof(name, ds) =>
        FieldsPrintable(ds);
        assert AllPrintable(Header("oneof", name));
    }
  }

  lemma PrintableConcat(a: seq<Token>, b: seq<Token>)
    requires AllPrintable(a) && AllPrintable(b)
    ensures AllPrintable(a + b)
  {
  }

  lemma {:induction false} MessagesPrintable(ds: seq<MessageDecl>)
    requires MessageDeclsOk(ds)
    ensures AllPrintable(MessagesTokens(ds))
  {
    if ds != [] {
      MessagesPrintable(ds[1..]);
      ItemsPrintable(ds[0].items);
      assert AllPrintable(MessageTokens(ds[0])) by {
        PrintableConcat(Header("message", ds[0].name), ItemsTokens(ds[0].items));
      }
      PrintableConcat(MessageTokens(ds[0]), MessagesTokens(ds[1..]));
    }
  }

  lemma {:induction false} ValuesPrintable(vs: seq<(string, nat)>)
    requires forall i :: 0 <= i < |vs| ==> Name(vs[i].0)
    ensures AllPrintable(ValuesTokens(vs))
  {
    if vs != [] {
      ValuesPrintable(vs[1..]);
      DigitsAreWords(Decimal(vs[0].1));
    }
  }

  lemma {:induction false} EnumsPrintable(ds: seq<EnumDecl>)
    requires forall i :: 0 <= i < |ds| ==> EnumDeclOk(ds[i])
    ensures AllPrintable(EnumsTokens(ds))
  {
    if ds != [] {
      EnumsPrintable(ds[1..]);
      ValuesPrintable(ds[0].values);
      assert AllPrintable(Header("enum", ds[0].name));
    }
  }

  lemma {:induction false} RpcsPrintable(ds: seq<RpcDecl>)
    requires forall i :: 0 <= i < |ds| ==> RpcDeclOk(ds[i])
    ensures AllPrintable(RpcsTokens(ds))
  {
    if ds != [] {
      RpcsPrintable(ds[1..]);
      assert AllPrintable(RpcWords(ds[0]));
    }
  }

  lemma PreamblePrintable(package: string)
    requires Name(package)
    ensures AllPrintable(Preamble(package))
  {
  }

  lemma ServicePartPrintable(f: FileDecl)
    requires f.service.Some? ==> ServiceDeclOk(f.service.value)
    ensures AllPrintable(ServicePart(f))
  {
    if f.service.Some? {
      RpcsPrintable(f.service.value.rpcs);
      assert AllPrintable(Header("service", f.service.value.name));
    }
  }

  lemma FilePrintable(f: FileDecl)
    requires FileDeclOk(f)
    ensures AllPrintable(FileTokens(f))
  {
    var p, es, ms := Preamble(f.package), EnumsTokens(f.enums), MessagesTokens(f.messages);
    PreamblePrintable(f.package);
    EnumsPrintable(f.enums);
    MessagesPrintable(f.messages);
    ServicePartPrintable(f);
    PrintableConcat(p, es);
    PrintableConcat(p + es, ms);
    PrintableConcat(p + es + ms, ServicePart(f));
  }

  // Round trip.

  function Print(f: FileDecl): seq<string> {
    [Render(FileTokens(f))]
  }

  function PrintAll(fs: seq<FileDecl>): seq<seq<string>> {
    if fs == [] then [] else [Print(fs[0])] + PrintAll(fs[1..])
  }

  function DeclaresAll(schema: Schema, fs: seq<FileDecl>): Schema
    decreases fs
  {
    if fs == [] then schema else DeclaresAll(Declares(schema, fs[0]), fs[1..])
  }

  predicate FollowAll(schema: Schema, fs: seq<FileDecl>)
    decreases fs
  {
    fs == [] || (Follows(schema, fs[0]) && FollowAll(Declares(schema, fs[0]), fs[1..]))
  }

  lemma {:induction false} FilesRead(schema: Schema, fs: seq<FileDecl>)
    requires FollowAll(schema, fs)
    ensures ParseFiles(schema, PrintAll(fs)) == Ok(DeclaresAll(schema, fs))
    decreases fs
  {
    if fs != [] {
      FilePrintable(fs[0]);
      TokensRoundTrip(FileTokens(fs[0]));
      FileRead(schema, fs[0]);
      FilesRead(Declares(schema, fs[0]), fs[1..]);
      assert PrintAll(fs)[1..] == PrintAll(fs[1..]);
    }
  }

  /**
   Printing any acceptable files as text, then tokenizing and parsing the text, gives the schema the files
   declare, with messages and methods sorted.
   */
  lemma PrintThenParse(fs: seq<FileDecl>)
    requires FollowAll(EMPTY, fs)
    ensures SchemaOfFiles(PrintAll(fs)) == Finish(DeclaresAll(EMPTY, fs))
  {
    FilesRead(EMPTY, fs);
  }
}

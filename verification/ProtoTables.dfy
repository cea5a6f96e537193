/** The descriptor tables emitted from a schema. */
module ProtoTables {
  import opened Wrappers
  import opened Sorting
  import opened WireSchema
  import opened ProtoParser

  datatype FieldDesc = FieldDesc(number: nat, repeated: bool, nested: Option<nat>, oneof: Option<nat>)

  datatype MessageDesc = MessageDesc(name: string, fields: seq<FieldDesc>)

  datatype Tables = Tables(requests: seq<(string, nat)>, messages: seq<MessageDesc>)

  datatype TableError = UnknownRequest(name: string) | UnknownFieldType(typeName: string) | NoOneofContext

  /** The first index of a message. */
  function Position(ms: seq<Message>, name: string): (r: Option<nat>)
    ensures r.Some? ==> r.value < |ms| && ms[r.value].name == name
    ensures r.None? <==> forall i :: 0 <= i < |ms| ==> ms[i].name != name
  {
    if ms == [] then None
    else if ms[0].name == name then Some(0)
    else
      var rest := Position(ms[1..], name);
      if rest.Some? then Some(rest.value + 1) else None
  }

  function OneofPosition(oneofs: seq<string>, name: string): (r: Option<nat>)
    ensures r.Some? ==> r.value < |oneofs| && oneofs[r.value] == name
    ensures r.None? <==> name !in oneofs
  {
    if oneofs == [] then None
    else if oneofs[0] == name then Some(0)
    else
      var rest := OneofPosition(oneofs[1..], name);
      if rest.Some? then Some(rest.value + 1) else None
  }

  // What a faithful table says.

  /** The nested link names the field's message type, and is absent exactly for scalars and enums. */
  ghost predicate NestedRight(s: Schema, typeName: string, nested: Option<nat>) {
    match nested
    case None => FieldTarget(s, typeName) == Terminal
    case Some(k) => k < |s.messages| && FieldTarget(s, typeName) == Refers(s.messages[k].name)
  }

  /** The oneof link names the field's oneof, and is absent exactly for fields of none. */
  ghost predicate OneofRight(m: Message, oneof: Option<string>, link: Option<nat>) {
    match link
    case None => oneof == None
    case Some(k) => k < |m.oneofs| && oneof == Some(m.oneofs[k])
  }

  ghost predicate Describes(s: Schema, m: Message, f: Field, d: FieldDesc) {
    && d.number == f.number && d.repeated == f.repeated
    && NestedRight(s, f.typeName, d.nested)
    && OneofRight(m, f.oneof, d.oneof)
  }

  predicate NumberBefore(a: Field, b: Field) {
    a.number < b.number
  }

  function ByNumber(fields: seq<Field>): seq<Field> {
    Sort((a, b) => NumberBefore(a, b), fields)
  }

  ghost predicate DescribesMessage(s: Schema, m: Message, d: MessageDesc) {
    && d.name == m.name
    && |d.fields| == |ByNumber(m.fields)|
    && forall k :: 0 <= k < |d.fields| ==> Describes(s, m, ByNumber(m.fields)[k], d.fields[k])
  }

  function RequestPath(s: Schema, name: string): string {
    "/" + s.package + "." + s.service + "/" + name
  }

  ghost predicate RequestRight(s: Schema, rpc: (string, string), entry: (string, nat)) {
    entry.0 == RequestPath(s, rpc.0) && entry.1 < |s.messages| && s.messages[entry.1].name == rpc.1
  }

  ghost predicate Faithful(s: Schema, t: Tables) {
    && |t.requests| == |s.rpcs|
    && (forall j :: 0 <= j < |s.rpcs| ==> RequestRight(s, s.rpcs[j], t.requests[j]))
    && |t.messages| == |s.messages|
    && (forall i :: 0 <= i < |s.messages| ==> DescribesMessage(s, s.messages[i], t.messages[i]))
  }

  // Emission.

  method EmitField(s: Schema, m: Message, f: Field) returns (r: Result<FieldDesc, TableError>)
    ensures r.Ok? ==> Describes(s, m, f, r.value)
    ensures r.Err? <==> FieldTarget(s, f.typeName) == Unknown || (f.oneof.Some? && f.oneof.value !in m.oneofs)
  {
    var nested: Option<nat> := None;
    match FieldTarget(s, f.typeName) {
      case Terminal =>
      case Unknown =>
        return Err(UnknownFieldType(f.typeName));
      case Refers(t) =>
        nested := Position(s.messages, t);
        TargetHasPosition(s, f.typeName);
    }
    var oneof: Option<nat> := None;
    if f.oneof.Some? {
      oneof := OneofPosition(m.oneofs, f.oneof.value);
      if oneof.None? {
        return Err(NoOneofContext);
      }
    }
    return Ok(FieldDesc(f.number, f.repeated, nested, oneof));
  }

  lemma TargetHasPosition(s: Schema, typeName: string)
    requires FieldTarget(s, typeName).Refers?
    ensures Position(s.messages, FieldTarget(s, typeName).name).Some?
  {
    var t := FieldTarget(s, typeName).name;
    var m := Find(s.messages, t).value;
    var i :| 0 <= i < |s.messages| && s.messages[i] == m;
    assert s.messages[i].name == t;
  }

  /** A message whose every field can be described. */
  ghost predicate Emittable(s: Schema, m: Message) {
    forall f :: f in m.fields ==> FieldTarget(s, f.typeName) != Unknown && (f.oneof.Some? ==> f.oneof.value in m.oneofs)
  }

  method EmitMessage(s: Schema, m: Message) returns (r: Result<MessageDesc, TableError>)
    ensures r.Ok? ==> DescribesMessage(s, m, r.value)
    ensures r.Ok? <==> Emittable(s, m)
  {
    var fields := ByNumber(m.fields);
    ByNumberSorts(m.fields);
    var out := [];
    for k := 0 to |fields|
      invariant |out| == k
      invariant forall i :: 0 <= i < k ==> Describes(s, m, fields[i], out[i])
      invariant forall i :: 0 <= i < k ==>
        FieldTarget(s, fields[i].typeName) != Unknown && (fields[i].oneof.Some? ==> fields[i].oneof.value in m.oneofs)
    {
      var d := EmitField(s, m, fields[k]);
      if d.Err? {
        SameMembers(fields, m.fields, fields[k]);
        return Err(d.error);
      }
      out := out + [d.value];
    }
    forall f | f in m.fields
      ensures FieldTarget(s, f.typeName) != Unknown && (f.oneof.Some? ==> f.oneof.value in m.oneofs)
    {
      SameMembers(m.fields, fields, f);
      var i :| 0 <= i < |fields| && fields[i] == f;
    }
    return Ok(MessageDesc(m.name, out));
  }

  lemma SameMembers(a: seq<Field>, b: seq<Field>, f: Field)
    requires multiset(a) == multiset(b) && f in a
    ensures f in b
  {
    assert f in multiset(b);
  }

  lemma ByNumberSorts(fields: seq<Field>)
    ensures Sorted((a: Field, b: Field) => NumberBefore(a, b), ByNumber(fields))
    ensures multiset(ByNumber(fields)) == multiset(fields)
  {
    SortSorts((a: Field, b: Field) => NumberBefore(a, b), fields);
  }

  method EmitRequests(s: Schema) returns (r: Result<seq<(string, nat)>, TableError>)
    ensures r.Ok? ==> |r.value| == |s.rpcs| && forall j :: 0 <= j < |s.rpcs| ==> RequestRight(s, s.rpcs[j], r.value[j])
    ensures r.Ok? <==> forall j :: 0 <= j < |s.rpcs| ==> HasMessage(s, s.rpcs[j].1)
  {
    var out := [];
    for j := 0 to |s.rpcs|
      invariant |out| == j
      invariant forall i :: 0 <= i < j ==> RequestRight(s, s.rpcs[i], out[i]) && HasMessage(s, s.rpcs[i].1)
    {
      var index := Position(s.messages, s.rpcs[j].1);
      if index.None? {
        return Err(UnknownRequest(s.rpcs[j].1));
      }
      assert s.messages[index.value].name == s.rpcs[j].1;
      out := out + [(RequestPath(s, s.rpcs[j].0), index.value)];
    }
    return Ok(out);
  }

  /** The tables, or an error exactly when a request or a field has no type in the schema. */
  method EmitTables(s: Schema) returns (r: Result<Tables, TableError>)
    ensures r.Ok? ==> Faithful(s, r.value)
    ensures r.Ok? <==>
      && (forall j :: 0 <= j < |s.rpcs| ==> HasMessage(s, s.rpcs[j].1))
      && (forall i :: 0 <= i < |s.messages| ==> Emittable(s, s.messages[i]))
  {
    var requests := EmitRequests(s);
    if requests.Err? {
      return Err(requests.error);
    }
    var out := [];
    for i := 0 to |s.messages|
      invariant |out| == i
      invariant forall k :: 0 <= k < i ==> DescribesMessage(s, s.messages[k], out[k])
      invariant forall k :: 0 <= k < i ==> Emittable(s, s.messages[k])
    {
      var d := EmitMessage(s, s.messages[i]);
      if d.Err? {
        return Err(d.error);
      }
      out := out + [d.value];
    }
    return Ok(Tables(requests.value, out));
  }

  // What the decoder may rely on.

  /** Field numbers strictly ascend, and every declared field is described exactly once. */
  lemma NumbersAscend(s: Schema, m: Message, d: MessageDesc)
    requires DescribesMessage(s, m, d) && MessageOk(m)
    ensures forall i, j :: 0 <= i < j < |d.fields| ==> d.fields[i].number < d.fields[j].number
    ensures |d.fields| == |m.fields|
    ensures forall f :: f in m.fields ==> exists k :: 0 <= k < |d.fields| && Describes(s, m, f, d.fields[k])
  {
    var fs := ByNumber(m.fields);
    ByNumberSorts(m.fields);
    assert |fs| == |multiset(fs)| == |multiset(m.fields)| == |m.fields|;
    DistinctPermuted(m.fields, fs);
    forall i, j | 0 <= i < j < |fs|
      ensures d.fields[i].number < d.fields[j].number
    {
      assert !NumberBefore(fs[j], fs[i]);
    }
    forall f | f in m.fields
      ensures exists k :: 0 <= k < |d.fields| && Describes(s, m, f, d.fields[k])
    {
      SameMembers(m.fields, fs, f);
      var k :| 0 <= k < |fs| && fs[k] == f;
      assert Describes(s, m, f, d.fields[k]);
    }
  }

  lemma {:induction false} DistinctPermuted(a: seq<Field>, b: seq<Field>)
    requires multiset(a) == multiset(b)
    requires forall i, j :: 0 <= i < j < |a| ==> a[i].number != a[j].number
    ensures forall i, j :: 0 <= i < j < |b| ==> b[i].number != b[j].number
  {
    forall i, j | 0 <= i < j < |b|
      ensures b[i].number != b[j].number
    {
      if b[i].number == b[j].number {
        SameMembers(b, a, b[i]);
        SameMembers(b, a, b[j]);
        TwiceIn(b, i, j);
        OnceIn(a, b[i]);
        assert false;
      }
    }
  }

  lemma TwiceIn(b: seq<Field>, i: nat, j: nat)
    requires i < j < |b| && b[i] == b[j]
    ensures multiset(b)[b[i]] >= 2
  {
    assert b == b[..j] + b[j..];
    assert b[i] in b[..j] && b[j] in b[j..];
  }

  lemma {:induction false} OnceIn(a: seq<Field>, f: Field)
    requires forall i, j :: 0 <= i < j < |a| ==> a[i].number != a[j].number
    ensures multiset(a)[f] <= 1
  {
    if a != [] {
      var init, l := a[..|a| - 1], a[|a| - 1];
      OnceIn(init, f);
      assert a == init + [l];
      if f == l {
        assert f !in init;
      }
    }
  }

  /** Two fields carry the same oneof link exactly when they are declared in the same oneof. */
  lemma OneofLinksAgree(s: Schema, m: Message, f: Field, d: FieldDesc, f': Field, d': FieldDesc)
    requires MessageOk(m) && Describes(s, m, f, d) && Describes(s, m, f', d')
    ensures d.oneof == d'.oneof <==> f.oneof == f'.oneof
  {
  }

  /** The build's own check on a field's oneof never fails on a parsed schema. */
  lemma ParsedIsEmittable(s: Schema)
    requires MessagesOk(s) && WellTyped(s)
    ensures forall i :: 0 <= i < |s.messages| ==> Emittable(s, s.messages[i])
  {
    forall i | 0 <= i < |s.messages|
      ensures Emittable(s, s.messages[i])
    {
      var m := s.messages[i];
      assert MessageOk(m);
      forall f | f in m.fields
        ensures FieldTarget(s, f.typeName) != Unknown && (f.oneof.Some? ==> f.oneof.value in m.oneofs)
      {
        var j :| 0 <= j < |m.fields| && m.fields[j] == f;
        assert FieldTarget(s, s.messages[i].fields[j].typeName) != Unknown;
      }
    }
  }
}

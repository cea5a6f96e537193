/** The parsed protobuf schema and the message graph it spans. */
module WireSchema {
  import opened Wrappers
  import opened Graphs

  datatype Field = Field(typeName: string, name: string, number: nat, repeated: bool, oneof: Option<string>)

  datatype Message = Message(name: string, fields: seq<Field>, oneofs: seq<string>)

  datatype Schema = Schema(
    package: string, service: string, messages: seq<Message>, enums: seq<string>, rpcs: seq<(string, string)>)

  const COPY_SCALARS := [
    "double", "float", "int32", "int64", "uint32", "uint64", "sint32", "sint64", "fixed32",
    "fixed64", "sfixed32", "sfixed64", "bool"]

  /** The two scalar types that live on the heap. */
  const HEAP_SCALARS := ["string", "bytes"]

  predicate IsScalar(t: string) {
    t in COPY_SCALARS || t in HEAP_SCALARS
  }

  /** The part of a type name after its last dot. */
  function Short(t: string): string {
    if t == "" then "" else if t[|t| - 1] == '.' then "" else Short(t[..|t| - 1]) + [t[|t| - 1]]
  }

  predicate HasMessage(s: Schema, name: string) {
    exists i :: 0 <= i < |s.messages| && s.messages[i].name == name
  }

  /** The first message of a name. */
  function Find(messages: seq<Message>, name: string): (r: Option<Message>)
    ensures r.Some? ==> r.value in messages && r.value.name == name
    ensures r.None? ==> forall i :: 0 <= i < |messages| ==> messages[i].name != name
  {
    if messages == [] then None
    else if messages[0].name == name then Some(messages[0])
    else Find(messages[1..], name)
  }

  /** What a field's type name stands for. */
  datatype Target = Terminal | Refers(name: string) | Unknown

  function FieldTarget(s: Schema, typeName: string): Target {
    var short := Short(typeName);
    if IsScalar(short) || short in s.enums then Terminal
    else if Find(s.messages, short).Some? then Refers(short)
    else Unknown
  }

  ghost predicate WellTyped(s: Schema) {
    forall i, j :: 0 <= i < |s.messages| && 0 <= j < |s.messages[i].fields| ==>
      FieldTarget(s, s.messages[i].fields[j].typeName) != Unknown
  }

  /** Every non-repeated field has a known type. */
  ghost predicate RefsTyped(s: Schema) {
    forall i, j :: 0 <= i < |s.messages| && 0 <= j < |s.messages[i].fields| && !s.messages[i].fields[j].repeated ==>
      FieldTarget(s, s.messages[i].fields[j].typeName) != Unknown
  }

  lemma TypedField(s: Schema, m: string, f: Field)
    requires RefsTyped(s) && Find(s.messages, m).Some? && f in Find(s.messages, m).value.fields && !f.repeated
    ensures FieldTarget(s, f.typeName) != Unknown
  {
    var i :| 0 <= i < |s.messages| && s.messages[i] == Find(s.messages, m).value;
    var j :| 0 <= j < |s.messages[i].fields| && s.messages[i].fields[j] == f;
  }

  ghost predicate DistinctMessages(s: Schema) {
    forall i, j :: 0 <= i < j < |s.messages| ==> s.messages[i].name != s.messages[j].name
  }

  /** Targets of a field list, in order; `refsOnly` leaves the repeated ones out. */
  function Targets(s: Schema, fields: seq<Field>, refsOnly: bool): seq<string> {
    if fields == [] then []
    else
      var f := fields[|fields| - 1];
      var target := FieldTarget(s, f.typeName);
      Targets(s, fields[..|fields| - 1], refsOnly)
      + if target.Refers? && !(refsOnly && f.repeated) then [target.name] else []
  }

  /** Every message-typed field is an edge of the containment graph. */
  function Containment(s: Schema): Graph<string> {
    map n | n in MessageNames(s) && Find(s.messages, n).Some? :: Targets(s, Find(s.messages, n).value.fields, false)
  }

  /** Only the fields held in line or by reference, not those in a vector, are edges of the reference graph. */
  function References(s: Schema): Graph<string> {
    map n | n in MessageNames(s) && Find(s.messages, n).Some? :: Targets(s, Find(s.messages, n).value.fields, true)
  }

  function MessageNames(s: Schema): set<string> {
    set m | m in s.messages :: m.name
  }

  /** A field of message `m` that refers to message `t`. */
  ghost predicate FieldEdge(s: Schema, m: string, f: Field, t: string) {
    Find(s.messages, m).Some? && f in Find(s.messages, m).value.fields && FieldTarget(s, f.typeName) == Refers(t)
  }

  lemma {:induction false} TargetsHas(s: Schema, fields: seq<Field>, refsOnly: bool, t: string)
    ensures t in Targets(s, fields, refsOnly) <==>
      exists f :: f in fields && !(refsOnly && f.repeated) && FieldTarget(s, f.typeName) == Refers(t)
  {
    if fields != [] {
      var init, f := fields[..|fields| - 1], fields[|fields| - 1];
      TargetsHas(s, init, refsOnly, t);
      assert fields == init + [f];
    }
  }

  lemma ReferenceEdge(s: Schema, m: string, t: string)
    ensures Edge(References(s), m, t) <==> exists f :: FieldEdge(s, m, f, t) && !f.repeated
  {
    if Find(s.messages, m).Some? {
      assert m in MessageNames(s);
      var fields := Find(s.messages, m).value.fields;
      TargetsHas(s, fields, true, t);
      if t in Targets(s, fields, true) {
        var f :| f in fields && !(true && f.repeated) && FieldTarget(s, f.typeName) == Refers(t);
        assert FieldEdge(s, m, f, t);
      }
    }
  }

  lemma ContainmentEdge(s: Schema, m: string, t: string)
    ensures Edge(Containment(s), m, t) <==> exists f :: FieldEdge(s, m, f, t)
  {
    if Find(s.messages, m).Some? {
      assert m in MessageNames(s);
      var fields := Find(s.messages, m).value.fields;
      TargetsHas(s, fields, false, t);
      if t in Targets(s, fields, false) {
        var f :| f in fields && !(false && f.repeated) && FieldTarget(s, f.typeName) == Refers(t);
        assert FieldEdge(s, m, f, t);
      }
    }
  }

  lemma {:induction false} FindFirst(messages: seq<Message>, i: nat)
    requires i < |messages| && forall j :: 0 <= j < i ==> messages[j].name != messages[i].name
    ensures Find(messages, messages[i].name) == Some(messages[i])
    decreases i
  {
    if i > 0 {
      assert messages[1..][i - 1] == messages[i];
      FindFirst(messages[1..], i - 1);
    }
  }

  lemma FindDistinct(s: Schema, i: nat)
    requires DistinctMessages(s) && i < |s.messages|
    ensures Find(s.messages, s.messages[i].name) == Some(s.messages[i])
  {
    FindFirst(s.messages, i);
  }

  // The reference graph as the build makes it.

  /** The messages of `ms` with the targets of their non-repeated fields. */
  function EdgesOf(s: Schema, ms: seq<Message>): Graph<string> {
    if ms == [] then map[]
    else EdgesOf(s, ms[..|ms| - 1])[ms[|ms| - 1].name := Targets(s, ms[|ms| - 1].fields, true)]
  }

  /** Message `i` is the last of its name among the first `n`. */
  ghost predicate LastNamed(s: Schema, n: nat, i: nat) {
    i < n <= |s.messages| && forall j :: i < j < n ==> s.messages[j].name != s.messages[i].name
  }

  lemma {:induction false} EdgesOfAt(s: Schema, n: nat, i: nat)
    requires LastNamed(s, n, i)
    ensures var g, m := EdgesOf(s, s.messages[..n]), s.messages[i]; m.name in g && g[m.name] == Targets(s, m.fields, true)
  {
    assert s.messages[..n][..n - 1] == s.messages[..n - 1];
    if i < n - 1 {
      EdgesOfAt(s, n - 1, i);
    }
  }

  lemma {:induction false} EdgesOfOnly(s: Schema, n: nat, name: string)
    requires n <= |s.messages|
    ensures name in EdgesOf(s, s.messages[..n]) ==> exists i :: 0 <= i < n && s.messages[i].name == name
  {
    if n > 0 {
      EdgesOfOnly(s, n - 1, name);
      assert s.messages[..n][..n - 1] == s.messages[..n - 1];
    }
  }

  lemma EdgesAreReferences(s: Schema)
    requires DistinctMessages(s)
    ensures EdgesOf(s, s.messages) == References(s)
  {
    var g, h := EdgesOf(s, s.messages), References(s);
    assert s.messages[..|s.messages|] == s.messages;
    forall name
      ensures name in g.Keys <==> name in h.Keys
    {
      EdgeByName(s, name);
    }
    assert g.Keys == h.Keys;
    forall name | name in g.Keys
      ensures g[name] == h[name]
    {
      EdgeByName(s, name);
    }
  }

  lemma EdgeByName(s: Schema, name: string)
    requires DistinctMessages(s)
    ensures var g, h := EdgesOf(s, s.messages[..|s.messages|]), References(s);
      (name in g <==> name in h) && (name in g ==> g[name] == h[name])
  {
    EdgesOfOnly(s, |s.messages|, name);
    if i: nat :| i < |s.messages| && s.messages[i].name == name {
      EdgesOfAt(s, |s.messages|, i);
      FindDistinct(s, i);
      assert s.messages[i] in s.messages && name in MessageNames(s);
    }
  }

  /** The targets of one message's fields; a field of unknown type stops the build. */
  method RefTargets(s: Schema, fields: seq<Field>) returns (r: Option<seq<string>>)
    ensures r.Some? <==> forall j :: 0 <= j < |fields| && !fields[j].repeated ==> FieldTarget(s, fields[j].typeName) != Unknown
    ensures r.Some? ==> r.value == Targets(s, fields, true)
  {
    var targets := [];
    for j := 0 to |fields|
      invariant forall k :: 0 <= k < j && !fields[k].repeated ==> FieldTarget(s, fields[k].typeName) != Unknown
      invariant targets == Targets(s, fields[..j], true)
    {
      assert fields[..j + 1][..j] == fields[..j];
      if fields[j].repeated {
        continue;
      }
      match FieldTarget(s, fields[j].typeName) {
        case Terminal =>
        case Unknown =>
          return None;
        case Refers(t) =>
          targets := targets + [t];
      }
    }
    assert fields[..|fields|] == fields;
    return Some(targets);
  }

  method MessageRefEdges(s: Schema) returns (r: Option<Graph<string>>)
    ensures r.Some? <==> RefsTyped(s)
    ensures r.Some? ==> r.value == EdgesOf(s, s.messages) && (DistinctMessages(s) ==> r.value == References(s))
  {
    var edges: Graph<string> := map[];
    for i := 0 to |s.messages|
      invariant forall k, j :: 0 <= k < i && 0 <= j < |s.messages[k].fields| && !s.messages[k].fields[j].repeated ==>
        FieldTarget(s, s.messages[k].fields[j].typeName) != Unknown
      invariant edges == EdgesOf(s, s.messages[..i])
    {
      assert s.messages[..i + 1][..i] == s.messages[..i];
      var targets := RefTargets(s, s.messages[i].fields);
      if targets.None? {
        return None;
      }
      edges := edges[s.messages[i].name := targets.value];
    }
    assert s.messages[..|s.messages|] == s.messages;
    if DistinctMessages(s) {
      EdgesAreReferences(s);
    }
    return Some(edges);
  }

  /** On any schema, the graph has the edges of the last message of each name and no other. */
  lemma EdgesByLastName(s: Schema)
    ensures EdgesOf(s, s.messages).Keys == MessageNames(s)
    ensures forall i: nat :: LastNamed(s, |s.messages|, i) ==>
              EdgesOf(s, s.messages)[s.messages[i].name] == Targets(s, s.messages[i].fields, true)
  {
    assert s.messages[..|s.messages|] == s.messages;
    forall i: nat | LastNamed(s, |s.messages|, i)
      ensures s.messages[i].name in EdgesOf(s, s.messages)
      ensures EdgesOf(s, s.messages)[s.messages[i].name] == Targets(s, s.messages[i].fields, true)
    {
      EdgesOfAt(s, |s.messages|, i);
    }
    forall n
      ensures n in EdgesOf(s, s.messages) <==> n in MessageNames(s)
    {
      EdgesOfOnly(s, |s.messages|, n);
      if m :| m in s.messages && m.name == n {
        var i := LastOf(s, |s.messages|, n);
      }
    }
  }

  lemma {:induction false} LastOf(s: Schema, n: nat, name: string) returns (i: nat)
    requires n <= |s.messages| && exists j :: 0 <= j < n && s.messages[j].name == name
    ensures LastNamed(s, n, i) && s.messages[i].name == name
  {
    i := n - 1;
    if s.messages[i].name != name {
      i := LastOf(s, n - 1, name);
    }
  }
}

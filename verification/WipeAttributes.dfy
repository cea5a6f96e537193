/** The derives and field attributes the build attaches to wiped messages. */
module WipeAttributes {
  import opened Wrappers
  import opened Graphs
  import opened WireSchema
  import opened WipeClosure
  import opened CopyMirror

  datatype Attr = ZeroizeOnly | ZeroizePair

  ghost function MessageAttr(s: Schema, m: string): Attr {
    if CopyFree(s, References(s), m) then ZeroizeOnly else ZeroizePair
  }

  ghost predicate OneofFree(s: Schema, parent: string, oneof: string) {
    && Find(s.messages, parent).Some?
    && forall f :: f in Find(s.messages, parent).value.fields && f.oneof == Some(oneof) ==> FieldFree(s, References(s), parent, f)
  }

  ghost function OneofAttr(s: Schema, parent: string, oneof: string): Attr {
    if OneofFree(s, parent, oneof) then ZeroizeOnly else ZeroizePair
  }

  method AttrForMessage(s: Schema, m: string) returns (a: Attr)
    requires RefsTyped(s) && Find(s.messages, m).Some?
    ensures a == MessageAttr(s, m)
  {
    var free := MessageCanCopy(s, References(s), m);
    return if free then ZeroizeOnly else ZeroizePair;
  }

  method AttrForOneof(s: Schema, parent: string, oneof: string) returns (a: Attr)
    requires RefsTyped(s) && Find(s.messages, parent).Some?
    ensures a == OneofAttr(s, parent, oneof)
  {
    var members := Members(Find(s.messages, parent).value.fields, oneof);
    MembersHas(Find(s.messages, parent).value.fields, oneof);
    var free := FieldsCanCopy(s, References(s), parent, members);
    return if free then ZeroizeOnly else ZeroizePair;
  }

  function Members(fields: seq<Field>, oneof: string): seq<Field> {
    if fields == [] then []
    else Members(fields[..|fields| - 1], oneof) + if fields[|fields| - 1].oneof == Some(oneof) then [fields[|fields| - 1]] else []
  }

  lemma {:induction false} MembersHas(fields: seq<Field>, oneof: string)
    ensures forall f :: f in Members(fields, oneof) <==> f in fields && f.oneof == Some(oneof)
  {
    if fields != [] {
      MembersHas(fields[..|fields| - 1], oneof);
      assert fields == fields[..|fields| - 1] + [fields[|fields| - 1]];
    }
  }

  /** A set of messages that holds everything its members hold. */
  ghost predicate Sealed(s: Schema, zeroized: set<string>) {
    && (forall n :: n in zeroized ==> Find(s.messages, n).Some?)
    && Closed(Containment(s), zeroized)
  }

  /** What `Closure` returns is such a set. */
  lemma ClosureIsSealed(s: Schema, owners: seq<string>, zeroized: set<string>)
    requires DistinctMessages(s) && forall n :: n in zeroized <==> Held(s, owners, n)
    requires forall n :: Held(s, owners, n) ==> !Broken(s, n)
    ensures Sealed(s, zeroized)
  {
    ContentsAreContainment(s);
    forall a, b | a in zeroized && Edge(Containment(s), a, b)
      ensures b in zeroized
    {
      var o :| o in owners && Reaches(Contents(s), o, a);
      ReachesEdge(Contents(s), o, a, b);
    }
    forall n | n in zeroized
      ensures Find(s.messages, n).Some?
    {
      LastIsFirst(s, n);
    }
  }

  /** A field the generator boxes in an option: its target leads back to the message that holds it. */
  ghost predicate Boxed(s: Schema, m: string, f: Field) {
    && f.oneof.None? && !f.repeated
    && exists t :: FieldEdge(s, m, f, t) && Reaches(References(s), t, m)
  }

  /** A boxed field's target is wiped by its own drop: it is in the closure and derives the pair. */
  lemma BoxedTargetHasPair(s: Schema, zeroized: set<string>, m: string, f: Field, t: string)
    requires Sealed(s, zeroized) && m in zeroized
    requires FieldEdge(s, m, f, t) && !f.repeated && Reaches(References(s), t, m)
    ensures t in zeroized && MessageAttr(s, t) == ZeroizePair
  {
    var g := References(s);
    ContainmentEdge(s, m, t);
    FieldIsEdge(s, m, f, t);
    CycleFromEdge(g, m, t);
    ReachesSelf(g, t);
    assert !CopyFree(s, g, t);
  }

  lemma CycleFromEdge(g: Graph<string>, m: string, t: string)
    requires Edge(g, m, t) && Reaches(g, t, m)
    ensures OnCycle(g, t)
  {
    if t == m {
      ReachesSelf(g, m);
    } else {
      var n := FirstEdge(g, t, m);
      ReachesEdge(g, n, m, t);
    }
  }

  /** The names of a message's boxed fields. */
  ghost function SkipNames(s: Schema, m: string): set<string> {
    if Find(s.messages, m).None? then {}
    else set f | f in Find(s.messages, m).value.fields && Boxed(s, m, f) :: f.name
  }

  datatype SkipError = SkipsWithoutPair(message: string, field: string)

  /** One field of the loop: whether it is boxed, and the build's own check if it is. */
  method SkipField(s: Schema, g: Graph<string>, zeroized: set<string>, m: Message, f: Field) returns (r: Result<bool, SkipError>)
    requires RefsTyped(s) && g == References(s) && Sealed(s, zeroized)
    requires m.name in zeroized && Find(s.messages, m.name) == Some(m) && f in m.fields
    ensures r.Ok? && r.value == Boxed(s, m.name, f)
  {
    var boxed := IsBoxed(s, g, m, f);
    if boxed {
      var t := FieldTarget(s, f.typeName).name;
      BoxedTargetHasPair(s, zeroized, m.name, f, t);
      var attr := AttrForMessage(s, t);
      if t !in zeroized || attr != ZeroizePair {
        return Err(SkipsWithoutPair(m.name, f.name));
      }
    }
    return Ok(boxed);
  }

  method SkipFields(s: Schema, g: Graph<string>, zeroized: set<string>, m: Message) returns (out: set<string>)
    requires RefsTyped(s) && g == References(s) && Sealed(s, zeroized)
    requires m.name in zeroized && Find(s.messages, m.name) == Some(m)
    ensures out == SkipNames(s, m.name)
  {
    out := {};
    for i := 0 to |m.fields|
      invariant out == BoxedNames(s, m.name, m.fields[..i])
    {
      assert m.fields[..i + 1][..i] == m.fields[..i];
      var skip := SkipField(s, g, zeroized, m, m.fields[i]);
      if skip.value {
        out := out + {m.fields[i].name};
      }
    }
    assert m.fields[..|m.fields|] == m.fields;
    BoxedNamesHas(s, m.name, m.fields);
  }

  ghost function BoxedNames(s: Schema, m: string, fields: seq<Field>): set<string> {
    if fields == [] then {}
    else
      var f := fields[|fields| - 1];
      BoxedNames(s, m, fields[..|fields| - 1]) + if Boxed(s, m, f) then {f.name} else {}
  }

  lemma {:induction false} BoxedNamesHas(s: Schema, m: string, fields: seq<Field>)
    ensures BoxedNames(s, m, fields) == set f | f in fields && Boxed(s, m, f) :: f.name
  {
    if fields != [] {
      BoxedNamesHas(s, m, fields[..|fields| - 1]);
      assert fields == fields[..|fields| - 1] + [fields[|fields| - 1]];
    }
  }

  method IsBoxed(s: Schema, g: Graph<string>, m: Message, f: Field) returns (b: bool)
    requires g == References(s) && Find(s.messages, m.name) == Some(m) && f in m.fields
    ensures b <==> Boxed(s, m.name, f)
    ensures b ==> FieldTarget(s, f.typeName).Refers?
  {
    if f.oneof.Some? || f.repeated {
      return false;
    }
    var target := FieldTarget(s, f.typeName);
    if !target.Refers? {
      return false;
    }
    b := HasPath(g, target.name, m.name);
    assert FieldEdge(s, m.name, f, target.name);
  }

  /** The boxed field names of those of `ms` that are wiped. */
  ghost function SkipMap(s: Schema, zeroized: set<string>, ms: seq<Message>): map<string, set<string>> {
    if ms == [] then map[]
    else
      var m := ms[|ms| - 1].name;
      var before := SkipMap(s, zeroized, ms[..|ms| - 1]);
      if m in zeroized then before[m := SkipNames(s, m)] else before
  }

  lemma {:induction false} SkipMapHas(s: Schema, zeroized: set<string>, ms: seq<Message>, m: string)
    ensures var sm := SkipMap(s, zeroized, ms);
      && (m in sm <==> m in zeroized && exists i :: 0 <= i < |ms| && ms[i].name == m)
      && (m in sm ==> sm[m] == SkipNames(s, m))
  {
    if ms != [] {
      SkipMapHas(s, zeroized, ms[..|ms| - 1], m);
      assert ms == ms[..|ms| - 1] + [ms[|ms| - 1]];
    }
  }

  lemma SkipMapWhole(s: Schema, zeroized: set<string>)
    requires forall n :: n in zeroized ==> Find(s.messages, n).Some?
    ensures var sm := SkipMap(s, zeroized, s.messages); sm.Keys == zeroized && forall m :: m in sm ==> sm[m] == SkipNames(s, m)
  {
    var sm := SkipMap(s, zeroized, s.messages);
    forall m
      ensures m in sm <==> m in zeroized
      ensures m in sm ==> sm[m] == SkipNames(s, m)
    {
      SkipMapHas(s, zeroized, s.messages, m);
      if m in zeroized {
        var j :| 0 <= j < |s.messages| && s.messages[j] == Find(s.messages, m).value;
      }
    }
  }

  /**
   The skip loop over the whole schema: it marks exactly the boxed fields of wiped messages, and its own
   check, that a skipped target has the pair, never fails.
   */
  method SkipLoop(s: Schema, zeroized: set<string>) returns (r: Result<map<string, set<string>>, SkipError>)
    requires RefsTyped(s) && DistinctMessages(s) && Sealed(s, zeroized)
    ensures r.Ok? && r.value == SkipMap(s, zeroized, s.messages)
  {
    var edges := MessageRefEdges(s);
    var g := edges.value;
    var out: map<string, set<string>> := map[];
    for i := 0 to |s.messages|
      invariant out == SkipMap(s, zeroized, s.messages[..i])
    {
      assert s.messages[..i + 1][..i] == s.messages[..i];
      var m := s.messages[i];
      if m.name in zeroized {
        FindDistinct(s, i);
        var skipped := SkipFields(s, g, zeroized, m);
        out := out[m.name := skipped];
      }
    }
    assert s.messages[..|s.messages|] == s.messages;
    return Ok(out);
  }
}

/** Which messages the code generator will derive `Copy` for. */
module CopyMirror {
  import opened Graphs
  import opened WireSchema

  /** A field stored on the heap: any vector, any string, any byte buffer. */
  predicate OnHeap(s: Schema, f: Field) {
    f.repeated || (Short(f.typeName) in HEAP_SCALARS && Short(f.typeName) !in s.enums)
  }

  ghost predicate Plain(s: Schema, n: string) {
    Find(s.messages, n).Some? && forall f :: f in Find(s.messages, n).value.fields ==> !OnHeap(s, f)
  }

  /** Nothing a value refers to, at any depth, is on the heap or leads back to itself. */
  ghost predicate CopyFree(s: Schema, g: Graph<string>, n: string) {
    forall k :: Reaches(g, n, k) ==> Plain(s, k) && !OnCycle(g, k)
  }

  /** One field of `container` stands in the way of nothing. */
  ghost predicate FieldFree(s: Schema, g: Graph<string>, container: string, f: Field) {
    && !OnHeap(s, f)
    && match FieldTarget(s, f.typeName)
       case Refers(t) => !Reaches(g, t, container) && CopyFree(s, g, t)
       case _ => true
  }

  lemma FieldIsEdge(s: Schema, m: string, f: Field, t: string)
    requires FieldEdge(s, m, f, t) && !f.repeated
    ensures Edge(References(s), m, t)
  {
    ReferenceEdge(s, m, t);
  }

  lemma CopyFreeBelow(s: Schema, g: Graph<string>, m: string, t: string)
    requires CopyFree(s, g, m) && Reaches(g, m, t)
    ensures CopyFree(s, g, t)
  {
    forall k | Reaches(g, t, k)
      ensures Plain(s, k) && !OnCycle(g, k)
    {
      ReachesTransitive(g, m, t, k);
    }
  }

  /** A message is free exactly when each of its fields is. */
  lemma FreeFieldByField(s: Schema, g: Graph<string>, m: string)
    requires g == References(s) && Find(s.messages, m).Some?
    ensures CopyFree(s, g, m) <==> forall f :: f in Find(s.messages, m).value.fields ==> FieldFree(s, g, m, f)
  {
    if CopyFree(s, g, m) {
      forall f | f in Find(s.messages, m).value.fields
        ensures FieldFree(s, g, m, f)
      {
        FreeMessageFreeField(s, g, m, f);
      }
    }
    if forall f :: f in Find(s.messages, m).value.fields ==> FieldFree(s, g, m, f) {
      FreeFieldsFreeMessage(s, g, m);
    }
  }

  lemma FreeMessageFreeField(s: Schema, g: Graph<string>, m: string, f: Field)
    requires g == References(s) && CopyFree(s, g, m) && Find(s.messages, m).Some? && f in Find(s.messages, m).value.fields
    ensures FieldFree(s, g, m, f)
  {
    ReachesSelf(g, m);
    assert Plain(s, m);
    var target := FieldTarget(s, f.typeName);
    if target.Refers? {
      var t := target.name;
      FieldIsEdge(s, m, f, t);
      ReachesEdge(g, m, m, t);
      CopyFreeBelow(s, g, m, t);
      assert Reaches(g, t, m) ==> OnCycle(g, m);
    }
  }

  lemma FreeFieldsFreeMessage(s: Schema, g: Graph<string>, m: string)
    requires g == References(s) && Find(s.messages, m).Some?
    requires forall f :: f in Find(s.messages, m).value.fields ==> FieldFree(s, g, m, f)
    ensures CopyFree(s, g, m)
  {
    forall k | Reaches(g, m, k)
      ensures Plain(s, k) && !OnCycle(g, k)
    {
      if k == m {
        if OnCycle(g, m) {
          var t :| Edge(g, m, t) && Reaches(g, t, m);
          EdgeIsFree(s, g, m, t);
          assert false;
        }
      } else {
        var t := FirstEdge(g, m, k);
        EdgeIsFree(s, g, m, t);
      }
    }
  }

  lemma EdgeIsFree(s: Schema, g: Graph<string>, m: string, t: string)
    requires g == References(s) && Find(s.messages, m).Some? && Edge(g, m, t)
    requires forall f :: f in Find(s.messages, m).value.fields ==> FieldFree(s, g, m, f)
    ensures !Reaches(g, t, m) && CopyFree(s, g, t)
  {
    ReferenceEdge(s, m, t);
    var f :| FieldEdge(s, m, f, t) && !f.repeated;
    assert FieldFree(s, g, m, f);
  }

  /**
   The mirror of the generator's rule, as the build computes it: field by field, following a reference
   only when its target does not lead back; a repeated field is never looked up. It ends on every schema,
   cyclic or not, because each step leaves fewer messages to reach.
   */
  method MessageCanCopy(s: Schema, g: Graph<string>, name: string) returns (b: bool)
    requires RefsTyped(s) && g == References(s) && Find(s.messages, name).Some?
    ensures b <==> CopyFree(s, g, name)
    decreases |Reach(g, name)|, 2
  {
    b := FieldsCanCopy(s, g, name, Find(s.messages, name).value.fields);
    FreeFieldByField(s, g, name);
  }

  method FieldsCanCopy(s: Schema, g: Graph<string>, container: string, fields: seq<Field>) returns (b: bool)
    requires RefsTyped(s) && g == References(s) && Find(s.messages, container).Some?
    requires forall f :: f in fields ==> f in Find(s.messages, container).value.fields
    ensures b <==> forall f :: f in fields ==> FieldFree(s, g, container, f)
    decreases |Reach(g, container)|, 1
  {
    for i := 0 to |fields|
      invariant forall j :: 0 <= j < i ==> FieldFree(s, g, container, fields[j])
    {
      b := FieldCanCopy(s, g, container, fields[i]);
      if !b {
        return false;
      }
    }
    return true;
  }

  method FieldCanCopy(s: Schema, g: Graph<string>, container: string, f: Field) returns (b: bool)
    requires RefsTyped(s) && g == References(s)
    requires Find(s.messages, container).Some? && f in Find(s.messages, container).value.fields
    ensures b <==> FieldFree(s, g, container, f)
    decreases |Reach(g, container)|, 0
  {
    if f.repeated {
      return false;
    }
    var short := Short(f.typeName);
    if short in COPY_SCALARS || short in s.enums {
      if short in COPY_SCALARS {
        ScalarsDisjoint(short);
      }
      return true;
    }
    TypedField(s, container, f);
    match FieldTarget(s, f.typeName) {
      case Refers(t) =>
        FieldIsEdge(s, container, f, t);
        var back := HasPath(g, t, container);
        if back {
          return false;
        }
        ReachShrinks(g, container, t);
        b := MessageCanCopy(s, g, t);
      case _ =>
        return false;
    }
  }

  lemma ScalarsDisjoint(t: string)
    requires t in COPY_SCALARS
    ensures t !in HEAP_SCALARS
  {
  }
}

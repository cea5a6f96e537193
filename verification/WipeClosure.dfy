/** Which messages are wiped: the classified ones and everything they can hold. */
module WipeClosure {
  import opened Wrappers
  import opened Graphs
  import opened WireSchema

  datatype BuildError = UnknownOwner(name: string) | UnknownType(typeName: string)

  /** The last message of a name, which is the one a map by name keeps. */
  function FindLast(messages: seq<Message>, name: string): (r: Option<Message>)
    ensures r.Some? ==> r.value in messages && r.value.name == name
    ensures r.None? ==> forall i :: 0 <= i < |messages| ==> messages[i].name != name
  {
    if messages == [] then None
    else if messages[|messages| - 1].name == name then Some(messages[|messages| - 1])
    else FindLast(messages[..|messages| - 1], name)
  }

  /** What the build holds to be inside what: every message-typed field of the last message of a name. */
  function Contents(s: Schema): Graph<string> {
    map n | n in MessageNames(s) && FindLast(s.messages, n).Some? :: Targets(s, FindLast(s.messages, n).value.fields, false)
  }

  /** A message some classified message can hold, at any depth. */
  ghost predicate Held(s: Schema, owners: seq<string>, n: string) {
    FromAny(Contents(s), owners, n)
  }

  /** A name the build cannot process. */
  ghost predicate Broken(s: Schema, n: string) {
    || FindLast(s.messages, n).None?
    || exists f :: f in FindLast(s.messages, n).value.fields && FieldTarget(s, f.typeName) == Unknown
  }

  /** With distinct names it does not matter which message of a name is taken. */
  lemma LastIsFirst(s: Schema, n: string)
    requires DistinctMessages(s)
    ensures FindLast(s.messages, n) == Find(s.messages, n)
  {
    if FindLast(s.messages, n).Some? {
      var i :| 0 <= i < |s.messages| && s.messages[i] == FindLast(s.messages, n).value;
      FindDistinct(s, i);
    }
  }

  lemma ContentsAreContainment(s: Schema)
    requires DistinctMessages(s)
    ensures Contents(s) == Containment(s)
  {
    forall n
      ensures FindLast(s.messages, n) == Find(s.messages, n)
    {
      LastIsFirst(s, n);
    }
  }

  /** Push the targets of one message's fields that are not in the closure yet. */
  method PushTargets(s: Schema, fields: seq<Field>, closure: set<string>, stack: seq<string>)
    returns (r: Result<seq<string>, BuildError>)
    ensures r.Err? <==> exists f :: f in fields && FieldTarget(s, f.typeName) == Unknown
    ensures r.Ok? ==>
      forall n :: n in r.value <==>
        n in stack || (n !in closure && exists f :: f in fields && FieldTarget(s, f.typeName) == Refers(n))
  {
    var out := stack;
    for i := 0 to |fields|
      invariant forall f :: f in fields[..i] ==> FieldTarget(s, f.typeName) != Unknown
      invariant forall n :: n in out <==>
        n in stack || (n !in closure && exists f :: f in fields[..i] && FieldTarget(s, f.typeName) == Refers(n))
    {
      assert fields[..i + 1] == fields[..i] + [fields[i]];
      match FieldTarget(s, fields[i].typeName) {
        case Terminal =>
        case Unknown =>
          return Err(UnknownType(fields[i].typeName));
        case Refers(t) =>
          if t !in closure {
            out := out + [t];
          }
      }
    }
    assert fields[..|fields|] == fields;
    return Ok(out);
  }

  /** Take one new name: check it and push what it holds. */
  method Take(s: Schema, ghost owners: seq<string>, closure: set<string>, stack: seq<string>)
    returns (r: Result<seq<string>, BuildError>)
    requires stack != [] && Progress(Contents(s), owners, closure, stack)
    ensures r.Ok? ==> Progress(Contents(s), owners, closure + {stack[|stack| - 1]}, r.value)
    ensures r.Err? <==> Broken(s, stack[|stack| - 1])
  {
    var name := stack[|stack| - 1];
    var message := FindLast(s.messages, name);
    if message.None? {
      return Err(UnknownOwner(name));
    }
    r := PushTargets(s, message.value.fields, closure + {name}, stack[..|stack| - 1]);
    if r.Ok? {
      PushedEdges(s, name, message.value);
      ProgressTakes(Contents(s), owners, closure, stack, r.value);
    }
  }

  lemma PushedEdges(s: Schema, name: string, m: Message)
    requires FindLast(s.messages, name) == Some(m)
    ensures forall t :: Edge(Contents(s), name, t) <==> exists f :: f in m.fields && FieldTarget(s, f.typeName) == Refers(t)
  {
    assert name in MessageNames(s);
    forall t
      ensures Edge(Contents(s), name, t) <==> exists f :: f in m.fields && FieldTarget(s, f.typeName) == Refers(t)
    {
      TargetsHas(s, m.fields, false, t);
      if t in Targets(s, m.fields, false) {
        var f :| f in m.fields && !(false && f.repeated) && FieldTarget(s, f.typeName) == Refers(t);
      }
    }
  }

  /**
   The wipe closure by worklist. It is exactly what the owners can hold; the build fails exactly when
   something they can hold is not a message or has a field of unknown type.
   */
  method Closure(s: Schema, owners: seq<string>) returns (r: Result<set<string>, BuildError>)
    ensures r.Ok? ==> forall n :: n in r.value <==> Held(s, owners, n)
    ensures r.Err? <==> exists n :: Held(s, owners, n) && Broken(s, n)
  {
    ghost var g := Contents(s);
    var closure: set<string> := {};
    var stack := owners;
    ProgressStarts(g, owners);
    while stack != []
      invariant Progress(g, owners, closure, stack)
      invariant forall n :: n in closure ==> !Broken(s, n)
      decreases |Space(g, owners) - closure|, |stack|
    {
      var name := stack[|stack| - 1];
      if name in closure {
        ProgressSkips(g, owners, closure, stack);
        stack := stack[..|stack| - 1];
        continue;
      }
      SpaceShrinks(g, owners, closure, stack);
      var pushed := Take(s, owners, closure, stack);
      if pushed.Err? {
        assert name in stack && Held(s, owners, name);
        return Err(pushed.error);
      }
      closure, stack := closure + {name}, pushed.value;
    }
    ProgressEnds(g, owners, closure);
    return Ok(closure);
  }
}

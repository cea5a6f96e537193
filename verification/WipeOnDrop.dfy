/**
 What happens to the memory of a decoded message when it is dropped, given the derives and attributes
 the build attached to its type.
 */
module WipeOnDrop {
  import opened Wrappers
  import opened Graphs
  import opened WireSchema
  import opened WipeClosure
  import opened CopyMirror
  import opened WipeAttributes

  /** A message value: absent fields have no slot, and a oneof has a slot for the member that is set. */
  datatype Value = Scalar | Buffer(bytes: seq<nat>) | Vector(items: seq<Value>) | Struct(name: string, slots: seq<Slot>)
  datatype Slot = Slot(field: Field, value: Value)

  /** What the build attached: derives of messages and of oneofs, and skipped fields. */
  datatype Emission = Emission(
    pairs: set<string>, oneofPairs: set<(string, string)>, skips: map<string, set<string>>)

  predicate Skips(e: Emission, m: string, f: Field) {
    m in e.skips && f.name in e.skips[m]
  }

  function Max(a: nat, b: nat): nat {
    if a < b then b else a
  }

  function Height(v: Value): nat
    decreases v
  {
    match v
    case Vector(items) => 1 + ItemsHeight(items)
    case Struct(_, slots) => 1 + SlotsHeight(slots)
    case _ => 0
  }

  function ItemsHeight(items: seq<Value>): nat
    decreases items
  {
    if items == [] then 0 else Max(Height(items[0]), ItemsHeight(items[1..]))
  }

  function SlotsHeight(slots: seq<Slot>): nat
    decreases slots
  {
    if slots == [] then 0 else Max(SlotHeight(slots[0]), SlotsHeight(slots[1..]))
  }

  function SlotHeight(slot: Slot): nat
    decreases slot
  {
    Height(slot.value)
  }

  lemma {:induction false} ItemLower(items: seq<Value>, i: nat)
    requires i < |items|
    ensures Height(items[i]) <= ItemsHeight(items)
  {
    if i > 0 {
      ItemLower(items[1..], i - 1);
    }
  }

  lemma {:induction false} SlotLower(slots: seq<Slot>, i: nat)
    requires i < |slots|
    ensures Height(slots[i].value) <= SlotsHeight(slots)
  {
    if i > 0 {
      SlotLower(slots[1..], i - 1);
    }
  }

  /** The derived `zeroize`: every buffer is overwritten, except under a skipped field. */
  function Zeroize(e: Emission, v: Value): Value
    decreases v
  {
    match v
    case Scalar => Scalar
    case Buffer(bytes) => Buffer(seq(|bytes|, _ => 0))
    case Vector(items) => Vector(seq(|items|, i requires 0 <= i < |items| => Zeroize(e, items[i])))
    case Struct(m, slots) =>
      Struct(m, seq(|slots|, i requires 0 <= i < |slots| =>
        if Skips(e, m, slots[i].field) then slots[i] else Slot(slots[i].field, Zeroize(e, slots[i].value))))
  }

  lemma {:induction false} ZeroizeKeepsHeight(e: Emission, v: Value)
    ensures Height(Zeroize(e, v)) == Height(v)
    decreases v
  {
    match v
    case Vector(items) =>
      ItemsKeepHeight(e, items, Zeroize(e, v).items);
    case Struct(m, slots) =>
      SlotsKeepHeight(e, slots, Zeroize(e, v).slots);
    case _ =>
  }

  lemma {:induction false} ItemsKeepHeight(e: Emission, a: seq<Value>, b: seq<Value>)
    requires |a| == |b| && forall i :: 0 <= i < |a| ==> b[i] == Zeroize(e, a[i])
    ensures ItemsHeight(a) == ItemsHeight(b)
    decreases a
  {
    if a != [] {
      ZeroizeKeepsHeight(e, a[0]);
      ItemsKeepHeight(e, a[1..], b[1..]);
    }
  }

  lemma {:induction false} SlotsKeepHeight(e: Emission, a: seq<Slot>, b: seq<Slot>)
    requires |a| == |b|
    requires forall i :: 0 <= i < |a| ==> b[i].value == a[i].value || b[i].value == Zeroize(e, a[i].value)
    ensures SlotsHeight(a) == SlotsHeight(b)
    decreases a
  {
    if a != [] {
      SlotKeepsHeight(e, a[0]);
      SlotsKeepHeight(e, a[1..], b[1..]);
    }
  }

  lemma {:induction false} SlotKeepsHeight(e: Emission, slot: Slot)
    ensures Height(Zeroize(e, slot.value)) == Height(slot.value)
    decreases slot
  {
    ZeroizeKeepsHeight(e, slot.value);
  }

  /** A field as the owner's own drop code leaves it, before the field itself is dropped. */
  function BeforeDrop(e: Emission, m: string, slot: Slot): Value {
    var own := if m in e.pairs && !Skips(e, m, slot.field) then Zeroize(e, slot.value) else slot.value;
    if slot.field.oneof.Some? && (m, slot.field.oneof.value) in e.oneofPairs then Zeroize(e, own) else own
  }

  lemma BeforeDropHeight(e: Emission, m: string, slot: Slot)
    ensures Height(BeforeDrop(e, m, slot)) == Height(slot.value)
  {
    ZeroizeKeepsHeight(e, slot.value);
    ZeroizeKeepsHeight(e, Zeroize(e, slot.value));
  }

  /** Drop: the type's own drop code, if it derives one, and then every field in turn; a buffer is just freed. */
  function Drop(e: Emission, v: Value): Value
    decreases Height(v)
  {
    match v
    case Scalar => Scalar
    case Buffer(bytes) => Buffer(bytes)
    case Vector(items) =>
      Vector(seq(|items|, i requires 0 <= i < |items| => ItemLower(items, i); Drop(e, items[i])))
    case Struct(m, slots) =>
      Struct(m, seq(|slots|, i requires 0 <= i < |slots| =>
        SlotLower(slots, i);
        BeforeDropHeight(e, m, slots[i]);
        Slot(slots[i].field, Drop(e, BeforeDrop(e, m, slots[i])))))
  }

  /** No buffer anywhere in `v` holds anything but zeros. */
  predicate Wiped(v: Value)
    decreases v
  {
    match v
    case Scalar => true
    case Buffer(bytes) => forall i :: 0 <= i < |bytes| ==> bytes[i] == 0
    case Vector(items) => forall i :: 0 <= i < |items| ==> Wiped(items[i])
    case Struct(_, slots) => forall i :: 0 <= i < |slots| ==> Wiped(slots[i].value)
  }

  // Values of a schema's types.

  predicate HeapScalar(s: Schema, t: string) {
    Short(t) in HEAP_SCALARS && Short(t) !in s.enums
  }

  ghost predicate OfType(s: Schema, t: string, v: Value)
    decreases v, 1
  {
    match FieldTarget(s, t)
    case Refers(m) => v.Struct? && v.name == m && WellFormed(s, v)
    case _ => if HeapScalar(s, t) then v.Buffer? else v.Scalar?
  }

  ghost predicate OfField(s: Schema, f: Field, v: Value)
    decreases v, 2
  {
    if f.repeated then v.Vector? && forall i :: 0 <= i < |v.items| ==> OfType(s, f.typeName, v.items[i])
    else OfType(s, f.typeName, v)
  }

  /** Every slot holds a value of a field its message declares. */
  ghost predicate WellFormed(s: Schema, v: Value)
    decreases v, 0
  {
    v.Struct? ==>
      && Find(s.messages, v.name).Some?
      && forall i :: 0 <= i < |v.slots| ==>
        v.slots[i].field in Find(s.messages, v.name).value.fields && OfField(s, v.slots[i].field, v.slots[i].value)
  }

  // What the build emits, and that it is enough.

  ghost predicate DistinctFieldNames(s: Schema) {
    forall m :: m in s.messages ==> DistinctNames(m.fields)
  }

  ghost predicate DistinctNames(fields: seq<Field>) {
    forall i, j :: 0 <= i < j < |fields| ==> fields[i].name != fields[j].name
  }

  /** The emission for the wipe closure `zeroized`. */
  ghost predicate Emits(s: Schema, zeroized: set<string>, e: Emission) {
    && Sealed(s, zeroized) && DistinctFieldNames(s)
    && (forall m :: m in e.pairs <==> m in zeroized && MessageAttr(s, m) == ZeroizePair)
    && (forall m, o :: (m, o) in e.oneofPairs ==> m in zeroized && OneofAttr(s, m, o) == ZeroizePair)
    && e.skips == SkipMap(s, zeroized, s.messages)
  }

  /** The skip attribute is on boxed fields only. */
  lemma SkippedIsBoxed(s: Schema, zeroized: set<string>, e: Emission, m: string, f: Field)
    requires Emits(s, zeroized, e) && Find(s.messages, m).Some? && f in Find(s.messages, m).value.fields
    requires Skips(e, m, f)
    ensures Boxed(s, m, f)
  {
    SkipMapHas(s, zeroized, s.messages, m);
    var fields := Find(s.messages, m).value.fields;
    var f' :| f' in fields && Boxed(s, m, f') && f'.name == f.name;
    SameNameSameField(fields, f, f');
  }

  lemma SameNameSameField(fields: seq<Field>, f: Field, f': Field)
    requires DistinctNames(fields) && f in fields && f' in fields && f.name == f'.name
    ensures f == f'
  {
    var i :| 0 <= i < |fields| && fields[i] == f;
    var j :| 0 <= j < |fields| && fields[j] == f';
  }

  /** A wiped message with a field on the heap derives the pair and does not skip that field. */
  lemma HeapFieldIsZeroized(s: Schema, zeroized: set<string>, e: Emission, m: string, f: Field)
    requires Emits(s, zeroized, e) && m in zeroized && f in Find(s.messages, m).value.fields && OnHeap(s, f)
    ensures m in e.pairs && !Skips(e, m, f)
  {
    ReachesSelf(References(s), m);
    assert !Plain(s, m);
    if Skips(e, m, f) {
      SkippedIsBoxed(s, zeroized, e, m, f);
      assert false;
    }
  }

  lemma {:induction false} ZeroizeKeepsType(s: Schema, e: Emission, t: string, v: Value)
    requires OfType(s, t, v)
    ensures OfType(s, t, Zeroize(e, v))
    decreases v, 0
  {
    if v.Struct? {
      var w := Zeroize(e, v);
      forall i | 0 <= i < |v.slots|
        ensures w.slots[i].field == v.slots[i].field && OfField(s, w.slots[i].field, w.slots[i].value)
      {
        ZeroizeKeepsField(s, e, v.slots[i].field, v.slots[i].value);
      }
    }
  }

  lemma {:induction false} ZeroizeKeepsField(s: Schema, e: Emission, f: Field, v: Value)
    requires OfField(s, f, v)
    ensures OfField(s, f, Zeroize(e, v))
    decreases v, 1
  {
    if f.repeated {
      forall i | 0 <= i < |v.items|
        ensures OfType(s, f.typeName, Zeroize(e, v).items[i])
      {
        ZeroizeKeepsType(s, e, f.typeName, v.items[i]);
      }
    } else {
      ZeroizeKeepsType(s, e, f.typeName, v);
    }
  }

  /** A value of a field type is ready to be dropped: any buffer directly in it is already overwritten. */
  predicate Ready(v: Value) {
    match v
    case Buffer(_) => Wiped(v)
    case Vector(items) => forall i :: 0 <= i < |items| && items[i].Buffer? ==> Wiped(items[i])
    case _ => true
  }

  lemma ZeroizeReadies(e: Emission, v: Value)
    ensures Ready(Zeroize(e, v))
  {
  }

  lemma BeforeDropReady(s: Schema, zeroized: set<string>, e: Emission, m: string, slot: Slot)
    requires Emits(s, zeroized, e) && m in zeroized && slot.field in Find(s.messages, m).value.fields
    requires OfField(s, slot.field, slot.value)
    ensures var v := BeforeDrop(e, m, slot); OfField(s, slot.field, v) && Ready(v)
  {
    ZeroizeKeepsField(s, e, slot.field, slot.value);
    ZeroizeReadies(e, slot.value);
    ZeroizeKeepsField(s, e, slot.field, Zeroize(e, slot.value));
    ZeroizeReadies(e, Zeroize(e, slot.value));
    if OnHeap(s, slot.field) {
      HeapFieldIsZeroized(s, zeroized, e, m, slot.field);
    }
  }

  lemma {:induction false} DropWipesTyped(s: Schema, zeroized: set<string>, e: Emission, m: string, f: Field, v: Value)
    requires Emits(s, zeroized, e) && m in zeroized && f in Find(s.messages, m).value.fields
    requires OfType(s, f.typeName, v) && Ready(v)
    ensures Wiped(Drop(e, v))
    decreases Height(v), 1
  {
    if v.Struct? {
      ContainmentEdge(s, m, v.name);
      assert FieldEdge(s, m, f, v.name);
      DropWipes(s, zeroized, e, v);
    }
  }

  lemma {:induction false} DropWipesField(s: Schema, zeroized: set<string>, e: Emission, m: string, f: Field, v: Value)
    requires Emits(s, zeroized, e) && m in zeroized && f in Find(s.messages, m).value.fields
    requires OfField(s, f, v) && Ready(v)
    ensures Wiped(Drop(e, v))
    decreases Height(v), 2
  {
    if f.repeated {
      forall i | 0 <= i < |v.items|
        ensures Wiped(Drop(e, v).items[i])
      {
        ItemLower(v.items, i);
        DropWipesTyped(s, zeroized, e, m, f, v.items[i]);
      }
    } else {
      DropWipesTyped(s, zeroized, e, m, f, v);
    }
  }

  /**
   Dropping any value of any message in the wipe closure overwrites every byte and string buffer in it,
   at any depth, although recursive fields are skipped and `Copy` messages have no drop code.
   */
  lemma {:induction false} DropWipes(s: Schema, zeroized: set<string>, e: Emission, v: Value)
    requires Emits(s, zeroized, e) && v.Struct? && v.name in zeroized && WellFormed(s, v)
    ensures Wiped(Drop(e, v))
    decreases Height(v), 0
  {
    forall i | 0 <= i < |v.slots|
      ensures Wiped(Drop(e, v).slots[i].value)
    {
      SlotLower(v.slots, i);
      BeforeDropHeight(e, v.name, v.slots[i]);
      BeforeDropReady(s, zeroized, e, v.name, v.slots[i]);
      DropWipesField(s, zeroized, e, v.name, v.slots[i].field, BeforeDrop(e, v.name, v.slots[i]));
    }
  }

  /** Every classified message is in the closure, so dropping it wipes it. */
  lemma SecretsAreWiped(s: Schema, owners: seq<string>, zeroized: set<string>, e: Emission, v: Value)
    requires forall n :: n in zeroized <==> Held(s, owners, n)
    requires Emits(s, zeroized, e) && v.Struct? && v.name in owners && WellFormed(s, v)
    ensures Wiped(Drop(e, v))
  {
    ReachesSelf(Contents(s), v.name);
    DropWipes(s, zeroized, e, v);
  }

  /** The derive of every wiped message. */
  method EmitPairs(s: Schema, zeroized: set<string>) returns (pairs: set<string>)
    requires RefsTyped(s) && forall n :: n in zeroized ==> Find(s.messages, n).Some?
    ensures forall m :: m in pairs <==> m in zeroized && MessageAttr(s, m) == ZeroizePair
  {
    pairs := {};
    var todo := zeroized;
    while todo != {}
      invariant todo <= zeroized
      invariant forall m :: m in pairs <==> m in zeroized - todo && MessageAttr(s, m) == ZeroizePair
      decreases |todo|
    {
      var m :| m in todo;
      var attr := AttrForMessage(s, m);
      if attr == ZeroizePair {
        pairs := pairs + {m};
      }
      todo := todo - {m};
    }
  }

  /** The derive of every oneof of one wiped message. */
  method EmitOneofs(s: Schema, m: string, oneofs: seq<string>) returns (pairs: set<(string, string)>)
    requires RefsTyped(s) && Find(s.messages, m).Some?
    ensures forall p :: p in pairs <==> p.0 == m && p.1 in oneofs && OneofAttr(s, m, p.1) == ZeroizePair
  {
    pairs := {};
    for i := 0 to |oneofs|
      invariant forall p :: p in pairs <==> p.0 == m && p.1 in oneofs[..i] && OneofAttr(s, m, p.1) == ZeroizePair
    {
      assert oneofs[..i + 1] == oneofs[..i] + [oneofs[i]];
      var attr := AttrForOneof(s, m, oneofs[i]);
      if attr == ZeroizePair {
        pairs := pairs + {(m, oneofs[i])};
      }
    }
    assert oneofs[..|oneofs|] == oneofs;
  }

  method EmitOneofPairs(s: Schema, zeroized: set<string>) returns (pairs: set<(string, string)>)
    requires RefsTyped(s) && forall n :: n in zeroized ==> Find(s.messages, n).Some?
    ensures forall p :: p in pairs <==>
      && p.0 in zeroized && p.1 in Find(s.messages, p.0).value.oneofs
      && OneofAttr(s, p.0, p.1) == ZeroizePair
  {
    pairs := {};
    var todo := zeroized;
    while todo != {}
      invariant todo <= zeroized
      invariant forall p :: p in pairs <==>
        && p.0 in zeroized - todo && p.1 in Find(s.messages, p.0).value.oneofs
        && OneofAttr(s, p.0, p.1) == ZeroizePair
      decreases |todo|
    {
      var m :| m in todo;
      var more := EmitOneofs(s, m, Find(s.messages, m).value.oneofs);
      pairs := pairs + more;
      todo := todo - {m};
    }
  }

  /** The build: the wipe closure of the classified messages and everything attached to it. */
  method Emit(s: Schema, owners: seq<string>) returns (r: Result<Emission, BuildError>, ghost zeroized: set<string>)
    requires RefsTyped(s) && DistinctMessages(s) && DistinctFieldNames(s)
    ensures r.Err? <==> exists n :: Held(s, owners, n) && Broken(s, n)
    ensures r.Ok? ==> (forall n :: n in zeroized <==> Held(s, owners, n)) && Emits(s, zeroized, r.value)
  {
    zeroized := {};
    var closure := Closure(s, owners);
    if closure.Err? {
      return Err(closure.error), zeroized;
    }
    zeroized := closure.value;
    ClosureIsSealed(s, owners, closure.value);
    var pairs := EmitPairs(s, closure.value);
    var oneofPairs := EmitOneofPairs(s, closure.value);
    var skips := SkipLoop(s, closure.value);
    return Ok(Emission(pairs, oneofPairs, skips.value)), zeroized;
  }
}

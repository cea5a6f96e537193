/**
 Ownership of freshly created native objects: transferred to the caller, destroyed, or quarantined.

 Any number of guards live at once, and their drops overlap: the queue is locked for each push and each
 removal, never while the provider works.
 */
module ObjectCleanup {
  import opened Wrappers

  const DEVICE_ERROR: nat := 0x30

  /** Where a guard is. `Queued` has pushed its entry, `Asking` has called the provider, `Returned` has its answer,
      error or panic. */
  datatype Phase =
    | Pending
    | Transferred
    | Queued
    | Asking
    | Returned(outcome: Option<nat>)
    | Destroyed
    | Quarantined(rv: nat)

  datatype Guard = Guard(session: nat, object_: nat, phase: Phase, attempts: nat)

  /** A queue entry; `guard` is the identity of the shared cell, which handles do not determine. */
  datatype Entry = Entry(guard: nat, session: nat, object_: nat, cleanupRv: nat)

  datatype State = State(guards: seq<Guard>, queue: seq<Entry>)

  /** What can happen next: a guard is made, handed over, or takes the next step of its drop. */
  datatype Event =
    | Create(session: nat, object_: nat)
    | Transfer(guard: nat)
    | DropPush(guard: nat)
    | DestroyBegins(guard: nat)
    | DestroyReturns(guard: nat, outcome: Option<nat>)
    | Settle(guard: nat)

  const START := State([], [])

  function Without(queue: seq<Entry>, guard: nat): seq<Entry> {
    if queue == [] then []
    else (if queue[0].guard == guard then [] else [queue[0]]) + Without(queue[1..], guard)
  }

  /** The outcome is stored through the shared cell, so the queued entry shows it. */
  function Record(queue: seq<Entry>, guard: nat, rv: nat): seq<Entry> {
    if queue == [] then []
    else [if queue[0].guard == guard then queue[0].(cleanupRv := rv) else queue[0]] + Record(queue[1..], guard, rv)
  }

  predicate Enabled(s: State, e: Event) {
    match e
    case Create(_, _) => true
    case Transfer(i) => i < |s.guards| && s.guards[i].phase == Pending
    case DropPush(i) => i < |s.guards| && s.guards[i].phase == Pending
    case DestroyBegins(i) => i < |s.guards| && s.guards[i].phase == Queued
    case DestroyReturns(i, _) => i < |s.guards| && s.guards[i].phase == Asking
    case Settle(i) => i < |s.guards| && s.guards[i].phase.Returned?
  }

  function Moved(s: State, i: nat, phase: Phase): seq<Guard>
    requires i < |s.guards|
  {
    s.guards[i := s.guards[i].(phase := phase)]
  }

  function Apply(s: State, e: Event): State
    requires Enabled(s, e)
  {
    match e
    case Create(session, object_) => s.(guards := s.guards + [Guard(session, object_, Pending, 0)])
    case Transfer(i) => s.(guards := Moved(s, i, Transferred))
    case DropPush(i) =>
      var g := s.guards[i];
      State(Moved(s, i, Queued), s.queue + [Entry(i, g.session, g.object_, DEVICE_ERROR)])
    case DestroyBegins(i) =>
      s.(guards := s.guards[i := s.guards[i].(phase := Asking, attempts := s.guards[i].attempts + 1)])
    case DestroyReturns(i, outcome) => s.(guards := Moved(s, i, Returned(outcome)))
    case Settle(i) =>
      match s.guards[i].phase.outcome
      case None => State(Moved(s, i, Destroyed), Without(s.queue, i))
      case Some(rv) => State(Moved(s, i, Quarantined(rv)), Record(s.queue, i, rv))
  }

  ghost predicate IsRun(run: seq<State>) {
    |run| > 0 && run[0] == START && forall k :: 0 < k < |run| ==> FollowsAt(run, k)
  }

  ghost predicate FollowsAt(run: seq<State>, k: nat)
    requires 0 < k < |run|
  {
    Follows(run[k - 1], run[k])
  }

  ghost predicate Follows(s: State, s': State) {
    exists e :: Enabled(s, e) && s' == Apply(s, e)
  }

  /** New authenticated creations are allowed only while nothing is held. */
  predicate EnsureClear(s: State) {
    s.queue == []
  }

  // The invariant.

  /** The provider has been asked to destroy this object. */
  predicate Asked(p: Phase) {
    p.Asking? || p.Returned? || p.Destroyed? || p.Quarantined?
  }

  /** Responsibility for this object is held in the queue. */
  predicate Retained(p: Phase) {
    p.Queued? || p.Asking? || p.Returned? || p.Quarantined?
  }

  /** How often a guard's own entry is queued. */
  function Entries(queue: seq<Entry>, i: nat): nat {
    if queue == [] then 0 else (if queue[0].guard == i then 1 else 0) + Entries(queue[1..], i)
  }

  predicate RightEntry(s: State, e: Entry) {
    && e.guard < |s.guards|
    && var g := s.guards[e.guard];
    && e.session == g.session && e.object_ == g.object_
    && e.cleanupRv == if g.phase.Quarantined? then g.phase.rv else DEVICE_ERROR
  }

  ghost predicate Inv(s: State) {
    && (forall i :: 0 <= i < |s.guards| ==>
          && s.guards[i].attempts == (if Asked(s.guards[i].phase) then 1 else 0)
          && Entries(s.queue, i) == (if Retained(s.guards[i].phase) then 1 else 0))
    && (forall e :: e in s.queue ==> RightEntry(s, e))
  }

  lemma {:induction false} EntriesWithout(queue: seq<Entry>, i: nat, j: nat)
    ensures Entries(Without(queue, i), j) == if i == j then 0 else Entries(queue, j)
    ensures forall e :: e in Without(queue, i) <==> e in queue && e.guard != i
  {
    if queue != [] {
      EntriesWithout(queue[1..], i, j);
      assert queue == [queue[0]] + queue[1..];
      var kept := if queue[0].guard == i then [] else [queue[0]];
      EntriesConcat(kept, Without(queue[1..], i), j);
    }
  }

  lemma {:induction false} EntriesConcat(a: seq<Entry>, b: seq<Entry>, j: nat)
    ensures Entries(a + b, j) == Entries(a, j) + Entries(b, j)
  {
    if a == [] {
      assert a + b == b;
    } else {
      assert (a + b)[1..] == a[1..] + b;
      EntriesConcat(a[1..], b, j);
    }
  }

  lemma {:induction false} EntriesRecord(queue: seq<Entry>, i: nat, rv: nat, j: nat)
    ensures Entries(Record(queue, i, rv), j) == Entries(queue, j)
    ensures forall e :: e in Record(queue, i, rv) ==>
      exists d :: d in queue && e == if d.guard == i then d.(cleanupRv := rv) else d
  {
    if queue != [] {
      EntriesRecord(queue[1..], i, rv, j);
      var rest := Record(queue[1..], i, rv);
      assert Record(queue, i, rv)[1..] == rest;
      forall e | e in Record(queue, i, rv)
        ensures exists d :: d in queue && e == if d.guard == i then d.(cleanupRv := rv) else d
      {
        if e in rest {
          var d :| d in queue[1..] && e == if d.guard == i then d.(cleanupRv := rv) else d;
        } else {
          assert queue[0] in queue;
        }
      }
    }
  }

  lemma EntriesNone(queue: seq<Entry>, i: nat)
    requires forall e :: e in queue ==> e.guard != i
    ensures Entries(queue, i) == 0
  {
    if queue != [] {
      EntriesNone(queue[1..], i);
    }
  }

  lemma {:induction false} EntryPresent(queue: seq<Entry>, i: nat)
    requires Entries(queue, i) > 0
    ensures exists e :: e in queue && e.guard == i
  {
    if queue[0].guard != i {
      EntryPresent(queue[1..], i);
      var e :| e in queue[1..] && e.guard == i;
      assert e in queue;
    } else {
      assert queue[0] in queue;
    }
  }

  lemma InvKept(s: State, e: Event)
    requires Inv(s) && Enabled(s, e)
    ensures Inv(Apply(s, e))
  {
    match e
    case Create(_, _) => CreateKeeps(s, e);
    case Transfer(_) =>
    case DropPush(i) => PushKeeps(s, i);
    case DestroyBegins(_) =>
    case DestroyReturns(_, _) =>
    case Settle(i) =>
      if s.guards[i].phase.outcome.None? {
        RemoveKeeps(s, i);
      } else {
        RecordKeeps(s, i);
      }
  }

  lemma CreateKeeps(s: State, e: Event)
    requires Inv(s) && e.Create?
    ensures Inv(Apply(s, e))
  {
    EntriesNone(s.queue, |s.guards|);
  }

  lemma PushKeeps(s: State, i: nat)
    requires Inv(s) && Enabled(s, DropPush(i))
    ensures Inv(Apply(s, DropPush(i)))
  {
    var s' := Apply(s, DropPush(i));
    var entry := s'.queue[|s.queue|];
    forall j | 0 <= j < |s.guards|
      ensures Entries(s'.queue, j) == Entries(s.queue, j) + if i == j then 1 else 0
    {
      EntriesConcat(s.queue, [entry], j);
      assert Entries([entry], j) == if i == j then 1 else 0;
    }
    forall e | e in s'.queue
      ensures RightEntry(s', e)
    {
      if e in s.queue {
        NotQueued(s, i, e);
      }
    }
  }

  /** A guard without entries has none in the queue. */
  lemma NotQueued(s: State, i: nat, e: Entry)
    requires Inv(s) && i < |s.guards| && !Retained(s.guards[i].phase) && e in s.queue
    ensures e.guard != i && RightEntry(s, e)
  {
    if e.guard == i {
      EntriesSome(s.queue, e);
      assert false;
    }
  }

  lemma {:induction false} EntriesSome(queue: seq<Entry>, e: Entry)
    requires e in queue
    ensures Entries(queue, e.guard) > 0
  {
    if queue[0] != e {
      assert e in queue[1..];
      EntriesSome(queue[1..], e);
    }
  }

  lemma RemoveKeeps(s: State, i: nat)
    requires Inv(s) && Enabled(s, Settle(i)) && s.guards[i].phase.outcome.None?
    ensures Inv(Apply(s, Settle(i)))
  {
    forall j | 0 <= j < |s.guards|
      ensures Entries(Without(s.queue, i), j) == if i == j then 0 else Entries(s.queue, j)
    {
      EntriesWithout(s.queue, i, j);
    }
    EntriesWithout(s.queue, i, i);
  }

  lemma RecordKeeps(s: State, i: nat)
    requires Inv(s) && Enabled(s, Settle(i)) && s.guards[i].phase.outcome.Some?
    ensures Inv(Apply(s, Settle(i)))
  {
    var rv := s.guards[i].phase.outcome.value;
    forall j | 0 <= j < |s.guards|
      ensures Entries(Record(s.queue, i, rv), j) == Entries(s.queue, j)
    {
      EntriesRecord(s.queue, i, rv, j);
    }
    EntriesRecord(s.queue, i, rv, i);
  }

  // Whole runs.

  lemma {:induction false} InvOnRun(run: seq<State>, k: nat)
    requires IsRun(run) && k < |run|
    ensures Inv(run[k])
    decreases k
  {
    if k > 0 {
      InvOnRun(run, k - 1);
      assert FollowsAt(run, k);
      var e :| Enabled(run[k - 1], e) && run[k] == Apply(run[k - 1], e);
      InvKept(run[k - 1], e);
    }
  }

  /**
   In every interleaving, every object is in exactly one state, is handed to the provider for destruction
   at most once, and is in the queue exactly while responsibility for it is open; creation is allowed
   exactly when no drop is under way and none has failed.
   */
  lemma EveryObjectAccountedFor(run: seq<State>, k: nat)
    requires IsRun(run) && k < |run|
    ensures var s := run[k];
      && (forall i :: 0 <= i < |s.guards| ==>
            && s.guards[i].attempts <= 1
            && (s.guards[i].attempts == 1 <==> Asked(s.guards[i].phase))
            && (Retained(s.guards[i].phase) <==> exists e :: e in s.queue && e.guard == i && RightEntry(s, e)))
      && (EnsureClear(s) <==> forall i :: 0 <= i < |s.guards| ==> !Retained(s.guards[i].phase))
  {
    var s := run[k];
    InvOnRun(run, k);
    forall i | 0 <= i < |s.guards|
      ensures Retained(s.guards[i].phase) <==> exists e :: e in s.queue && e.guard == i && RightEntry(s, e)
    {
      if Retained(s.guards[i].phase) {
        EntryPresent(s.queue, i);
      } else if e :| e in s.queue && e.guard == i && RightEntry(s, e) {
        NotQueued(s, i, e);
      }
    }
    if s.queue != [] {
      var e := s.queue[0];
      assert e in s.queue && RightEntry(s, e);
    }
  }

  /** Destroying one object leaves every other entry alone, also one with the same handles. */
  lemma SuccessRemovesOnlyItself(s: State, i: nat, e: Entry)
    requires Inv(s) && Enabled(s, Settle(i)) && s.guards[i].phase.outcome.None?
    ensures e in Apply(s, Settle(i)).queue <==> e in s.queue && e.guard != i
  {
    EntriesWithout(s.queue, i, i);
  }

  /** One failure keeps the check failing for ever, and keeps the object's identity and outcome on record. */
  lemma {:induction false} FailureIsForEver(run: seq<State>, j: nat, k: nat, i: nat)
    requires IsRun(run) && j <= k < |run| && i < |run[j].guards| && run[j].guards[i].phase.Quarantined?
    ensures i < |run[k].guards| && run[k].guards[i] == run[j].guards[i] && !EnsureClear(run[k])
    ensures var g := run[j].guards[i]; Entry(i, g.session, g.object_, g.phase.rv) in run[k].queue
    decreases k
  {
    if j < k {
      FailureIsForEver(run, j, k - 1, i);
      assert FollowsAt(run, k);
    }
    InvOnRun(run, k);
    EntryPresent(run[k].queue, i);
    var e :| e in run[k].queue && e.guard == i;
    assert RightEntry(run[k], e);
  }
}

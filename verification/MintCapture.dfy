/** The lifetimes a mint call reports on its own thread, with captures nested last in, first out. */
module MintCapture {
  import opened Wrappers

  datatype Pair = Pair(handle: nat, lifetime: nat)

  datatype CaptureState = CaptureState(session: nat, pairs: seq<Pair>)

  /** The guard: what to restore, and the session it is for. */
  datatype Capture = Capture(previous: Option<CaptureState>, session: nat)

  /** What a backend says while a capture is open. */
  datatype Call = Report(session: nat, handle: nat, lifetime: nat) | Poison(session: nat, handle: nat)

  // What a capture should hold, from the calls made while it was innermost.

  /** The call concerns handle `h` of session `session`. */
  predicate Concerns(c: Call, session: nat, h: nat) {
    && c.session == session && c.handle == h && h != 0
    && (c.Report? ==> c.lifetime != 0)
  }

  /** The last lifetime reported for `h` and not poisoned since. */
  function LastReport(session: nat, calls: seq<Call>, h: nat): Option<nat> {
    if calls == [] then None
    else
      var c := calls[|calls| - 1];
      if Concerns(c, session, h) then (if c.Report? then Some(c.lifetime) else None)
      else LastReport(session, calls[..|calls| - 1], h)
  }

  /** The call that put `h` on the list: the first report since it was last poisoned. */
  function Entered(session: nat, calls: seq<Call>, h: nat): nat {
    if calls == [] then 0
    else
      var init := calls[..|calls| - 1];
      var c := calls[|calls| - 1];
      if Concerns(c, session, h) && c.Report? && LastReport(session, init, h).None? then |init|
      else Entered(session, init, h)
  }

  /** Each listed handle has its last report, no handle is listed twice, and they stand in the order they entered. */
  ghost predicate Holds(session: nat, calls: seq<Call>, pairs: seq<Pair>) {
    && (forall i :: 0 <= i < |pairs| ==> LastReport(session, calls, pairs[i].handle) == Some(pairs[i].lifetime))
    && (forall h :: LastReport(session, calls, h).Some? ==> Listed(pairs, h))
    && (forall i, j :: 0 <= i < j < |pairs| ==>
          Entered(session, calls, pairs[i].handle) < Entered(session, calls, pairs[j].handle))
  }

  predicate Listed(pairs: seq<Pair>, h: nat) {
    exists i :: 0 <= i < |pairs| && pairs[i].handle == h
  }

  lemma {:induction false} EnteredBefore(session: nat, calls: seq<Call>, h: nat)
    requires calls != []
    ensures Entered(session, calls, h) < |calls|
  {
    if |calls| > 1 {
      EnteredBefore(session, calls[..|calls| - 1], h);
    } else {
      assert Entered(session, calls[..0], h) == 0;
    }
  }

  lemma HoldsDistinct(session: nat, calls: seq<Call>, pairs: seq<Pair>)
    requires Holds(session, calls, pairs)
    ensures forall i, j :: 0 <= i < j < |pairs| ==> pairs[i].handle != pairs[j].handle
  {
    forall i, j | 0 <= i < j < |pairs|
      ensures pairs[i].handle != pairs[j].handle
    {
      assert Entered(session, calls, pairs[i].handle) < Entered(session, calls, pairs[j].handle);
    }
  }

  // How the list changes.

  function Dropped(pairs: seq<Pair>, h: nat): seq<Pair> {
    if pairs == [] then []
    else Dropped(pairs[..|pairs| - 1], h) + if pairs[|pairs| - 1].handle == h then [] else [pairs[|pairs| - 1]]
  }

  function Upserted(pairs: seq<Pair>, h: nat, lifetime: nat): seq<Pair> {
    if pairs == [] then [Pair(h, lifetime)]
    else if pairs[0].handle == h then [Pair(h, lifetime)] + pairs[1..]
    else [pairs[0]] + Upserted(pairs[1..], h, lifetime)
  }

  function After(session: nat, pairs: seq<Pair>, c: Call): seq<Pair> {
    if !Concerns(c, session, c.handle) then pairs
    else if c.Report? then Upserted(pairs, c.handle, c.lifetime)
    else Dropped(pairs, c.handle)
  }

  lemma {:induction false} UpsertNew(pairs: seq<Pair>, h: nat, lifetime: nat)
    requires forall i :: 0 <= i < |pairs| ==> pairs[i].handle != h
    ensures Upserted(pairs, h, lifetime) == pairs + [Pair(h, lifetime)]
  {
    if pairs != [] {
      UpsertNew(pairs[1..], h, lifetime);
    }
  }

  lemma {:induction false} UpsertAt(pairs: seq<Pair>, h: nat, lifetime: nat, k: nat)
    requires k < |pairs| && pairs[k].handle == h && forall j :: 0 <= j < k ==> pairs[j].handle != h
    ensures Upserted(pairs, h, lifetime) == pairs[k := Pair(h, lifetime)]
  {
    if k > 0 {
      UpsertAt(pairs[1..], h, lifetime, k - 1);
    }
  }

  lemma {:induction false} DroppedHas(pairs: seq<Pair>, h: nat)
    ensures forall p :: p in Dropped(pairs, h) <==> p in pairs && p.handle != h
  {
    if pairs != [] {
      DroppedHas(pairs[..|pairs| - 1], h);
      assert pairs == pairs[..|pairs| - 1] + [pairs[|pairs| - 1]];
    }
  }

  /** In the order of `key`. */
  ghost predicate InOrder(session: nat, calls: seq<Call>, pairs: seq<Pair>) {
    forall i, j :: 0 <= i < j < |pairs| ==>
      Entered(session, calls, pairs[i].handle) < Entered(session, calls, pairs[j].handle)
  }

  lemma {:induction false} DroppedInOrder(session: nat, calls: seq<Call>, pairs: seq<Pair>, h: nat)
    requires InOrder(session, calls, pairs)
    ensures InOrder(session, calls, Dropped(pairs, h))
  {
    if pairs != [] {
      var init, p := pairs[..|pairs| - 1], pairs[|pairs| - 1];
      DroppedInOrder(session, calls, init, h);
      DroppedHas(init, h);
      var r := Dropped(init, h);
      forall i | 0 <= i < |r|
        ensures Entered(session, calls, r[i].handle) < Entered(session, calls, p.handle)
      {
        assert r[i] in init;
        var k :| 0 <= k < |init| && init[k] == r[i];
        assert pairs[k] == init[k];
      }
    }
  }

  // One call at a time.

  lemma OneMore(session: nat, calls: seq<Call>, c: Call, h: nat)
    ensures LastReport(session, calls + [c], h) ==
      if Concerns(c, session, h) then (if c.Report? then Some(c.lifetime) else None) else LastReport(session, calls, h)
    ensures Entered(session, calls + [c], h) ==
      if Concerns(c, session, h) && c.Report? && LastReport(session, calls, h).None? then |calls| else Entered(session, calls, h)
  {
    assert (calls + [c])[..|calls|] == calls;
  }

  lemma HoldsAfter(session: nat, calls: seq<Call>, pairs: seq<Pair>, c: Call)
    requires Holds(session, calls, pairs)
    ensures Holds(session, calls + [c], After(session, pairs, c))
  {
    if !Concerns(c, session, c.handle) {
      UntouchedKeepsAll(session, calls, pairs, c);
    } else if c.Poison? {
      DroppedKeepsAll(session, calls, pairs, c);
    } else if k: nat :| k < |pairs| && pairs[k].handle == c.handle {
      HoldsDistinct(session, calls, pairs);
      UpsertAt(pairs, c.handle, c.lifetime, k);
      ReplacedKeepsAll(session, calls, pairs, c, k);
    } else {
      UpsertNew(pairs, c.handle, c.lifetime);
      AppendedKeepsAll(session, calls, pairs, c);
    }
  }

  lemma UntouchedKeepsAll(session: nat, calls: seq<Call>, pairs: seq<Pair>, c: Call)
    requires Holds(session, calls, pairs) && !Concerns(c, session, c.handle)
    ensures Holds(session, calls + [c], pairs)
  {
    forall h: nat
      ensures LastReport(session, calls + [c], h) == LastReport(session, calls, h)
      ensures Entered(session, calls + [c], h) == Entered(session, calls, h)
    {
      OneMore(session, calls, c, h);
    }
  }

  lemma ReplacedKeepsAll(session: nat, calls: seq<Call>, pairs: seq<Pair>, c: Call, k: nat)
    requires Holds(session, calls, pairs) && c.Report? && Concerns(c, session, c.handle)
    requires k < |pairs| && pairs[k].handle == c.handle
    ensures Holds(session, calls + [c], pairs[k := Pair(c.handle, c.lifetime)])
  {
    var r := pairs[k := Pair(c.handle, c.lifetime)];
    HoldsDistinct(session, calls, pairs);
    ReplacedListed(pairs, k, c.lifetime);
    forall h: nat
      ensures LastReport(session, calls + [c], h) ==
        if h == c.handle then Some(c.lifetime) else LastReport(session, calls, h)
      ensures Entered(session, calls + [c], h) == Entered(session, calls, h)
    {
      OneMore(session, calls, c, h);
    }
  }

  lemma ReplacedListed(pairs: seq<Pair>, k: nat, lifetime: nat)
    requires k < |pairs|
    ensures forall h :: Listed(pairs, h) ==> Listed(pairs[k := Pair(pairs[k].handle, lifetime)], h)
  {
    var r := pairs[k := Pair(pairs[k].handle, lifetime)];
    forall h | Listed(pairs, h)
      ensures Listed(r, h)
    {
      var i :| 0 <= i < |pairs| && pairs[i].handle == h;
      assert r[i].handle == h;
    }
  }

  lemma AppendedKeepsAll(session: nat, calls: seq<Call>, pairs: seq<Pair>, c: Call)
    requires Holds(session, calls, pairs) && c.Report? && Concerns(c, session, c.handle) && !Listed(pairs, c.handle)
    ensures Holds(session, calls + [c], pairs + [Pair(c.handle, c.lifetime)])
  {
    var r := pairs + [Pair(c.handle, c.lifetime)];
    forall h: nat
      ensures LastReport(session, calls + [c], h).Some? ==> Listed(r, h)
    {
      OneMore(session, calls, c, h);
      if h == c.handle {
        assert r[|pairs|].handle == h;
      } else if i :| 0 <= i < |pairs| && pairs[i].handle == h {
        assert r[i].handle == h;
      }
    }
    forall i | 0 <= i < |r|
      ensures LastReport(session, calls + [c], r[i].handle) == Some(r[i].lifetime)
    {
      OneMore(session, calls, c, r[i].handle);
    }
    forall i, j | 0 <= i < j < |r|
      ensures Entered(session, calls + [c], r[i].handle) < Entered(session, calls + [c], r[j].handle)
    {
      OneMore(session, calls, c, r[i].handle);
      OneMore(session, calls, c, r[j].handle);
      assert calls != [];
      EnteredBefore(session, calls, r[i].handle);
    }
  }

  lemma DroppedKeepsAll(session: nat, calls: seq<Call>, pairs: seq<Pair>, c: Call)
    requires Holds(session, calls, pairs) && c.Poison? && Concerns(c, session, c.handle)
    ensures Holds(session, calls + [c], Dropped(pairs, c.handle))
  {
    var r := Dropped(pairs, c.handle);
    DroppedHas(pairs, c.handle);
    DroppedInOrder(session, calls, pairs, c.handle);
    forall i | 0 <= i < |r|
      ensures LastReport(session, calls + [c], r[i].handle) == Some(r[i].lifetime)
      ensures Entered(session, calls + [c], r[i].handle) == Entered(session, calls, r[i].handle)
    {
      OneMore(session, calls, c, r[i].handle);
      assert r[i] in pairs;
    }
    forall h: nat | LastReport(session, calls + [c], h).Some?
      ensures Listed(r, h)
    {
      OneMore(session, calls, c, h);
      var i :| 0 <= i < |pairs| && pairs[i].handle == h;
      assert pairs[i] in r;
      var k :| 0 <= k < |r| && r[k] == pairs[i];
    }
  }

  // The thread.

  /** An open capture: its session, every call made while it was innermost, and the list they left. */
  datatype Frame = Frame(session: nat, calls: seq<Call>, pairs: seq<Pair>)

  ghost predicate FrameOk(f: Frame) {
    Holds(f.session, f.calls, f.pairs)
  }

  /** What is active when just these captures are open. */
  function Top(frames: seq<Frame>): Option<CaptureState> {
    if frames == [] then None
    else
      var f := frames[|frames| - 1];
      Some(CaptureState(f.session, f.pairs))
  }

  /** Each guard remembers what was active before it. */
  ghost predicate Nested(frames: seq<Frame>, guards: seq<Capture>) {
    && |frames| == |guards|
    && (forall k :: 0 <= k < |frames| ==> FrameOk(frames[k]))
    && (forall k :: 0 <= k < |frames| ==> guards[k] == Capture(Top(frames[..k]), frames[k].session))
  }

  lemma NestedPush(frames: seq<Frame>, guards: seq<Capture>, session: nat)
    requires Nested(frames, guards)
    ensures Nested(frames + [Frame(session, [], [])], guards + [Capture(Top(frames), session)])
  {
    var frames' := frames + [Frame(session, [], [])];
    assert FrameOk(Frame(session, [], []));
    assert frames'[..|frames|] == frames;
    assert forall k :: 0 <= k < |frames| ==> frames'[..k] == frames[..k];
  }

  function Without<T>(s: seq<T>, k: nat): seq<T>
    requires k < |s|
  {
    s[..k] + s[k + 1..]
  }

  lemma TopWithout(frames: seq<Frame>, k: nat)
    requires k < |frames|
    ensures Top(Without(frames, k)) == if k == |frames| - 1 then Top(frames[..k]) else Top(frames)
    ensures k == |frames| - 1 ==> Without(frames, k) == frames[..k]
  {
  }

  lemma NestedPop(frames: seq<Frame>, guards: seq<Capture>)
    requires Nested(frames, guards) && frames != []
    ensures var n := |frames| - 1;
      && Nested(Without(frames, n), Without(guards, n)) && Top(frames[..n]) == guards[n].previous
  {
    var n := |frames| - 1;
    assert Without(frames, n) == frames[..n] && Without(guards, n) == guards[..n];
    assert forall k :: 0 <= k < n ==> frames[..n][..k] == frames[..k];
  }

  /** A frame after one more call. */
  function Extended(f: Frame, c: Call): Frame {
    Frame(f.session, f.calls + [c], After(f.session, f.pairs, c))
  }

  /** A call reaches the innermost capture only. */
  function Reached(frames: seq<Frame>, c: Call): seq<Frame> {
    if frames == [] then [] else frames[|frames| - 1 := Extended(frames[|frames| - 1], c)]
  }

  lemma NestedCall(frames: seq<Frame>, guards: seq<Capture>, c: Call)
    requires Nested(frames, guards)
    ensures Nested(Reached(frames, c), guards)
  {
    if frames != [] {
      var n := |frames| - 1;
      var f := frames[n];
      assert FrameOk(f);
      HoldsAfter(f.session, f.calls, f.pairs, c);
      assert FrameOk(Extended(f, c));
      assert forall k :: 0 <= k <= n ==> Reached(frames, c)[..k] == frames[..k];
    }
  }

  function Shown(f: Option<Frame>): Option<CaptureState> {
    if f.None? then None else Some(CaptureState(f.value.session, f.value.pairs))
  }

  /** `state` holds what the calls of `f` leave. */
  ghost predicate Mirrors(state: Option<CaptureState>, f: Option<Frame>) {
    state == Shown(f) && (f.Some? ==> FrameOk(f.value))
  }

  function Last(frames: seq<Frame>): Option<Frame> {
    if frames == [] then None else Some(frames[|frames| - 1])
  }

  function CurrentAfter(f: Option<Frame>, c: Call): Option<Frame> {
    if f.None? then None else Some(Extended(f.value, c))
  }

  lemma MirrorsAfter(state: Option<CaptureState>, f: Option<Frame>, c: Call)
    requires Mirrors(state, f)
    ensures Mirrors(Shown(CurrentAfter(f, c)), CurrentAfter(f, c))
  {
    if f.Some? {
      HoldsAfter(f.value.session, f.value.calls, f.value.pairs, c);
    }
  }

  /** What the guards remember is sound. */
  ghost predicate AllMirror(guards: seq<Capture>, saved: seq<Option<Frame>>) {
    |guards| == |saved| && forall k :: 0 <= k < |guards| ==> Mirrors(guards[k].previous, saved[k])
  }

  lemma MirrorWithout(guards: seq<Capture>, saved: seq<Option<Frame>>, k: nat)
    requires AllMirror(guards, saved) && k < |guards|
    ensures AllMirror(Without(guards, k), Without(saved, k)) && Mirrors(guards[k].previous, saved[k])
  {
  }

  /** Each guard remembers the capture around its own. */
  ghost predicate InTurn(frames: seq<Frame>, saved: seq<Option<Frame>>) {
    |frames| == |saved| && forall k :: 0 <= k < |frames| ==> saved[k] == Last(frames[..k])
  }

  lemma InTurnPush(frames: seq<Frame>, saved: seq<Option<Frame>>, f: Frame)
    requires InTurn(frames, saved)
    ensures InTurn(frames + [f], saved + [Last(frames)])
  {
    assert forall k :: 0 <= k <= |frames| ==> (frames + [f])[..k] == frames[..k];
    assert frames[..|frames|] == frames;
  }

  lemma InTurnPop(frames: seq<Frame>, saved: seq<Option<Frame>>)
    requires InTurn(frames, saved) && frames != []
    ensures var n := |frames| - 1; InTurn(Without(frames, n), Without(saved, n)) && saved[n] == Last(Without(frames, n))
  {
    var n := |frames| - 1;
    assert Without(frames, n) == frames[..n] && Without(saved, n) == saved[..n];
    assert forall k :: 0 <= k <= n ==> frames[..n][..k] == frames[..k];
  }

  lemma ReachedKept(frames: seq<Frame>, c: Call)
    ensures |Reached(frames, c)| == |frames| && Last(Reached(frames, c)) == CurrentAfter(Last(frames), c)
    ensures forall k :: 0 <= k < |frames| ==> Reached(frames, c)[..k] == frames[..k]
  {
  }

  class Thread {
    var active: Option<CaptureState>
    /** The open captures, outermost first, and the guards that opened them. */
    ghost var frames: seq<Frame>
    ghost var guards: seq<Capture>
    /** The capture that is active, whether or not it is the innermost open one, and those the guards remember. */
    ghost var current: Option<Frame>
    ghost var saved: seq<Option<Frame>>

    /** What is active holds exactly what the calls that reached it leave, and so does what the guards remember. */
    ghost predicate Sound()
      reads this
    {
      Mirrors(active, current) && |frames| == |guards| && AllMirror(guards, saved)
    }

    /** ... and guards have been dropped in turn. */
    ghost predicate Valid()
      reads this
    {
      Sound() && current == Last(frames) && Nested(frames, guards) && InTurn(frames, saved)
    }

    constructor ()
      ensures Valid() && frames == []
    {
      active, frames, guards, current, saved := None, [], [], None, [];
    }

    method Begin(session: nat) returns (guard: Capture)
      requires Sound()
      modifies this
      ensures Sound() && (old(Valid()) ==> Valid())
      ensures frames == old(frames) + [Frame(session, [], [])] && guards == old(guards) + [guard]
      ensures current == Some(Frame(session, [], [])) && saved == old(saved) + [old(current)]
    {
      if Valid() {
        NestedPush(frames, guards, session);
        InTurnPush(frames, saved, Frame(session, [], []));
      }
      assert FrameOk(Frame(session, [], []));
      guard := Capture(active, session);
      active, current, saved := Some(CaptureState(session, [])), Some(Frame(session, [], [])), saved + [current];
      frames, guards := frames + [Frame(session, [], [])], guards + [guard];
    }

    /**
     Drop the guard of the `k`th open capture: what was active when it began is active again, as it was then.
     For the innermost that is the capture around it, unchanged. Out of turn it is the innermost one still
     open only if the two happen to hold the same.
     */
    method Drop(guard: Capture, ghost k: nat)
      requires Sound() && k < |guards| && guard == guards[k]
      modifies this
      ensures Sound() && current == old(saved)[k] && saved == Without(old(saved), k)
      ensures frames == Without(old(frames), k) && guards == Without(old(guards), k) && active == guard.previous
      ensures old(Valid()) && k == |old(guards)| - 1 ==> Valid()
      ensures old(Valid()) ==>
                (active == Top(frames) <==> k == |old(guards)| - 1 || Top(old(frames)[..k]) == Top(old(frames)))
    {
      TopWithout(frames, k);
      MirrorWithout(guards, saved, k);
      if Valid() && k == |guards| - 1 {
        NestedPop(frames, guards);
        InTurnPop(frames, saved);
      }
      active, current, saved := guard.previous, saved[k], Without(saved, k);
      frames, guards := Without(frames, k), Without(guards, k);
    }

    /** Report a fresh lifetime: replace the handle's pair where it stands, or add one at the end. */
    method ReportLifetime(session: nat, handle: nat, lifetime: nat)
      requires Sound()
      modifies `active, `frames, `current
      ensures Sound() && current == CurrentAfter(old(current), Report(session, handle, lifetime))
      ensures old(Valid()) ==> Valid() && frames == Reached(old(frames), Report(session, handle, lifetime))
      ensures |frames| == |old(frames)|
    {
      MirrorsAfter(active, current, Report(session, handle, lifetime));
      if Valid() {
        NestedCall(frames, guards, Report(session, handle, lifetime));
        ReachedKept(frames, Report(session, handle, lifetime));
        frames := Reached(frames, Report(session, handle, lifetime));
      }
      current := CurrentAfter(current, Report(session, handle, lifetime));
      if handle == 0 || lifetime == 0 || active.None? || active.value.session != session {
        return;
      }
      var pairs := Upsert(active.value.pairs, handle, lifetime);
      active := Some(CaptureState(session, pairs));
    }

    /** Poison a handle: drop its pair. */
    method PoisonHandle(session: nat, handle: nat)
      requires Sound()
      modifies `active, `frames, `current
      ensures Sound() && current == CurrentAfter(old(current), Poison(session, handle))
      ensures old(Valid()) ==> Valid() && frames == Reached(old(frames), Poison(session, handle))
      ensures |frames| == |old(frames)|
    {
      MirrorsAfter(active, current, Poison(session, handle));
      if Valid() {
        NestedCall(frames, guards, Poison(session, handle));
        ReachedKept(frames, Poison(session, handle));
        frames := Reached(frames, Poison(session, handle));
      }
      current := CurrentAfter(current, Poison(session, handle));
      if handle == 0 || active.None? || active.value.session != session {
        return;
      }
      var pairs := Retain(active.value.pairs, handle);
      active := Some(CaptureState(session, pairs));
    }

    /** The active pairs if they are for the guard's session: exactly what the calls that reached them leave. */
    method Captured(guard: Capture) returns (pairs: seq<Pair>)
      requires Sound()
      ensures if current.Some? && current.value.session == guard.session
              then pairs == current.value.pairs && Holds(current.value.session, current.value.calls, pairs)
              else pairs == []
    {
      if active.Some? && active.value.session == guard.session {
        return active.value.pairs;
      }
      return [];
    }

    /** The lifetime captured for one handle; in turn, the guard of the innermost capture answers for that one. */
    method LifetimeFor(guard: Capture, handle: nat) returns (r: Option<nat>)
      requires Sound()
      ensures r == if current.Some? && current.value.session == guard.session
                   then LastReport(current.value.session, current.value.calls, handle) else None
      ensures Valid() && guards != [] && guard == guards[|guards| - 1] ==>
                var f := frames[|frames| - 1]; r == LastReport(f.session, f.calls, handle)
    {
      var pairs := Captured(guard);
      for i := 0 to |pairs|
        invariant forall j :: 0 <= j < i ==> pairs[j].handle != handle
      {
        if pairs[i].handle == handle {
          return Some(pairs[i].lifetime);
        }
      }
      assert !Listed(pairs, handle);
      return None;
    }
  }

  /** Two captures dropped in the order they were begun: none is open, and the first is active again. */
  method DropsOutOfOrder(outer: nat, inner: nat) returns (t: Thread)
    ensures t.Sound() && t.frames == [] && t.active == Some(CaptureState(outer, []))
  {
    t := new Thread();
    var a := t.Begin(outer);
    var b := t.Begin(inner);
    t.Drop(a, 0);
    t.Drop(b, 0);
  }

  method Upsert(pairs: seq<Pair>, handle: nat, lifetime: nat) returns (r: seq<Pair>)
    ensures r == Upserted(pairs, handle, lifetime)
  {
    for i := 0 to |pairs|
      invariant forall j :: 0 <= j < i ==> pairs[j].handle != handle
    {
      if pairs[i].handle == handle {
        UpsertAt(pairs, handle, lifetime, i);
        return pairs[i := Pair(handle, lifetime)];
      }
    }
    UpsertNew(pairs, handle, lifetime);
    return pairs + [Pair(handle, lifetime)];
  }

  method Retain(pairs: seq<Pair>, handle: nat) returns (r: seq<Pair>)
    ensures r == Dropped(pairs, handle)
  {
    r := [];
    for i := 0 to |pairs|
      invariant r == Dropped(pairs[..i], handle)
    {
      assert pairs[..i + 1][..i] == pairs[..i];
      if pairs[i].handle != handle {
        r := r + [pairs[i]];
      }
    }
    assert pairs[..|pairs|] == pairs;
  }
}

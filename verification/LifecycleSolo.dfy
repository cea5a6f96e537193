/** What one lifecycle call does when no other is in flight: the sequential meaning of the steps. */
module LifecycleSolo {
  import opened Words
  import opened Wrappers
  import opened LifecycleModel
  import opened LifecycleInvariant
  import opened LifecycleProof
  import opened LifecycleLiveness

  /** Call `i` steps until it is done or blocked; the provider answers `ok` every time. */
  function Alone(sh: Shared, i: nat, c: Call, ok: bool): (Shared, Call)
    decreases Left(c.pc)
  {
    var step := CallStep(sh, true, i, c, Plain(ok));
    if step.None? then (sh, c)
    else
      LeftStep(sh, true, i, c, Plain(ok));
      Alone(step.value.0, i, step.value.1, ok)
  }

  /** Nothing stands in the way of a lifecycle call. */
  predicate Idle(sh: Shared) {
    Free(sh) && sh.lifetime.None? && !Transient(sh.state) && sh.epoch <= U64_MAX
  }

  /** The epoch after an abandoned ticket. */
  function Bump(epoch: nat): nat {
    if epoch < U64_MAX then epoch + 1 else epoch
  }

  predicate NewCycle(t: Tracker) {
    !t.initialized || t.finalizedOk
  }

  // Initialize.

  const INITIALIZE := NewCall(Gate(LoadFailed), OpenSession)

  /** Past the gate and the begin section, about to mark the attempt. */
  function Begun(sh: Shared): (Shared, Call) {
    (sh.(epoch := sh.epoch + 1, state := Initializing),
     INITIALIZE.(pc := Mark(StoreAttempted), prior := sh.state, epoch := sh.epoch + 1))
  }

  lemma GatePasses(sh: Shared, i: nat, ok: bool)
    requires !sh.t.finalizeFailed && (NewCycle(sh.t) ==> sh.t.generation < U64_MAX)
    ensures Alone(sh, i, INITIALIZE, ok) == Alone(sh, i, INITIALIZE.(pc := Gate(BeginQueued)), ok)
  {
    var c := INITIALIZE;
    assert Alone(sh, i, c, ok) == Alone(sh, i, c.(pc := Gate(LoadInitialized)), ok);
    if sh.t.initialized {
      assert Alone(sh, i, c.(pc := Gate(LoadInitialized)), ok) == Alone(sh, i, c.(pc := Gate(LoadFinalized)), ok);
    } else {
      assert Alone(sh, i, c.(pc := Gate(LoadInitialized)), ok) == Alone(sh, i, c.(pc := Gate(LoadGeneration)), ok);
    }
    if NewCycle(sh.t) {
      assert Alone(sh, i, c.(pc := Gate(LoadGeneration)), ok) == Alone(sh, i, c.(pc := Gate(Begin)), ok);
    }
  }

  /** With an epoch left the begin section enters `Initializing`; without one it refuses. */
  lemma Begins(sh: Shared, i: nat, ok: bool)
    requires Idle(sh)
    ensures var queued := INITIALIZE.(pc := Gate(BeginQueued));
            Alone(sh, i, queued, ok) ==
              if sh.epoch < U64_MAX then Alone(Begun(sh).0, i, Begun(sh).1, ok) else (sh, INITIALIZE.(pc := Done))
  {
    assert Alone(sh, i, INITIALIZE.(pc := Done), ok) == (sh, INITIALIZE.(pc := Done));
  }

  function Marked(t: Tracker): Tracker {
    t.(initAttempted := true, attemptedSinceFinalize := true)
  }

  /** The attempt is marked before the provider runs. */
  lemma MarksAttempt(sh: Shared, i: nat, c: Call, ok: bool)
    requires c.pc == Mark(StoreAttempted)
    ensures Alone(sh, i, c, ok) == Alone(sh.(t := Marked(sh.t)), i, c.(pc := NativeInit), ok)
  {
    var sh1 := sh.(t := sh.t.(initAttempted := true));
    assert Alone(sh, i, c, ok) == Alone(sh1, i, c.(pc := Mark(StoreSince)), ok);
  }

  /** A failed provider call is counted, and the domain goes back to the state it was in. */
  lemma FailsBack(sh: Shared, i: nat, c: Call)
    requires Free(sh) && c.pc == NativeInit && c.epoch == sh.epoch && !Transient(c.prior)
    ensures Alone(sh, i, c, false) == (
      sh.(state := c.prior, epoch := Bump(sh.epoch), initSinceFinalize := true,
          t := Marked(sh.t.(completions := sh.t.completions + 1))),
      c.(pc := Done))
  {
    var sh1, c1 := sh.(initSinceFinalize := true), c.(pc := Settle(true));
    assert Alone(sh, i, c, false) == Alone(sh1, i, c1, false);
    var sh2, c2 := sh1.(state := c.prior, epoch := Bump(sh.epoch), writer := Some(i)), c.(pc := Remark(CountFailed));
    assert Alone(sh1, i, c1, false) == Alone(sh2, i, c2, false);
    var sh3, c3 := sh2.(t := sh.t.(completions := sh.t.completions + 1)), c.(pc := Remark(RemarkAttempted));
    assert Alone(sh2, i, c2, false) == Alone(sh3, i, c3, false);
    var sh4, c4 := sh3.(t := sh3.t.(initAttempted := true)), c.(pc := Remark(RemarkSince));
    assert Alone(sh3, i, c3, false) == Alone(sh4, i, c4, false);
    var sh5, c5 := sh4.(t := sh4.t.(attemptedSinceFinalize := true), writer := None), c.(pc := Done);
    assert Alone(sh4, i, c4, false) == Alone(sh5, i, c5, false);
  }

  /** A success is counted, and the record decides whether this is a new cycle. */
  lemma RecordsSuccess(sh: Shared, i: nat, c: Call)
    requires c.pc == NativeInit && !sh.t.finalizeFailed
    ensures Alone(sh, i, c, true) == Alone(
      sh.(initSinceFinalize := true, t := sh.t.(completions := sh.t.completions + 1)), i,
      c.(pc := if NewCycle(sh.t) then Cycle(Claim) else PublishOpen(ReadAfter), before := sh.t.generation), true)
  {
    var sh1 := sh.(initSinceFinalize := true);
    assert Alone(sh, i, c, true) == Alone(sh1, i, c.(pc := Record(ReadBefore)), true);
    var c1 := c.(before := sh.t.generation);
    assert Alone(sh1, i, c.(pc := Record(ReadBefore)), true) == Alone(sh1, i, c1.(pc := Record(CountOk)), true);
    var sh2 := sh1.(t := sh.t.(completions := sh.t.completions + 1));
    assert Alone(sh1, i, c1.(pc := Record(CountOk)), true) == Alone(sh2, i, c1.(pc := Record(CheckFailed)), true);
    assert Alone(sh2, i, c1.(pc := Record(CheckFailed)), true) == Alone(sh2, i, c1.(pc := Record(CheckInitialized)), true);
    if sh.t.initialized {
      assert Alone(sh2, i, c1.(pc := Record(CheckInitialized)), true) == Alone(sh2, i, c1.(pc := Record(CheckFinalized)), true);
    }
  }

  /** A new cycle claims the next generation ... */
  lemma ClaimsCycle(sh: Shared, i: nat, c: Call)
    requires c.pc == Cycle(Claim) && sh.t.generation < U64_MAX
    ensures Alone(sh, i, c, true) == Alone(
      sh.(t := sh.t.(generation := sh.t.generation + 1, initialized := true)), i, c.(pc := Cycle(ClearFinalized)), true)
  {
    var sh1 := sh.(t := sh.t.(generation := sh.t.generation + 1));
    assert Alone(sh, i, c, true) == Alone(sh1, i, c.(pc := Cycle(SetInitialized)), true);
  }

  /** ... and starts clean. */
  lemma OpensCycle(sh: Shared, i: nat, c: Call)
    requires c.pc == Cycle(ClearFinalized)
    ensures Alone(sh, i, c, true) == Alone(
      sh.(t := sh.t.(finalizedOk := false, openSessions := 0)), i, c.(pc := PublishOpen(ReadAfter)), true)
  {
    var sh1 := sh.(t := sh.t.(finalizedOk := false));
    assert Alone(sh, i, c, true) == Alone(sh1, i, c.(pc := Cycle(ResetSessions)), true);
  }

  /** The publish opens the domain, and purges exactly when the generation moved. */
  lemma PublishesOpen(sh: Shared, i: nat, c: Call)
    requires Free(sh) && sh.lifetime.None? && sh.state.Initializing? && c.pc == PublishOpen(ReadAfter)
    requires c.epoch == sh.epoch < U64_MAX
    ensures Alone(sh, i, c, true).0 ==
      sh.(state := Open, epoch := sh.epoch + 1, bindings := if sh.t.generation != c.before then {} else sh.bindings)
    ensures Alone(sh, i, c, true).1.pc == Done
  {
    var c1 := c.(changed := sh.t.generation != c.before);
    assert Alone(sh, i, c, true) == Alone(sh, i, c1.(pc := PublishOpen(Unqueued)), true);
    assert Alone(sh, i, c1.(pc := PublishOpen(Unqueued)), true) == Alone(sh, i, c1.(pc := PublishOpen(PublishQueued)), true);
    var sh1 := sh.(state := Open, epoch := sh.epoch + 1);
    if c1.changed {
      var sh2 := sh1.(writer := Some(i));
      assert Alone(sh, i, c1.(pc := PublishOpen(PublishQueued)), true) == Alone(sh2, i, c1.(pc := PurgeOpen(TakeLeaf)), true);
      var sh3 := sh2.(lifetime := Some(i));
      assert Alone(sh2, i, c1.(pc := PurgeOpen(TakeLeaf)), true) == Alone(sh3, i, c1.(pc := PurgeOpen(Purge)), true);
      var sh4 := sh1.(bindings := {});
      assert Alone(sh3, i, c1.(pc := PurgeOpen(Purge)), true) == Alone(sh4, i, c1.(pc := Done), true);
    } else {
      assert Alone(sh, i, c1.(pc := PublishOpen(PublishQueued)), true) == Alone(sh1, i, c1.(pc := Done), true);
    }
  }

  /** Without an epoch left the publish is refused. */
  lemma PublishRefused(sh: Shared, i: nat, c: Call)
    requires Free(sh) && sh.state.Initializing? && c.pc == PublishOpen(ReadAfter) && c.epoch == sh.epoch >= U64_MAX
    ensures Alone(sh, i, c, true).0 == sh.(state := Uncertain) && Alone(sh, i, c, true).1.pc == Done
  {
    var c1 := c.(changed := sh.t.generation != c.before);
    assert Alone(sh, i, c, true) == Alone(sh, i, c1.(pc := PublishOpen(Unqueued)), true);
    assert Alone(sh, i, c1.(pc := PublishOpen(Unqueued)), true) == Alone(sh, i, c1.(pc := PublishOpen(PublishQueued)), true);
    var sh1 := sh.(state := Uncertain);
    assert Alone(sh, i, c1.(pc := PublishOpen(PublishQueued)), true) == Alone(sh1, i, c1.(pc := Done), true);
  }

  /** The tracker after a recorded success. */
  function Recorded(t: Tracker): Tracker {
    var counted := t.(completions := t.completions + 1);
    if !NewCycle(t) then counted
    else counted.(generation := t.generation + 1, initialized := true, finalizedOk := false, openSessions := 0)
  }

  /** What an Initialize should do: nothing if refused, else mark, count, and open or go back; the last epoch
      serves to begin but not to publish. */
  function InitializeOutcome(sh: Shared, ok: bool): Shared {
    if sh.t.finalizeFailed || (NewCycle(sh.t) && sh.t.generation >= U64_MAX) || sh.epoch >= U64_MAX then sh
    else
      var ran := sh.(epoch := Bump(sh.epoch + 1), initSinceFinalize := true);
      if !ok then ran.(t := Marked(sh.t.(completions := sh.t.completions + 1)))
      else
        var done := ran.(t := Recorded(Marked(sh.t)));
        if sh.epoch + 1 >= U64_MAX then done.(state := Uncertain)
        else if NewCycle(sh.t) then done.(state := Open, bindings := {})
        else done.(state := Open)
  }

  lemma GateRefuses(sh: Shared, i: nat, ok: bool)
    requires sh.t.finalizeFailed || (NewCycle(sh.t) && sh.t.generation >= U64_MAX)
    ensures Alone(sh, i, INITIALIZE, ok).0 == sh && Alone(sh, i, INITIALIZE, ok).1.pc == Done
  {
    var c := INITIALIZE;
    if sh.t.finalizeFailed {
      assert Alone(sh, i, c, ok) == Alone(sh, i, c.(pc := Done), ok);
    } else {
      assert Alone(sh, i, c, ok) == Alone(sh, i, c.(pc := Gate(LoadInitialized)), ok);
      if sh.t.initialized {
        assert Alone(sh, i, c.(pc := Gate(LoadInitialized)), ok) == Alone(sh, i, c.(pc := Gate(LoadFinalized)), ok);
        assert Alone(sh, i, c.(pc := Gate(LoadFinalized)), ok) == Alone(sh, i, c.(pc := Gate(LoadGeneration)), ok);
      } else {
        assert Alone(sh, i, c.(pc := Gate(LoadInitialized)), ok) == Alone(sh, i, c.(pc := Gate(LoadGeneration)), ok);
      }
      assert Alone(sh, i, c.(pc := Gate(LoadGeneration)), ok) == Alone(sh, i, c.(pc := Done), ok);
    }
  }

  /** From the provider's success to the publish. */
  lemma RecordsAll(sh: Shared, i: nat, c: Call)
    requires c.pc == NativeInit && !sh.t.finalizeFailed && (NewCycle(sh.t) ==> sh.t.generation < U64_MAX)
    ensures Alone(sh, i, c, true) == Alone(
      sh.(initSinceFinalize := true, t := Recorded(sh.t)), i, c.(pc := PublishOpen(ReadAfter), before := sh.t.generation), true)
  {
    RecordsSuccess(sh, i, c);
    if NewCycle(sh.t) {
      var sh1 := sh.(initSinceFinalize := true, t := sh.t.(completions := sh.t.completions + 1));
      var c1 := c.(before := sh.t.generation);
      ClaimsCycle(sh1, i, c1.(pc := Cycle(Claim)));
      var sh2 := sh1.(t := sh1.t.(generation := sh.t.generation + 1, initialized := true));
      OpensCycle(sh2, i, c1.(pc := Cycle(ClearFinalized)));
    }
  }

  /** From the provider's success to the end. */
  lemma Succeeds(sh: Shared, i: nat, c: Call)
    requires Free(sh) && sh.lifetime.None? && sh.state.Initializing? && c.pc == NativeInit && c.epoch == sh.epoch <= U64_MAX
    requires !sh.t.finalizeFailed && (NewCycle(sh.t) ==> sh.t.generation < U64_MAX)
    ensures var done := sh.(initSinceFinalize := true, t := Recorded(sh.t));
      Alone(sh, i, c, true).0 ==
        if sh.epoch >= U64_MAX then done.(state := Uncertain)
        else done.(state := Open, epoch := sh.epoch + 1, bindings := if NewCycle(sh.t) then {} else sh.bindings)
    ensures Alone(sh, i, c, true).1.pc == Done
  {
    RecordsAll(sh, i, c);
    var done := sh.(initSinceFinalize := true, t := Recorded(sh.t));
    var c1 := c.(pc := PublishOpen(ReadAfter), before := sh.t.generation);
    if sh.epoch >= U64_MAX {
      PublishRefused(done, i, c1);
    } else {
      PublishesOpen(done, i, c1);
    }
  }

  /** An Initialize alone does exactly that. */
  lemma InitializeAlone(sh: Shared, i: nat, ok: bool)
    requires Idle(sh)
    ensures Alone(sh, i, INITIALIZE, ok).0 == InitializeOutcome(sh, ok) && Alone(sh, i, INITIALIZE, ok).1.pc == Done
  {
    if sh.t.finalizeFailed || (NewCycle(sh.t) && sh.t.generation >= U64_MAX) {
      GateRefuses(sh, i, ok);
      return;
    }
    GatePasses(sh, i, ok);
    Begins(sh, i, ok);
    if sh.epoch < U64_MAX {
      var (sh1, c1) := Begun(sh);
      MarksAttempt(sh1, i, c1, ok);
      var sh2, c2 := sh1.(t := Marked(sh.t)), c1.(pc := NativeInit);
      if ok {
        Succeeds(sh2, i, c2);
      } else {
        FailsBack(sh2, i, c2);
      }
    }
  }

  // Finalize.

  const FINALIZE := NewCall(Seal(TrySeal), OpenSession)

  lemma SealsAndEnters(sh: Shared, i: nat, ok: bool)
    requires Idle(sh) && sh.state.Open? && sh.epoch < U64_MAX
    ensures Alone(sh, i, FINALIZE, ok) == Alone(
      sh.(epoch := sh.epoch + 1, state := Finalizing), i,
      FINALIZE.(pc := Finalize(Snapshot), prior := Open, epoch := sh.epoch + 1), ok)
  {
    var c := FINALIZE;
    var sh1, c1 := sh.(epoch := sh.epoch + 1, state := Draining), c.(prior := Open, epoch := sh.epoch + 1);
    if !ok {
      assert Alone(sh, i, c, ok) == Alone(sh, i, c.(pc := Seal(SealQueued)), ok);
      assert Alone(sh, i, c.(pc := Seal(SealQueued)), ok) == Alone(sh1, i, c1.(pc := Seal(Enter)), ok);
    } else {
      assert Alone(sh, i, c, ok) == Alone(sh1, i, c1.(pc := Seal(Enter)), ok);
    }
    assert Alone(sh1, i, c1.(pc := Seal(Enter)), ok) == Alone(sh1, i, c1.(pc := Seal(EnterQueued)), ok);
  }

  /** A failed native Finalize reopens the domain and records the failure. */
  lemma FinalizeFails(sh: Shared, i: nat, c: Call)
    requires Free(sh) && c.pc == Finalize(Snapshot) && c.epoch == sh.epoch && c.prior == Open
    ensures Alone(sh, i, c, false).0 == sh.(state := Open, epoch := Bump(sh.epoch), t := sh.t.(finalizeFailed := true))
    ensures Alone(sh, i, c, false).1.pc == Done
  {
    var c1 := c.(snapshot := sh.t.completions);
    assert Alone(sh, i, c, false) == Alone(sh, i, c1.(pc := Finalize(NativeFinalize)), false);
    assert Alone(sh, i, c1.(pc := Finalize(NativeFinalize)), false) == Alone(sh, i, c1.(pc := Finalize(Abandon)), false);
    var sh1 := sh.(state := Open, epoch := Bump(sh.epoch), writer := Some(i));
    assert Alone(sh, i, c1.(pc := Finalize(Abandon)), false) == Alone(sh1, i, c1.(pc := RecordFailure), false);
    var sh2 := sh1.(t := sh.t.(finalizeFailed := true), writer := None);
    assert Alone(sh1, i, c1.(pc := RecordFailure), false) == Alone(sh2, i, c1.(pc := Done), false);
  }

  /** The provider after its Finalize. */
  function TornDown(sh: Shared): Shared {
    sh.(initSinceFinalize := false, liveSessions := 0, incarnation := sh.incarnation + 1)
  }

  /** A successful one ends the incarnation ... */
  lemma FinalizeSucceeds(sh: Shared, i: nat, c: Call)
    requires c.pc == Finalize(Snapshot)
    ensures Alone(sh, i, c, true) ==
      Alone(TornDown(sh), i, c.(pc := Finalize(FinishQueued), snapshot := sh.t.completions), true)
  {
    var c1 := c.(snapshot := sh.t.completions);
    assert Alone(sh, i, c, true) == Alone(sh, i, c1.(pc := Finalize(NativeFinalize)), true);
    var sh1 := TornDown(sh);
    assert Alone(sh, i, c1.(pc := Finalize(NativeFinalize)), true) == Alone(sh1, i, c1.(pc := Finalize(Publish)), true);
  }

  /** ... and publishes `Finalized`, if an epoch is left; the publish ... */
  lemma FinalizePublishes(sh: Shared, i: nat, c: Call)
    requires Free(sh) && sh.state.Finalizing? && c.pc == Finalize(FinishQueued) && c.epoch == sh.epoch
    ensures Alone(sh, i, c, true) ==
      if sh.epoch < U64_MAX
      then Alone(sh.(state := Finalized, epoch := sh.epoch + 1, writer := Some(i)), i, c.(pc := Finish(SetFinalized)), true)
      else (sh.(state := Uncertain), c.(pc := Done))
  {
    var sh1 := sh.(state := Uncertain);
    assert Alone(sh1, i, c.(pc := Done), true) == (sh1, c.(pc := Done));
  }

  /** ... clears the facts of the incarnation it ended ... */
  lemma ClearsFacts(sh: Shared, i: nat, c: Call)
    requires c.pc == Finish(SetFinalized) && c.snapshot == sh.t.completions
    ensures Alone(sh, i, c, true) == Alone(
      sh.(t := sh.t.(finalizedOk := true, finalizeFailed := false, attemptedSinceFinalize := false)), i,
      c.(pc := Finish(ZeroSessions)), true)
  {
    var sh1 := sh.(t := sh.t.(finalizedOk := true));
    assert Alone(sh, i, c, true) == Alone(sh1, i, c.(pc := Finish(ClearFailed)), true);
    var sh2 := sh1.(t := sh1.t.(finalizeFailed := false));
    assert Alone(sh1, i, c.(pc := Finish(ClearFailed)), true) == Alone(sh2, i, c.(pc := Finish(CompareCount)), true);
    assert Alone(sh2, i, c.(pc := Finish(CompareCount)), true) == Alone(sh2, i, c.(pc := Finish(ClearSince)), true);
  }

  /** ... and its sessions and bindings. */
  lemma ClearsSessions(sh: Shared, i: nat, c: Call)
    requires sh.writer == Some(i) && sh.lifetime.None? && c.pc == Finish(ZeroSessions)
    ensures Alone(sh, i, c, true).0 == sh.(writer := None, bindings := {}, t := sh.t.(openSessions := 0))
    ensures Alone(sh, i, c, true).1.pc == Done
  {
    var sh4 := sh.(t := sh.t.(openSessions := 0));
    assert Alone(sh, i, c, true) == Alone(sh4, i, c.(pc := Finish(TakeLeafLast)), true);
    var sh5 := sh4.(lifetime := Some(i));
    assert Alone(sh4, i, c.(pc := Finish(TakeLeafLast)), true) == Alone(sh5, i, c.(pc := Finish(PurgeLast)), true);
    var sh6 := sh4.(bindings := {}, writer := None);
    assert Alone(sh5, i, c.(pc := Finish(PurgeLast)), true) == Alone(sh6, i, c.(pc := Done), true);
  }

  /** The whole publish section. */
  lemma Clears(sh: Shared, i: nat, c: Call)
    requires sh.writer == Some(i) && sh.lifetime.None? && c.pc == Finish(SetFinalized) && c.snapshot == sh.t.completions
    ensures Alone(sh, i, c, true).0 == sh.(
      writer := None, bindings := {},
      t := sh.t.(finalizedOk := true, finalizeFailed := false, attemptedSinceFinalize := false, openSessions := 0))
    ensures Alone(sh, i, c, true).1.pc == Done
  {
    ClearsFacts(sh, i, c);
    var t := sh.t.(finalizedOk := true, finalizeFailed := false, attemptedSinceFinalize := false);
    ClearsSessions(sh.(t := t), i, c.(pc := Finish(ZeroSessions)));
  }

  /** What a Finalize should do: nothing unless the domain is open, else tear down or record the failure; the
      last epoch serves to seal but not to publish. */
  function FinalizeOutcome(sh: Shared, ok: bool): Shared {
    if !sh.state.Open? || sh.epoch >= U64_MAX then sh
    else if !ok then sh.(epoch := Bump(sh.epoch + 1), t := sh.t.(finalizeFailed := true))
    else if sh.epoch + 1 >= U64_MAX then TornDown(sh).(state := Uncertain, epoch := sh.epoch + 1)
    else TornDown(sh).(
      state := Finalized, epoch := sh.epoch + 2, bindings := {},
      t := sh.t.(finalizedOk := true, finalizeFailed := false, attemptedSinceFinalize := false, openSessions := 0))
  }

  lemma FinalizeDenied(sh: Shared, i: nat, ok: bool)
    requires Free(sh) && (!sh.state.Open? || sh.epoch >= U64_MAX)
    ensures Alone(sh, i, FINALIZE, ok).0 == sh && Alone(sh, i, FINALIZE, ok).1.pc == Done
  {
    var c := FINALIZE;
    if !ok {
      assert Alone(sh, i, c, ok) == Alone(sh, i, c.(pc := Seal(SealQueued)), ok);
      assert Alone(sh, i, c.(pc := Seal(SealQueued)), ok) == Alone(sh, i, c.(pc := Done), ok);
    } else {
      assert Alone(sh, i, c, ok) == Alone(sh, i, c.(pc := Done), ok);
    }
  }

  /** From a success of the provider to the end. */
  lemma TearsDown(sh: Shared, i: nat, c: Call)
    requires Free(sh) && sh.lifetime.None? && sh.state.Finalizing? && c.pc == Finalize(Snapshot) && c.epoch == sh.epoch
    ensures Alone(sh, i, c, true).0 ==
      if sh.epoch >= U64_MAX then TornDown(sh).(state := Uncertain)
      else TornDown(sh).(
        state := Finalized, epoch := sh.epoch + 1, bindings := {},
        t := sh.t.(finalizedOk := true, finalizeFailed := false, attemptedSinceFinalize := false, openSessions := 0))
    ensures Alone(sh, i, c, true).1.pc == Done
  {
    FinalizeSucceeds(sh, i, c);
    var sh1, c1 := TornDown(sh), c.(pc := Finalize(FinishQueued), snapshot := sh.t.completions);
    FinalizePublishes(sh1, i, c1);
    if sh.epoch < U64_MAX {
      Clears(sh1.(state := Finalized, epoch := sh.epoch + 1, writer := Some(i)), i, c1.(pc := Finish(SetFinalized)));
    }
  }

  /** A Finalize alone does exactly that. */
  lemma FinalizeAlone(sh: Shared, i: nat, ok: bool)
    requires Idle(sh)
    ensures Alone(sh, i, FINALIZE, ok).0 == FinalizeOutcome(sh, ok) && Alone(sh, i, FINALIZE, ok).1.pc == Done
  {
    if !sh.state.Open? || sh.epoch >= U64_MAX {
      FinalizeDenied(sh, i, ok);
      return;
    }
    SealsAndEnters(sh, i, ok);
    var sh1 := sh.(epoch := sh.epoch + 1, state := Finalizing);
    var c1 := FINALIZE.(pc := Finalize(Snapshot), prior := Open, epoch := sh.epoch + 1);
    if ok {
      TearsDown(sh1, i, c1);
    } else {
      FinalizeFails(sh1, i, c1);
    }
  }

  /** A Finalize alone that the provider accepts lets the backend be released, and a re-initialization start
      afresh, exactly when an epoch is left to publish it. */
  lemma CleanFinalizeReleases(sh: Shared, i: nat)
    requires Idle(sh) && Ground(sh) && sh.state.Open?
    ensures var t := Alone(sh, i, FINALIZE, true).0.t;
            && (Retirement(t) == Release <==> sh.epoch + 2 <= U64_MAX)
            && (NewCycle(t) <==> sh.epoch + 2 <= U64_MAX)
  {
    FinalizeAlone(sh, i, true);
  }

  // In the transition system.

  /** Only admission looks at the other calls. */
  lemma OthersUnseen(sh: Shared, quiet: bool, i: nat, c: Call, ch: Choice)
    requires c.pc.Admit? ==> quiet
    ensures CallStep(sh, quiet, i, c, ch) == CallStep(sh, true, i, c, ch)
  {
  }

  /** From any reachable world the others of which are done, what a call does alone is reachable. */
  lemma {:induction false} AloneIsReachable(s: World, i: nat, ok: bool)
    requires Reachable(s) && i < |s.calls| && forall j :: 0 <= j < |s.calls| && j != i ==> s.calls[j].pc.Done?
    ensures var (sh', c') := Alone(s.sh, i, s.calls[i], ok); Reachable(World(sh', s.calls[i := c']))
    decreases Left(s.calls[i].pc)
  {
    var c, ch := s.calls[i], Plain(ok);
    OthersUnseen(s.sh, NoneQueued(s.calls), i, c, ch);
    var step := CallStep(s.sh, true, i, c, ch);
    if step.None? {
      assert s.calls[i := c] == s.calls;
    } else {
      LeftStep(s.sh, true, i, c, ch);
      var next := World(step.value.0, s.calls[i := step.value.1]);
      assert Steps(s, i, ch, next);
      ReachesOn(s, next);
      AloneIsReachable(next, i, ok);
      var c' := Alone(s.sh, i, c, ok).1;
      assert next.calls[i := c'] == s.calls[i := c'];
    }
  }
}

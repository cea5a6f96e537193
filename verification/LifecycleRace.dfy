/**
 Two reachable interleavings. Two first Initialize calls both decide to open a new cycle, and the later one
 publishes `Open` before the earlier one claims its generation. The claim then moves the generation under
 an admitted call; or, after a session was opened and a Finalize failed, it resets the session count.
 */
module LifecycleRace {
  import opened Wrappers
  import opened LifecycleModel
  import opened LifecycleTheorems
  import opened LifecycleLiveness

  predicate CanDo(s: World, i: nat, ok: bool) {
    i < |s.calls| && CallStep(s.sh, NoneQueued(s.calls), i, s.calls[i], Plain(ok)).Some?
  }

  /** Call `i` takes one step; `ok` is the provider's outcome. */
  function Do(s: World, i: nat, ok: bool): World
    requires CanDo(s, i, ok)
  {
    var step := CallStep(s.sh, NoneQueued(s.calls), i, s.calls[i], Plain(ok)).value;
    World(step.0, s.calls[i := step.1])
  }

  lemma Did(s: World, i: nat, ok: bool := true) returns (s': World)
    requires Reachable(s) && CanDo(s, i, ok)
    ensures s' == Do(s, i, ok) && Reachable(s') && Next(s, s')
  {
    s' := Do(s, i, ok);
    assert Steps(s, i, Plain(ok), s');
    ReachesOn(s, s');
  }

  lemma Came(s: World, pc: Pc) returns (s': World)
    requires Reachable(s) && IsEntry(pc)
    ensures s' == World(s.sh, s.calls + [NewCall(pc, OpenSession)]) && Reachable(s')
  {
    s' := World(s.sh, s.calls + [NewCall(pc, OpenSession)]);
    assert Arrives(s, pc, OpenSession, s');
    ReachesOn(s, s');
  }

  lemma StartReachable()
    ensures Reachable(START)
  {
    assert IsRun([START]);
  }

  /** A first Initialize passes the gate. */
  lemma ToGate(s: World, i: nat) returns (s': World)
    requires Reachable(s) && i < |s.calls| && s.calls[i] == NewCall(Gate(LoadFailed), OpenSession)
    requires !s.sh.t.finalizeFailed && !s.sh.t.initialized && s.sh.t.generation == 0
    ensures Reachable(s') && s' == s.(calls := s.calls[i := s.calls[i].(pc := Gate(Begin))])
  {
    s' := Did(s, i);
    assert s'.calls[i].pc == Gate(LoadInitialized);
    s' := Did(s', i);
    assert s'.calls[i].pc == Gate(LoadGeneration);
    s' := Did(s', i);
  }

  /** ... and begins. */
  lemma ToBegun(s: World, i: nat) returns (s': World)
    requires Reachable(s) && i < |s.calls| && s.calls[i].pc == Gate(Begin)
    requires Free(s.sh) && (s.sh.state.LoadedUninitialized? || s.sh.state.Initializing?) && s.sh.epoch < 10
    ensures Reachable(s')
    ensures s'.calls == s.calls[i := s.calls[i].(pc := Mark(StoreAttempted), prior := s.sh.state, epoch := s.sh.epoch + 1)]
    ensures s'.sh == s.sh.(state := Initializing, epoch := s.sh.epoch + 1)
  {
    s' := Did(s, i);
    assert s'.calls[i].pc == Gate(BeginQueued);
    s' := Did(s', i);
  }

  /** It records its attempt and enters the provider. */
  lemma ToNative(s: World, i: nat) returns (s': World)
    requires Reachable(s) && i < |s.calls| && s.calls[i].pc == Mark(StoreAttempted)
    ensures Reachable(s')
    ensures s'.calls == s.calls[i := s.calls[i].(pc := NativeInit)]
    ensures s'.sh == s.sh.(t := s.sh.t.(initAttempted := true, attemptedSinceFinalize := true))
  {
    s' := Did(s, i);
    s' := Did(s', i);
  }

  /** The provider succeeds, and the success is counted. */
  lemma ToCounted(s: World, i: nat) returns (s': World)
    requires Reachable(s) && i < |s.calls| && s.calls[i].pc.NativeInit?
    ensures Reachable(s')
    ensures s'.calls == s.calls[i := s.calls[i].(pc := Record(CheckFailed), before := s.sh.t.generation)]
    ensures s'.sh == s.sh.(initSinceFinalize := true, t := s.sh.t.(completions := s.sh.t.completions + 1))
  {
    s' := Did(s, i);
    assert s'.calls[i].pc == Record(ReadBefore);
    s' := Did(s', i);
    s' := Did(s', i);
  }

  /** The call decides to open a new cycle. */
  lemma ToClaim(s: World, i: nat) returns (s': World)
    requires Reachable(s) && i < |s.calls| && s.calls[i].pc == Record(CheckFailed)
    requires !s.sh.t.finalizeFailed && !s.sh.t.initialized
    ensures Reachable(s') && s' == s.(calls := s.calls[i := s.calls[i].(pc := Cycle(Claim))])
  {
    s' := Did(s, i);
    assert s'.calls[i].pc == Record(CheckInitialized);
    s' := Did(s', i);
  }

  /** A whole first Initialize up to its claim. */
  lemma ToDecided(s: World, i: nat) returns (s': World)
    requires Reachable(s) && i < |s.calls| && s.calls[i] == NewCall(Gate(LoadFailed), OpenSession)
    requires Free(s.sh) && !s.sh.t.finalizeFailed && !s.sh.t.initialized && s.sh.t.generation == 0
    requires (s.sh.state.LoadedUninitialized? || s.sh.state.Initializing?) && s.sh.epoch < 10
    ensures Reachable(s')
    ensures s'.calls == s.calls[i := s.calls[i].(pc := Cycle(Claim), prior := s.sh.state, epoch := s.sh.epoch + 1, before := 0)]
    ensures s'.sh == s.sh.(
      state := Initializing, epoch := s.sh.epoch + 1, initSinceFinalize := true,
      t := s.sh.t.(initAttempted := true, attemptedSinceFinalize := true, completions := s.sh.t.completions + 1))
  {
    s' := ToGate(s, i);
    s' := ToBegun(s', i);
    s' := ToNative(s', i);
    s' := ToCounted(s', i);
    s' := ToClaim(s', i);
  }

  /** The claim of a new generation. */
  lemma ToClaimed(s: World, i: nat) returns (s': World)
    requires Reachable(s) && i < |s.calls| && s.calls[i].pc == Cycle(Claim) && s.calls[i].before == s.sh.t.generation == 0
    ensures Reachable(s')
    ensures s'.calls == s.calls[i := s.calls[i].(pc := Cycle(ClearFinalized))]
    ensures s'.sh == s.sh.(t := s.sh.t.(generation := 1, initialized := true))
  {
    s' := Did(s, i);
    assert s'.calls[i].pc == Cycle(SetInitialized);
    s' := Did(s', i);
  }

  /** The resets of a new cycle. */
  lemma ToReset(s: World, i: nat) returns (s': World)
    requires Reachable(s) && i < |s.calls| && s.calls[i].pc == Cycle(ClearFinalized)
    ensures Reachable(s') && s'.calls == s.calls[i := s.calls[i].(pc := PublishOpen(ReadAfter))]
    ensures s'.sh == s.sh.(t := s.sh.t.(finalizedOk := false, openSessions := 0))
  {
    s' := Did(s, i);
    assert s'.calls[i].pc == Cycle(ResetSessions);
    s' := Did(s', i);
  }

  /** The generation has moved. */
  lemma ToPublish(s: World, i: nat) returns (s': World)
    requires Reachable(s) && i < |s.calls| && s.calls[i].pc == PublishOpen(ReadAfter) && s.sh.t.generation != s.calls[i].before
    ensures Reachable(s') && s' == s.(calls := s.calls[i := s.calls[i].(pc := PublishOpen(Unqueued), changed := true)])
  {
    s' := Did(s, i);
  }

  /** A current ticket publishes `Open` ... */
  lemma ToPurging(s: World, i: nat) returns (s': World)
    requires Reachable(s) && i < |s.calls| && s.calls[i].pc == PublishOpen(Unqueued) && s.calls[i].changed
    requires Free(s.sh) && s.sh.state.Initializing? && s.sh.epoch == s.calls[i].epoch < 10
    ensures Reachable(s') && s'.sh == s.sh.(state := Open, epoch := s.sh.epoch + 1, writer := Some(i))
    ensures s'.calls == s.calls[i := s.calls[i].(pc := PurgeOpen(TakeLeaf))]
  {
    s' := Did(s, i);
    assert s'.calls[i].pc == PublishOpen(PublishQueued);
    s' := Did(s', i);
  }

  /** ... and purges. */
  lemma ToOpen(s: World, i: nat) returns (s': World)
    requires Reachable(s) && i < |s.calls| && s.calls[i].pc == PurgeOpen(TakeLeaf) && s.sh.lifetime.None?
    ensures Reachable(s') && s'.sh == s.sh.(bindings := {}, writer := None)
    ensures s'.calls == s.calls[i := s.calls[i].(pc := Done)]
  {
    s' := Did(s, i);
    assert s'.calls[i].pc == PurgeOpen(Purge);
    s' := Did(s', i);
  }

  /** An `OpenSession` is admitted. */
  lemma ToAdmitted(s: World, i: nat) returns (s': World)
    requires Reachable(s) && i < |s.calls| && s.calls[i] == NewCall(Admit(Spin), OpenSession)
    requires NoneQueued(s.calls) && s.sh.writer.None? && s.sh.state.Open?
    ensures Reachable(s') && s'.sh == s.sh.(readers := s.sh.readers + {i})
    ensures s'.calls == s.calls[i := s.calls[i].(pc := Serve(NativeCall))]
  {
    s' := Did(s, i);
    s' := Did(s', i);
  }

  /** It opens a session ... */
  lemma ToOpened(s: World, i: nat) returns (s': World)
    requires Reachable(s) && i < |s.calls| && s.calls[i] == NewCall(Serve(NativeCall), OpenSession)
    ensures Reachable(s') && s'.calls == s.calls[i := s.calls[i].(pc := Serve(NoteOpened))]
    ensures s'.sh == s.sh.(
      liveSessions := s.sh.liveSessions + 1, bindings := Entered(s.sh.bindings, {SessionEntry(0, s.sh.incarnation)}))
  {
    s' := Did(s, i);
  }

  /** ... counts it and leaves. */
  lemma ToServed(s: World, i: nat) returns (s': World)
    requires Reachable(s) && i < |s.calls| && s.calls[i].pc == Serve(NoteOpened) && s.sh.readers == {i}
    ensures Reachable(s') && s'.calls == s.calls[i := s.calls[i].(pc := Done)]
    ensures s'.sh == s.sh.(readers := {}, t := s.sh.t.(openSessions := s.sh.t.openSessions + 1))
  {
    s' := Did(s, i);
    assert s'.calls[i].pc == Serve(Leave);
    s' := Did(s', i);
  }

  /** A Finalize seals and enters `Finalizing`. */
  lemma ToFinalizing(s: World, i: nat) returns (s': World)
    requires Reachable(s) && i < |s.calls| && s.calls[i] == NewCall(Seal(TrySeal), OpenSession)
    requires Free(s.sh) && s.sh.state.Open? && s.sh.epoch < 10
    ensures Reachable(s') && s'.sh == s.sh.(state := Finalizing, epoch := s.sh.epoch + 1)
    ensures s'.calls == s.calls[i := s.calls[i].(pc := Finalize(Snapshot), prior := Open, epoch := s.sh.epoch + 1)]
  {
    s' := Did(s, i);
    assert s'.calls[i].pc == Seal(Enter);
    s' := Did(s', i);
    assert s'.calls[i].pc == Seal(EnterQueued);
    s' := Did(s', i);
  }

  /** The provider refuses ... */
  lemma ToRefused(s: World, i: nat) returns (s': World)
    requires Reachable(s) && i < |s.calls| && s.calls[i].pc == Finalize(Snapshot)
    ensures Reachable(s') && s'.sh == s.sh
    ensures s'.calls == s.calls[i := s.calls[i].(pc := Finalize(Abandon), snapshot := s.sh.t.completions)]
  {
    s' := Did(s, i);
    assert s'.calls[i].pc == Finalize(NativeFinalize);
    s' := Did(s', i, false);
  }

  /** ... and the failure is recorded. */
  lemma ToFailed(s: World, i: nat) returns (s': World)
    requires Reachable(s) && i < |s.calls| && s.calls[i].pc == Finalize(Abandon) && s.calls[i].prior.Open?
    requires Free(s.sh) && s.calls[i].epoch == s.sh.epoch < 10
    ensures Reachable(s') && s'.sh == s.sh.(state := Open, epoch := s.sh.epoch + 1, t := s.sh.t.(finalizeFailed := true))
    ensures s'.calls == s.calls[i := s.calls[i].(pc := Done)]
  {
    s' := Did(s, i);
    assert s'.calls[i].pc == RecordFailure;
    s' := Did(s', i);
  }

  /** Two first Initialize calls, both at their claim. */
  lemma BothDecided() returns (s: World)
    ensures Reachable(s) && |s.calls| == 2 && s.calls[0].pc == Cycle(Claim)
    ensures s.calls[1].pc == Cycle(Claim) && s.calls[1].before == 0 && s.calls[1].epoch == s.sh.epoch == 2
    ensures Free(s.sh) && s.sh.lifetime.None? && s.sh.state.Initializing? && s.sh.t.generation == 0 && s.sh.liveSessions == 0
  {
    StartReachable();
    s := Came(START, Gate(LoadFailed));
    s := ToDecided(s, 0);
    s := Came(s, Gate(LoadFailed));
    s := ToDecided(s, 1);
  }

  /** The later one publishes `Open`; the earlier one is still at its claim. */
  lemma OpenWithClaimLeft() returns (s: World)
    ensures Reachable(s) && |s.calls| == 2 && s.calls[0].pc == Cycle(Claim) && s.calls[1].pc.Done?
    ensures Free(s.sh) && s.sh.lifetime.None? && s.sh.state.Open? && s.sh.epoch == 3 && s.sh.liveSessions == 0
    ensures s.sh.t.generation == 1 && s.sh.t.openSessions == 0
  {
    s := BothDecided();
    s := ToClaimed(s, 1);
    s := ToReset(s, 1);
    s := ToPublish(s, 1);
    s := ToPurging(s, 1);
    s := ToOpen(s, 1);
  }

  lemma GenerationCanMoveUnderAdmittedCall() returns (s: World, s': World, r: nat)
    ensures Reachable(s) && Next(s, s') && r in s.sh.readers && r in s'.sh.readers
    ensures s'.sh.t.generation == s.sh.t.generation + 1
  {
    s := OpenWithClaimLeft();
    s := Came(s, Admit(Spin));
    r := 2;
    s := ToAdmitted(s, 2);
    s' := Did(s, 0);
  }

  /** A session is open, a Finalize has failed, and the claim is still to come. */
  lemma FailedWithClaimLeft() returns (s: World)
    ensures Reachable(s) && |s.calls| == 4 && s.calls[0].pc == Cycle(Claim)
    ensures s.calls[1].pc.Done? && s.calls[2].pc.Done? && s.calls[3].pc.Done?
    ensures s.sh.t.finalizeFailed && s.sh.t.generation == 1 && s.sh.t.openSessions == 1 && s.sh.liveSessions == 1
  {
    s := OpenWithClaimLeft();
    s := Came(s, Admit(Spin));
    s := ToAdmitted(s, 2);
    s := ToOpened(s, 2);
    s := ToServed(s, 2);
    s := Came(s, Seal(TrySeal));
    s := ToFinalizing(s, 3);
    s := ToRefused(s, 3);
    s := ToFailed(s, 3);
  }

  /** Call 0 takes a store of its new cycle, along a run without a publish. */
  lemma Goes(s: World, run: seq<World>) returns (longer: seq<World>)
    requires UnpublishedRun(s, run) && Reachable(run[|run| - 1])
    requires var w := run[|run| - 1]; |w.calls| > 0 && w.calls[0].pc.Cycle? && w.sh.t.generation < 10
    ensures UnpublishedRun(s, longer) && Reachable(longer[|longer| - 1])
    ensures var w := run[|run| - 1]; var (sh', c') := CycleStep(w.sh, w.calls[0]);
            longer == run + [World(sh', w.calls[0 := c'])]
  {
    var w := run[|run| - 1];
    var s' := Did(w, 0);
    Extends(s, run, s');
    longer := run + [s'];
  }

  /** From a recorded Finalize failure, with no publish on the way, to a session count of zero over a live session. */
  lemma FailureWindowCanResetSessions() returns (s: World, run: seq<World>)
    ensures Reachable(s) && s.sh.t.finalizeFailed && s.sh.t.openSessions == 1 && UnpublishedRun(s, run)
    ensures var last := run[|run| - 1];
            && last.sh.t.finalizeFailed && last.sh.t.openSessions == 0 && last.sh.liveSessions == 1
            && last.sh.t.generation == s.sh.t.generation + 1
  {
    s := FailedWithClaimLeft();
    run := Goes(s, [s]);
    run := Goes(s, run);
    run := Goes(s, run);
    run := Goes(s, run);
  }
}

/** What the lifecycle guarantees in every interleaving of any number of calls. */
module LifecycleTheorems {
  import opened Words
  import opened LifecycleModel
  import opened LifecycleInvariant
  import opened LifecycleProof

  // --- Retirement ----------------------------------------------------------------

  /**
   The construction slot is released only over a provider that is provably torn down: once no call is
   in flight, no native Initialize (succeeded, failed or refused afterwards) has returned since the
   last successful native Finalize, and no session is left.
   */
  lemma ReleaseIsSound(s: World)
    requires Reachable(s) && Quiescent(s) && Retirement(s.sh.t) == Release
    ensures !s.sh.initSinceFinalize && s.sh.liveSessions == 0
  {
    InvReachable(s);
  }

  /** Even while calls are in flight, a `Release` decision excludes live sessions and admitted work. */
  lemma ReleaseExcludesService(s: World)
    requires Reachable(s) && Retirement(s.sh.t) == Release
    ensures s.sh.liveSessions == 0 && s.sh.readers == {} && !Serving(s.sh.state)
  {
    InvReachable(s);
  }

  /** The domain never wedges in a transient state: once no call is in flight it has settled. */
  lemma SettlesWhenQuiescent(s: World)
    requires Reachable(s) && Quiescent(s)
    ensures !Transient(s.sh.state) && Free(s.sh) && s.sh.lifetime.None?
  {
    InvReachable(s);
    assert s.sh.writer.Some? ==> HoldsWrite(s.calls[s.sh.writer.value].pc);
    assert s.sh.lifetime.Some? ==> HoldsLifetime(s.calls[s.sh.lifetime.value]);
    assert forall r :: r in s.sh.readers ==> s.calls[r].pc.Serve?;
  }

  // --- Admitted work ---------------------------------------------------------------

  /** While any ordinary call is admitted, the native Finalize is not running and every cached binding
      belongs to the provider's current incarnation. */
  lemma AdmittedWorkIsExclusive(s: World, r: nat)
    requires Reachable(s) && r in s.sh.readers
    ensures s.sh.state.Open? && s.sh.writer.None?
    ensures forall i :: 0 <= i < |s.calls| ==> !s.calls[i].pc.Finalize? && !s.calls[i].pc.Finish?
    ensures AllCurrent(s.sh)
  {
    InvReachable(s);
    assert forall i :: 0 <= i < |s.calls| ==> CallOk(s.sh, i, s.calls[i]);
  }

  /** A sealed Finalize is never superseded: it always enters, and its publish is refused only when no
      epoch is left. */
  lemma SealIsNeverSuperseded(s: World, i: nat, ch: Choice, s': World)
    requires Reachable(s) && Steps(s, i, ch, s')
    ensures s.calls[i].pc == Seal(EnterQueued) ==> s'.calls[i].pc == Finalize(Snapshot)
    ensures s.calls[i].pc == Finalize(FinishQueued) ==>
              if s.sh.epoch < U64_MAX then s'.calls[i].pc == Finish(SetFinalized) else s'.sh.state == Uncertain
    ensures s.calls[i].pc == Finalize(Abandon) ==> s'.calls[i].pc == RecordFailure && s'.sh.state == Open
  {
    InvReachable(s);
    assert CallOk(s.sh, i, s.calls[i]);
  }

  /** The domain and the incarnation stand still while `r` stays admitted. */
  lemma AdmissionPinsDomain(s: World, s': World, r: nat)
    requires Reachable(s) && Next(s, s') && r in s.sh.readers && r in s'.sh.readers
    ensures s'.sh.state == s.sh.state && s'.sh.epoch == s.sh.epoch && s'.sh.incarnation == s.sh.incarnation
  {
    InvReachable(s);
    if i: nat, ch :| Steps(s, i, ch, s') {
      assert CallOk(s.sh, i, s.calls[i]);
      PinStep(s.sh, NoneQueued(s.calls), i, s.calls[i], ch, r);
    }
  }

  lemma PinStep(sh: Shared, quiet: bool, i: nat, c: Call, ch: Choice, r: nat)
    requires r in sh.readers && CallStep(sh, quiet, i, c, ch).Some?
    requires sh.state.Open? && TicketOf(sh, c)
    ensures var (sh', c') := CallStep(sh, quiet, i, c, ch).value;
            sh'.state == sh.state && sh'.epoch == sh.epoch && sh'.incarnation == sh.incarnation
  {
  }

  // --- What one step can do to an incarnation ----------------------------------------

  /** At its claim, with a generation left. */
  predicate Claims(sh: Shared, c: Call) {
    sh.t.generation < U64_MAX && c.pc == Cycle(Claim)
  }

  /** Past its claim, with the session count still to be reset. */
  predicate Resetting(pc: Pc) {
    pc == Cycle(SetInitialized) || pc == Cycle(ClearFinalized) || pc == Cycle(ResetSessions)
  }

  /** A close or a destroy that names the binding returns with success. */
  predicate Releases(c: Call, ch: Choice, b: Binding) {
    && c.pc == Serve(NativeCall) && ch.ok
    && ((c.kind.CloseSessions? && ClosesBinding(ch, b)) || (c.kind.Destroy? && DestroysBinding(ch, b)))
  }

  predicate Purges(pc: Pc) {
    pc.PurgeOpen? || pc.Finish?
  }

  /**
   What a step can do to the tracker: the generation moves by a claim alone, a recorded failure is cleared
   by a publish alone, and unless it publishes a step lowers the session count only by the exchange after
   a close, by what was closed, or at the reset of a new cycle.
   */
  predicate TrackerEffect(sh: Shared, c: Call, t': Tracker) {
    && (t'.generation == sh.t.generation || Claims(sh, c))
    && (sh.t.finalizeFailed ==> t'.finalizeFailed || c.pc.Finish?)
    && (sh.t.openSessions <= t'.openSessions || c.pc.Finish? || c.pc == Cycle(ResetSessions)
        || (c.pc == Serve(SwapCount) && sh.t.openSessions == t'.openSessions + c.closing))
  }

  lemma CycleEffect(sh: Shared, c: Call)
    requires c.pc.Cycle?
    ensures TrackerEffect(sh, c, CycleStep(sh, c).0.t)
  {
  }

  lemma FinishEffect(sh: Shared, i: nat, c: Call)
    requires c.pc.Finish? && FinishStep(sh, i, c).Some?
    ensures TrackerEffect(sh, c, FinishStep(sh, i, c).value.0.t)
  {
  }

  lemma ServeEffect(sh: Shared, i: nat, c: Call, ch: Choice)
    requires c.pc.Serve? && ServeStep(sh, i, c, ch).Some?
    ensures TrackerEffect(sh, c, ServeStep(sh, i, c, ch).value.0.t)
  {
  }

  lemma StoresEffect(sh: Shared, c: Call)
    ensures c.pc.Mark? ==> TrackerEffect(sh, c, MarkStep(sh, c).0.t)
    ensures c.pc.Record? ==> TrackerEffect(sh, c, RecordStep(sh, c).0.t)
    ensures c.pc.Remark? ==> TrackerEffect(sh, c, RemarkStep(sh, c).0.t)
    ensures TrackerEffect(sh, c, RecordFailureStep(sh, c).0.t)
  {
  }

  lemma TrackerStep(sh: Shared, quiet: bool, i: nat, c: Call, ch: Choice)
    requires CallStep(sh, quiet, i, c, ch).Some?
    ensures TrackerEffect(sh, c, CallStep(sh, quiet, i, c, ch).value.0.t)
  {
    match c.pc
    case Mark(_) => StoresEffect(sh, c);
    case Record(_) => StoresEffect(sh, c);
    case Cycle(_) => CycleEffect(sh, c);
    case Remark(_) => StoresEffect(sh, c);
    case RecordFailure => StoresEffect(sh, c);
    case Finish(_) => FinishEffect(sh, i, c);
    case Serve(_) => ServeEffect(sh, i, c, ch);
    case _ => TrackerKept(sh, quiet, i, c, ch);
  }

  lemma CycleEntered(sh: Shared, quiet: bool, i: nat, c: Call, ch: Choice)
    requires !c.pc.Record? && !c.pc.Cycle? && CallStep(sh, quiet, i, c, ch).Some?
    ensures !CallStep(sh, quiet, i, c, ch).value.1.pc.Cycle?
  {
  }

  /** Resets are begun by a claim alone, and nobody decides to open a cycle over a live incarnation. */
  lemma DecideStep(sh: Shared, quiet: bool, i: nat, c: Call, ch: Choice)
    requires !Claims(sh, c) && CallStep(sh, quiet, i, c, ch).Some?
    ensures var (sh', c') := CallStep(sh, quiet, i, c, ch).value;
            && (Resetting(c'.pc) ==> Resetting(c.pc))
            && (Live(sh.t) ==> c'.pc != Cycle(Claim))
  {
    if !c.pc.Record? && !c.pc.Cycle? {
      CycleEntered(sh, quiet, i, c, ch);
    }
  }

  /** Unless it purges, a step loses a binding only to a close or destroy that names it, or to a newer one under
      its handle. */
  lemma BindingsStep(sh: Shared, quiet: bool, i: nat, c: Call, ch: Choice, b: Binding)
    requires !Purges(c.pc) && CallStep(sh, quiet, i, c, ch).Some?
    requires b in sh.bindings && b !in CallStep(sh, quiet, i, c, ch).value.0.bindings
    ensures Releases(c, ch, b) || HasKey(CallStep(sh, quiet, i, c, ch).value.0.bindings, b)
  {
  }

  // --- The generation ------------------------------------------------------------

  /** Some Initialize has decided to open a new cycle and has a generation left to claim. */
  predicate Claiming(s: World) {
    exists i :: 0 <= i < |s.calls| && Claims(s.sh, s.calls[i])
  }

  /** Some Initialize has claimed a generation, or is about to, and has not reset the session count. */
  predicate ResetDue(s: World) {
    Claiming(s) || exists i :: 0 <= i < |s.calls| && Resetting(s.calls[i].pc)
  }

  lemma NoClaimKept(s: World, s': World)
    requires Live(s.sh.t) && !Claiming(s) && Next(s, s')
    ensures !Claiming(s') && s'.sh.t.generation == s.sh.t.generation
    ensures !ResetDue(s) ==> !ResetDue(s')
  {
    if i: nat, ch :| Steps(s, i, ch, s') {
      TrackerStep(s.sh, NoneQueued(s.calls), i, s.calls[i], ch);
      DecideStep(s.sh, NoneQueued(s.calls), i, s.calls[i], ch);
      assert forall j :: 0 <= j < |s.calls| && j != i ==> s'.calls[j] == s.calls[j];
    } else {
      var pc, kind :| Arrives(s, pc, kind, s');
      assert forall j :: 0 <= j < |s.calls| ==> s'.calls[j] == s.calls[j];
    }
  }

  /** A run from `s` through which `r` stays admitted. */
  ghost predicate AdmittedRun(s: World, r: nat, run: seq<World>) {
    IsRun(run) && run[0] == s && forall k :: 0 <= k < |run| ==> r in run[k].sh.readers
  }

  lemma {:induction false} NoClaimAlongAdmission(s: World, r: nat, run: seq<World>, k: nat)
    requires Inv(s) && !Claiming(s) && AdmittedRun(s, r, run) && k < |run|
    ensures !Claiming(run[k]) && run[k].sh.t.generation == s.sh.t.generation
  {
    if k > 0 {
      NoClaimAlongAdmission(s, r, run, k - 1);
      InvOnRun(run, k - 1);
      assert NextAt(run, k);
      NoClaimKept(run[k - 1], run[k]);
    }
  }

  predicate NoneFinishing(s: World) {
    forall i :: 0 <= i < |s.calls| ==> !s.calls[i].pc.Finish?
  }

  /** The step in which a waiting claim moves the generation. */
  lemma ClaimMoves(s: World) returns (i: nat, s': World)
    requires Claiming(s)
    ensures Steps(s, i, Plain(true), s') && s'.sh.t.generation == s.sh.t.generation + 1
    ensures s'.sh.readers == s.sh.readers && s'.calls[i].pc == Cycle(SetInitialized)
    ensures NoneFinishing(s) ==> NoneFinishing(s')
  {
    i :| 0 <= i < |s.calls| && Claims(s.sh, s.calls[i]);
    var step := CallStep(s.sh, NoneQueued(s.calls), i, s.calls[i], Plain(true));
    s' := World(step.value.0, s.calls[i := step.value.1]);
  }

  /**
   The generation is NOT fixed by admission alone: it stays fixed for as long as `r` stays admitted, in
   every continuation, exactly when no Initialize had already decided to open a new cycle.
   */
  lemma GenerationFixedWhileAdmitted(s: World, r: nat)
    requires Reachable(s) && r in s.sh.readers
    ensures (forall run: seq<World> :: AdmittedRun(s, r, run) ==> run[|run| - 1].sh.t.generation == s.sh.t.generation)
            <==> !Claiming(s)
  {
    InvReachable(s);
    if Claiming(s) {
      var i, s' := ClaimMoves(s);
      assert NextAt([s, s'], 1);
      assert AdmittedRun(s, r, [s, s']);
    } else {
      forall run: seq<World> | AdmittedRun(s, r, run)
        ensures run[|run| - 1].sh.t.generation == s.sh.t.generation
      {
        NoClaimAlongAdmission(s, r, run, |run| - 1);
      }
    }
  }

  // --- After a failed Finalize -----------------------------------------------------

  /** A run from `s` along which no Finalize publishes. */
  ghost predicate UnpublishedRun(s: World, run: seq<World>) {
    IsRun(run) && run[0] == s && forall k :: 0 <= k < |run| ==> NoneFinishing(run[k])
  }

  lemma FailedIsLive(s: World)
    requires Inv(s) && s.sh.t.finalizeFailed && NoneFinishing(s)
    ensures Live(s.sh.t)
    ensures forall i :: 0 <= i < |s.calls| ==> !Purges(s.calls[i].pc)
  {
    assert forall i :: 0 <= i < |s.calls| ==> CallOk(s.sh, i, s.calls[i]);
    assert s.sh.t.finalizedOk ==> HoldsWrite(s.calls[s.sh.writer.value].pc);
  }

  /** A close or destroy that names `b` returns in this step. */
  ghost predicate Released(s: World, s': World, b: Binding) {
    exists i: nat, ch :: Steps(s, i, ch, s') && Releases(s.calls[i], ch, b)
  }

  /** The exchange after a close takes what was closed off the count in this step. */
  ghost predicate Discounted(s: World, s': World) {
    exists i: nat, ch :: Steps(s, i, ch, s') && s.calls[i].pc == Serve(SwapCount)
                    && s.sh.t.openSessions == s'.sh.t.openSessions + s.calls[i].closing
  }

  /** A new cycle's reset of the session count is this step. */
  ghost predicate Reset(s: World, s': World) {
    exists i: nat, ch :: Steps(s, i, ch, s') && s.calls[i].pc == Cycle(ResetSessions)
  }

  /** In step `k` the incarnation is kept as after a failed Finalize it should be. */
  ghost predicate HeldAt(run: seq<World>, k: nat)
    requires 0 < k < |run|
  {
    var s, s' := run[k - 1], run[k];
    && s'.sh.t.finalizeFailed && Live(s'.sh.t)
    && (forall b :: b in s.sh.bindings && b !in s'.sh.bindings ==> Released(s, s', b) || HasKey(s'.sh.bindings, b))
    && (s'.sh.t.openSessions < s.sh.t.openSessions ==> Discounted(s, s') || Reset(s, s'))
  }

  ghost predicate ResetAt(run: seq<World>, k: nat)
    requires 0 < k < |run|
  {
    Reset(run[k - 1], run[k])
  }

  lemma FailureKept(s: World, s': World)
    requires s.sh.t.finalizeFailed && NoneFinishing(s) && Next(s, s')
    ensures s'.sh.t.finalizeFailed
  {
    if i: nat, ch :| Steps(s, i, ch, s') {
      TrackerStep(s.sh, NoneQueued(s.calls), i, s.calls[i], ch);
    }
  }

  lemma SessionsKept(s: World, s': World)
    requires (forall i :: 0 <= i < |s.calls| ==> !Purges(s.calls[i].pc)) && Next(s, s')
    ensures forall b :: b in s.sh.bindings && b !in s'.sh.bindings ==> Released(s, s', b) || HasKey(s'.sh.bindings, b)
    ensures s'.sh.t.openSessions < s.sh.t.openSessions ==> Discounted(s, s') || Reset(s, s')
  {
    if i: nat, ch :| Steps(s, i, ch, s') {
      var c, quiet := s.calls[i], NoneQueued(s.calls);
      TrackerStep(s.sh, quiet, i, c, ch);
      forall b | b in s.sh.bindings && b !in s'.sh.bindings
        ensures Released(s, s', b) || HasKey(s'.sh.bindings, b)
      {
        BindingsStep(s.sh, quiet, i, c, ch, b);
      }
    }
  }

  lemma {:induction false} FailureOnRun(s: World, run: seq<World>, k: nat)
    requires Inv(s) && s.sh.t.finalizeFailed && UnpublishedRun(s, run) && k < |run|
    ensures run[k].sh.t.finalizeFailed && Inv(run[k])
  {
    InvOnRun(run, k);
    if k > 0 {
      FailureOnRun(s, run, k - 1);
      assert NextAt(run, k);
      FailureKept(run[k - 1], run[k]);
    }
  }

  lemma HeldOnRun(s: World, run: seq<World>, k: nat)
    requires Inv(s) && s.sh.t.finalizeFailed && UnpublishedRun(s, run) && 0 < k < |run|
    ensures HeldAt(run, k)
  {
    FailureOnRun(s, run, k - 1);
    FailureOnRun(s, run, k);
    FailedIsLive(run[k - 1]);
    FailedIsLive(run[k]);
    assert NextAt(run, k);
    SessionsKept(run[k - 1], run[k]);
  }

  lemma {:induction false} NothingDueOnRun(s: World, run: seq<World>, k: nat)
    requires Inv(s) && s.sh.t.finalizeFailed && UnpublishedRun(s, run) && k < |run| && !Claiming(s)
    ensures !Claiming(run[k]) && run[k].sh.t.generation == s.sh.t.generation
    ensures !ResetDue(s) ==> !ResetDue(run[k])
  {
    if k > 0 {
      NothingDueOnRun(s, run, k - 1);
      FailureOnRun(s, run, k - 1);
      FailedIsLive(run[k - 1]);
      assert NextAt(run, k);
      NoClaimKept(run[k - 1], run[k]);
    }
  }

  lemma Extends(s: World, run: seq<World>, s': World)
    requires UnpublishedRun(s, run) && Next(run[|run| - 1], s') && NoneFinishing(s')
    ensures UnpublishedRun(s, run + [s'])
  {
    var longer := run + [s'];
    forall k | 0 < k < |longer|
      ensures NextAt(longer, k)
    {
      assert k < |run| ==> NextAt(run, k);
    }
  }

  /** Once a call is past its claim nothing keeps it from the reset. */
  lemma {:induction false} ResetComes(s: World, run: seq<World>, i: nat) returns (longer: seq<World>)
    requires UnpublishedRun(s, run) && i < |run[|run| - 1].calls| && Resetting(run[|run| - 1].calls[i].pc)
    ensures UnpublishedRun(s, longer) && |longer| > 1 && ResetAt(longer, |longer| - 1)
    decreases match run[|run| - 1].calls[i].pc.cycle case SetInitialized => 2 case ClearFinalized => 1 case _ => 0
  {
    var last := run[|run| - 1];
    var step := CallStep(last.sh, NoneQueued(last.calls), i, last.calls[i], Plain(true)).value;
    var next := World(step.0, last.calls[i := step.1]);
    assert Steps(last, i, Plain(true), next);
    Extends(s, run, next);
    longer := run + [next];
    if last.calls[i].pc != Cycle(ResetSessions) {
      longer := ResetComes(s, longer, i);
    }
  }

  lemma DueComes(s: World) returns (run: seq<World>)
    requires NoneFinishing(s) && ResetDue(s)
    ensures UnpublishedRun(s, run) && |run| > 1 && ResetAt(run, |run| - 1)
  {
    if i: nat :| i < |s.calls| && Resetting(s.calls[i].pc) {
      run := ResetComes(s, [s], i);
    } else {
      var i, s' := ClaimMoves(s);
      Extends(s, [s], s');
      run := ResetComes(s, [s] + [s'], i);
    }
  }

  /**
   From a recorded Finalize failure until a Finalize publishes, in any interleaving, the failure stays on
   record, the tracker shows a live incarnation, a binding is lost only to a close or destroy that names it or
   to a newer one under its handle, and the session count falls only by what a close closed or at the reset
   of a new cycle. No such reset comes exactly when no Initialize is at its claim with a generation left or
   between claim and reset, and the generation stays fixed exactly when none is at its claim.
   */
  lemma FailedFinalizeFreezesTheIncarnation(s: World)
    requires Reachable(s) && s.sh.t.finalizeFailed && NoneFinishing(s)
    ensures forall run: seq<World>, k :: UnpublishedRun(s, run) && 0 < k < |run| ==> HeldAt(run, k)
    ensures (forall run: seq<World>, k :: UnpublishedRun(s, run) && 0 < k < |run| ==> !ResetAt(run, k)) <==> !ResetDue(s)
    ensures (forall run: seq<World> :: UnpublishedRun(s, run) ==> run[|run| - 1].sh.t.generation == s.sh.t.generation)
            <==> !Claiming(s)
  {
    InvReachable(s);
    forall run: seq<World>, k | UnpublishedRun(s, run) && 0 < k < |run|
      ensures HeldAt(run, k)
    {
      HeldOnRun(s, run, k);
    }
    ResetExactly(s);
    GenerationExactly(s);
  }

  lemma ResetExactly(s: World)
    requires Inv(s) && s.sh.t.finalizeFailed && NoneFinishing(s)
    ensures (forall run: seq<World>, k :: UnpublishedRun(s, run) && 0 < k < |run| ==> !ResetAt(run, k)) <==> !ResetDue(s)
  {
    if ResetDue(s) {
      var run := DueComes(s);
    } else {
      forall run: seq<World>, k | UnpublishedRun(s, run) && 0 < k < |run|
        ensures !ResetAt(run, k)
      {
        NothingDueOnRun(s, run, k - 1);
      }
    }
  }

  lemma GenerationExactly(s: World)
    requires Inv(s) && s.sh.t.finalizeFailed && NoneFinishing(s)
    ensures (forall run: seq<World> :: UnpublishedRun(s, run) ==> run[|run| - 1].sh.t.generation == s.sh.t.generation)
            <==> !Claiming(s)
  {
    if Claiming(s) {
      var i, s' := ClaimMoves(s);
      Extends(s, [s], s');
    } else {
      forall run: seq<World> | UnpublishedRun(s, run)
        ensures run[|run| - 1].sh.t.generation == s.sh.t.generation
      {
        NothingDueOnRun(s, run, |run| - 1);
      }
    }
  }
}

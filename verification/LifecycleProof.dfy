/** Induction over every interleaving: each step of each call, and each arrival, keeps the invariant. */
module LifecycleProof {
  import opened Words
  import opened Wrappers
  import opened LifecycleModel
  import opened LifecycleInvariant

  lemma OwnKept(sh: Shared, quiet: bool, i: nat, c: Call, ch: Choice)
    requires Ground(sh) && CallOk(sh, i, c) && CallStep(sh, quiet, i, c, ch).Some?
    ensures var (sh', c') := CallStep(sh, quiet, i, c, ch).value; Ground(sh') && CallOk(sh', i, c')
  {
    match c.pc
    case Gate(_) => GateGround(sh, i, c); GateOwnTicket(sh, i, c); GateOwnFacts(sh, i, c);
    case Mark(_) => MarkGround(sh, i, c); MarkOwnTicket(sh, i, c); MarkOwnFacts(sh, i, c);
    case NativeInit => NativeInitOwn(sh, i, c, ch);
    case Record(_) => RecordGround(sh, i, c); RecordOwnTicket(sh, i, c); RecordOwnFacts(sh, i, c);
    case Cycle(_) => CycleGround(sh, i, c); CycleOwnTicket(sh, i, c); CycleOwnFacts(sh, i, c);
    case PublishOpen(_) => PublishGround(sh, i, c); PublishOwn(sh, i, c);
    case PurgeOpen(_) => PurgeOwn(sh, i, c);
    case Settle(_) => SettleOwn(sh, i, c);
    case Remark(_) => RemarkGround(sh, i, c); RemarkOwnTicket(sh, i, c); RemarkOwnFacts(sh, i, c);
    case Seal(_) => SealGround(sh, i, c, ch); SealOwnTicket(sh, i, c, ch); SealOwnFacts(sh, i, c, ch);
    case Finalize(_) => FinalizeGround(sh, i, c, ch); FinalizeOwnTicket(sh, i, c, ch); FinalizeOwnFacts(sh, i, c, ch);
    case RecordFailure => RecordFailureOwn(sh, i, c);
    case Finish(_) => FinishGround(sh, i, c); FinishOwnTicket(sh, i, c); FinishOwnFacts(sh, i, c);
    case Admit(_) => AdmitOwn(sh, quiet, i, c);
    case Serve(_) => ServeOwnTicket(sh, i, c, ch); ServeOwnFacts(sh, i, c, ch);
  }

  lemma OtherKept(sh: Shared, quiet: bool, i: nat, c: Call, ch: Choice, j: nat, d: Call)
    requires Ground(sh) && CallOk(sh, i, c) && CallStep(sh, quiet, i, c, ch).Some?
    requires i != j && CallOk(sh, j, d) && Distinct(c, d)
    ensures var (sh', c') := CallStep(sh, quiet, i, c, ch).value; CallOk(sh', j, d) && Distinct(c', d)
  {
    match c.pc
    case Gate(_) => GateOther(sh, i, c, j, d);
    case Mark(_) => MarkOther(sh, i, c, j, d);
    case NativeInit => NativeInitOther(sh, i, c, ch, j, d);
    case Record(_) => RecordOther(sh, i, c, j, d);
    case Cycle(_) => CycleOtherTicket(sh, i, c, j, d); CycleOtherFacts(sh, i, c, j, d);
    case PublishOpen(_) => PublishOther(sh, i, c, j, d);
    case PurgeOpen(_) => PurgeOther(sh, i, c, j, d);
    case Settle(_) => SettleOther(sh, i, c, j, d);
    case Remark(_) => RemarkOtherTicket(sh, i, c, j, d); RemarkOtherFacts(sh, i, c, j, d);
    case Seal(_) => SealOtherTicket(sh, i, c, ch, j, d); SealOtherFacts(sh, i, c, ch, j, d);
    case Finalize(_) => FinalizeOther(sh, i, c, ch, j, d);
    case RecordFailure => RecordFailureOther(sh, i, c, j, d);
    case Finish(_) => FinishOtherTicket(sh, i, c, j, d); FinishOtherFacts(sh, i, c, j, d);
    case Admit(_) => AdmitOther(sh, quiet, i, c, j, d);
    case Serve(_) =>
      ServeOtherLocks(sh, i, c, ch, j, d);
      ServeOtherTicket(sh, i, c, ch, j, d);
      ServeOtherFacts(sh, i, c, ch, j, d);
  }

  // --- Debts: facts that a call in flight has yet to show --------------------

  /** Its native Initialize has returned; the tracker does not show that yet. */
  predicate Owes(pc: Pc) {
    pc.Settle? || pc.Remark? || pc.Record? || (pc.Cycle? && !pc.cycle.ResetSessions?)
  }

  /** Its native Initialize has returned; the completion count does not include it yet. */
  predicate Uncounted(pc: Pc) {
    pc == Settle(true) || pc == Remark(CountFailed) || pc == Record(ReadBefore) || pc == Record(CountOk)
  }

  /** An Initialize that postdates the last native Finalize is visible, unless some call owes it. */
  predicate Shown(sh: Shared, owes: bool) {
    sh.initSinceFinalize ==> sh.t.attemptedSinceFinalize || !sh.t.finalizedOk || owes
  }

  /** An Initialize that a pending Finalize did not tear down has moved the count past its snapshot. */
  predicate Bounded(sh: Shared, c: Call, uncounted: bool) {
    sh.initSinceFinalize && Clearing(c.pc) ==> c.snapshot < sh.t.completions || uncounted
  }

  /** Past the comparison: clearing the evidence would hide nothing. */
  predicate Erasable(sh: Shared, c: Call, owes: bool) {
    sh.initSinceFinalize && c.pc == Finish(ClearSince) ==> !sh.t.finalizedOk || owes
  }

  /** Where an Initialize can stand. */
  predicate InInitialize(pc: Pc) {
    || pc.Gate? || pc.Mark? || pc.NativeInit? || pc.Record? || pc.Cycle?
    || pc.PublishOpen? || pc.PurgeOpen? || pc.Settle? || pc.Remark?
  }

  lemma ShownKeptInInitialize(sh: Shared, quiet: bool, i: nat, c: Call, ch: Choice, owes: bool)
    requires InInitialize(c.pc)
    requires ExposureOf(sh, c) && CallStep(sh, quiet, i, c, ch).Some?
    requires Shown(sh, owes || Owes(c.pc)) && Erasable(sh, c, owes)
    ensures var (sh', c') := CallStep(sh, quiet, i, c, ch).value; Shown(sh', owes || Owes(c'.pc))
  {
    match c.pc
    case Gate(_) => return;
    case Mark(_) => return;
    case NativeInit => return;
    case Record(_) => return;
    case Cycle(_) => return;
    case PublishOpen(_) => return;
    case PurgeOpen(_) => return;
    case Settle(_) => return;
    case Remark(_) => return;
  }

  lemma ShownKept(sh: Shared, quiet: bool, i: nat, c: Call, ch: Choice, owes: bool)
    requires ExposureOf(sh, c) && CallStep(sh, quiet, i, c, ch).Some?
    requires Shown(sh, owes || Owes(c.pc)) && Erasable(sh, c, owes)
    ensures var (sh', c') := CallStep(sh, quiet, i, c, ch).value; Shown(sh', owes || Owes(c'.pc))
  {
    if InInitialize(c.pc) {
      ShownKeptInInitialize(sh, quiet, i, c, ch, owes);
      return;
    }
    match c.pc
    case Seal(_) => return;
    case Finalize(_) => return;
    case RecordFailure => return;
    case DropSeal => return;
    case Finish(_) => return;
    case Admit(_) => return;
    case Serve(_) => return;
  }

  /** The count never falls, and it grows by the step that stops owing a completion. */
  predicate Counted(sh: Shared, c: Call, sh': Shared, c': Call) {
    && sh.t.completions <= sh'.t.completions
    && (Uncounted(c.pc) ==> Uncounted(c'.pc) || sh.t.completions < sh'.t.completions)
  }

  lemma RecordCounts(sh: Shared, c: Call)
    requires c.pc.Record?
    ensures var (sh', c') := RecordStep(sh, c); Counted(sh, c, sh', c')
  {
  }

  lemma RemarkCounts(sh: Shared, c: Call)
    requires c.pc.Remark?
    ensures var (sh', c') := RemarkStep(sh, c); Counted(sh, c, sh', c')
  {
  }

  lemma SettleCounts(sh: Shared, i: nat, c: Call)
    requires c.pc.Settle? && SettleStep(sh, i, c).Some?
    ensures var (sh', c') := SettleStep(sh, i, c).value; Counted(sh, c, sh', c')
  {
  }

  lemma FinishCounts(sh: Shared, i: nat, c: Call)
    requires c.pc.Finish? && FinishStep(sh, i, c).Some?
    ensures var (sh', c') := FinishStep(sh, i, c).value; Counted(sh, c, sh', c')
  {
  }

  lemma ServeCounts(sh: Shared, i: nat, c: Call, ch: Choice)
    requires c.pc.Serve? && ServeStep(sh, i, c, ch).Some?
    ensures var (sh', c') := ServeStep(sh, i, c, ch).value; Counted(sh, c, sh', c')
  {
  }

  lemma StoresCount(sh: Shared, c: Call)
    ensures c.pc.Mark? ==> var (sh', c') := MarkStep(sh, c); Counted(sh, c, sh', c')
    ensures c.pc.Cycle? ==> var (sh', c') := CycleStep(sh, c); Counted(sh, c, sh', c')
    ensures c.pc.RecordFailure? ==> var (sh', c') := RecordFailureStep(sh, c); Counted(sh, c, sh', c')
  {
  }

  /** Steps elsewhere leave the tracker alone. */
  lemma TrackerKept(sh: Shared, quiet: bool, i: nat, c: Call, ch: Choice)
    requires !c.pc.Mark? && !c.pc.Record? && !c.pc.Cycle? && !c.pc.Remark? && !c.pc.RecordFailure?
    requires !c.pc.Finish? && !c.pc.Serve? && CallStep(sh, quiet, i, c, ch).Some?
    ensures CallStep(sh, quiet, i, c, ch).value.0.t == sh.t
  {
  }

  lemma CountStep(sh: Shared, quiet: bool, i: nat, c: Call, ch: Choice)
    requires CallStep(sh, quiet, i, c, ch).Some?
    ensures var (sh', c') := CallStep(sh, quiet, i, c, ch).value; Counted(sh, c, sh', c')
  {
    match c.pc
    case Mark(_) => StoresCount(sh, c);
    case Record(_) => RecordCounts(sh, c);
    case Cycle(_) => StoresCount(sh, c);
    case Settle(_) => SettleCounts(sh, i, c);
    case Remark(_) => RemarkCounts(sh, c);
    case RecordFailure => StoresCount(sh, c);
    case Finish(_) => FinishCounts(sh, i, c);
    case Serve(_) => ServeCounts(sh, i, c, ch);
    case _ => TrackerKept(sh, quiet, i, c, ch);
  }

  /** A native Initialize that has just returned is not counted yet. */
  lemma SinceStep(sh: Shared, quiet: bool, i: nat, c: Call, ch: Choice)
    requires CallStep(sh, quiet, i, c, ch).Some?
    ensures var (sh', c') := CallStep(sh, quiet, i, c, ch).value;
            sh'.initSinceFinalize ==> sh.initSinceFinalize || Uncounted(c'.pc)
  {
  }

  lemma DebtsOfFinalize(sh: Shared, quiet: bool, i: nat, c: Call, ch: Choice, owes: bool, uncounted: bool)
    requires c.pc.Finalize? || c.pc.Finish?
    requires ExposureOf(sh, c) && CallStep(sh, quiet, i, c, ch).Some?
    requires Bounded(sh, c, uncounted) && Erasable(sh, c, owes) && (uncounted ==> owes)
    ensures var (sh', c') := CallStep(sh, quiet, i, c, ch).value; Bounded(sh', c', uncounted) && Erasable(sh', c', owes)
  {
  }

  lemma OthersClearNothing(sh: Shared, quiet: bool, i: nat, c: Call, ch: Choice)
    requires !c.pc.Finalize? && !c.pc.Finish? && CallStep(sh, quiet, i, c, ch).Some?
    ensures var (sh', c') := CallStep(sh, quiet, i, c, ch).value; !Clearing(c'.pc) && c'.pc != Finish(ClearSince)
  {
    match c.pc
    case Gate(_) => return;
    case Mark(_) => return;
    case NativeInit => return;
    case Record(_) => return;
    case Cycle(_) => return;
    case PublishOpen(_) => return;
    case PurgeOpen(_) => return;
    case Settle(_) => return;
    case Remark(_) => return;
    case Seal(_) => return;
    case RecordFailure => return;
    case DropSeal => return;
    case Admit(_) => return;
    case Serve(_) => return;
  }

  lemma ErasableOther(sh: Shared, quiet: bool, i: nat, c: Call, ch: Choice, d: Call, owes: bool)
    requires HoldsWrite(d.pc) ==> !HoldsWrite(c.pc)
    requires Erasable(sh, d, owes || Owes(c.pc)) && CallStep(sh, quiet, i, c, ch).Some?
    ensures var (sh', c') := CallStep(sh, quiet, i, c, ch).value; Erasable(sh', d, owes || Owes(c'.pc))
  {
  }

  lemma OwnDebts(sh: Shared, quiet: bool, i: nat, c: Call, ch: Choice, owes: bool, uncounted: bool)
    requires ExposureOf(sh, c) && CallStep(sh, quiet, i, c, ch).Some?
    requires Bounded(sh, c, uncounted || Uncounted(c.pc)) && Erasable(sh, c, owes || Owes(c.pc)) && (uncounted ==> owes)
    ensures var (sh', c') := CallStep(sh, quiet, i, c, ch).value;
            Bounded(sh', c', uncounted || Uncounted(c'.pc)) && Erasable(sh', c', owes || Owes(c'.pc))
  {
    if c.pc.Finalize? || c.pc.Finish? {
      DebtsOfFinalize(sh, quiet, i, c, ch, owes, uncounted);
    } else {
      OthersClearNothing(sh, quiet, i, c, ch);
    }
  }

  lemma OthersDebts(sh: Shared, quiet: bool, i: nat, c: Call, ch: Choice, d: Call, owes: bool, uncounted: bool)
    requires (HoldsWrite(d.pc) ==> !HoldsWrite(c.pc)) && CallStep(sh, quiet, i, c, ch).Some?
    requires Bounded(sh, d, uncounted || Uncounted(c.pc)) && Erasable(sh, d, owes || Owes(c.pc))
    requires Clearing(d.pc) ==> d.snapshot <= sh.t.completions
    ensures var (sh', c') := CallStep(sh, quiet, i, c, ch).value;
            Bounded(sh', d, uncounted || Uncounted(c'.pc)) && Erasable(sh', d, owes || Owes(c'.pc))
  {
    CountStep(sh, quiet, i, c, ch);
    SinceStep(sh, quiet, i, c, ch);
    ErasableOther(sh, quiet, i, c, ch, d, owes);
  }

  // --- Who owns a transient state ---------------------------------------------

  predicate Transient(state: ModuleState) {
    state.Initializing? || state.Draining? || state.Finalizing?
  }

  predicate Owns(sh: Shared, c: Call) {
    HasTicket(c.pc) && c.epoch == sh.epoch
  }

  lemma OwnerOwn(sh: Shared, quiet: bool, i: nat, c: Call, ch: Choice)
    requires TicketOf(sh, c) && CallStep(sh, quiet, i, c, ch).Some?
    requires Owns(sh, c) || !Transient(sh.state)
    ensures var (sh', c') := CallStep(sh, quiet, i, c, ch).value; Owns(sh', c') || !Transient(sh'.state)
  {
    match c.pc
    case Gate(_) => return;
    case Mark(_) => return;
    case NativeInit => return;
    case Record(_) => return;
    case Cycle(_) => return;
    case PublishOpen(_) => return;
    case PurgeOpen(_) => return;
    case Settle(_) => return;
    case Remark(_) => return;
    case Seal(_) => return;
    case Finalize(_) => return;
    case RecordFailure => return;
    case Finish(_) => return;
    case Admit(_) => return;
    case Serve(_) => return;
  }

  lemma OwnerOther(sh: Shared, quiet: bool, i: nat, c: Call, ch: Choice, j: nat, d: Call)
    requires TicketOf(sh, c) && CallStep(sh, quiet, i, c, ch).Some?
    requires i != j && TicketOf(sh, d) && Distinct(c, d) && Owns(sh, d)
    ensures var (sh', c') := CallStep(sh, quiet, i, c, ch).value; Owns(sh', d) || Owns(sh', c')
  {
  }

  // --- Bindings ----------------------------------------------------------------

  /** A native Finalize has succeeded and its purge has not run yet. */
  predicate Unpurged(pc: Pc) {
    pc == Finalize(Publish) || pc == Finalize(FinishQueued) || pc.Finish?
  }

  predicate AllCurrent(sh: Shared) {
    forall b :: b in sh.bindings ==> b.incarnation == sh.incarnation
  }

  /** No epoch is left, so no control cycle can ever begin again. */
  predicate Frozen(sh: Shared) {
    sh.state.Uncertain? && sh.epoch == U64_MAX
  }

  lemma BindingsInInitialize(sh: Shared, quiet: bool, i: nat, c: Call, ch: Choice, unpurged: bool)
    requires InInitialize(c.pc) && TicketOf(sh, c) && CallStep(sh, quiet, i, c, ch).Some? && sh.epoch <= U64_MAX
    requires AllCurrent(sh) || Frozen(sh) || unpurged
    ensures var (sh', c') := CallStep(sh, quiet, i, c, ch).value; AllCurrent(sh') || Frozen(sh') || unpurged
  {
    match c.pc
    case Gate(_) => return;
    case Mark(_) => return;
    case NativeInit => return;
    case Record(_) => return;
    case Cycle(_) => return;
    case PublishOpen(_) => return;
    case PurgeOpen(_) => return;
    case Settle(_) => return;
    case Remark(_) => return;
  }

  lemma BindingsOwn(sh: Shared, quiet: bool, i: nat, c: Call, ch: Choice, unpurged: bool)
    requires TicketOf(sh, c) && CallStep(sh, quiet, i, c, ch).Some? && sh.epoch <= U64_MAX
    requires AllCurrent(sh) || Frozen(sh) || unpurged || Unpurged(c.pc)
    ensures var (sh', c') := CallStep(sh, quiet, i, c, ch).value;
            AllCurrent(sh') || Frozen(sh') || unpurged || Unpurged(c'.pc)
  {
    if InInitialize(c.pc) {
      BindingsInInitialize(sh, quiet, i, c, ch, unpurged);
      return;
    }
    match c.pc
    case Seal(_) => return;
    case Finalize(_) => return;
    case RecordFailure => return;
    case Finish(_) => return;
    case Admit(_) => return;
    case Serve(_) => return;
  }

  // --- The invariant of a world ------------------------------------------------

  predicate InRange(s: World) {
    && (s.sh.writer.Some? ==> s.sh.writer.value < |s.calls|)
    && (s.sh.lifetime.Some? ==> s.sh.lifetime.value < |s.calls|)
    && (forall i :: i in s.sh.readers ==> i < |s.calls|)
  }

  predicate CallsOk(s: World) {
    && (forall i :: 0 <= i < |s.calls| ==> CallOk(s.sh, i, s.calls[i]))
    && (forall i, j :: 0 <= i < |s.calls| && 0 <= j < |s.calls| && i != j ==> Distinct(s.calls[i], s.calls[j]))
  }

  /** Some call other than `i` owes. */
  predicate OtherOwes(s: World, i: int) {
    exists j :: 0 <= j < |s.calls| && j != i && Owes(s.calls[j].pc)
  }

  predicate OtherUncounted(s: World, i: int) {
    exists j :: 0 <= j < |s.calls| && j != i && Uncounted(s.calls[j].pc)
  }

  predicate OtherUnpurged(s: World, i: int) {
    exists j :: 0 <= j < |s.calls| && j != i && Unpurged(s.calls[j].pc)
  }

  predicate Owned(s: World) {
    Transient(s.sh.state) ==> exists j :: 0 <= j < |s.calls| && Owns(s.sh, s.calls[j])
  }

  predicate Debts(s: World) {
    && Shown(s.sh, OtherOwes(s, -1))
    && (forall j :: 0 <= j < |s.calls| ==>
          Bounded(s.sh, s.calls[j], OtherUncounted(s, -1)) && Erasable(s.sh, s.calls[j], OtherOwes(s, -1)))
  }

  predicate Purged(s: World) {
    AllCurrent(s.sh) || Frozen(s.sh) || OtherUnpurged(s, -1)
  }

  predicate Inv(s: World) {
    Ground(s.sh) && InRange(s) && CallsOk(s) && Owned(s) && Debts(s) && Purged(s)
  }

  lemma InvStart()
    ensures Inv(START)
  {
  }

  lemma CallsOkArrives(s: World, pc: Pc, kind: Ordinary, s': World)
    requires InRange(s) && CallsOk(s) && Arrives(s, pc, kind, s')
    ensures InRange(s') && CallsOk(s')
  {
    assert CallOk(s'.sh, |s.calls|, s'.calls[|s.calls|]);
  }

  lemma OthersArrive(s: World, pc: Pc, kind: Ordinary, s': World)
    requires Arrives(s, pc, kind, s')
    ensures OtherOwes(s', -1) == OtherOwes(s, -1)
    ensures OtherUncounted(s', -1) == OtherUncounted(s, -1)
    ensures OtherUnpurged(s', -1) == OtherUnpurged(s, -1)
    ensures Owned(s) ==> Owned(s')
  {
    assert forall j :: 0 <= j < |s.calls| ==> s'.calls[j] == s.calls[j];
  }

  lemma InvArrives(s: World, pc: Pc, kind: Ordinary, s': World)
    requires Inv(s) && Arrives(s, pc, kind, s')
    ensures Inv(s')
  {
    CallsOkArrives(s, pc, kind, s');
    OthersArrive(s, pc, kind, s');
    var n := |s.calls|;
    assert forall j :: 0 <= j < n ==> s'.calls[j] == s.calls[j];
    assert Debts(s');
  }

  lemma CallsKept(s: World, i: nat, ch: Choice, s': World)
    requires Ground(s.sh) && InRange(s) && CallsOk(s) && Steps(s, i, ch, s')
    ensures Ground(s'.sh) && CallsOk(s')
  {
    var c, quiet := s.calls[i], NoneQueued(s.calls);
    OwnKept(s.sh, quiet, i, c, ch);
    forall j | 0 <= j < |s.calls| && j != i
      ensures CallOk(s'.sh, j, s'.calls[j]) && Distinct(s'.calls[i], s'.calls[j])
    {
      OtherKept(s.sh, quiet, i, c, ch, j, s.calls[j]);
    }
  }

  /** A step takes or releases locks for the stepping call only. */
  lemma LockStep(sh: Shared, quiet: bool, i: nat, c: Call, ch: Choice)
    requires CallStep(sh, quiet, i, c, ch).Some?
    ensures var (sh', c') := CallStep(sh, quiet, i, c, ch).value;
            && sh'.writer in {sh.writer, Some(i), None}
            && sh'.lifetime in {sh.lifetime, Some(i), None}
            && sh'.readers <= sh.readers + {i}
  {
    match c.pc
    case Gate(_) => return;
    case Mark(_) => return;
    case NativeInit => return;
    case Record(_) => return;
    case Cycle(_) => return;
    case PublishOpen(_) => return;
    case PurgeOpen(_) => return;
    case Settle(_) => return;
    case Remark(_) => return;
    case Seal(_) => return;
    case Finalize(_) => return;
    case RecordFailure => return;
    case DropSeal => return;
    case Finish(_) => return;
    case Admit(_) => return;
    case Serve(_) => return;
  }

  lemma RangeKept(s: World, i: nat, ch: Choice, s': World)
    requires InRange(s) && Steps(s, i, ch, s')
    ensures InRange(s')
  {
    LockStep(s.sh, NoneQueued(s.calls), i, s.calls[i], ch);
  }

  lemma OwnedKept(s: World, i: nat, ch: Choice, s': World)
    requires CallsOk(s) && Owned(s) && Steps(s, i, ch, s')
    ensures Owned(s')
  {
    var c, quiet := s.calls[i], NoneQueued(s.calls);
    if Transient(s.sh.state) && !Owns(s.sh, c) {
      var j :| 0 <= j < |s.calls| && Owns(s.sh, s.calls[j]);
      OwnerOther(s.sh, quiet, i, c, ch, j, s.calls[j]);
      assert Owns(s'.sh, s'.calls[j]) || Owns(s'.sh, s'.calls[i]);
    } else {
      OwnerOwn(s.sh, quiet, i, c, ch);
      assert Owns(s'.sh, s'.calls[i]) || !Transient(s'.sh.state);
    }
  }

  /** What the other calls owe does not change while call `i` steps. */
  lemma OthersUnchanged(s: World, i: nat, ch: Choice, s': World)
    requires Steps(s, i, ch, s')
    ensures OtherOwes(s', -1) == (OtherOwes(s, i) || Owes(s'.calls[i].pc))
    ensures OtherUncounted(s', -1) == (OtherUncounted(s, i) || Uncounted(s'.calls[i].pc))
    ensures OtherUnpurged(s', -1) == (OtherUnpurged(s, i) || Unpurged(s'.calls[i].pc))
    ensures OtherOwes(s, -1) == (OtherOwes(s, i) || Owes(s.calls[i].pc))
    ensures OtherUncounted(s, -1) == (OtherUncounted(s, i) || Uncounted(s.calls[i].pc))
    ensures OtherUnpurged(s, -1) == (OtherUnpurged(s, i) || Unpurged(s.calls[i].pc))
  {
    assert forall j :: 0 <= j < |s.calls| && j != i ==> s'.calls[j] == s.calls[j];
  }

  lemma DebtsKept(s: World, i: nat, ch: Choice, s': World)
    requires Ground(s.sh) && CallsOk(s) && Debts(s) && Steps(s, i, ch, s')
    ensures Debts(s')
  {
    var c, quiet := s.calls[i], NoneQueued(s.calls);
    var owes, uncounted := OtherOwes(s, i), OtherUncounted(s, i);
    OthersUnchanged(s, i, ch, s');
    ShownKept(s.sh, quiet, i, c, ch, owes);
    forall j | 0 <= j < |s'.calls|
      ensures Bounded(s'.sh, s'.calls[j], OtherUncounted(s', -1)) && Erasable(s'.sh, s'.calls[j], OtherOwes(s', -1))
    {
      if j == i {
        OwnDebts(s.sh, quiet, i, c, ch, owes, uncounted);
      } else {
        OthersDebts(s.sh, quiet, i, c, ch, s.calls[j], owes, uncounted);
      }
    }
  }

  lemma PurgedKept(s: World, i: nat, ch: Choice, s': World)
    requires Ground(s.sh) && CallsOk(s) && Purged(s) && Steps(s, i, ch, s')
    ensures Purged(s')
  {
    OthersUnchanged(s, i, ch, s');
    BindingsOwn(s.sh, NoneQueued(s.calls), i, s.calls[i], ch, OtherUnpurged(s, i));
  }

  lemma InvKept(s: World, s': World)
    requires Inv(s) && Next(s, s')
    ensures Inv(s')
  {
    if i, ch :| Steps(s, i, ch, s') {
      CallsKept(s, i, ch, s');
      RangeKept(s, i, ch, s');
      OwnedKept(s, i, ch, s');
      DebtsKept(s, i, ch, s');
      PurgedKept(s, i, ch, s');
    } else {
      var pc, kind :| Arrives(s, pc, kind, s');
      InvArrives(s, pc, kind, s');
    }
  }

  /** Every world that some interleaving passes through satisfies the invariant. */
  lemma {:induction false} InvOnRun(run: seq<World>, k: nat)
    requires IsRun(run) && Inv(run[0]) && k < |run|
    ensures Inv(run[k])
  {
    if k > 0 {
      InvOnRun(run, k - 1);
      assert NextAt(run, k);
      InvKept(run[k - 1], run[k]);
    }
  }

  lemma InvReachable(s: World)
    requires Reachable(s)
    ensures Inv(s)
  {
    var run :| IsRun(run) && run[0] == START && run[|run| - 1] == s;
    InvStart();
    InvOnRun(run, |run| - 1);
  }
}

/**
 The inductive invariant of the lifecycle, one call at a time: what a call's own position says about
 the shared state (`CallOk`) and what holds of the shared state alone (`Ground`).
 */
module LifecycleInvariant {
  import opened Words
  import opened Wrappers
  import opened LifecycleModel

  // --- Locks -----------------------------------------------------------------

  predicate HoldsWrite(pc: Pc) {
    pc.Remark? || pc.PurgeOpen? || pc.RecordFailure? || pc.Finish?
  }

  predicate HoldsLifetime(c: Call) {
    c.pc == PurgeOpen(Purge) || c.pc == Finish(PurgeLast) || (c.pc == Serve(NativeCall) && !c.kind.OpenSession?)
  }

  predicate LocksOf(sh: Shared, i: nat, c: Call) {
    && (sh.writer == Some(i) <==> HoldsWrite(c.pc))
    && (i in sh.readers <==> c.pc.Serve?)
    && (sh.lifetime == Some(i) <==> HoldsLifetime(c))
    && (c.pc == Serve(TakeLifetime) ==> !c.kind.OpenSession?)
  }

  // --- Tickets ---------------------------------------------------------------

  /** An unsettled Initialize that has recorded its exposure marker. */
  predicate PastMark(pc: Pc) {
    pc.NativeInit? || pc.Record? || pc.Cycle? || pc.PublishOpen? || pc.Settle?
  }

  predicate HasInitTicket(pc: Pc) {
    pc.Mark? || PastMark(pc)
  }

  predicate InSeal(pc: Pc) {
    pc == Seal(Enter) || pc == Seal(EnterQueued)
  }

  predicate HasTicket(pc: Pc) {
    HasInitTicket(pc) || InSeal(pc) || pc.Finalize?
  }

  /** The ticket a later begin has not superseded. */
  predicate Current(sh: Shared, c: Call) {
    HasInitTicket(c.pc) && c.epoch == sh.epoch
  }

  predicate TicketOf(sh: Shared, c: Call) {
    && !c.pc.DropSeal?
    && (HasInitTicket(c.pc) ==> c.epoch <= sh.epoch)
    && (Current(sh, c) ==> sh.state.Initializing?)
    && (InSeal(c.pc) ==> c.epoch == sh.epoch && c.prior.Open? && sh.state.Draining?)
    && (c.pc.Finalize? ==> c.epoch == sh.epoch && c.prior.Open? && sh.state.Finalizing?)
    && (c.pc.Finish? ==> sh.state.Finalized?)
    && (c.pc.PurgeOpen? || c.pc.RecordFailure? ==> sh.state.Open?)
  }

  predicate Distinct(c: Call, d: Call) {
    HasTicket(c.pc) && HasTicket(d.pc) ==> c.epoch != d.epoch
  }

  // --- Facts the tracker shows -----------------------------------------------

  /** The tracker reports an incarnation that a further Initialize would only re-affirm. */
  predicate Live(t: Tracker) {
    t.initialized && !t.finalizedOk
  }

  /** An Initialize whose checked record has taken effect. */
  predicate PastRecord(pc: Pc) {
    pc == Cycle(ResetSessions) || pc.PublishOpen?
  }

  predicate PastInitialized(pc: Pc) {
    pc == Cycle(ClearFinalized) || pc == Cycle(ResetSessions) || pc == Record(CheckFinalized)
  }

  predicate LiveOf(sh: Shared, c: Call) {
    && (PastInitialized(c.pc) ==> sh.t.initialized)
    && (Current(sh, c) && (c.prior.Open? || PastRecord(c.pc)) ==> Live(sh.t))
  }

  /** A native Finalize has succeeded and whether it clears the evidence is still undecided. */
  predicate Clearing(pc: Pc) {
    pc == Finalize(Publish) || pc == Finalize(FinishQueued) || Evident(pc)
  }

  predicate Evident(pc: Pc) {
    pc == Finish(SetFinalized) || pc == Finish(ClearFailed) || pc == Finish(CompareCount)
  }

  predicate ExposureOf(sh: Shared, c: Call) {
    && (c.pc == Mark(StoreSince) || PastMark(c.pc) ==> sh.t.initAttempted)
    && (Current(sh, c) && (c.prior.Open? || PastMark(c.pc)) ==> sh.t.attemptedSinceFinalize)
    && (c.pc == Remark(RemarkSince) ==> sh.t.initAttempted)
    && (Evident(c.pc) ==> sh.t.attemptedSinceFinalize)
    && (Clearing(c.pc) || c.pc == Finish(ClearSince) ==> sh.liveSessions == 0)
    && (Clearing(c.pc) || c.pc == Finalize(NativeFinalize) ==> c.snapshot <= sh.t.completions)
  }

  /** Its failure check has passed. */
  predicate PastCheck(pc: Pc) {
    pc == Record(CheckInitialized) || pc == Record(CheckFinalized) || pc.Cycle? || pc.PublishOpen?
  }

  /** After a recorded Finalize failure no current Initialize is past its failure check, and nothing
      is being purged. */
  predicate WindowOf(sh: Shared, c: Call) {
    && !(Current(sh, c) && PastCheck(c.pc))
    && !c.pc.PurgeOpen?
    && (c.pc.Finish? ==> c.pc.finish.SetFinalized? || c.pc.finish.ClearFailed?)
    && (HoldsWrite(c.pc) && sh.t.finalizedOk ==> c.pc == Finish(ClearFailed))
  }

  predicate FactsOf(sh: Shared, c: Call) {
    LiveOf(sh, c) && ExposureOf(sh, c) && (sh.t.finalizeFailed ==> WindowOf(sh, c))
  }

  predicate CallOk(sh: Shared, i: nat, c: Call) {
    LocksOf(sh, i, c) && TicketOf(sh, c) && FactsOf(sh, c)
  }

  // --- The shared state alone -------------------------------------------------

  predicate Serving(state: ModuleState) {
    state.Open? || state.Draining? || state.Finalizing?
  }

  predicate Ground(sh: Shared) {
    && sh.epoch <= U64_MAX
    && (sh.writer.Some? ==> sh.readers == {})
    && (sh.readers != {} ==> sh.state.Open?)
    && (Serving(sh.state) ==> Live(sh.t) && sh.t.attemptedSinceFinalize)
    && (sh.liveSessions > 0 ==> sh.t.attemptedSinceFinalize)
    && (sh.initSinceFinalize ==> sh.t.initAttempted)
    && (sh.t.attemptedSinceFinalize ==> sh.t.initAttempted)
    && (sh.t.finalizeFailed ==> sh.t.initialized && (sh.t.finalizedOk ==> sh.writer.Some?))
  }

  // --- Preservation, one call at a time -----------------------------------------

  lemma GateOwnTicket(sh: Shared, i: nat, c: Call)
    requires LocksOf(sh, i, c) && c.pc.Gate? && GateStep(sh, c).Some?
    ensures var (sh', c') := GateStep(sh, c).value; LocksOf(sh', i, c') && TicketOf(sh', c')
  {
  }

  lemma GateGround(sh: Shared, i: nat, c: Call)
    requires Ground(sh) && CallOk(sh, i, c) && c.pc.Gate? && GateStep(sh, c).Some?
    ensures var (sh', c') := GateStep(sh, c).value; Ground(sh')
  {
  }

  lemma GateOwnFacts(sh: Shared, i: nat, c: Call)
    requires Ground(sh) && c.pc.Gate? && GateStep(sh, c).Some?
    ensures var (sh', c') := GateStep(sh, c).value; FactsOf(sh', c')
  {
  }

  lemma GateOther(sh: Shared, i: nat, c: Call, j: nat, d: Call)
    requires Ground(sh) && CallOk(sh, i, c) && c.pc.Gate? && GateStep(sh, c).Some?
    requires i != j && CallOk(sh, j, d) && Distinct(c, d)
    ensures var (sh', c') := GateStep(sh, c).value; CallOk(sh', j, d) && Distinct(c', d)
  {
  }

  lemma MarkGround(sh: Shared, i: nat, c: Call)
    requires Ground(sh) && CallOk(sh, i, c) && c.pc.Mark?
    ensures var (sh', c') := MarkStep(sh, c); Ground(sh')
  {
  }

  lemma MarkOwnTicket(sh: Shared, i: nat, c: Call)
    requires Ground(sh) && CallOk(sh, i, c) && c.pc.Mark?
    ensures var (sh', c') := MarkStep(sh, c); LocksOf(sh', i, c') && TicketOf(sh', c')
  {
  }

  lemma MarkOwnFacts(sh: Shared, i: nat, c: Call)
    requires Ground(sh) && CallOk(sh, i, c) && c.pc.Mark?
    ensures var (sh', c') := MarkStep(sh, c); FactsOf(sh', c')
  {
  }

  lemma MarkOther(sh: Shared, i: nat, c: Call, j: nat, d: Call)
    requires Ground(sh) && CallOk(sh, i, c) && c.pc.Mark?
    requires i != j && CallOk(sh, j, d) && Distinct(c, d)
    ensures var (sh', c') := MarkStep(sh, c); CallOk(sh', j, d) && Distinct(c', d)
  {
  }

  lemma NativeInitOwn(sh: Shared, i: nat, c: Call, ch: Choice)
    requires Ground(sh) && CallOk(sh, i, c) && c.pc.NativeInit?
    ensures var (sh', c') := NativeInitStep(sh, c, ch); Ground(sh') && CallOk(sh', i, c')
  {
  }

  lemma NativeInitOther(sh: Shared, i: nat, c: Call, ch: Choice, j: nat, d: Call)
    requires Ground(sh) && CallOk(sh, i, c) && c.pc.NativeInit?
    requires i != j && CallOk(sh, j, d) && Distinct(c, d)
    ensures var (sh', c') := NativeInitStep(sh, c, ch); CallOk(sh', j, d) && Distinct(c', d)
  {
  }

  lemma RecordOwnTicket(sh: Shared, i: nat, c: Call)
    requires LocksOf(sh, i, c) && TicketOf(sh, c) && c.pc.Record?
    ensures var (sh', c') := RecordStep(sh, c); LocksOf(sh', i, c') && TicketOf(sh', c')
  {
  }

  lemma RecordGround(sh: Shared, i: nat, c: Call)
    requires Ground(sh) && FactsOf(sh, c) && c.pc.Record?
    ensures var (sh', c') := RecordStep(sh, c); Ground(sh')
  {
  }

  lemma RecordOwnFacts(sh: Shared, i: nat, c: Call)
    requires Ground(sh) && FactsOf(sh, c) && c.pc.Record?
    ensures var (sh', c') := RecordStep(sh, c); FactsOf(sh', c')
  {
  }

  lemma RecordOther(sh: Shared, i: nat, c: Call, j: nat, d: Call)
    requires Ground(sh) && CallOk(sh, i, c) && c.pc.Record?
    requires i != j && CallOk(sh, j, d) && Distinct(c, d)
    ensures var (sh', c') := RecordStep(sh, c); CallOk(sh', j, d) && Distinct(c', d)
  {
  }

  lemma CycleOwnTicket(sh: Shared, i: nat, c: Call)
    requires Ground(sh) && CallOk(sh, i, c) && c.pc.Cycle?
    ensures var (sh', c') := CycleStep(sh, c); LocksOf(sh', i, c') && TicketOf(sh', c')
  {
  }

  lemma CycleGround(sh: Shared, i: nat, c: Call)
    requires Ground(sh) && c.pc.Cycle?
    ensures var (sh', c') := CycleStep(sh, c); Ground(sh')
  {
  }

  lemma CycleOwnFacts(sh: Shared, i: nat, c: Call)
    requires TicketOf(sh, c) && FactsOf(sh, c) && c.pc.Cycle?
    ensures var (sh', c') := CycleStep(sh, c); FactsOf(sh', c')
  {
  }

  lemma CycleOtherTicket(sh: Shared, i: nat, c: Call, j: nat, d: Call)
    requires LocksOf(sh, i, c) && TicketOf(sh, c) && c.pc.Cycle?
    requires i != j && LocksOf(sh, j, d) && TicketOf(sh, d) && Distinct(c, d)
    ensures var (sh', c') := CycleStep(sh, c); LocksOf(sh', j, d) && TicketOf(sh', d) && Distinct(c', d)
  {
  }

  lemma CycleOtherFacts(sh: Shared, i: nat, c: Call, j: nat, d: Call)
    requires Ground(sh) && TicketOf(sh, c) && FactsOf(sh, c) && c.pc.Cycle?
    requires i != j && TicketOf(sh, d) && FactsOf(sh, d) && Distinct(c, d)
    ensures var (sh', c') := CycleStep(sh, c); FactsOf(sh', d)
  {
  }

  lemma PublishGround(sh: Shared, i: nat, c: Call)
    requires Ground(sh) && CallOk(sh, i, c) && c.pc.PublishOpen? && PublishStep(sh, i, c).Some?
    ensures var (sh', c') := PublishStep(sh, i, c).value; Ground(sh')
  {
  }

  lemma PublishOwn(sh: Shared, i: nat, c: Call)
    requires Ground(sh) && CallOk(sh, i, c) && c.pc.PublishOpen? && PublishStep(sh, i, c).Some?
    ensures var (sh', c') := PublishStep(sh, i, c).value; CallOk(sh', i, c')
  {
  }

  lemma PublishOther(sh: Shared, i: nat, c: Call, j: nat, d: Call)
    requires Ground(sh) && CallOk(sh, i, c) && c.pc.PublishOpen? && PublishStep(sh, i, c).Some?
    requires i != j && CallOk(sh, j, d) && Distinct(c, d)
    ensures var (sh', c') := PublishStep(sh, i, c).value; CallOk(sh', j, d) && Distinct(c', d)
  {
  }

  lemma PurgeOwn(sh: Shared, i: nat, c: Call)
    requires Ground(sh) && CallOk(sh, i, c) && c.pc.PurgeOpen? && PurgeStep(sh, i, c).Some?
    ensures var (sh', c') := PurgeStep(sh, i, c).value; Ground(sh') && CallOk(sh', i, c')
  {
  }

  lemma PurgeOther(sh: Shared, i: nat, c: Call, j: nat, d: Call)
    requires Ground(sh) && CallOk(sh, i, c) && c.pc.PurgeOpen? && PurgeStep(sh, i, c).Some?
    requires i != j && CallOk(sh, j, d) && Distinct(c, d)
    ensures var (sh', c') := PurgeStep(sh, i, c).value; CallOk(sh', j, d) && Distinct(c', d)
  {
  }

  lemma SettleOwn(sh: Shared, i: nat, c: Call)
    requires Ground(sh) && CallOk(sh, i, c) && c.pc.Settle? && SettleStep(sh, i, c).Some?
    ensures var (sh', c') := SettleStep(sh, i, c).value; Ground(sh') && CallOk(sh', i, c')
  {
  }

  lemma SettleOther(sh: Shared, i: nat, c: Call, j: nat, d: Call)
    requires Ground(sh) && CallOk(sh, i, c) && c.pc.Settle? && SettleStep(sh, i, c).Some?
    requires i != j && CallOk(sh, j, d) && Distinct(c, d)
    ensures var (sh', c') := SettleStep(sh, i, c).value; CallOk(sh', j, d) && Distinct(c', d)
  {
  }

  lemma RemarkOwnTicket(sh: Shared, i: nat, c: Call)
    requires Ground(sh) && CallOk(sh, i, c) && c.pc.Remark?
    ensures var (sh', c') := RemarkStep(sh, c); LocksOf(sh', i, c') && TicketOf(sh', c')
  {
  }

  lemma RemarkGround(sh: Shared, i: nat, c: Call)
    requires Ground(sh) && LocksOf(sh, i, c) && FactsOf(sh, c) && c.pc.Remark?
    ensures var (sh', c') := RemarkStep(sh, c); Ground(sh')
  {
  }

  lemma RemarkOwnFacts(sh: Shared, i: nat, c: Call)
    requires Ground(sh) && LocksOf(sh, i, c) && FactsOf(sh, c) && c.pc.Remark?
    ensures var (sh', c') := RemarkStep(sh, c); FactsOf(sh', c')
  {
  }

  lemma RemarkOtherTicket(sh: Shared, i: nat, c: Call, j: nat, d: Call)
    requires LocksOf(sh, i, c) && TicketOf(sh, c) && c.pc.Remark?
    requires i != j && LocksOf(sh, j, d) && TicketOf(sh, d) && Distinct(c, d)
    ensures var (sh', c') := RemarkStep(sh, c); LocksOf(sh', j, d) && TicketOf(sh', d) && Distinct(c', d)
  {
  }

  lemma RemarkOtherFacts(sh: Shared, i: nat, c: Call, j: nat, d: Call)
    requires Ground(sh) && CallOk(sh, i, c) && c.pc.Remark?
    requires i != j && CallOk(sh, j, d) && Distinct(c, d)
    ensures var (sh', c') := RemarkStep(sh, c); FactsOf(sh', d)
  {
  }

  lemma SealOwnTicket(sh: Shared, i: nat, c: Call, ch: Choice)
    requires LocksOf(sh, i, c) && TicketOf(sh, c) && c.pc.Seal? && SealStep(sh, c, ch).Some?
    ensures var (sh', c') := SealStep(sh, c, ch).value; LocksOf(sh', i, c') && TicketOf(sh', c')
  {
  }

  lemma SealGround(sh: Shared, i: nat, c: Call, ch: Choice)
    requires Ground(sh) && CallOk(sh, i, c) && c.pc.Seal? && SealStep(sh, c, ch).Some?
    ensures var (sh', c') := SealStep(sh, c, ch).value; Ground(sh')
  {
  }

  lemma SealOwnFacts(sh: Shared, i: nat, c: Call, ch: Choice)
    requires c.pc.Seal? && SealStep(sh, c, ch).Some?
    ensures var (sh', c') := SealStep(sh, c, ch).value; FactsOf(sh', c')
  {
  }

  lemma SealOtherTicket(sh: Shared, i: nat, c: Call, ch: Choice, j: nat, d: Call)
    requires LocksOf(sh, i, c) && TicketOf(sh, c) && c.pc.Seal? && SealStep(sh, c, ch).Some?
    requires i != j && LocksOf(sh, j, d) && TicketOf(sh, d) && Distinct(c, d)
    ensures var (sh', c') := SealStep(sh, c, ch).value; LocksOf(sh', j, d) && TicketOf(sh', d) && Distinct(c', d)
  {
  }

  lemma SealOtherFacts(sh: Shared, i: nat, c: Call, ch: Choice, j: nat, d: Call)
    requires Ground(sh) && CallOk(sh, i, c) && c.pc.Seal? && SealStep(sh, c, ch).Some?
    requires i != j && CallOk(sh, j, d) && Distinct(c, d)
    ensures var (sh', c') := SealStep(sh, c, ch).value; FactsOf(sh', d)
  {
  }

  lemma FinalizeOwnTicket(sh: Shared, i: nat, c: Call, ch: Choice)
    requires LocksOf(sh, i, c) && TicketOf(sh, c) && c.pc.Finalize? && FinalizeStep(sh, i, c, ch).Some?
    ensures var (sh', c') := FinalizeStep(sh, i, c, ch).value; LocksOf(sh', i, c') && TicketOf(sh', c')
  {
  }

  lemma FinalizeGround(sh: Shared, i: nat, c: Call, ch: Choice)
    requires Ground(sh) && TicketOf(sh, c) && FactsOf(sh, c) && c.pc.Finalize? && FinalizeStep(sh, i, c, ch).Some?
    ensures var (sh', c') := FinalizeStep(sh, i, c, ch).value; Ground(sh')
  {
  }

  lemma FinalizeOwnFacts(sh: Shared, i: nat, c: Call, ch: Choice)
    requires Ground(sh) && TicketOf(sh, c) && FactsOf(sh, c) && c.pc.Finalize? && FinalizeStep(sh, i, c, ch).Some?
    ensures var (sh', c') := FinalizeStep(sh, i, c, ch).value; FactsOf(sh', c')
  {
  }

  lemma FinalizeOther(sh: Shared, i: nat, c: Call, ch: Choice, j: nat, d: Call)
    requires Ground(sh) && CallOk(sh, i, c) && c.pc.Finalize? && FinalizeStep(sh, i, c, ch).Some?
    requires i != j && CallOk(sh, j, d) && Distinct(c, d)
    ensures var (sh', c') := FinalizeStep(sh, i, c, ch).value; CallOk(sh', j, d) && Distinct(c', d)
  {
  }

  lemma RecordFailureOwn(sh: Shared, i: nat, c: Call)
    requires Ground(sh) && CallOk(sh, i, c) && c.pc.RecordFailure?
    ensures var (sh', c') := RecordFailureStep(sh, c); Ground(sh') && CallOk(sh', i, c')
  {
  }

  lemma RecordFailureOther(sh: Shared, i: nat, c: Call, j: nat, d: Call)
    requires Ground(sh) && CallOk(sh, i, c) && c.pc.RecordFailure?
    requires i != j && CallOk(sh, j, d) && Distinct(c, d)
    ensures var (sh', c') := RecordFailureStep(sh, c); CallOk(sh', j, d) && Distinct(c', d)
  {
  }

  lemma FinishOwnTicket(sh: Shared, i: nat, c: Call)
    requires LocksOf(sh, i, c) && TicketOf(sh, c) && c.pc.Finish? && FinishStep(sh, i, c).Some?
    ensures var (sh', c') := FinishStep(sh, i, c).value; LocksOf(sh', i, c') && TicketOf(sh', c')
  {
  }

  lemma FinishGround(sh: Shared, i: nat, c: Call)
    requires Ground(sh) && CallOk(sh, i, c) && c.pc.Finish? && FinishStep(sh, i, c).Some?
    ensures var (sh', c') := FinishStep(sh, i, c).value; Ground(sh')
  {
  }

  lemma FinishOwnFacts(sh: Shared, i: nat, c: Call)
    requires FactsOf(sh, c) && c.pc.Finish? && FinishStep(sh, i, c).Some?
    ensures var (sh', c') := FinishStep(sh, i, c).value; FactsOf(sh', c')
  {
  }

  lemma FinishOtherTicket(sh: Shared, i: nat, c: Call, j: nat, d: Call)
    requires LocksOf(sh, i, c) && TicketOf(sh, c) && c.pc.Finish? && FinishStep(sh, i, c).Some?
    requires i != j && LocksOf(sh, j, d) && TicketOf(sh, d) && Distinct(c, d)
    ensures var (sh', c') := FinishStep(sh, i, c).value; LocksOf(sh', j, d) && TicketOf(sh', d) && Distinct(c', d)
  {
  }

  lemma FinishOtherFacts(sh: Shared, i: nat, c: Call, j: nat, d: Call)
    requires Ground(sh) && CallOk(sh, i, c) && c.pc.Finish? && FinishStep(sh, i, c).Some?
    requires i != j && CallOk(sh, j, d) && Distinct(c, d)
    ensures var (sh', c') := FinishStep(sh, i, c).value; FactsOf(sh', d)
  {
  }

  lemma AdmitOwn(sh: Shared, quiet: bool, i: nat, c: Call)
    requires Ground(sh) && LocksOf(sh, i, c) && c.pc.Admit? && AdmitStep(sh, quiet, i, c).Some?
    ensures var (sh', c') := AdmitStep(sh, quiet, i, c).value; Ground(sh') && CallOk(sh', i, c')
  {
  }

  lemma AdmitOther(sh: Shared, quiet: bool, i: nat, c: Call, j: nat, d: Call)
    requires Ground(sh) && CallOk(sh, i, c) && c.pc.Admit? && AdmitStep(sh, quiet, i, c).Some?
    requires i != j && CallOk(sh, j, d) && Distinct(c, d)
    ensures var (sh', c') := AdmitStep(sh, quiet, i, c).value; CallOk(sh', j, d) && Distinct(c', d)
  {
  }

  lemma ServeOwnTicket(sh: Shared, i: nat, c: Call, ch: Choice)
    requires LocksOf(sh, i, c) && c.pc.Serve? && ServeStep(sh, i, c, ch).Some?
    ensures var (sh', c') := ServeStep(sh, i, c, ch).value; LocksOf(sh', i, c') && TicketOf(sh', c')
  {
  }

  lemma ServeOwnFacts(sh: Shared, i: nat, c: Call, ch: Choice)
    requires Ground(sh) && LocksOf(sh, i, c) && c.pc.Serve? && ServeStep(sh, i, c, ch).Some?
    ensures var (sh', c') := ServeStep(sh, i, c, ch).value; Ground(sh') && FactsOf(sh', c')
  {
  }

  lemma ServeOtherLocks(sh: Shared, i: nat, c: Call, ch: Choice, j: nat, d: Call)
    requires LocksOf(sh, i, c) && TicketOf(sh, c) && c.pc.Serve? && ServeStep(sh, i, c, ch).Some?
    requires i != j && LocksOf(sh, j, d) && TicketOf(sh, d) && Distinct(c, d)
    ensures var (sh', c') := ServeStep(sh, i, c, ch).value; LocksOf(sh', j, d)
  {
  }

  lemma ServeOtherTicket(sh: Shared, i: nat, c: Call, ch: Choice, j: nat, d: Call)
    requires LocksOf(sh, i, c) && TicketOf(sh, c) && c.pc.Serve? && ServeStep(sh, i, c, ch).Some?
    requires i != j && LocksOf(sh, j, d) && TicketOf(sh, d) && Distinct(c, d)
    ensures var (sh', c') := ServeStep(sh, i, c, ch).value; TicketOf(sh', d) && Distinct(c', d)
  {
  }

  lemma ServeOtherFacts(sh: Shared, i: nat, c: Call, ch: Choice, j: nat, d: Call)
    requires Ground(sh) && CallOk(sh, i, c) && c.pc.Serve? && ServeStep(sh, i, c, ch).Some?
    requires i != j && CallOk(sh, j, d) && Distinct(c, d)
    ensures var (sh', c') := ServeStep(sh, i, c, ch).value; FactsOf(sh', d)
  {
  }

}

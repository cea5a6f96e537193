/**
 The Initialize/Finalize lifecycle of one loaded provider, as a transition system.

 Any number of calls overlap. Every atomic access to the lifecycle tracker is one step, so is every
 acquisition of the lifecycle lock or the object-lifetime lock, and so is every return from the
 provider. A lifecycle write section that touches only the domain's own state and epoch (which are
 read and written under that lock alone) is one step.
 */
module LifecycleModel {
  import opened Words
  import opened Wrappers

  datatype ModuleState =
    | LoadedUninitialized
    | Initializing
    | Open
    | Draining
    | Finalizing
    | Finalized
    | Uncertain

  /** The lock-free lifecycle tracker: each field is one atomic. */
  datatype Tracker = Tracker(
    initAttempted: bool,
    attemptedSinceFinalize: bool,
    initialized: bool,
    finalizedOk: bool,
    finalizeFailed: bool,
    openSessions: nat,
    generation: nat,
    completions: nat)

  datatype RetirementDecision = Release | Poison

  /** What the backend's destructor decides from the tracker alone. */
  function Retirement(t: Tracker): RetirementDecision {
    var neverExposed := !t.initAttempted && !t.initialized;
    var freshFinalize := t.finalizedOk && !t.attemptedSinceFinalize;
    if (neverExposed || freshFinalize) && t.openSessions == 0 then Release else Poison
  }

  /** An entry of the session table or of the object-lifetime table, tagged with the provider incarnation that
      created it. Each table has one entry per handle; an object's names the session that owns it. */
  datatype Binding =
    | SessionEntry(handle: nat, incarnation: nat)
    | ObjectEntry(handle: nat, owner: nat, incarnation: nat)

  predicate SameKey(a: Binding, b: Binding) {
    a.SessionEntry? == b.SessionEntry? && a.handle == b.handle
  }

  predicate HasKey(bindings: set<Binding>, b: Binding) {
    exists x :: x in bindings && SameKey(x, b)
  }

  /** Enter bindings, replacing any under the same handles. */
  function Entered(bindings: set<Binding>, more: set<Binding>): set<Binding> {
    (set b | b in bindings && !HasKey(more, b)) + more
  }

  function Objects(handles: set<nat>, owner: nat, incarnation: nat): set<Binding> {
    set h | h in handles :: ObjectEntry(h, owner, incarnation)
  }

  /**
   Everything the calls share. The last three fields are not program state: they record what the
   provider has done, so that claims can be stated about it.
   */
  datatype Shared = Shared(
    state: ModuleState,
    epoch: nat,
    t: Tracker,
    bindings: set<Binding>,
    writer: Option<nat>,
    readers: set<nat>,
    lifetime: Option<nat>,
    initSinceFinalize: bool,
    liveSessions: nat,
    incarnation: nat)

  // Where a call stands. A `...Queued` position has raised the queued-writer count.

  /** `check_reinitialize`, then the begin section. */
  datatype GateAt = LoadFailed | LoadInitialized | LoadFinalized | LoadGeneration | Begin | BeginQueued
  /** The attempt marker: two stores before native entry. */
  datatype MarkAt = StoreAttempted | StoreSince
  /** `note_initialized` up to its new-cycle decision. */
  datatype RecordAt = ReadBefore | CountOk | CheckFailed | CheckInitialized | CheckFinalized
  /** `note_initialized` once it has decided to open a new cycle. */
  datatype CycleAt = Claim | SetInitialized | ClearFinalized | ResetSessions
  datatype PublishAt = ReadAfter | Unqueued | PublishQueued
  /** Stores inside an Initialize's abandon section. */
  datatype RemarkAt = CountFailed | RemarkAttempted | RemarkSince
  /** The purge at the end of a publish section. */
  datatype PurgeAt = TakeLeaf | Purge
  datatype SealAt = TrySeal | SealQueued | Enter | EnterQueued
  datatype FinalizeAt = Snapshot | NativeFinalize | Abandon | Publish | FinishQueued
  /** `note_finalized_bounded` inside the publish section. */
  datatype FinishAt = SetFinalized | ClearFailed | CompareCount | ClearSince | ZeroSessions | TakeLeafLast | PurgeLast
  datatype AdmitAt = Spin | Read
  datatype ServeAt = TakeLifetime | NativeCall | NoteOpened | ReadCount | SwapCount | Leave

  datatype Pc =
    | Gate(gate: GateAt)
    | Mark(mark: MarkAt)
    | NativeInit
    | Record(record: RecordAt)
    | Cycle(cycle: CycleAt)
    | PublishOpen(publish: PublishAt)
    | Settle(failed: bool)
    | Remark(remark: RemarkAt)
    | PurgeOpen(purge: PurgeAt)
    | Seal(seal: SealAt)
    | Finalize(finalize: FinalizeAt)
    | RecordFailure
    | DropSeal
    | Finish(finish: FinishAt)
    | Admit(admit: AdmitAt)
    | Serve(serve: ServeAt)
    | Done

  /** `CloseSessions` is both closes: of one session, and of all the sessions known on a slot. `Find` records the
      objects it shows that are not recorded yet. */
  datatype Ordinary = OpenSession | CloseSessions | Mint | Find | Destroy

  /** One call: where it stands and its local variables. */
  datatype Call = Call(
    pc: Pc,
    prior: ModuleState,
    epoch: nat,
    before: nat,
    changed: bool,
    snapshot: nat,
    kind: Ordinary,
    closing: nat,
    count: nat)

  datatype World = World(sh: Shared, calls: seq<Call>)

  /**
   What a step leaves to the environment: a provider outcome or an acquisition arm, the session opened or
   object destroyed, the objects minted or found and their owner, and of a close the sessions it knew, those
   whose entries it removes, and how many the provider closed.
   */
  datatype Choice = Choice(
    ok: bool, handle: nat, objects: set<nat>, owner: nat, known: set<nat>, forgotten: set<nat>, gone: nat)

  function Plain(ok: bool): Choice {
    Choice(ok, 0, {}, 0, {}, {}, 0)
  }

  /** A close by this choice names the binding: its session entry goes, or the session that owns it closes. */
  predicate ClosesBinding(ch: Choice, b: Binding) {
    if b.SessionEntry? then b.handle in ch.forgotten else b.owner in ch.known
  }

  predicate DestroysBinding(ch: Choice, b: Binding) {
    b.ObjectEntry? && b.handle == ch.handle
  }

  const FRESH: Tracker := Tracker(false, false, false, false, false, 0, 0, 0)
  const START: World :=
    World(Shared(LoadedUninitialized, 0, FRESH, {}, None, {}, None, false, 0, 0), [])

  function NewCall(pc: Pc, kind: Ordinary): Call {
    Call(pc, LoadedUninitialized, 0, 0, false, 0, kind, 0, 0)
  }

  predicate IsEntry(pc: Pc) {
    pc == Gate(LoadFailed) || pc == Seal(TrySeal) || pc == Admit(Spin)
  }

  /** A write acquisition excludes the other writer and waits for the admitted readers. */
  predicate Free(sh: Shared) {
    sh.writer.None? && sh.readers == {}
  }

  predicate Queued(pc: Pc) {
    pc == Gate(BeginQueued) || pc == PublishOpen(PublishQueued) || pc == Seal(SealQueued)
    || pc == Seal(EnterQueued) || pc == Finalize(FinishQueued)
  }

  predicate NoneQueued(calls: seq<Call>) {
    forall j :: 0 <= j < |calls| ==> !Queued(calls[j].pc)
  }

  /** The state an abandoned ticket restores. */
  function Restored(prior: ModuleState): ModuleState {
    if prior.Initializing? || prior.Draining? || prior.Finalizing? then Uncertain else prior
  }

  /** Abandon: only a current ticket moves the domain. */
  function Abandoned(sh: Shared, c: Call): Shared {
    if sh.epoch != c.epoch then sh
    else sh.(epoch := if sh.epoch < U64_MAX then sh.epoch + 1 else sh.epoch, state := Restored(c.prior))
  }

  // --- Initialize ------------------------------------------------------------

  /** The gate refuses before any provider contact; then one write section enters `Initializing`. */
  function GateStep(sh: Shared, c: Call): Option<(Shared, Call)>
    requires c.pc.Gate?
  {
    match c.pc.gate
    case LoadFailed =>
      Some((sh, c.(pc := if sh.t.finalizeFailed then Done else Gate(LoadInitialized))))
    case LoadInitialized =>
      Some((sh, c.(pc := Gate(if sh.t.initialized then LoadFinalized else LoadGeneration))))
    case LoadFinalized =>
      Some((sh, c.(pc := Gate(if sh.t.finalizedOk then LoadGeneration else Begin))))
    case LoadGeneration =>
      Some((sh, c.(pc := if sh.t.generation >= U64_MAX then Done else Gate(Begin))))
    case Begin =>
      Some((sh, c.(pc := Gate(BeginQueued))))
    case BeginQueued =>
      if !Free(sh) then None
      else if sh.state.Draining? || sh.state.Finalizing? || sh.epoch >= U64_MAX then
        Some((sh, c.(pc := Done)))
      else
        Some((sh.(epoch := sh.epoch + 1, state := Initializing),
              c.(pc := Mark(StoreAttempted), prior := sh.state, epoch := sh.epoch + 1)))
  }

  /** The attempt marker precedes native entry. */
  function MarkStep(sh: Shared, c: Call): (Shared, Call)
    requires c.pc.Mark?
  {
    match c.pc.mark
    case StoreAttempted =>
      (sh.(t := sh.t.(initAttempted := true)), c.(pc := Mark(StoreSince)))
    case StoreSince =>
      (sh.(t := sh.t.(attemptedSinceFinalize := true)), c.(pc := NativeInit))
  }

  /** The native Initialize returns. */
  function NativeInitStep(sh: Shared, c: Call, ch: Choice): (Shared, Call) {
    (sh.(initSinceFinalize := true), c.(pc := if ch.ok then Record(ReadBefore) else Settle(true)))
  }

  /** The checked record of a native success: count first, then decide whether this is a new cycle. */
  function RecordStep(sh: Shared, c: Call): (Shared, Call)
    requires c.pc.Record?
  {
    match c.pc.record
    case ReadBefore =>
      (sh, c.(pc := Record(CountOk), before := sh.t.generation))
    case CountOk =>
      (sh.(t := sh.t.(completions := sh.t.completions + 1)), c.(pc := Record(CheckFailed)))
    case CheckFailed =>
      (sh, c.(pc := if sh.t.finalizeFailed then Settle(false) else Record(CheckInitialized)))
    case CheckInitialized =>
      (sh, c.(pc := if sh.t.initialized then Record(CheckFinalized) else Cycle(Claim)))
    case CheckFinalized =>
      (sh, c.(pc := if sh.t.finalizedOk then Cycle(Claim) else PublishOpen(ReadAfter)))
  }

  /** A new cycle claims a generation (never wrapping) and then resets the cycle facts one by one. */
  function CycleStep(sh: Shared, c: Call): (Shared, Call)
    requires c.pc.Cycle?
  {
    match c.pc.cycle
    case Claim =>
      if sh.t.generation >= U64_MAX then (sh, c.(pc := Settle(false)))
      else (sh.(t := sh.t.(generation := sh.t.generation + 1)), c.(pc := Cycle(SetInitialized)))
    case SetInitialized =>
      (sh.(t := sh.t.(initialized := true)), c.(pc := Cycle(ClearFinalized)))
    case ClearFinalized =>
      (sh.(t := sh.t.(finalizedOk := false)), c.(pc := Cycle(ResetSessions)))
    case ResetSessions =>
      (sh.(t := sh.t.(openSessions := 0)), c.(pc := PublishOpen(ReadAfter)))
  }

  /** Publish `Open`, keeping the write section for the purge; a superseded ticket publishes nothing. */
  function PublishStep(sh: Shared, i: nat, c: Call): Option<(Shared, Call)>
    requires c.pc.PublishOpen?
  {
    match c.pc.publish
    case ReadAfter =>
      Some((sh, c.(pc := PublishOpen(Unqueued), changed := sh.t.generation != c.before)))
    case Unqueued =>
      Some((sh, c.(pc := PublishOpen(PublishQueued))))
    case PublishQueued =>
      if !Free(sh) then None
      else if sh.epoch != c.epoch || !sh.state.Initializing? then Some((sh, c.(pc := Done)))
      else if sh.epoch >= U64_MAX then Some((sh.(state := Uncertain), c.(pc := Done)))
      else if c.changed then
        Some((sh.(epoch := sh.epoch + 1, state := Open, writer := Some(i)), c.(pc := PurgeOpen(TakeLeaf))))
      else
        Some((sh.(epoch := sh.epoch + 1, state := Open), c.(pc := Done)))
  }

  /** The incarnation purge, under the lifecycle write and briefly the lifetime lock. */
  function PurgeStep(sh: Shared, i: nat, c: Call): Option<(Shared, Call)>
    requires c.pc.PurgeOpen?
  {
    match c.pc.purge
    case TakeLeaf =>
      if sh.lifetime.Some? then None
      else Some((sh.(lifetime := Some(i)), c.(pc := PurgeOpen(Purge))))
    case Purge =>
      Some((sh.(bindings := {}, lifetime := None, writer := None), c.(pc := Done)))
  }

  /** Enter the abandon section after a native failure, or after a refused record. */
  function SettleStep(sh: Shared, i: nat, c: Call): Option<(Shared, Call)>
    requires c.pc.Settle?
  {
    if !Free(sh) then None
    else Some((Abandoned(sh, c).(writer := Some(i)),
               c.(pc := Remark(if c.pc.failed then CountFailed else RemarkAttempted))))
  }

  /** Inside the abandon section, current or not: a failure is counted, and the attempt is re-marked. */
  function RemarkStep(sh: Shared, c: Call): (Shared, Call)
    requires c.pc.Remark?
  {
    match c.pc.remark
    case CountFailed =>
      (sh.(t := sh.t.(completions := sh.t.completions + 1)), c.(pc := Remark(RemarkAttempted)))
    case RemarkAttempted =>
      (sh.(t := sh.t.(initAttempted := true)), c.(pc := Remark(RemarkSince)))
    case RemarkSince =>
      (sh.(t := sh.t.(attemptedSinceFinalize := true), writer := None), c.(pc := Done))
  }

  // --- Finalize --------------------------------------------------------------

  /** The seal: admitted work has drained (the acquisition waited for it) and `Draining` denies more. */
  function Sealed(sh: Shared, c: Call): (Shared, Call) {
    if !sh.state.Open? || sh.epoch >= U64_MAX then (sh, c.(pc := Done))
    else (sh.(epoch := sh.epoch + 1, state := Draining),
          c.(pc := Seal(Enter), prior := Open, epoch := sh.epoch + 1))
  }

  /** Seal in two arms (a try-write that succeeds, or one queued acquisition), then enter `Finalizing`. */
  function SealStep(sh: Shared, c: Call, ch: Choice): Option<(Shared, Call)>
    requires c.pc.Seal?
  {
    match c.pc.seal
    case TrySeal =>
      if !ch.ok then Some((sh, c.(pc := Seal(SealQueued))))
      else if !Free(sh) then None
      else Some(Sealed(sh, c))
    case SealQueued =>
      if !Free(sh) then None else Some(Sealed(sh, c))
    case Enter =>
      Some((sh, c.(pc := Seal(EnterQueued))))
    case EnterQueued =>
      if !Free(sh) then None
      else if sh.epoch != c.epoch || !sh.state.Draining? then Some((sh, c.(pc := DropSeal)))
      else Some((sh.(state := Finalizing), c.(pc := Finalize(Snapshot))))
  }

  /** Snapshot the completion count, run the native Finalize, then publish, or abandon on failure. */
  function FinalizeStep(sh: Shared, i: nat, c: Call, ch: Choice): Option<(Shared, Call)>
    requires c.pc.Finalize?
  {
    match c.pc.finalize
    case Snapshot =>
      Some((sh, c.(pc := Finalize(NativeFinalize), snapshot := sh.t.completions)))
    case NativeFinalize =>
      if !ch.ok then Some((sh, c.(pc := Finalize(Abandon))))
      else Some((sh.(initSinceFinalize := false, liveSessions := 0, incarnation := sh.incarnation + 1),
                 c.(pc := Finalize(Publish))))
    case Abandon =>
      if !Free(sh) then None
      else if sh.epoch != c.epoch then Some((sh, c.(pc := Done)))
      else Some((Abandoned(sh, c).(writer := Some(i)), c.(pc := RecordFailure)))
    case Publish =>
      Some((sh, c.(pc := Finalize(FinishQueued))))
    case FinishQueued =>
      if !Free(sh) then None
      else if sh.epoch != c.epoch || !sh.state.Finalizing? then Some((sh, c.(pc := Done)))
      else if sh.epoch >= U64_MAX then Some((sh.(state := Uncertain), c.(pc := Done)))
      else Some((sh.(epoch := sh.epoch + 1, state := Finalized, writer := Some(i)), c.(pc := Finish(SetFinalized))))
  }

  /** The failure fact is recorded inside the abandon section of a current ticket. */
  function RecordFailureStep(sh: Shared, c: Call): (Shared, Call) {
    (sh.(t := sh.t.(finalizeFailed := true), writer := None), c.(pc := Done))
  }

  /** The backstop for a seal that could not enter `Finalizing`. */
  function DropSealStep(sh: Shared, c: Call): Option<(Shared, Call)> {
    if !Free(sh) then None else Some((Abandoned(sh, c), c.(pc := Done)))
  }

  /** The tracker record bounded by the snapshot, and the purge, inside the publish section. */
  function FinishStep(sh: Shared, i: nat, c: Call): Option<(Shared, Call)>
    requires c.pc.Finish?
  {
    match c.pc.finish
    case SetFinalized =>
      Some((sh.(t := sh.t.(finalizedOk := true)), c.(pc := Finish(ClearFailed))))
    case ClearFailed =>
      Some((sh.(t := sh.t.(finalizeFailed := false)), c.(pc := Finish(CompareCount))))
    case CompareCount =>
      Some((sh, c.(pc := Finish(if sh.t.completions == c.snapshot then ClearSince else ZeroSessions))))
    case ClearSince =>
      Some((sh.(t := sh.t.(attemptedSinceFinalize := false)), c.(pc := Finish(ZeroSessions))))
    case ZeroSessions =>
      Some((sh.(t := sh.t.(openSessions := 0)), c.(pc := Finish(TakeLeafLast))))
    case TakeLeafLast =>
      if sh.lifetime.Some? then None
      else Some((sh.(lifetime := Some(i)), c.(pc := Finish(PurgeLast))))
    case PurgeLast =>
      Some((sh.(bindings := {}, lifetime := None, writer := None), c.(pc := Done)))
  }

  // --- Ordinary calls --------------------------------------------------------

  /** Admission waits out queued writers, then takes the read lock and checks the state under it. */
  function AdmitStep(sh: Shared, quiet: bool, i: nat, c: Call): Option<(Shared, Call)>
    requires c.pc.Admit?
  {
    match c.pc.admit
    case Spin =>
      if quiet then Some((sh, c.(pc := Admit(Read)))) else None
    case Read =>
      if sh.writer.Some? then None
      else if !sh.state.Open? then Some((sh, c.(pc := Done)))
      else Some((sh.(readers := sh.readers + {i}),
                 c.(pc := Serve(if c.kind.OpenSession? then NativeCall else TakeLifetime))))
  }

  /** The provider returns to an admitted call; all kinds but `OpenSession` then drop the lifetime lock. */
  function Returned(sh: Shared, c: Call, ch: Choice): (Shared, Call) {
    var free := if c.kind.OpenSession? then sh else sh.(lifetime := None);
    if !ch.ok then (free, c.(pc := Serve(Leave)))
    else
      match c.kind
      case OpenSession =>
        (free.(liveSessions := free.liveSessions + 1,
               bindings := Entered(free.bindings, {SessionEntry(ch.handle, free.incarnation)})),
         c.(pc := Serve(NoteOpened)))
      case CloseSessions =>
        (free.(liveSessions := if free.liveSessions < ch.gone then 0 else free.liveSessions - ch.gone,
               bindings := set b | b in free.bindings && !ClosesBinding(ch, b)),
         c.(pc := Serve(ReadCount), closing := |ch.known|))
      case Mint =>
        (free.(bindings := Entered(free.bindings, Objects(ch.objects, ch.owner, free.incarnation))),
         c.(pc := Serve(Leave)))
      case Find =>
        var shown := Objects(ch.objects, ch.owner, free.incarnation);
        (free.(bindings := free.bindings + set b | b in shown && !HasKey(free.bindings, b)), c.(pc := Serve(Leave)))
      case Destroy =>
        (free.(bindings := set b | b in free.bindings && !DestroysBinding(ch, b)), c.(pc := Serve(Leave)))
  }

  function ServeStep(sh: Shared, i: nat, c: Call, ch: Choice): Option<(Shared, Call)>
    requires c.pc.Serve?
  {
    match c.pc.serve
    case TakeLifetime =>
      if sh.lifetime.Some? then None
      else Some((sh.(lifetime := Some(i)), c.(pc := Serve(NativeCall))))
    case NativeCall =>
      Some(Returned(sh, c, ch))
    case NoteOpened =>
      Some((sh.(t := sh.t.(openSessions := sh.t.openSessions + 1)), c.(pc := Serve(Leave))))
    case ReadCount =>
      Some((sh, c.(pc := Serve(SwapCount), count := sh.t.openSessions)))
    case SwapCount =>
      // One compare-exchange: an underflow or a lost race keeps the count high.
      Some((if c.count >= c.closing && sh.t.openSessions == c.count
            then sh.(t := sh.t.(openSessions := c.count - c.closing)) else sh,
            c.(pc := Serve(Leave))))
    case Leave =>
      Some((sh.(readers := sh.readers - {i}), c.(pc := Done)))
  }

  // --- The transition relation -------------------------------------------------

  /** One step of call `i` in state `c`, or `None` while it is blocked or finished; `quiet` says that
      no writer is queued. */
  function CallStep(sh: Shared, quiet: bool, i: nat, c: Call, ch: Choice): Option<(Shared, Call)> {
    match c.pc
    case Gate(_) => GateStep(sh, c)
    case Mark(_) => Some(MarkStep(sh, c))
    case NativeInit => Some(NativeInitStep(sh, c, ch))
    case Record(_) => Some(RecordStep(sh, c))
    case Cycle(_) => Some(CycleStep(sh, c))
    case PublishOpen(_) => PublishStep(sh, i, c)
    case PurgeOpen(_) => PurgeStep(sh, i, c)
    case Settle(_) => SettleStep(sh, i, c)
    case Remark(_) => Some(RemarkStep(sh, c))
    case Seal(_) => SealStep(sh, c, ch)
    case Finalize(_) => FinalizeStep(sh, i, c, ch)
    case RecordFailure => Some(RecordFailureStep(sh, c))
    case DropSeal => DropSealStep(sh, c)
    case Finish(_) => FinishStep(sh, i, c)
    case Admit(_) => AdmitStep(sh, quiet, i, c)
    case Serve(_) => ServeStep(sh, i, c, ch)
    case Done => None
  }

  predicate Steps(s: World, i: nat, ch: Choice, s': World) {
    && i < |s.calls|
    && var step := CallStep(s.sh, NoneQueued(s.calls), i, s.calls[i], ch);
    && step.Some?
    && s' == World(step.value.0, s.calls[i := step.value.1])
  }

  predicate Arrives(s: World, pc: Pc, kind: Ordinary, s': World) {
    IsEntry(pc) && s' == World(s.sh, s.calls + [NewCall(pc, kind)])
  }

  /** The transition relation: some call steps, or a new call arrives. */
  ghost predicate Next(s: World, s': World) {
    || (exists i, ch :: Steps(s, i, ch, s'))
    || (exists pc, kind :: Arrives(s, pc, kind, s'))
  }

  /** World `k` of a run follows from the one before it. */
  ghost predicate NextAt(run: seq<World>, k: nat)
    requires 0 < k < |run|
  {
    Next(run[k - 1], run[k])
  }

  ghost predicate IsRun(run: seq<World>) {
    && |run| > 0
    && forall k :: 0 < k < |run| ==> NextAt(run, k)
  }

  /** Every interleaving: the worlds some run from the start ends in. */
  ghost predicate Reachable(s: World) {
    exists run :: IsRun(run) && run[0] == START && run[|run| - 1] == s
  }

  predicate Quiescent(s: World) {
    forall i :: 0 <= i < |s.calls| ==> s.calls[i].pc.Done?
  }
}

/**
 The two locks never deadlock. The lifecycle lock is taken before the object-lifetime lock on every
 path, and no call waits for the lifecycle lock while it holds the lifetime lock.
 */
module LifecycleLiveness {
  import opened LifecycleModel
  import opened LifecycleInvariant
  import opened LifecycleProof

  /** Call `i` can take a step, even on a read lock that lets every queued writer go first. */
  ghost predicate Runnable(s: World, i: nat) {
    && i < |s.calls|
    && (exists ch :: CallStep(s.sh, NoneQueued(s.calls), i, s.calls[i], ch).Some?)
    && (s.calls[i].pc == Admit(Read) ==> NoneQueued(s.calls))
  }

  ghost predicate SomeRunnable(s: World) {
    exists i :: Runnable(s, i)
  }

  lemma RunsWith(s: World, i: nat, ch: Choice)
    requires i < |s.calls| && CallStep(s.sh, NoneQueued(s.calls), i, s.calls[i], ch).Some?
    requires s.calls[i].pc == Admit(Read) ==> NoneQueued(s.calls)
    ensures Runnable(s, i)
  {
  }

  /** With both locks free an unfinished call can step, unless it waits out a queued writer. */
  lemma FreeSteps(sh: Shared, quiet: bool, i: nat, c: Call)
    requires Free(sh) && sh.lifetime.None? && !c.pc.Done? && (c.pc.Admit? ==> quiet)
    ensures CallStep(sh, quiet, i, c, Plain(true)).Some?
  {
  }

  /** Nobody holds the lifecycle lock: every unfinished call can step, except one that waits out a
      queued writer, and then that writer can. */
  lemma FreeRuns(s: World, i: nat) returns (j: nat)
    requires Inv(s) && i < |s.calls| && !s.calls[i].pc.Done? && Free(s.sh)
    ensures Runnable(s, j)
  {
    assert s.sh.lifetime.Some? ==> CallOk(s.sh, s.sh.lifetime.value, s.calls[s.sh.lifetime.value]);
    j := i;
    if s.calls[i].pc.Admit? && !NoneQueued(s.calls) {
      j :| 0 <= j < |s.calls| && Queued(s.calls[j].pc);
    }
    FreeSteps(s.sh, NoneQueued(s.calls), j, s.calls[j]);
    RunsWith(s, j, Plain(true));
  }

  /** A call holds the write lock: it can step, since no reader (hence no lifetime holder) is left. */
  lemma WriterRuns(s: World) returns (j: nat)
    requires Inv(s) && s.sh.writer.Some?
    ensures Runnable(s, j)
  {
    j := s.sh.writer.value;
    assert CallOk(s.sh, j, s.calls[j]);
    assert s.sh.lifetime.Some? ==> CallOk(s.sh, s.sh.lifetime.value, s.calls[s.sh.lifetime.value]);
    RunsWith(s, j, Plain(true));
  }

  /** Readers are admitted: one of them can step, or the lifetime holder (itself a reader) can. */
  lemma ReaderRuns(s: World, r: nat) returns (j: nat)
    requires Inv(s) && r in s.sh.readers
    ensures Runnable(s, j)
  {
    assert CallOk(s.sh, r, s.calls[r]);
    j := if s.calls[r].pc == Serve(TakeLifetime) && s.sh.lifetime.Some? then s.sh.lifetime.value else r;
    assert CallOk(s.sh, j, s.calls[j]);
    RunsWith(s, j, Plain(true));
  }

  /** In every reachable world with a call in flight, some call can step. */
  lemma NoDeadlock(s: World)
    requires Reachable(s) && !Quiescent(s)
    ensures SomeRunnable(s)
  {
    InvReachable(s);
    var i: nat :| i < |s.calls| && !s.calls[i].pc.Done?;
    var j: nat;
    if s.sh.writer.Some? {
      j := WriterRuns(s);
    } else if r :| r in s.sh.readers {
      j := ReaderRuns(s, r);
    } else {
      j := FreeRuns(s, i);
    }
  }

  /** How many steps a call has left at most. */
  function Left(pc: Pc): nat {
    match pc
    case Gate(g) => (match g case LoadFailed => 23 case LoadInitialized => 22 case LoadFinalized => 21
                             case LoadGeneration => 20 case Begin => 19 case BeginQueued => 18)
    case Mark(m) => if m.StoreAttempted? then 17 else 16
    case NativeInit => 15
    case Record(r) => (match r case ReadBefore => 14 case CountOk => 13 case CheckFailed => 12
                               case CheckInitialized => 11 case CheckFinalized => 10)
    case Cycle(y) => (match y case Claim => 9 case SetInitialized => 8 case ClearFinalized => 7 case ResetSessions => 6)
    case PublishOpen(p) => (match p case ReadAfter => 5 case Unqueued => 4 case PublishQueued => 3)
    case Settle(_) => 4
    case Remark(k) => (match k case CountFailed => 3 case RemarkAttempted => 2 case RemarkSince => 1)
    case PurgeOpen(l) => if l.TakeLeaf? then 2 else 1
    case Seal(z) => (match z case TrySeal => 15 case SealQueued => 14 case Enter => 13 case EnterQueued => 12)
    case Finalize(f) => (match f case Snapshot => 11 case NativeFinalize => 10 case Abandon => 2
                                 case Publish => 9 case FinishQueued => 8)
    case RecordFailure => 1
    case DropSeal => 1
    case Finish(n) => (match n case SetFinalized => 7 case ClearFailed => 6 case CompareCount => 5
                               case ClearSince => 4 case ZeroSessions => 3 case TakeLeafLast => 2 case PurgeLast => 1)
    case Admit(a) => if a.Spin? then 7 else 6
    case Serve(o) => (match o case TakeLifetime => 5 case NativeCall => 4 case NoteOpened => 2
                              case ReadCount => 3 case SwapCount => 2 case Leave => 1)
    case Done => 0
  }

  function TotalLeft(calls: seq<Call>): nat {
    if calls == [] then 0 else Left(calls[0].pc) + TotalLeft(calls[1..])
  }

  lemma InitializeLeft(sh: Shared, quiet: bool, i: nat, c: Call, ch: Choice)
    requires InInitialize(c.pc) && CallStep(sh, quiet, i, c, ch).Some?
    ensures Left(CallStep(sh, quiet, i, c, ch).value.1.pc) < Left(c.pc)
  {
    match c.pc
    case Gate(_) => return;
    case Mark(_) => return;
    case NativeInit => return;
    case Record(_) => return;
    case Cycle(_) => return;
    case PublishOpen(_) => return;
    case PurgeOpen(_) => return;
    case Settle(_) => return;
    case Remark(_) => return;
  }

  lemma LeftStep(sh: Shared, quiet: bool, i: nat, c: Call, ch: Choice)
    requires CallStep(sh, quiet, i, c, ch).Some?
    ensures Left(CallStep(sh, quiet, i, c, ch).value.1.pc) < Left(c.pc)
  {
    if InInitialize(c.pc) {
      InitializeLeft(sh, quiet, i, c, ch);
      return;
    }
    match c.pc
    case Seal(_) => return;
    case Finalize(_) => return;
    case RecordFailure => return;
    case DropSeal => return;
    case Finish(_) => return;
    case Admit(_) => return;
    case Serve(_) => return;
  }

  lemma {:induction false} TotalLeftUpdate(calls: seq<Call>, i: nat, c: Call)
    requires i < |calls|
    ensures TotalLeft(calls[i := c]) == TotalLeft(calls) - Left(calls[i].pc) + Left(c.pc)
  {
    if i > 0 {
      assert calls[i := c][1..] == calls[1..][i - 1 := c];
      TotalLeftUpdate(calls[1..], i - 1, c);
    } else {
      assert calls[i := c][1..] == calls[1..];
    }
  }

  /** A schedule of the calls already in flight: no new call arrives. */
  ghost predicate IsSchedule(run: seq<World>) {
    |run| > 0 && forall k :: 0 < k < |run| ==> StepsAt(run, k)
  }

  ghost predicate StepsAt(run: seq<World>, k: nat)
    requires 0 < k < |run|
  {
    StepsOnce(run[k - 1], run[k])
  }

  ghost predicate StepsOnce(s: World, s': World) {
    exists i, ch :: Steps(s, i, ch, s')
  }

  lemma ScheduleStep(s: World, s': World)
    requires StepsOnce(s, s')
    ensures TotalLeft(s'.calls) < TotalLeft(s.calls) && Next(s, s')
  {
    var i: nat, ch :| Steps(s, i, ch, s');
    LeftStep(s.sh, NoneQueued(s.calls), i, s.calls[i], ch);
    TotalLeftUpdate(s.calls, i, s'.calls[i]);
  }

  lemma {:induction false} ScheduleReaches(run: seq<World>, k: nat)
    requires IsSchedule(run) && Reachable(run[0]) && k < |run|
    ensures Reachable(run[k]) && k + TotalLeft(run[k].calls) <= TotalLeft(run[0].calls)
  {
    if k > 0 {
      ScheduleReaches(run, k - 1);
      assert StepsAt(run, k);
      ScheduleStep(run[k - 1], run[k]);
      ReachesOn(run[k - 1], run[k]);
    }
  }

  lemma ReachesOn(s: World, s': World)
    requires Reachable(s) && Next(s, s')
    ensures Reachable(s')
  {
    var run :| IsRun(run) && run[0] == START && run[|run| - 1] == s;
    var longer := run + [s'];
    forall k | 0 < k < |longer|
      ensures NextAt(longer, k)
    {
      assert k < |run| ==> NextAt(run, k);
    }
    assert IsRun(longer) && longer[0] == START && longer[|longer| - 1] == s';
  }

  /**
   Given that native calls return, every schedule of the calls in flight is finite, and a schedule that
   cannot be extended has completed every call.
   */
  lemma EveryScheduleDrains(run: seq<World>)
    requires IsSchedule(run) && Reachable(run[0])
    ensures |run| - 1 <= TotalLeft(run[0].calls)
    ensures !SomeRunnable(run[|run| - 1]) ==> Quiescent(run[|run| - 1])
  {
    ScheduleReaches(run, |run| - 1);
    if !Quiescent(run[|run| - 1]) {
      NoDeadlock(run[|run| - 1]);
    }
  }
}

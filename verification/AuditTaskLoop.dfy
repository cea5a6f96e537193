/** The writer task's loop: each arm is an action of the task, so the loop goes through a run of it. */
module AuditTaskLoop {
  import opened Words
  import opened Wrappers
  import opened AuditChain
  import opened AuditReplayTheorems
  import opened AuditVerifyTheorems
  import opened AuditWriter
  import opened AuditSink
  import opened AuditSinkTheorems
  import opened AuditTask

  /** The loop has come as far as `r`, with numbers left for the messages to come and `spare` more. */
  ghost predicate At(w: WriterState, msgs: seq<Message>, r: Run, i: nat, acks: seq<nat>, spare: nat)
    reads w
  {
    && w.Valid() && w.Recoverable() && IsRun(w.cfg, msgs, r)
    && r.now.received == i <= |msgs| && r.now.acks == acks && r.now.trace == w.trace && r.now.seen == w.lastSeenDropped
    && |w.book.history| + 3 * (|msgs| - i) + spare <= U64_MAX
  }

  // The writer's operations, said of its trace.

  method Write(w: WriterState, rec: AuditRecord, dropped: U64)
    requires w.Valid() && w.Recoverable() && |w.book.history| + 1 < U64_MAX
    modifies w
    ensures w.Valid() && w.Recoverable() && |w.book.history| <= |old(w.book).history| + 2
    ensures Wrote(w.cfg, old(w.trace), old(w.lastSeenDropped), w.trace, w.lastSeenDropped, rec)
    ensures dropped == 0 && old(w.fileBytes) == 0 && old(w.sinceCheckpoint) == 0 ==>
      w.disk.anchor == old(w.disk).anchor && w.lastSeenDropped == old(w.lastSeenDropped)
  {
    w.WriteRecord(rec, dropped);
  }

  method Tick(w: WriterState)
    requires w.Valid() && w.Recoverable()
    modifies w
    ensures w.Valid() && w.Recoverable() && w.lastSeenDropped == old(w.lastSeenDropped)
    ensures GoesOn(w.cfg, old(w.trace), w.trace, 0, 0) && w.book.history == old(w.book).history
  {
    w.TimedCheckpoint();
  }

  method FlushLog(w: WriterState, dropped: U64)
    requires w.Valid() && w.Recoverable() && |w.book.history| < U64_MAX
    modifies w
    ensures w.Valid() && w.Recoverable() && |w.book.history| <= |old(w.book).history| + 1
    ensures Flushed(w.cfg, old(w.trace), old(w.lastSeenDropped), w.trace, w.lastSeenDropped)
  {
    w.Flush(dropped);
  }

  // The actions.

  lemma WriteActs(cfg: Config, msgs: seq<Message>, r: Run, t: Trace, seen: U64) returns (r': Run)
    requires IsRun(cfg, msgs, r) && r.now.received < |msgs| && msgs[r.now.received].Record? && !r.now.flushed
    requires Wrote(cfg, r.now.trace, r.now.seen, t, seen, msgs[r.now.received].rec)
    ensures r' == Further(r, r.now.(received := r.now.received + 1, trace := t, seen := seen)) && IsRun(cfg, msgs, r')
  {
    r' := Further(r, r.now.(received := r.now.received + 1, trace := t, seen := seen));
    assert Writes(cfg, msgs, r.now, r'.now);
  }

  /** A record arrives, and the drop counter reads `dropped`. */
  method Take(w: WriterState, msgs: seq<Message>, i: nat, dropped: U64, ghost acks: seq<nat>, ghost r: Run, ghost spare: nat)
    returns (ghost r': Run)
    requires At(w, msgs, r, i, acks, spare) && i < |msgs| && msgs[i].Record? && !r.now.flushed
    modifies w
    ensures At(w, msgs, r', i + 1, acks, spare)
    ensures r' == Further(r, r.now.(received := i + 1, trace := w.trace, seen := w.lastSeenDropped))
    ensures dropped == 0 && old(w.fileBytes) == 0 && old(w.sinceCheckpoint) == 0 ==>
      w.disk.anchor == old(w.disk).anchor && w.lastSeenDropped == old(w.lastSeenDropped)
  {
    Write(w, msgs[i].rec, dropped);
    r' := WriteActs(w.cfg, msgs, r, w.trace, w.lastSeenDropped);
  }

  lemma TickActs(cfg: Config, msgs: seq<Message>, r: Run, t: Trace) returns (r': Run)
    requires IsRun(cfg, msgs, r) && r.now.received < |msgs| && msgs[r.now.received].Checkpoint? && !r.now.flushed
    requires if r.now.serving.Some? then t == r.now.trace else GoesOn(cfg, r.now.trace, t, 0, 0)
    ensures r' == Further(r, r.now.(received := r.now.received + 1, trace := t)) && IsRun(cfg, msgs, r')
  {
    r' := Further(r, r.now.(received := r.now.received + 1, trace := t));
    assert Ticks(cfg, msgs, r.now, r'.now);
  }

  lemma BeginActs(cfg: Config, msgs: seq<Message>, r: Run) returns (r': Run)
    requires IsRun(cfg, msgs, r) && r.now.received < |msgs| && msgs[r.now.received].Flush?
    requires r.now.serving.None? && !r.now.flushed
    ensures r' == Further(r, r.now.(received := r.now.received + 1, serving := Some(r.now.received)))
    ensures IsRun(cfg, msgs, r')
  {
    r' := Further(r, r.now.(received := r.now.received + 1, serving := Some(r.now.received)));
    assert Begins(msgs, r.now, r'.now);
  }

  lemma DrainedActs(cfg: Config, msgs: seq<Message>, r: Run) returns (r': Run)
    requires IsRun(cfg, msgs, r) && r.now.received < |msgs| && msgs[r.now.received].Flush?
    requires r.now.serving.Some? && !r.now.flushed
    ensures r' == Further(r, r.now.(received := r.now.received + 1, acks := r.now.acks + [r.now.received]))
    ensures IsRun(cfg, msgs, r')
  {
    r' := Further(r, r.now.(received := r.now.received + 1, acks := r.now.acks + [r.now.received]));
    assert AcksDrained(msgs, r.now, r'.now);
  }

  lemma FlushActs(cfg: Config, msgs: seq<Message>, r: Run, t: Trace, seen: U64) returns (r': Run)
    requires IsRun(cfg, msgs, r) && !r.now.flushed && (r.now.serving.None? ==> r.now.received == |msgs|)
    requires Flushed(cfg, r.now.trace, r.now.seen, t, seen)
    ensures r' == Further(r, r.now.(flushed := true, trace := t, seen := seen)) && IsRun(cfg, msgs, r')
  {
    r' := Further(r, r.now.(flushed := true, trace := t, seen := seen));
    assert FlushesLog(cfg, msgs, r.now, r'.now);
  }

  lemma ServedActs(cfg: Config, msgs: seq<Message>, r: Run) returns (r': Run)
    requires IsRun(cfg, msgs, r) && r.now.flushed && r.now.serving.Some?
    ensures r' == Further(r, r.now.(serving := None, flushed := false, acks := r.now.acks + [r.now.serving.value]))
    ensures IsRun(cfg, msgs, r')
  {
    r' := Further(r, r.now.(serving := None, flushed := false, acks := r.now.acks + [r.now.serving.value]));
    assert AcksServed(r.now, r'.now);
  }

  // The loop.

  /** Serve one message while a flush is being served: a record is written, a tick passed over, and a further flush
      request acknowledged at once. */
  method DrainOne(
    w: WriterState, msgs: seq<Message>, i: nat, acks: seq<nat>, dropped: U64, ghost r: Run, ghost spare: nat)
    returns (acks': seq<nat>, ghost r': Run)
    requires At(w, msgs, r, i, acks, spare) && i < |msgs| && r.now.serving.Some? && !r.now.flushed
    modifies w
    ensures At(w, msgs, r', i + 1, acks', spare) && r'.Further? && r'.past == r
    ensures r'.now.serving == r.now.serving && !r'.now.flushed
    ensures acks' == acks + if msgs[i].Flush? then [i] else []
    ensures !msgs[i].Record? ==> unchanged(w) && r'.now.trace == r.now.trace
    ensures dropped == 0 && old(w.fileBytes) == 0 && old(w.sinceCheckpoint) == 0 ==>
      w.disk.anchor == old(w.disk).anchor && w.lastSeenDropped == old(w.lastSeenDropped)
  {
    acks' := acks;
    match msgs[i] {
      case Record(_) =>
        r' := Take(w, msgs, i, dropped, acks, r, spare);
      case Flush =>
        acks' := acks + [i];
        r' := DrainedActs(w.cfg, msgs, r);
      case Checkpoint =>
        r' := TickActs(w.cfg, msgs, r, r.now.trace);
    }
  }

  /** Serve what is waiting before a flush; nothing need be waiting at any point. */
  method Drain(w: WriterState, msgs: seq<Message>, start: nat, acks: seq<nat>, ghost r: Run, ghost spare: nat)
    returns (next: nat, acks': seq<nat>, ghost r': Run)
    requires At(w, msgs, r, start, acks, spare) && r.now.serving.Some? && !r.now.flushed
    modifies w
    ensures At(w, msgs, r', next, acks', spare) && start <= next && First(r') == First(r)
    ensures r'.now.serving == r.now.serving && !r'.now.flushed
  {
    next, acks', r' := start, acks, r;
    var waiting: bool := *;
    while next < |msgs| && waiting
      // Compared with `true` so that the verifier carries the predicate as a whole.
      invariant At(w, msgs, r', next, acks', spare) == true && start <= next && First(r') == First(r)
      invariant r'.now.serving == r.now.serving && !r'.now.flushed
    {
      var dropped: U64 := *;
      acks', r' := DrainOne(w, msgs, next, acks', dropped, r', spare);
      next := next + 1;
      waiting := *;
    }
  }

  /** Serve a flush request: drain what waits, flush, acknowledge. */
  method ServeFlush(w: WriterState, msgs: seq<Message>, i: nat, acks: seq<nat>, ghost r: Run)
    returns (next: nat, acks': seq<nat>, ghost r': Run)
    requires At(w, msgs, r, i, acks, 1) && i < |msgs| && msgs[i].Flush? && r.now.serving.None? && !r.now.flushed
    modifies w
    ensures At(w, msgs, r', next, acks', 1) && i < next && First(r') == First(r)
    ensures r'.now.serving.None? && !r'.now.flushed
  {
    r' := BeginActs(w.cfg, msgs, r);
    next, acks', r' := Drain(w, msgs, i + 1, acks, r', 4);
    var dropped: U64 := *;
    r' := FlushNow(w, msgs, next, dropped, acks', r', 4);
    r' := ServedActs(w.cfg, msgs, r');
    acks' := acks' + [i];
  }

  /** Flush, and the drop counter reads `dropped`. */
  method FlushNow(w: WriterState, msgs: seq<Message>, i: nat, dropped: U64, ghost acks: seq<nat>, ghost r: Run, ghost spare: nat)
    returns (ghost r': Run)
    requires At(w, msgs, r, i, acks, spare) && spare > 0 && !r.now.flushed && (r.now.serving.None? ==> i == |msgs|)
    modifies w
    ensures At(w, msgs, r', i, acks, spare - 1) && w.book.unanchored == 0
    ensures r' == Further(r, r.now.(flushed := true, trace := w.trace, seen := w.lastSeenDropped))
  {
    FlushLog(w, dropped);
    r' := FlushActs(w.cfg, msgs, r, w.trace, w.lastSeenDropped);
  }

  /** Serve the next message. */
  method ServeOne(w: WriterState, msgs: seq<Message>, i: nat, acks: seq<nat>, ghost r: Run)
    returns (next: nat, acks': seq<nat>, ghost r': Run)
    requires At(w, msgs, r, i, acks, 1) && i < |msgs| && r.now.serving.None? && !r.now.flushed
    modifies w
    ensures At(w, msgs, r', next, acks', 1) && i < next && First(r') == First(r)
    ensures r'.now.serving.None? && !r'.now.flushed
  {
    next, acks' := i + 1, acks;
    match msgs[i] {
      case Record(_) =>
        var dropped: U64 := *;
        r' := Take(w, msgs, i, dropped, acks, r, 1);
      case Flush =>
        next, acks', r' := ServeFlush(w, msgs, i, acks, r);
      case Checkpoint =>
        r' := TakeTick(w, msgs, i, acks, r, 1);
    }
  }

  method TakeTick(w: WriterState, msgs: seq<Message>, i: nat, ghost acks: seq<nat>, ghost r: Run, ghost spare: nat)
    returns (ghost r': Run)
    requires At(w, msgs, r, i, acks, spare) && i < |msgs| && msgs[i].Checkpoint? && r.now.serving.None? && !r.now.flushed
    modifies w
    ensures At(w, msgs, r', i + 1, acks, spare)
    ensures r' == Further(r, r.now.(received := i + 1, trace := w.trace))
  {
    Tick(w);
    r' := TickActs(w.cfg, msgs, r, w.trace);
  }

  // The verdict on what the task leaves behind.

  /** The verdict on a directory is the one its clock and schema deserve, however it is listed and with any key. */
  ghost predicate VerifiesExactly(cfg: Config, disk: Disk, b: Book)
    requires disk.active.Some?
  {
    var log := Retained(disk, b);
    && Consecutive(log)
    && forall c, dir, key :: Shows(dir, disk, b) && Matching(c, cfg, key) ==>
         (Accepts(c, dir, key) <==>
          && AllCurrent(log) && ClockHeld(log, disk.checkpoints)
          && (key.Some? && log != [] ==> exists cl :: cl in disk.checkpoints && Covers(log, cl.checkpoint)))
  }

  lemma FlushedVerifiesExactly(cfg: Config, disk: Disk, b: Book)
    requires Coherent(cfg, disk, b) && b.unanchored == 0 && |b.history| <= U64_MAX
    ensures VerifiesExactly(cfg, disk, b)
  {
    RetainedIntact(cfg, disk, b);
    forall c, dir, key | Shows(dir, disk, b) && Matching(c, cfg, key)
      ensures var log := Retained(disk, b);
        Accepts(c, dir, key) <==>
          && AllCurrent(log) && ClockHeld(log, disk.checkpoints)
          && (key.Some? && log != [] ==> exists cl :: cl in disk.checkpoints && Covers(log, cl.checkpoint))
    {
      FlushedVerifies(c, cfg, disk, b, dir, key);
    }
  }

  /** The task at the beginning. */
  ghost function Initial(w: WriterState): Task
    reads w
  {
    Task(0, None, false, [], w.trace, w.lastSeenDropped)
  }

  /**
   The whole task, on any messages, any interleaving of the drains with the senders and any drop counts, goes
   through a run of the transition system to its end: all messages received, none being served, the last flush
   done. What that run went through holds of the writer, and the directory verifies exactly as it deserves.
   */
  method WriterTask(w: WriterState, msgs: seq<Message>) returns (acks: seq<nat>, ghost r: Run)
    requires w.Valid() && w.Recoverable() && |w.book.history| + 3 * |msgs| + 1 <= U64_MAX
    modifies w
    ensures w.Valid() && w.Recoverable() && Past(old(w.trace), w.trace)
    ensures IsRun(w.cfg, msgs, r) && First(r) == old(Initial(w))
    ensures r.now == Task(|msgs|, None, true, acks, w.trace, w.lastSeenDropped)
    ensures multiset(acks) == multiset(Flushes(msgs, 0, |msgs|))
    ensures Holds(old(w.book).history, w.book.history, Sent(msgs))
    ensures Dropped(w.book.history) + old(w.lastSeenDropped) ==
      Dropped(old(w.book).history) + w.lastSeenDropped + Dropped(Sent(msgs))
    ensures VerifiesExactly(w.cfg, w.disk, w.book)
  {
    var i := 0;
    acks, r := [], Started(Initial(w));
    while i < |msgs|
      invariant At(w, msgs, r, i, acks, 1) == true
      invariant First(r) == old(Initial(w)) && r.now.serving.None? && !r.now.flushed
      decreases |msgs| - i
    {
      i, acks, r := ServeOne(w, msgs, i, acks, r);
    }
    var dropped: U64 := *;
    r := FlushNow(w, msgs, i, dropped, acks, r, 1);
    EveryRunKeeps(w.cfg, msgs, r);
    ClosedMeans(w.cfg, msgs, r);
    FlushedVerifiesExactly(w.cfg, w.disk, w.book);
  }

  /** A writer on an empty directory. */
  method OpenNew(cfg: Config) returns (w: WriterState)
    ensures fresh(w) && w.cfg == cfg && w.Valid() && w.Recoverable()
    ensures w.book.history == [] && w.disk.anchor == None && w.fileBytes == w.sinceCheckpoint == w.lastSeenDropped == 0
  {
    ghost var none: seq<AuditRecord> := [];
    assert none[..0] == [] && Joined(map[], 1, 1) == [];
    w := new WriterState.Open(cfg, Disk(map[], None, [], None), Book(none, 1, 1, 0, 0));
  }

  /** A record received on an empty log, without drops, is the log. */
  lemma OneWritten(cfg: Config, msgs: seq<Message>, r: Run)
    requires IsRun(cfg, msgs, r) && r.Further? && Log(r.past.now) == [] && r.now.seen == r.past.now.seen
    requires r.now.received == r.past.now.received + 1 <= |msgs| && msgs[r.past.now.received].Record?
    ensures |Log(r.now)| == 1 && Body(Log(r.now)[0]) == Body(msgs[r.past.now.received].rec)
  {
    assert Writes(cfg, msgs, r.past.now, r.now);
  }

  lemma NotSealed(cfg: Config, m: Moment)
    requires Coherent(cfg, m.disk, m.book) && |m.book.history| == 1 && m.disk.anchor == None
    ensures !SealedAt(cfg, m)
  {
    SealedExactly(cfg, m);
  }

  /**
   Two flush requests with one record between them, on a new log, all waiting: the loop's own steps acknowledge the
   second request while the first is being served, when the record is written and the log is not sealed.
   */
  method EarlyAck(cfg: Config, rec: AuditRecord) returns (w: WriterState, acks: seq<nat>, ghost r: Run)
    ensures w.cfg == cfg && IsRun(cfg, [Flush, Record(rec), Flush], r) && r.now.trace == w.trace
    ensures acks == [2] && r.now.acks == acks && Acknowledges(r, 2) && r.now.serving == Some(0)
    ensures |Log(r.now)| == 1 && Body(Log(r.now)[0]) == Body(rec) && !SealedAt(cfg, r.now.trace.now)
  {
    var msgs := [Flush, Record(rec), Flush];
    w := OpenNew(cfg);
    r := BeginActs(cfg, msgs, Started(Initial(w)));
    acks, r := DrainOne(w, msgs, 1, [], 0, r, 1);
    OneWritten(cfg, msgs, r);
    NotSealed(cfg, r.now.trace.now);
    acks, r := DrainOne(w, msgs, 2, acks, 0, r, 1);
  }
}

/**
 The writer task as a transition system: what it receives from the channel, what it does to the directory and
 when it acknowledges a flush, in every order the senders allow, and what an acknowledgement then means.
 */
module AuditTask {
  import opened Words
  import opened Wrappers
  import opened AuditChain
  import opened AuditReplayTheorems
  import opened AuditVerify
  import opened AuditWriter
  import opened AuditSink
  import opened AuditSinkTheorems

  datatype Message = Record(rec: AuditRecord) | Flush | Checkpoint

  /** The records among the messages, in order. */
  function Sent(msgs: seq<Message>): seq<AuditRecord> {
    if msgs == [] then []
    else
      var m := msgs[|msgs| - 1];
      Sent(msgs[..|msgs| - 1]) + if m.Record? then [m.rec] else []
  }

  /** The flush requests from message `lo` up to `hi`. */
  function Flushes(msgs: seq<Message>, lo: nat, hi: nat): seq<nat>
    requires hi <= |msgs|
  {
    if hi <= lo then [] else Flushes(msgs, lo, hi - 1) + if msgs[hi - 1].Flush? then [hi - 1] else []
  }

  /** `log` is `sent` in order, chained, with nothing but gap sentinels in between. */
  ghost predicate Carries(log: seq<AuditRecord>, sent: seq<AuditRecord>) {
    if log == [] then sent == []
    else
      var init, last := log[..|log| - 1], log[|log| - 1];
      || (sent != [] && Body(last) == Body(sent[|sent| - 1]) && Carries(init, sent[..|sent| - 1]))
      || (SentinelCount(last).Some? && Carries(init, sent))
  }

  /** The history grew from `from` by what was sent. */
  ghost predicate Holds(from: seq<AuditRecord>, history: seq<AuditRecord>, sent: seq<AuditRecord>) {
    from <= history && Carries(history[|from|..], sent)
  }

  lemma CarriesMore(log: seq<AuditRecord>, sent: seq<AuditRecord>, rec: AuditRecord, last: AuditRecord)
    requires Carries(log, sent) && Body(last) == Body(rec)
    ensures Carries(log + [last], sent + [rec])
  {
    assert (log + [last])[..|log|] == log && (sent + [rec])[..|sent|] == sent;
  }

  lemma CarriesGap(log: seq<AuditRecord>, sent: seq<AuditRecord>, gap: AuditRecord)
    requires Carries(log, sent) && SentinelCount(gap).Some?
    ensures Carries(log + [gap], sent)
  {
    assert (log + [gap])[..|log|] == log;
  }

  lemma HoldsGap(from: seq<AuditRecord>, h: seq<AuditRecord>, h': seq<AuditRecord>, drops: nat, sent: seq<AuditRecord>)
    requires Holds(from, h, sent) && Grown(h, h', drops, 0)
    ensures Holds(from, h', sent)
  {
    if drops > 0 {
      assert h'[|from|..] == h[|from|..] + [h'[|h|]];
      CarriesGap(h[|from|..], sent, h'[|h|]);
    } else {
      assert h' == h;
    }
  }

  lemma HoldsRecord(
    from: seq<AuditRecord>, h: seq<AuditRecord>, h': seq<AuditRecord>, drops: nat, sent: seq<AuditRecord>, rec: AuditRecord)
    requires Holds(from, h, sent) && Grown(h, h', drops, 1) && Body(h'[|h'| - 1]) == Body(rec)
    ensures Holds(from, h', sent + [rec])
  {
    var mid := h'[..|h'| - 1];
    assert Grown(h, mid, drops, 0);
    HoldsGap(from, h, mid, drops, sent);
    assert h'[|from|..] == mid[|from|..] + [h'[|h'| - 1]];
    CarriesMore(mid[|from|..], sent, rec, h'[|h'| - 1]);
  }

  lemma SentGrows(msgs: seq<Message>, i: nat)
    requires i < |msgs|
    ensures Sent(msgs[..i + 1]) == Sent(msgs[..i]) + if msgs[i].Record? then [msgs[i].rec] else []
  {
    assert msgs[..i + 1][..i] == msgs[..i];
  }

  // The task.

  /**
   The task between two actions: how many messages it has received, the flush request it is serving and
   whether it has flushed for it, the requests it has acknowledged in order, the directory so far, and the
   drop counter's last reading. Once the channel is closed it has flushed for no request.
   */
  datatype Task = Task(received: nat, serving: Option<nat>, flushed: bool, acks: seq<nat>, trace: Trace, seen: U64)

  function Log(s: Task): seq<AuditRecord> {
    s.trace.now.book.history
  }

  /** The directory goes on from `t` to `t'`, between writer operations, by a sentinel for any drops and `n` records. */
  ghost predicate GoesOn(cfg: Config, t: Trace, t': Trace, drops: nat, n: nat) {
    && Past(t, t') && Traced(cfg, t') && Coherent(cfg, t'.now.disk, t'.now.book)
    && Grown(t.now.book.history, t'.now.book.history, drops, n)
  }

  /** The drops a record accounts for, if it is a sentinel. */
  function DropsOf(rec: AuditRecord): nat {
    if SentinelCount(rec).Some? then SentinelCount(rec).value else 0
  }

  /** A record is written, after a sentinel for any drops the counter shows. */
  ghost predicate Wrote(cfg: Config, t: Trace, seen: U64, t': Trace, seen': U64, rec: AuditRecord) {
    var h, h' := t.now.book.history, t'.now.book.history;
    && seen <= seen' && GoesOn(cfg, t, t', seen' - seen, 1) && Body(h'[|h'| - 1]) == Body(rec)
    && Dropped(h') + seen == Dropped(h) + seen' + DropsOf(rec)
  }

  /** The next message is a record: write it. */
  ghost predicate Writes(cfg: Config, msgs: seq<Message>, s: Task, s': Task) {
    && s.received < |msgs| && msgs[s.received].Record? && !s.flushed
    && s' == s.(received := s.received + 1, trace := s'.trace, seen := s'.seen)
    && Wrote(cfg, s.trace, s.seen, s'.trace, s'.seen, msgs[s.received].rec)
  }

  /** A timer tick: seal what is new, or pass it over while serving a flush. */
  ghost predicate Ticks(cfg: Config, msgs: seq<Message>, s: Task, s': Task) {
    && s.received < |msgs| && msgs[s.received].Checkpoint? && !s.flushed
    && s' == s.(received := s.received + 1, trace := s'.trace)
    && (if s.serving.Some? then s'.trace == s.trace else GoesOn(cfg, s.trace, s'.trace, 0, 0))
  }

  /** A flush request with none being served. */
  predicate Begins(msgs: seq<Message>, s: Task, s': Task) {
    && s.received < |msgs| && msgs[s.received].Flush? && s.serving.None? && !s.flushed
    && s' == s.(received := s.received + 1, serving := Some(s.received))
  }

  /** A flush request while another is being served: acknowledged at once. */
  predicate AcksDrained(msgs: seq<Message>, s: Task, s': Task) {
    && s.received < |msgs| && msgs[s.received].Flush? && s.serving.Some? && !s.flushed
    && s' == s.(received := s.received + 1, acks := s.acks + [s.received])
  }

  /** The log is flushed, after a sentinel for any drops the counter shows: no record is past the anchor. */
  ghost predicate Flushed(cfg: Config, t: Trace, seen: U64, t': Trace, seen': U64) {
    && seen <= seen' && GoesOn(cfg, t, t', seen' - seen, 0) && t'.now.book.unanchored == 0
    && Dropped(t'.now.book.history) + seen == Dropped(t.now.book.history) + seen'
  }

  /** Flush: for the request being served, or for none once the channel is closed. */
  ghost predicate FlushesLog(cfg: Config, msgs: seq<Message>, s: Task, s': Task) {
    && !s.flushed && (s.serving.None? ==> s.received == |msgs|)
    && s' == s.(flushed := true, trace := s'.trace, seen := s'.seen)
    && Flushed(cfg, s.trace, s.seen, s'.trace, s'.seen)
  }

  predicate AcksServed(s: Task, s': Task) {
    && s.flushed && s.serving.Some?
    && s' == s.(serving := None, flushed := false, acks := s.acks + [s.serving.value])
  }

  ghost predicate Acts(cfg: Config, msgs: seq<Message>, s: Task, s': Task) {
    || Writes(cfg, msgs, s, s') || Ticks(cfg, msgs, s, s') || Begins(msgs, s, s')
    || AcksDrained(msgs, s, s') || FlushesLog(cfg, msgs, s, s') || AcksServed(s, s')
  }

  ghost predicate Starts(cfg: Config, s: Task) {
    && s.received == 0 && s.serving.None? && !s.flushed && s.acks == []
    && Traced(cfg, s.trace) && Coherent(cfg, s.trace.now.disk, s.trace.now.book)
  }

  datatype Run = Started(now: Task) | Further(past: Run, now: Task)

  ghost predicate IsRun(cfg: Config, msgs: seq<Message>, r: Run) {
    if r.Started? then Starts(cfg, r.now) else IsRun(cfg, msgs, r.past) && Acts(cfg, msgs, r.past.now, r.now)
  }

  function First(r: Run): Task {
    if r.Started? then r.now else First(r.past)
  }

  // What every run keeps.

  /** Every drop the counter has shown since `s0` is in exactly one sentinel. */
  ghost predicate Accounted(s0: Task, s: Task, sent: seq<AuditRecord>) {
    Dropped(Log(s)) + s0.seen == Dropped(Log(s0)) + s.seen + Dropped(sent)
  }

  /** The directory is coherent and was recoverable all along, and is sealed once flushed. */
  ghost predicate Sound(cfg: Config, s0: Task, s: Task) {
    && Past(s0.trace, s.trace) && Traced(cfg, s.trace) && Coherent(cfg, s.trace.now.disk, s.trace.now.book)
    && (s.flushed ==> s.trace.now.book.unanchored == 0)
  }

  /** The log holds what was sent. */
  ghost predicate Kept(msgs: seq<Message>, s0: Task, s: Task) {
    && s.received <= |msgs|
    && Holds(Log(s0), Log(s), Sent(msgs[..s.received])) && Accounted(s0, s, Sent(msgs[..s.received]))
  }

  /** Every request received is acknowledged once, except one that is being served. */
  ghost predicate Answered(msgs: seq<Message>, s: Task) {
    && s.received <= |msgs|
    && (s.serving.Some? ==> s.serving.value < s.received && msgs[s.serving.value].Flush?)
    && multiset(Flushes(msgs, 0, s.received)) ==
       multiset(s.acks) + if s.serving.Some? then multiset{s.serving.value} else multiset{}
  }

  /** What one more record does to the log and the drop count. */
  lemma Recorded(
    h0: seq<AuditRecord>, h: seq<AuditRecord>, h': seq<AuditRecord>, drops: nat, sent: seq<AuditRecord>, rec: AuditRecord)
    requires Holds(h0, h, sent) && Grown(h, h', drops, 1) && Body(h'[|h'| - 1]) == Body(rec)
    ensures Holds(h0, h', sent + [rec]) && Dropped(sent + [rec]) == Dropped(sent) + DropsOf(rec)
  {
    HoldsRecord(h0, h, h', drops, sent, rec);
    DroppedGrows(sent, rec);
  }

  lemma KeptByWrite(msgs: seq<Message>, s0: Task, s: Task, s': Task)
    requires Kept(msgs, s0, s) && s.received < |msgs| && msgs[s.received].Record? && s'.received == s.received + 1
    requires s.seen <= s'.seen && Grown(Log(s), Log(s'), s'.seen - s.seen, 1)
    requires Body(Log(s')[|Log(s')| - 1]) == Body(msgs[s.received].rec)
    requires Dropped(Log(s')) + s.seen == Dropped(Log(s)) + s'.seen + DropsOf(msgs[s.received].rec)
    ensures Kept(msgs, s0, s')
  {
    SentGrows(msgs, s.received);
    Recorded(Log(s0), Log(s), Log(s'), s'.seen - s.seen, Sent(msgs[..s.received]), msgs[s.received].rec);
  }

  lemma KeptByOther(msgs: seq<Message>, s0: Task, s: Task, s': Task)
    requires Kept(msgs, s0, s) && s.received < |msgs| && !msgs[s.received].Record? && s'.received == s.received + 1
    requires Log(s') == Log(s) && s'.seen == s.seen
    ensures Kept(msgs, s0, s')
  {
    SentGrows(msgs, s.received);
    assert Sent(msgs[..s.received]) + [] == Sent(msgs[..s.received]);
  }

  lemma KeptByFlush(msgs: seq<Message>, s0: Task, s: Task, s': Task)
    requires Kept(msgs, s0, s) && s'.received == s.received && s.seen <= s'.seen
    requires Grown(Log(s), Log(s'), s'.seen - s.seen, 0) && Dropped(Log(s')) + s.seen == Dropped(Log(s)) + s'.seen
    ensures Kept(msgs, s0, s')
  {
    HoldsGap(Log(s0), Log(s), Log(s'), s'.seen - s.seen, Sent(msgs[..s.received]));
  }

  lemma KeptByWrites(cfg: Config, msgs: seq<Message>, s0: Task, s: Task, s': Task)
    requires Kept(msgs, s0, s) && Writes(cfg, msgs, s, s')
    ensures Kept(msgs, s0, s')
  {
    KeptByWrite(msgs, s0, s, s');
  }

  lemma KeptByTicks(cfg: Config, msgs: seq<Message>, s0: Task, s: Task, s': Task)
    requires Kept(msgs, s0, s) && Ticks(cfg, msgs, s, s')
    ensures Kept(msgs, s0, s')
  {
    assert Log(s') == Log(s);
    KeptByOther(msgs, s0, s, s');
  }

  lemma KeptByFlushes(cfg: Config, msgs: seq<Message>, s0: Task, s: Task, s': Task)
    requires Kept(msgs, s0, s) && FlushesLog(cfg, msgs, s, s')
    ensures Kept(msgs, s0, s')
  {
    KeptByFlush(msgs, s0, s, s');
  }

  lemma KeptByAck(msgs: seq<Message>, s0: Task, s: Task, s': Task)
    requires Kept(msgs, s0, s) && AcksServed(s, s')
    ensures Kept(msgs, s0, s')
  {
  }

  lemma KeptByAll(cfg: Config, msgs: seq<Message>, s0: Task, s: Task, s': Task)
    requires Kept(msgs, s0, s) && Acts(cfg, msgs, s, s')
    ensures Kept(msgs, s0, s')
  {
    if Writes(cfg, msgs, s, s') {
      KeptByWrites(cfg, msgs, s0, s, s');
    } else if Ticks(cfg, msgs, s, s') {
      KeptByTicks(cfg, msgs, s0, s, s');
    } else if Begins(msgs, s, s') || AcksDrained(msgs, s, s') {
      KeptByOther(msgs, s0, s, s');
    } else if FlushesLog(cfg, msgs, s, s') {
      KeptByFlushes(cfg, msgs, s0, s, s');
    } else {
      KeptByAck(msgs, s0, s, s');
    }
  }

  lemma SoundByAll(cfg: Config, msgs: seq<Message>, s0: Task, s: Task, s': Task)
    requires Sound(cfg, s0, s) && Acts(cfg, msgs, s, s')
    ensures Sound(cfg, s0, s')
  {
    if s'.trace != s.trace {
      PastTransitive(s0.trace, s.trace, s'.trace);
    }
  }

  /** A request received is being served or acknowledged. */
  lemma AnsweredOnRequest(msgs: seq<Message>, s: Task, s': Task)
    requires Answered(msgs, s) && (Begins(msgs, s, s') || AcksDrained(msgs, s, s'))
    ensures Answered(msgs, s')
  {
    assert Flushes(msgs, 0, s'.received) == Flushes(msgs, 0, s.received) + [s.received];
  }

  lemma AnsweredOnOther(msgs: seq<Message>, s: Task, s': Task)
    requires Answered(msgs, s) && s'.acks == s.acks && s'.serving == s.serving && s'.received <= |msgs|
    requires s'.received == s.received || (s'.received == s.received + 1 && !msgs[s.received].Flush?)
    ensures Answered(msgs, s')
  {
    assert Flushes(msgs, 0, s.received) + [] == Flushes(msgs, 0, s.received);
  }

  lemma AnsweredByAll(cfg: Config, msgs: seq<Message>, s: Task, s': Task)
    requires Answered(msgs, s) && Acts(cfg, msgs, s, s')
    ensures Answered(msgs, s')
  {
    if Begins(msgs, s, s') || AcksDrained(msgs, s, s') {
      AnsweredOnRequest(msgs, s, s');
    } else if AcksServed(s, s') {
    } else {
      AnsweredOnOther(msgs, s, s');
    }
  }

  /** On every run, whatever the senders do. */
  lemma {:induction false} EveryRunKeeps(cfg: Config, msgs: seq<Message>, r: Run)
    requires IsRun(cfg, msgs, r)
    ensures Sound(cfg, First(r), r.now) && Kept(msgs, First(r), r.now) && Answered(msgs, r.now)
  {
    if r.Started? {
      assert msgs[..0] == [] && Log(r.now)[|Log(r.now)|..] == [];
    } else {
      EveryRunKeeps(cfg, msgs, r.past);
      SoundByAll(cfg, msgs, First(r.past), r.past.now, r.now);
      KeptByAll(cfg, msgs, First(r.past), r.past.now, r.now);
      AnsweredByAll(cfg, msgs, r.past.now, r.now);
    }
  }

  // Acknowledgements.

  /** The last action of `r` acknowledges request `k`. */
  predicate Acknowledges(r: Run, k: nat) {
    r.Further? && r.now.acks == r.past.now.acks + [k]
  }

  /** Some earlier request has not been acknowledged. */
  ghost predicate Drained(msgs: seq<Message>, s: Task, k: nat) {
    exists j :: 0 <= j < k && j < |msgs| && msgs[j].Flush? && j !in s.acks
  }

  function AnchorOf(disk: Disk): AnchorFile
    requires disk.anchor.Some? ==> disk.anchor.value.tip.lastSeq <= U64_MAX
  {
    if disk.anchor.None? then NoAnchor else Anchor(disk.anchor.value.tip.lastHash, disk.anchor.value.tip.lastSeq)
  }

  function AnchorNumber(disk: Disk): nat {
    if disk.anchor.None? then 0 else disk.anchor.value.tip.lastSeq
  }

  /** The verifier's comparison of the anchor with the log succeeds on the directory at this moment. */
  ghost predicate SealedAt(cfg: Config, m: Moment) {
    && m.disk.active.Some? && AnchorNumber(m.disk) <= U64_MAX
    && Sealed(cfg.hash, AnchorOf(m.disk), Retained(m.disk, m.book))
  }

  /** Between writer operations it does exactly when no record is past the anchor. */
  lemma SealedExactly(cfg: Config, m: Moment)
    requires Coherent(cfg, m.disk, m.book) && |m.book.history| <= U64_MAX
    ensures SealedAt(cfg, m) <==> AnchorNumber(m.disk) == |m.book.history|
    ensures SealedAt(cfg, m) <==> m.book.unanchored == 0
  {
    RetainedIntact(cfg, m.disk, m.book);
    assert m.book.history[..0] == [] && m.book.history[..|m.book.history|] == m.book.history;
  }

  /** A request acknowledged by the flush that served it is the earliest one unanswered. */
  lemma ServedIsNotDrained(msgs: seq<Message>, s: Task, k: nat)
    requires Answered(msgs, s) && s.serving == Some(k)
    ensures !Drained(msgs, s, k)
  {
    forall j | 0 <= j < k && msgs[j].Flush?
      ensures j in s.acks
    {
      FlushListed(msgs, s.received, j);
      assert j in multiset(Flushes(msgs, 0, s.received));
    }
  }

  lemma {:induction false} FlushListed(msgs: seq<Message>, n: nat, j: nat)
    requires j < n <= |msgs| && msgs[j].Flush?
    ensures j in Flushes(msgs, 0, n)
  {
    if j < n - 1 {
      FlushListed(msgs, n - 1, j);
    }
  }

  /** A request acknowledged while another was being served comes after one that is not acknowledged. */
  lemma WaitingIsDrained(msgs: seq<Message>, s: Task)
    requires Answered(msgs, s) && s.serving.Some?
    ensures Drained(msgs, s, s.received)
  {
    var j := s.serving.value;
    FlushesOnce(msgs, s.received, j);
    assert multiset(s.acks)[j] == 0;
  }

  lemma {:induction false} FlushesOnce(msgs: seq<Message>, n: nat, j: nat)
    requires n <= |msgs|
    ensures multiset(Flushes(msgs, 0, n))[j] <= 1
    ensures j >= n ==> multiset(Flushes(msgs, 0, n))[j] == 0
  {
    if n == 0 {
      assert Flushes(msgs, 0, n) == [];
    } else {
      FlushesOnce(msgs, n - 1, j);
      var more := if msgs[n - 1].Flush? then [n - 1] else [];
      assert Flushes(msgs, 0, n) == Flushes(msgs, 0, n - 1) + more;
      assert multiset(Flushes(msgs, 0, n - 1) + more) == multiset(Flushes(msgs, 0, n - 1)) + multiset(more);
    }
  }

  /**
   What an acknowledgement means, on every run: all records sent before the request are in the log, and the
   log is sealed exactly if no earlier request was left to acknowledge or no record is past the anchor.
   */
  lemma AckMeans(cfg: Config, msgs: seq<Message>, r: Run, k: nat)
    requires IsRun(cfg, msgs, r) && Acknowledges(r, k) && |Log(r.now)| <= U64_MAX
    ensures r.now.trace == r.past.now.trace && k <= r.past.now.received <= |msgs| && k < |msgs| && msgs[k].Flush?
    ensures Holds(Log(First(r)), Log(r.now), Sent(msgs[..r.past.now.received]))
    ensures SealedAt(cfg, r.now.trace.now) <==>
      !Drained(msgs, r.past.now, k) || AnchorNumber(r.now.trace.now.disk) == |Log(r.now)|
  {
    var s, s' := r.past.now, r.now;
    EveryRunKeeps(cfg, msgs, r.past);
    AckIsEither(cfg, msgs, s, s', k);
    SealedExactly(cfg, s.trace.now);
    if AcksServed(s, s') {
      ServedIsNotDrained(msgs, s, k);
    } else {
      WaitingIsDrained(msgs, s);
    }
  }

  lemma AckIsEither(cfg: Config, msgs: seq<Message>, s: Task, s': Task, k: nat)
    requires Acts(cfg, msgs, s, s') && s'.acks == s.acks + [k]
    ensures (AcksServed(s, s') && s.serving == Some(k)) || (AcksDrained(msgs, s, s') && s.received == k)
  {
    assert s.acks + [k] != s.acks;
    assert (s.acks + [k])[|s.acks|] == k;
    if AcksServed(s, s') {
      assert (s.acks + [s.serving.value])[|s.acks|] == s.serving.value;
    } else if AcksDrained(msgs, s, s') {
      assert (s.acks + [s.received])[|s.acks|] == s.received;
    }
  }

  /** Once the channel is closed and the last flush is done, every request has been acknowledged once, and the log
      holds everything that was sent. */
  lemma ClosedMeans(cfg: Config, msgs: seq<Message>, r: Run)
    requires IsRun(cfg, msgs, r) && r.now.received == |msgs| && r.now.serving.None?
    ensures multiset(r.now.acks) == multiset(Flushes(msgs, 0, |msgs|))
    ensures Holds(Log(First(r)), Log(r.now), Sent(msgs)) && Accounted(First(r), r.now, Sent(msgs))
  {
    EveryRunKeeps(cfg, msgs, r);
    assert msgs[..|msgs|] == msgs;
  }
}

/** The writer task's state and operations. */
module AuditSink {
  import opened Words
  import opened Wrappers
  import opened AuditChain
  import opened AuditReplayTheorems
  import opened AuditVerify
  import opened AuditWriter

  // Facts about one change of the directory at a time.

  lemma ChronicleGrows(hash: Hash, history: seq<AuditRecord>, rec: AuditRecord)
    requires Chronicle(hash, history) && |history| <= U64_MAX
    ensures var r := Append(hash, TipAt(hash, history, |history|), rec);
      Chronicle(hash, history + [r.1]) && r.0 == TipAt(hash, history + [r.1], |history| + 1)
  {
    var tip := TipAt(hash, history, |history|);
    var r := Append(hash, tip, rec);
    var all := history + [r.1];
    assert history[..|history|] == history && all[..|all|] == all && all[..|all| - 1] == history;
    if history == [] {
      assert LinkedAt(hash, all, 0);
    } else {
      LastRecordIsTip(hash, history);
      IntactExtend(hash, history, r.1);
    }
  }

  lemma TipAtPrefix(hash: Hash, history: seq<AuditRecord>, more: seq<AuditRecord>, n: nat)
    requires n <= |history|
    ensures TipAt(hash, history + more, n) == TipAt(hash, history, n)
  {
    assert (history + more)[..n] == history[..n];
  }

  lemma AttestsGrow(cfg: Config, history: seq<AuditRecord>, rec: AuditRecord, cls: seq<CheckpointLine>)
    requires AllAttest(cfg, history, cls)
    ensures AllAttest(cfg, history + [rec], cls)
  {
    forall cl | cl in cls
      ensures Attests(cfg, history + [rec], cl)
    {
      TipAtPrefix(cfg.hash, history, [rec], cl.checkpoint.seqNo + 1);
    }
  }

  lemma {:induction false} JoinedSame(a: map<nat, seq<AuditRecord>>, b: map<nat, seq<AuditRecord>>, lo: nat, hi: nat)
    requires forall n :: lo <= n < hi ==> (n in a <==> n in b) && (n in a ==> a[n] == b[n])
    ensures Joined(a, lo, hi) == Joined(b, lo, hi)
    decreases hi
  {
    if lo < hi {
      JoinedSame(a, b, lo, hi - 1);
    }
  }

  lemma {:induction false} JoinedFront(rotated: map<nat, seq<AuditRecord>>, lo: nat, hi: nat)
    requires lo < hi && lo in rotated
    ensures Joined(rotated, lo, hi) == rotated[lo] + Joined(rotated, lo + 1, hi)
    decreases hi
  {
    if hi == lo + 1 {
      assert Joined(rotated, lo, lo) == [];
    } else {
      JoinedFront(rotated, lo, hi - 1);
      var last := if hi - 1 in rotated then rotated[hi - 1] else [];
      assert rotated[lo] + Joined(rotated, lo + 1, hi - 1) + last == rotated[lo] + (Joined(rotated, lo + 1, hi - 1) + last);
    }
  }

  lemma {:induction false} SpanSize(s: set<nat>, lo: nat, hi: nat)
    requires lo <= hi && forall n :: n in s <==> lo <= n < hi
    ensures |s| == hi - lo
    decreases hi
  {
    if lo == hi {
      assert s == {};
    } else {
      SpanSize(s - {hi - 1}, lo, hi - 1);
    }
  }

  /** Filing the active records under the next index keeps what is retained. */
  lemma ShelveActive(disk: Disk, b: Book)
    requires Filed(disk, b) && disk.active.value != []
    ensures MidRotation(disk.(rotated := disk.rotated[b.hi := disk.active.value]), b.(hi := b.hi + 1))
  {
    var rotated := disk.rotated[b.hi := disk.active.value];
    JoinedSame(disk.rotated, rotated, b.lo, b.hi);
  }

  /** Removing the oldest file leaves the end of the history. */
  lemma DropOldest(disk: Disk, b: Book)
    requires MidRotation(disk, b) && b.lo + 1 < b.hi
    ensures MidRotation(disk.(rotated := disk.rotated - {b.lo}), b.(lo := b.lo + 1))
  {
    assert b.lo in disk.rotated;
    JoinedFront(disk.rotated, b.lo, b.hi);
    JoinedSame(disk.rotated, disk.rotated - {b.lo}, b.lo + 1, b.hi);
    EndOfEnd(disk.rotated[b.lo], Joined(disk.rotated, b.lo + 1, b.hi), b.history);
  }

  lemma RotationFiled(disk: Disk, b: Book)
    requires MidRotation(disk, b) && disk.active == Some([])
    ensures Filed(disk, b)
  {
    assert b.hi - 1 in disk.rotated;
    assert Joined(disk.rotated, b.lo, b.hi) + [] == Joined(disk.rotated, b.lo, b.hi);
  }

  lemma FiledGrows(disk: Disk, b: Book, rec: AuditRecord, unanchored: nat, mark: nat)
    requires Filed(disk, b)
    ensures Filed(
      disk.(active := Some(disk.active.value + [rec])),
      b.(history := b.history + [rec], unanchored := unanchored, mark := mark))
  {
    var active, shelf := disk.active.value, Joined(disk.rotated, b.lo, b.hi);
    assert shelf + (active + [rec]) == shelf + active + [rec];
  }

  lemma AnchoredGrows(cfg: Config, disk: Disk, b: Book, rec: AuditRecord)
    requires disk.active.Some? && Anchored(cfg, disk, b)
    ensures Anchored(
      cfg, disk.(active := Some(disk.active.value + [rec])),
      b.(history := b.history + [rec], unanchored := b.unanchored + 1))
  {
    TipAtPrefix(cfg.hash, b.history, [rec], |b.history| - b.unanchored);
    assert (disk.active.value + [rec])[..b.mark] == disk.active.value[..b.mark];
  }

  /** An anchor moved past a pending line is right once the line is there. */
  lemma AnchoredAgain(cfg: Config, disk: Disk, b: Book, rec: AuditRecord)
    requires disk.active == Some([])
    requires disk.anchor == Some(Seal(TipAt(cfg.hash, b.history + [rec], |b.history| + 1), 0))
    ensures Anchored(
      cfg, disk.(active := Some([] + [rec])), b.(history := b.history + [rec], unanchored := 0, mark := 0))
  {
    assert ([] + [rec])[..0] == [];
  }

  lemma AnchoredNow(cfg: Config, disk: Disk, b: Book)
    requires disk.active.Some? && |disk.active.value| <= |b.history|
    ensures Anchored(
      cfg,
      disk.(anchor := Some(Seal(TipAt(cfg.hash, b.history, |b.history|), Bytes(cfg, disk.active.value)))),
      b.(unanchored := 0, mark := |disk.active.value|))
  {
    assert disk.active.value[..|disk.active.value|] == disk.active.value;
  }

  lemma EndOfEnd(front: seq<AuditRecord>, back: seq<AuditRecord>, history: seq<AuditRecord>)
    requires EndOf(front + back, history)
    ensures EndOf(back, history)
  {
    assert back == (front + back)[|front|..];
  }

  lemma LastOfEnd(front: seq<AuditRecord>, back: seq<AuditRecord>, history: seq<AuditRecord>)
    requires EndOf(front + back, history)
    ensures back != [] ==> history != [] && back[|back| - 1] == history[|history| - 1]
  {
    assert back != [] ==> (front + back)[|front + back| - 1] == back[|back| - 1];
  }

  /** Between operations a restart finds the exact tip. */
  lemma RestartSettled(cfg: Config, disk: Disk, b: Book)
    requires Coherent(cfg, disk, b)
    ensures Recover(cfg, disk) == TipAt(cfg.hash, b.history, |b.history|)
  {
    LastOfEnd(Joined(disk.rotated, b.lo, b.hi), disk.active.value, b.history);
    RecoverExact(cfg, disk, b);
  }

  /** The anchor was just moved past the pending record. */
  ghost predicate AnchoredFor(cfg: Config, disk: Disk, b: Book, rec: AuditRecord) {
    && disk.active == Some([])
    && disk.anchor == Some(Seal(TipAt(cfg.hash, b.history + [rec], |b.history| + 1), 0))
  }

  // One lemma for each operation: the moment after it.

  lemma RenamedMoment(cfg: Config, now: Moment) returns (m: Moment)
    requires Filed(now.disk, now.book) && now.disk.active.value != [] && Anchored(cfg, now.disk, now.book)
    ensures m.op == Rename(now.book.hi) && Succeeds(now, m) && Restart(cfg, m)
    ensures MidRotation(m.disk, m.book) && OldAnchor(cfg, m.disk, m.book) && m.disk.active.None?
    ensures m.disk.checkpoints == now.disk.checkpoints && m.book == now.book.(hi := now.book.hi + 1)
  {
    ShelveActive(now.disk, now.book);
    m := Moment(Rename(now.book.hi), Renamed(now.disk, now.book.hi), now.book.(hi := now.book.hi + 1));
    RecoverFromAnchor(cfg, m.disk, m.book);
  }

  lemma CreatedMoment(cfg: Config, now: Moment) returns (m: Moment)
    requires MidRotation(now.disk, now.book) && OldAnchor(cfg, now.disk, now.book) && now.disk.active.None?
    ensures m == Moment(Create, now.disk.(active := Some([])), now.book) && Succeeds(now, m) && Restart(cfg, m)
    ensures MidRotation(m.disk, m.book) && OldAnchor(cfg, m.disk, m.book)
  {
    m := Moment(Create, now.disk.(active := Some([])), now.book);
    RecoverFromAnchor(cfg, m.disk, m.book);
  }

  lemma RemovedMoment(cfg: Config, now: Moment, n: nat) returns (m: Moment)
    requires MidRotation(now.disk, now.book) && OldAnchor(cfg, now.disk, now.book) && now.disk.active == Some([])
    requires n == now.book.lo && n + 1 < now.book.hi
    ensures m.op == Remove(n) && Succeeds(now, m) && Restart(cfg, m) && m.book == now.book.(lo := n + 1)
    ensures MidRotation(m.disk, m.book) && OldAnchor(cfg, m.disk, m.book)
  {
    DropOldest(now.disk, now.book);
    m := Moment(Remove(n), now.disk.(rotated := now.disk.rotated - {n}), now.book.(lo := n + 1));
    RecoverFromAnchor(cfg, m.disk, m.book);
  }

  lemma AheadMoment(cfg: Config, now: Moment, tip: Tip) returns (m: Moment)
    requires MidRotation(now.disk, now.book) && now.disk.active == Some([]) && tip.lastSeq == |now.book.history| + 1
    ensures m.op == PutAnchorAhead(Seal(tip, 0)) && Succeeds(now, m) && Restart(cfg, m)
    ensures m.disk == now.disk.(anchor := Some(Seal(tip, 0))) && m.book == now.book && Filed(m.disk, m.book)
  {
    m := Moment(PutAnchorAhead(Seal(tip, 0)), now.disk.(anchor := Some(Seal(tip, 0))), now.book);
    RotationFiled(m.disk, m.book);
  }

  lemma AnchoredMoment(cfg: Config, now: Moment, seal: Seal) returns (m: Moment)
    requires Filed(now.disk, now.book) && Chronicle(cfg.hash, now.book.history)
    requires AllAttest(cfg, now.book.history, now.disk.checkpoints)
    requires seal == Seal(TipAt(cfg.hash, now.book.history, |now.book.history|), Bytes(cfg, now.disk.active.value))
    ensures m.op == PutAnchor(seal) && Succeeds(now, m) && Restart(cfg, m)
    ensures Filed(m.disk, m.book) && Anchored(cfg, m.disk, m.book)
    ensures m.book == now.book.(unanchored := 0, mark := |now.disk.active.value|)
  {
    m := Moment(
      PutAnchor(seal), now.disk.(anchor := Some(seal)), now.book.(unanchored := 0, mark := |now.disk.active.value|));
    AnchoredNow(cfg, now.disk, now.book);
    RestartSettled(cfg, m.disk, m.book);
  }

  lemma SealedMoment(cfg: Config, now: Moment, line: CheckpointLine) returns (m: Moment)
    requires Coherent(cfg, now.disk, now.book) && Attests(cfg, now.book.history, line)
    ensures m == Moment(AddCheckpoint(line), now.disk.(checkpoints := now.disk.checkpoints + [line]), now.book)
    ensures Succeeds(now, m) && Restart(cfg, m) && AllAttest(cfg, m.book.history, m.disk.checkpoints)
  {
    m := Moment(AddCheckpoint(line), now.disk.(checkpoints := now.disk.checkpoints + [line]), now.book);
    RestartSettled(cfg, m.disk, m.book);
  }

  lemma AppendedMoment(cfg: Config, now: Moment, rec: AuditRecord) returns (m: Moment)
    requires now.disk.active.Some?
    requires Chronicle(cfg.hash, now.book.history + [rec]) && AllAttest(cfg, now.book.history + [rec], now.disk.checkpoints)
    requires Filed(now.disk, now.book) && (Anchored(cfg, now.disk, now.book) || AnchoredFor(cfg, now.disk, now.book, rec))
    ensures m.op == AddRecord(rec) && Succeeds(now, m) && Restart(cfg, m) && Coherent(cfg, m.disk, m.book)
    ensures m.disk == now.disk.(active := Some(now.disk.active.value + [rec]))
    ensures m.book.history == now.book.history + [rec] && m.book.lo == now.book.lo && m.book.hi == now.book.hi
  {
    var disk, b := now.disk, now.book;
    var b' := b.(history := b.history + [rec]);
    if Anchored(cfg, disk, b) {
      AnchoredGrows(cfg, disk, b, rec);
      b' := b'.(unanchored := b.unanchored + 1);
    } else {
      AnchoredAgain(cfg, disk, b, rec);
      b' := b'.(unanchored := 0, mark := 0);
    }
    FiledGrows(disk, b, rec, b'.unanchored, b'.mark);
    m := Moment(AddRecord(rec), disk.(active := Some(disk.active.value + [rec])), b');
    RestartSettled(cfg, m.disk, b');
  }

  /** A directory on which a missing active log counts as an empty one. */
  ghost predicate Opens(cfg: Config, disk: Disk, b: Book) {
    && Coherent(cfg, disk.(active := Some(if disk.active.Some? then disk.active.value else [])), b)
    && |b.history| <= U64_MAX
  }

  /** The oldest of the files `lo` up to `hi` that stays when `keep` are kept; zero keeps all. */
  function Oldest(lo: nat, hi: nat, keep: nat): nat {
    if keep != 0 && lo + keep < hi then hi - keep else lo
  }

  /** A record as its caller knows it, without what the chain fills in. */
  function Body(rec: AuditRecord): AuditRecord {
    rec.(seqNo := 0, prevHash := "")
  }

  /** `after` is `before`, a sentinel for `drops` dropped records if there are any, and `n` records more. */
  predicate Grown(before: seq<AuditRecord>, after: seq<AuditRecord>, drops: nat, n: nat) {
    && before <= after && |after| == |before| + n + (if drops > 0 then 1 else 0)
    && (drops > 0 ==> SentinelCount(after[|before|]) == Some(drops))
  }

  lemma GrownBySentinel(before: seq<AuditRecord>, gap: AuditRecord, drops: U64)
    requires SentinelCount(gap) == Some(drops) && drops > 0
    ensures Grown(before, before + [gap], drops, 0) && Dropped(before + [gap]) == Dropped(before) + drops
  {
    DroppedGrows(before, gap);
  }

  lemma GrownByOne(before: seq<AuditRecord>, mid: seq<AuditRecord>, drops: nat, rec: AuditRecord)
    requires Grown(before, mid, drops, 0)
    ensures Grown(before, mid + [rec], drops, 1)
    ensures Dropped(mid + [rec]) == Dropped(mid) + if SentinelCount(rec).Some? then SentinelCount(rec).value else 0
  {
    DroppedGrows(mid, rec);
  }

  class WriterState {
    const cfg: Config
    var tip: Tip
    var fileBytes: nat
    var recordCount: nat
    var sinceCheckpoint: nat
    var lastSeenDropped: U64
    var disk: Disk
    /** What the files stand for. */
    ghost var book: Book
    /** The directory after each change this writer made to it, the last being now. */
    ghost var trace: Trace

    /** Between operations a checkpoint is never overdue. */
    ghost predicate Valid()
      reads this
    {
      Sound() && sinceCheckpoint < CHECKPOINT_INTERVAL
    }

    ghost predicate Sound()
      reads this
    {
      && Filed(disk, book) && Anchored(cfg, disk, book) && fileBytes == Bytes(cfg, disk.active.value)
      && Chained() && Attested()
    }

    /** The tip is that of the history. */
    ghost predicate Chained()
      reads this
    {
      && Chronicle(cfg.hash, book.history) && |book.history| <= U64_MAX
      && tip == TipAt(cfg.hash, book.history, |book.history|)
      && sinceCheckpoint <= recordCount <= |book.history|
    }

    ghost predicate Attested()
      reads this
    {
      && AllAttest(cfg, book.history, disk.checkpoints)
      && (cfg.sign.Some? && recordCount > 0 && sinceCheckpoint == 0 ==> LastSealed(book.history, disk.checkpoints))
    }

    /** Every directory so far was recoverable as stated, no operation is left out, and the last one is now. */
    ghost predicate Recoverable()
      reads this
    {
      Traced(cfg, trace) && trace.now.disk == disk && trace.now.book == book
    }

    /**
     Open a writer on a directory, creating the active log if it is missing. On a coherent directory, and
     so on one that any earlier writer left between two operations, it resumes at the exact tip.
     */
    constructor Open(cfg: Config, disk: Disk, ghost b: Book)
      ensures this.cfg == cfg && recordCount == sinceCheckpoint == lastSeenDropped == 0
      ensures Opens(cfg, disk, b) ==> Valid() && Recoverable()
      ensures this.disk == Applied(disk, Opened) && book == b && trace == Begun(Moment(Opened, this.disk, b))
    {
      this.cfg, book, trace := cfg, b, Begun(Moment(Opened, Applied(disk, Opened), b));
      var active := if disk.active.Some? then disk.active.value else [];
      tip := Recover(cfg, disk);
      fileBytes := Bytes(cfg, active);
      this.disk := Applied(disk, Opened);
      recordCount, sinceCheckpoint, lastSeenDropped := 0, 0, 0;
      new;
      if Opens(cfg, disk, b) {
        RestartSettled(cfg, this.disk, b);
        assert this.disk.active == Some([]) ==> Recover(cfg, disk) == Recover(cfg, this.disk);
      }
    }

    /** Change the directory by one operation; `m` is the moment after it. */
    method Do(op: Operation, ghost m: Moment)
      requires Recoverable() && m.op == op && Succeeds(trace.now, m) && Restart(cfg, m)
      modifies `disk, `book, `trace
      ensures Recoverable() && disk == m.disk && book == m.book
      ensures trace == Then(old(trace), m) && Past(old(trace), trace)
    {
      disk, book, trace := Applied(disk, op), m.book, Then(trace, m);
    }

    /** The highest index in use, or zero. */
    method MaxIndex() returns (n: nat)
      requires Shelved(disk.rotated, book.lo, book.hi)
      ensures n + 1 == book.hi
    {
      var keys := disk.rotated.Keys;
      n := 0;
      while keys != {}
        invariant keys <= disk.rotated.Keys
        invariant forall k :: k in disk.rotated && k !in keys ==> k <= n
        invariant n == 0 || n in disk.rotated
        decreases |keys|
      {
        var k :| k in keys;
        if k > n {
          n := k;
        }
        keys := keys - {k};
      }
      if book.lo < book.hi {
        assert book.hi - 1 in disk.rotated;
      }
    }

    /** Rename the active log to the next index and start an empty one. */
    method Shelve()
      requires Recoverable() && Filed(disk, book) && disk.active.value != [] && Anchored(cfg, disk, book)
      modifies `disk, `book, `fileBytes, `trace
      ensures Recoverable() && MidRotation(disk, book) && OldAnchor(cfg, disk, book) && fileBytes == 0
      ensures disk.active == Some([]) && disk.checkpoints == old(disk).checkpoints
      ensures book == old(book).(hi := old(book).hi + 1) && Past(old(trace), trace)
    {
      var n := MaxIndex();
      ghost var renamed := RenamedMoment(cfg, trace.now);
      Do(Rename(n + 1), renamed);
      ghost var created := CreatedMoment(cfg, trace.now);
      Do(Create, created);
      fileBytes := 0;
    }

    method RemoveOldest()
      requires Recoverable() && MidRotation(disk, book) && OldAnchor(cfg, disk, book) && disk.active == Some([])
      requires book.lo + 1 < book.hi
      modifies `disk, `book, `trace
      ensures Recoverable() && MidRotation(disk, book) && OldAnchor(cfg, disk, book)
      ensures disk == old(disk).(rotated := disk.rotated) && book == old(book).(lo := old(book).lo + 1)
      ensures Past(old(trace), trace)
    {
      assert book.lo in disk.rotated.Keys;
      var n :| n in disk.rotated.Keys && forall k :: k in disk.rotated.Keys ==> n <= k;
      ghost var m := RemovedMoment(cfg, trace.now, n);
      Do(Remove(n), m);
    }

    /** Remove the oldest rotated files until `rotateKeepFiles` are left; zero keeps all. */
    method Prune()
      requires Recoverable() && MidRotation(disk, book) && OldAnchor(cfg, disk, book) && disk.active == Some([])
      modifies `disk, `book, `trace
      ensures Recoverable() && MidRotation(disk, book) && OldAnchor(cfg, disk, book)
      ensures disk == old(disk).(rotated := disk.rotated) && Past(old(trace), trace)
      ensures book == old(book).(lo := Oldest(old(book).lo, old(book).hi, cfg.rotateKeepFiles))
    {
      SpanSize(disk.rotated.Keys, book.lo, book.hi);
      if cfg.rotateKeepFiles == 0 || |disk.rotated| <= cfg.rotateKeepFiles {
        return;
      }
      var excess := |disk.rotated| - cfg.rotateKeepFiles;
      while excess > 0
        invariant excess == book.hi - book.lo - cfg.rotateKeepFiles >= 0
        invariant Recoverable() && MidRotation(disk, book) && OldAnchor(cfg, disk, book)
        invariant disk == old(disk).(rotated := disk.rotated) && book == old(book).(lo := book.lo)
        invariant Past(old(trace), trace)
      {
        ghost var before := trace;
        RemoveOldest();
        PastTransitive(old(trace), before, trace);
        excess := excess - 1;
      }
    }

    /** Shelve the active log, prune, and anchor the tip, which already counts the line still to be written. */
    method Rotate()
      requires Recoverable() && Filed(disk, book) && disk.active.value != [] && Anchored(cfg, disk, book)
      requires tip.lastSeq == |book.history| + 1
      modifies `disk, `book, `fileBytes, `trace
      ensures Recoverable() && Filed(disk, book) && fileBytes == 0 && Past(old(trace), trace)
      ensures disk.active == Some([]) && disk.anchor == Some(Seal(tip, 0)) && disk.checkpoints == old(disk).checkpoints
      ensures book == old(book).(hi := old(book).hi + 1, lo := Oldest(old(book).lo, old(book).hi + 1, cfg.rotateKeepFiles))
    {
      ShelveAndPrune();
      ghost var pruned := trace;
      AnchorAhead();
      PastTransitive(old(trace), pruned, trace);
    }

    method ShelveAndPrune()
      requires Recoverable() && Filed(disk, book) && disk.active.value != [] && Anchored(cfg, disk, book)
      modifies `disk, `book, `fileBytes, `trace
      ensures Recoverable() && MidRotation(disk, book) && fileBytes == 0 && Past(old(trace), trace)
      ensures disk.active == Some([]) && disk.checkpoints == old(disk).checkpoints
      ensures book == old(book).(hi := old(book).hi + 1, lo := Oldest(old(book).lo, old(book).hi + 1, cfg.rotateKeepFiles))
    {
      Shelve();
      ghost var shelved := trace;
      Prune();
      PastTransitive(old(trace), shelved, trace);
    }

    /** The anchor of a rotation. */
    method AnchorAhead()
      requires Recoverable() && MidRotation(disk, book) && disk.active == Some([]) && tip.lastSeq == |book.history| + 1
      modifies `disk, `book, `trace
      ensures Recoverable() && Filed(disk, book) && Past(old(trace), trace)
      ensures disk == old(disk).(anchor := Some(Seal(tip, 0))) && book == old(book)
    {
      ghost var m := AheadMoment(cfg, trace.now, tip);
      Do(PutAnchorAhead(Seal(tip, 0)), m);
    }

    /** Replace the anchor by the current tip. */
    method WriteAnchor()
      requires Filed(disk, book) && Chained() && Recoverable() && fileBytes == Bytes(cfg, disk.active.value)
      requires AllAttest(cfg, book.history, disk.checkpoints)
      modifies `disk, `book, `trace
      ensures Filed(disk, book) && Anchored(cfg, disk, book) && Recoverable() && Past(old(trace), trace)
      ensures disk == old(disk).(anchor := Some(Seal(tip, fileBytes)))
      ensures book == old(book).(unanchored := 0, mark := |disk.active.value|)
    {
      var seal := Seal(tip, fileBytes);
      ghost var m := AnchoredMoment(cfg, trace.now, seal);
      Do(PutAnchor(seal), m);
    }

    /** Append a signed checkpoint over the last record written. */
    method WriteCheckpointLine(sign: Checkpoint -> string)
      requires Sound() && Recoverable() && cfg.sign == Some(sign) && recordCount > 0
      modifies `disk, `book, `trace
      ensures Recoverable() && Past(old(trace), trace) && book == old(book)
      ensures disk == old(disk).(checkpoints := disk.checkpoints)
      ensures old(disk).checkpoints < disk.checkpoints && |disk.checkpoints| == |old(disk).checkpoints| + 1
      ensures AllAttest(cfg, book.history, disk.checkpoints) && LastSealed(book.history, disk.checkpoints)
    {
      var now: U64 := *;
      var cp := Checkpoint(if tip.lastSeq == 0 then 0 else tip.lastSeq - 1, tip.lastHash, now, recordCount);
      var line := CheckpointLine(cp, sign(cp));
      assert Attests(cfg, book.history, line);
      ghost var m := SealedMoment(cfg, trace.now, line);
      Do(AddCheckpoint(line), m);
      assert line in disk.checkpoints;
    }

    /** Seal the tip: a signed checkpoint if there is a signer, and the anchor. */
    method DoCheckpoint()
      requires Sound() && Recoverable() && sinceCheckpoint > 0
      modifies `disk, `book, `sinceCheckpoint, `trace
      ensures Valid() && Recoverable() && sinceCheckpoint == 0 && Past(old(trace), trace)
      ensures disk == old(disk).(anchor := Some(Seal(tip, fileBytes)), checkpoints := disk.checkpoints)
      ensures old(disk).checkpoints <= disk.checkpoints
      ensures |disk.checkpoints| == |old(disk).checkpoints| + if cfg.sign.Some? then 1 else 0
      ensures cfg.sign.Some? ==> LastSealed(book.history, disk.checkpoints)
      ensures book == old(book).(unanchored := 0, mark := book.mark)
    {
      if cfg.sign.Some? {
        WriteCheckpointLine(cfg.sign.value);
      }
      sinceCheckpoint := 0;
      ghost var before := trace;
      WriteAnchor();
      PastTransitive(old(trace), before, trace);
    }

    /** Append the pending line to the active log. */
    method AppendLine(rec: AuditRecord, lineBytes: nat)
      requires Recoverable() && Filed(disk, book)
      requires Chronicle(cfg.hash, book.history + [rec]) && AllAttest(cfg, book.history + [rec], disk.checkpoints)
      requires Anchored(cfg, disk, book) || AnchoredFor(cfg, disk, book, rec)
      requires lineBytes == LineBytes(cfg, rec) && fileBytes == Bytes(cfg, disk.active.value)
      modifies `disk, `book, `fileBytes, `trace
      ensures Recoverable() && Coherent(cfg, disk, book) && Past(old(trace), trace)
      ensures fileBytes == Bytes(cfg, disk.active.value)
      ensures disk == old(disk).(active := Some(old(disk).active.value + [rec]))
      ensures book.history == old(book).history + [rec] && book.lo == old(book).lo && book.hi == old(book).hi
    {
      BytesGrow(cfg, disk.active.value, rec);
      ghost var m := AppendedMoment(cfg, trace.now, rec);
      PutLine(rec, lineBytes, m);
    }

    /** The change itself. */
    method PutLine(rec: AuditRecord, lineBytes: nat, ghost m: Moment)
      requires Recoverable() && m.op == AddRecord(rec) && Succeeds(trace.now, m) && Restart(cfg, m)
      modifies `disk, `book, `fileBytes, `trace
      ensures Recoverable() && disk == m.disk && book == m.book && Past(old(trace), trace)
      ensures fileBytes == old(fileBytes) + lineBytes
    {
      Do(AddRecord(rec), m);
      fileBytes := fileBytes + lineBytes;
    }

    /** Write the pending line, rotating first if it would overfill a non-empty active log. */
    method WriteLine(rec: AuditRecord)
      requires Recoverable() && Filed(disk, book) && Anchored(cfg, disk, book) && fileBytes == Bytes(cfg, disk.active.value)
      requires Chronicle(cfg.hash, book.history + [rec]) && AllAttest(cfg, book.history + [rec], disk.checkpoints)
      requires tip == TipAt(cfg.hash, book.history + [rec], |book.history| + 1)
      modifies `disk, `book, `fileBytes, `trace
      ensures Recoverable() && Filed(disk, book) && Anchored(cfg, disk, book) && fileBytes == Bytes(cfg, disk.active.value)
      ensures disk.checkpoints == old(disk).checkpoints && book.history == old(book).history + [rec] && Past(old(trace), trace)
      ensures fileBytes <= cfg.rotateMaxBytes || disk.active == Some([rec])
      ensures if old(fileBytes) > 0 && old(fileBytes) + LineBytes(cfg, rec) > cfg.rotateMaxBytes
              then book.hi == old(book).hi + 1 && book.lo == Oldest(old(book).lo, book.hi, cfg.rotateKeepFiles)
              else book.hi == old(book).hi && book.lo == old(book).lo && disk.anchor == old(disk).anchor
    {
      var lineBytes := LineBytes(cfg, rec);
      MakeRoom(lineBytes);
      ghost var before := trace;
      AppendLine(rec, lineBytes);
      PastTransitive(old(trace), before, trace);
    }

    /** Rotate if a line of this length would overfill a non-empty active log. */
    method MakeRoom(lineBytes: nat)
      requires Recoverable() && Filed(disk, book) && Anchored(cfg, disk, book) && fileBytes == Bytes(cfg, disk.active.value)
      requires tip.lastSeq == |book.history| + 1
      modifies `disk, `book, `fileBytes, `trace
      ensures Recoverable() && Filed(disk, book) && Past(old(trace), trace) && fileBytes == Bytes(cfg, disk.active.value)
      ensures disk.checkpoints == old(disk).checkpoints && book == old(book).(hi := book.hi, lo := book.lo)
      ensures if old(fileBytes) > 0 && old(fileBytes) + lineBytes > cfg.rotateMaxBytes
              then disk.active == Some([]) && disk.anchor == Some(Seal(tip, 0)) && book.hi == old(book).hi + 1
                   && book.lo == Oldest(old(book).lo, book.hi, cfg.rotateKeepFiles)
              else disk == old(disk) && book == old(book) && fileBytes == old(fileBytes)
    {
      if fileBytes > 0 && fileBytes + lineBytes > cfg.rotateMaxBytes {
        Rotate();
      }
    }

    /** Chain one record and write its line. */
    method Chain(rec: AuditRecord)
      requires Valid() && Recoverable() && |book.history| < U64_MAX
      modifies `tip, `disk, `book, `fileBytes, `trace
      ensures Recoverable() && Coherent(cfg, disk, book) && fileBytes == Bytes(cfg, disk.active.value)
      ensures Past(old(trace), trace)
      ensures book.history == old(book).history + [Append(cfg.hash, old(tip), rec).1]
      ensures tip == TipAt(cfg.hash, book.history, |book.history|)
      ensures fileBytes <= cfg.rotateMaxBytes || |disk.active.value| == 1
      ensures old(fileBytes) == 0 ==> disk.anchor == old(disk).anchor
    {
      ChronicleGrows(cfg.hash, book.history, rec);
      var appended := Append(cfg.hash, tip, rec);
      AttestsGrow(cfg, book.history, appended.1, disk.checkpoints);
      tip := appended.0;
      WriteLine(appended.1);
    }

    /** Chain one record and write it; every so many records, seal. */
    method WriteRecordRaw(rec: AuditRecord)
      requires Valid() && Recoverable() && |book.history| < U64_MAX
      modifies this
      ensures Valid() && Recoverable() && Past(old(trace), trace)
      ensures book.history == old(book).history + [Append(cfg.hash, old(tip), rec).1]
      ensures lastSeenDropped == old(lastSeenDropped) && recordCount == old(recordCount) + 1
      ensures fileBytes <= cfg.rotateMaxBytes || |disk.active.value| == 1
      ensures sinceCheckpoint == if old(sinceCheckpoint) + 1 >= CHECKPOINT_INTERVAL then 0 else old(sinceCheckpoint) + 1
      ensures sinceCheckpoint > 0 && old(fileBytes) == 0 ==> disk.anchor == old(disk).anchor
    {
      Chain(rec);
      recordCount := recordCount + 1;
      sinceCheckpoint := sinceCheckpoint + 1;
      if sinceCheckpoint >= CHECKPOINT_INTERVAL {
        ghost var before := trace;
        DoCheckpoint();
        PastTransitive(old(trace), before, trace);
      }
    }

    /** Chain a sentinel for `drops` dropped records. */
    method WriteSentinel(drops: U64)
      requires Valid() && Recoverable() && |book.history| < U64_MAX && drops > 0
      modifies this
      ensures Valid() && Recoverable() && Past(old(trace), trace) && lastSeenDropped == old(lastSeenDropped)
      ensures Grown(old(book).history, book.history, drops, 0) && Dropped(book.history) == Dropped(old(book).history) + drops
    {
      var now: U64 := *;
      var sentinel := AuditRecord(
        SCHEMA_VERSION, 0, now, 0, "", "", None, GAP_SENTINEL_METHOD, System, None, None, None, 0, 0, Some(drops));
      GrownBySentinel(book.history, Append(cfg.hash, tip, sentinel).1, drops);
      WriteRecordRaw(sentinel);
    }

    /** Chain a gap sentinel if records were dropped since the last one. */
    method MaybeWriteGapSentinel(dropped: U64)
      requires Valid() && Recoverable() && |book.history| < U64_MAX
      modifies this
      ensures Valid() && Recoverable() && Past(old(trace), trace)
      ensures lastSeenDropped == if dropped <= old(lastSeenDropped) then old(lastSeenDropped) else dropped
      ensures Grown(old(book).history, book.history, lastSeenDropped - old(lastSeenDropped), 0)
      ensures dropped <= old(lastSeenDropped) ==> unchanged(this)
      ensures Dropped(book.history) == Dropped(old(book).history) + (lastSeenDropped - old(lastSeenDropped))
    {
      if dropped <= lastSeenDropped {
        return;
      }
      var delta := dropped - lastSeenDropped;
      lastSeenDropped := dropped;
      WriteSentinel(delta);
    }

    /** Chain a record, after accounting for any dropped before it. */
    method WriteRecord(rec: AuditRecord, dropped: U64)
      requires Valid() && Recoverable() && |book.history| + 1 < U64_MAX
      modifies this
      ensures Valid() && Recoverable() && Past(old(trace), trace)
      ensures lastSeenDropped == if dropped <= old(lastSeenDropped) then old(lastSeenDropped) else dropped
      ensures Grown(old(book).history, book.history, lastSeenDropped - old(lastSeenDropped), 1)
      ensures Body(book.history[|book.history| - 1]) == Body(rec)
      ensures Dropped(book.history) + old(lastSeenDropped) ==
        Dropped(old(book).history) + lastSeenDropped + (if SentinelCount(rec).Some? then SentinelCount(rec).value else 0)
      ensures dropped <= old(lastSeenDropped) && old(fileBytes) == 0 && old(sinceCheckpoint) == 0 ==>
                disk.anchor == old(disk).anchor
    {
      MaybeWriteGapSentinel(dropped);
      GrownByOne(old(book).history, book.history, lastSeenDropped - old(lastSeenDropped), Append(cfg.hash, tip, rec).1);
      ghost var before := trace;
      WriteRecordRaw(rec);
      PastTransitive(old(trace), before, trace);
    }

    /** The timer's checkpoint: only with a signer, and only if there is something new to seal. */
    method TimedCheckpoint()
      requires Valid() && Recoverable()
      modifies `disk, `book, `sinceCheckpoint, `trace
      ensures Valid() && Recoverable() && book.history == old(book).history && Past(old(trace), trace)
      ensures old(sinceCheckpoint) > 0 && cfg.sign.Some? ==>
                && sinceCheckpoint == 0 && disk.anchor == Some(Seal(tip, fileBytes))
                && LastSealed(book.history, disk.checkpoints) && |disk.checkpoints| == |old(disk).checkpoints| + 1
      ensures old(sinceCheckpoint) == 0 || cfg.sign.None? ==>
                disk == old(disk) && book == old(book) && sinceCheckpoint == old(sinceCheckpoint)
    {
      if sinceCheckpoint > 0 && cfg.sign.Some? {
        DoCheckpoint();
      }
    }

    /** Account for trailing drops, then seal the log: a checkpoint if there is something new, and the anchor. */
    method Flush(dropped: U64)
      requires Valid() && Recoverable() && |book.history| < U64_MAX
      modifies this
      ensures Valid() && Recoverable() && sinceCheckpoint == 0 && Past(old(trace), trace)
      ensures disk.anchor == Some(Seal(tip, fileBytes)) && book.unanchored == 0
      ensures lastSeenDropped == if dropped <= old(lastSeenDropped) then old(lastSeenDropped) else dropped
      ensures Grown(old(book).history, book.history, lastSeenDropped - old(lastSeenDropped), 0)
      ensures Dropped(book.history) + old(lastSeenDropped) == Dropped(old(book).history) + lastSeenDropped
    {
      MaybeWriteGapSentinel(dropped);
      ghost var before := trace;
      if sinceCheckpoint > 0 {
        DoCheckpoint();
      } else {
        WriteAnchor();
      }
      PastTransitive(old(trace), before, trace);
    }
  }

  lemma BytesGrow(cfg: Config, log: seq<AuditRecord>, rec: AuditRecord)
    ensures Bytes(cfg, log + [rec]) == Bytes(cfg, log) + LineBytes(cfg, rec)
  {
    assert (log + [rec])[..|log|] == log;
  }

}

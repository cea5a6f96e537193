/** What the writer leaves behind, seen by the verifier and by the next writer. */
module AuditSinkTheorems {
  import opened Words
  import opened Wrappers
  import opened AuditChain
  import opened AuditFiles
  import opened Text
  import opened AuditVerify
  import opened AuditVerifyTheorems
  import opened AuditWriter
  import opened AuditSink

  type LogFile = File<seq<Line<AuditRecord>>>

  function Written<T>(values: seq<T>): seq<Line<T>> {
    seq(|values|, i requires 0 <= i < |values| => Parsed(values[i]))
  }

  /** The log file of index `n`. */
  function IndexFile(rotated: map<nat, seq<AuditRecord>>, n: nat): LogFile {
    File(Rotated(Decimal(n)), Written(if n in rotated then rotated[n] else []))
  }

  /** The rotated logs, oldest first. */
  function Shelf(rotated: map<nat, seq<AuditRecord>>, lo: nat, hi: nat): seq<LogFile> {
    if hi <= lo then [] else seq(hi - lo, i requires 0 <= i => IndexFile(rotated, lo + i))
  }

  function LogFiles(disk: Disk, b: Book): seq<LogFile>
    requires disk.active.Some?
  {
    Shelf(disk.rotated, b.lo, b.hi) + [File(ACTIVE, Written(disk.active.value))]
  }

  /** `dir` is the directory as listed in any order, whatever other files are in it. */
  ghost predicate Shows(dir: Dir, disk: Disk, b: Book) {
    && disk.active.Some? && disk.anchor.Some?
    && DistinctNames(dir.listing)
    && multiset(OnlyLogs(dir.listing)) == multiset(LogFiles(disk, b))
    && dir.sidecar == (if disk.checkpoints == [] then None else Some(Written(disk.checkpoints)))
    && disk.anchor.value.tip.lastSeq <= U64_MAX
    && dir.anchor == Anchor(disk.anchor.value.tip.lastHash, disk.anchor.value.tip.lastSeq)
  }

  function Retained(disk: Disk, b: Book): seq<AuditRecord>
    requires disk.active.Some?
  {
    Joined(disk.rotated, b.lo, b.hi) + disk.active.value
  }

  // The listing gives the retained records back, in order.

  lemma IndexOrder(m: nat, n: nat)
    ensures IsAuditLog(Rotated(Decimal(m))) && ReadBefore(Rotated(Decimal(m)), ACTIVE)
    ensures m < n ==> ReadBefore(Rotated(Decimal(m)), Rotated(Decimal(n)))
  {
    DecimalRoundTrip(m);
    DecimalRoundTrip(n);
    CanonicalOrder(Decimal(m), Decimal(n));
  }

  lemma LogFilesInOrder(disk: Disk, b: Book)
    requires Filed(disk, b)
    ensures InOrder(LogFiles(disk, b)) && AllLogs(LogFiles(disk, b))
  {
    var fs, s := LogFiles(disk, b), Shelf(disk.rotated, b.lo, b.hi);
    forall i | 0 <= i < |fs| - 1
      ensures fs[i].name == Rotated(Decimal(b.lo + i))
    {
      ShelfAt(disk.rotated, b.lo, b.hi, i);
      assert fs[i] == s[i];
    }
    NamesInOrder(fs, b.lo);
  }

  lemma ShelfAt(rotated: map<nat, seq<AuditRecord>>, lo: nat, hi: nat, i: nat)
    requires lo + i < hi
    ensures |Shelf(rotated, lo, hi)| == hi - lo && Shelf(rotated, lo, hi)[i].name == Rotated(Decimal(lo + i))
  {
    assert Shelf(rotated, lo, hi)[i] == IndexFile(rotated, lo + i);
  }

  lemma NamesInOrder(fs: seq<LogFile>, lo: nat)
    requires fs != [] && fs[|fs| - 1].name == ACTIVE
    requires forall i :: 0 <= i < |fs| - 1 ==> fs[i].name == Rotated(Decimal(lo + i))
    ensures InOrder(fs) && AllLogs(fs)
  {
    forall i, j | 0 <= i < j < |fs|
      ensures ReadBefore(fs[i].name, fs[j].name)
    {
      IndexOrder(lo + i, lo + j);
    }
    forall i | 0 <= i < |fs|
      ensures IsAuditLog(fs[i].name)
    {
      if i < |fs| - 1 {
        IndexOrder(lo + i, lo + i);
      }
    }
  }

  lemma {:induction false} ValuesWritten<T>(values: seq<T>)
    ensures Values(Written(values)) == values
  {
    if values != [] {
      var init := values[..|values| - 1];
      ValuesWritten(init);
      assert Written(values)[..|values| - 1] == Written(init);
    }
  }

  lemma LinesOfOneMore(before: seq<LogFile>, f: LogFile, values: seq<AuditRecord>)
    requires f.content == Written(values)
    ensures Values(AllLines(before + [f])) == Values(AllLines(before)) + values
    ensures ParsesAll(AllLines(before)) ==> ParsesAll(AllLines(before + [f]))
  {
    assert (before + [f])[..|before|] == before;
    ValuesConcat(AllLines(before), f.content);
    ValuesWritten(values);
  }

  lemma {:induction false} ShelfValues(rotated: map<nat, seq<AuditRecord>>, lo: nat, hi: nat)
    ensures Values(AllLines(Shelf(rotated, lo, hi))) == Joined(rotated, lo, hi)
    ensures ParsesAll(AllLines(Shelf(rotated, lo, hi)))
    decreases hi
  {
    if lo < hi {
      var before, f := Shelf(rotated, lo, hi - 1), IndexFile(rotated, hi - 1);
      var last := if hi - 1 in rotated then rotated[hi - 1] else [];
      ShelfValues(rotated, lo, hi - 1);
      LinesOfOneMore(before, f, last);
      assert Shelf(rotated, lo, hi) == before + [f] by { ShelfGrows(rotated, lo, hi); }
      assert Joined(rotated, lo, hi) == Joined(rotated, lo, hi - 1) + last;
    }
  }

  lemma ShelfGrows(rotated: map<nat, seq<AuditRecord>>, lo: nat, hi: nat)
    requires lo < hi
    ensures Shelf(rotated, lo, hi) == Shelf(rotated, lo, hi - 1) + [IndexFile(rotated, hi - 1)]
  {
  }

  lemma RecordsShown(dir: Dir, disk: Disk, b: Book)
    requires Filed(disk, b) && Shows(dir, disk, b)
    ensures Records(dir) == Retained(disk, b) && ParsesAll(LogLines(dir))
  {
    LogFilesInOrder(disk, b);
    LogsOfAnyListing(dir.listing, LogFiles(disk, b));
    ShelfValues(disk.rotated, b.lo, b.hi);
    LinesOfOneMore(Shelf(disk.rotated, b.lo, b.hi), File(ACTIVE, Written(disk.active.value)), disk.active.value);
  }

  ghost predicate AllCurrent(log: seq<AuditRecord>) {
    forall r :: r in log ==> r.schemaVersion == SCHEMA_VERSION
  }

  lemma {:induction false} ReadableExactly(lines: seq<Line<AuditRecord>>)
    requires ParsesAll(lines)
    ensures Readable(lines) <==> AllCurrent(Values(lines))
  {
    if lines != [] {
      var init, l := lines[..|lines| - 1], lines[|lines| - 1];
      ReadableExactly(init);
      assert lines == init + [l];
      ReadableConcat(init, [l]);
      assert Readable([l]) <==> (l.Parsed? ==> l.value.schemaVersion == SCHEMA_VERSION) by {
        assert [l][0] == l;
      }
      if l.Parsed? {
        assert l.value in Values(lines);
        assert forall r :: r in Values(lines) <==> r in Values(init) || r == l.value;
      }
    }
  }

  // The retained records are an intact log under the history's anchor and checkpoints.

  lemma RetainedSuffix(disk: Disk, b: Book)
    requires Filed(disk, b)
    ensures var part := Retained(disk, b); |part| <= |b.history| && part == b.history[|b.history| - |part|..]
  {
  }

  lemma RetainedIntact(cfg: Config, disk: Disk, b: Book)
    requires Chronicle(cfg.hash, b.history) && Filed(disk, b)
    ensures var log, h := Retained(disk, b), b.history;
      && Intact(cfg.hash, log) && (log == [] <==> h == [])
      && (log != [] ==> LogHead(cfg.hash, log) == TipAt(cfg.hash, h, |h|).lastHash && log[|log| - 1].seqNo + 1 == |h|)
      && (log != [] ==> log[0].seqNo == |h| - |log|)
  {
    var log, h := Retained(disk, b), b.history;
    RetainedSuffix(disk, b);
    SuffixIntact(cfg.hash, h, |h| - |log|);
    assert h[..|h|] == h;
  }

  /** A checkpoint over the history seals the retained record it names. */
  lemma AttestsRetained(cfg: Config, disk: Disk, b: Book, cl: CheckpointLine)
    requires Chronicle(cfg.hash, b.history) && Filed(disk, b) && Attests(cfg, b.history, cl)
    requires Covers(Retained(disk, b), cl.checkpoint)
    ensures var log, cp := Retained(disk, b), cl.checkpoint;
      && Consecutive(log)
      && (SealsRecord(cfg.hash, log, cp) <==> cp.tsUnixMs >= log[cp.seqNo - log[0].seqNo].tsUnixMs)
  {
    var log, h, s := Retained(disk, b), b.history, cl.checkpoint.seqNo;
    RetainedIntact(cfg, disk, b);
    RetainedSuffix(disk, b);
    SuffixHead(cfg.hash, h, |h| - |log|, s - log[0].seqNo + 1);
  }

  /** No clock step made a checkpoint older than the record it seals. */
  ghost predicate ClockHeld(log: seq<AuditRecord>, cls: seq<CheckpointLine>)
    requires Consecutive(log)
  {
    forall cl :: cl in cls && Covers(log, cl.checkpoint) ==>
      cl.checkpoint.tsUnixMs >= log[cl.checkpoint.seqNo - log[0].seqNo].tsUnixMs
  }

  /** The verifier's key, if given, is the one that checks this writer's signatures. */
  ghost predicate Matching(c: Crypto, cfg: Config, key: Option<string>) {
    && c.hash == cfg.hash
    && (key.Some? ==> c.goodKey(key.value))
    && (key.Some? && cfg.sign.Some? ==> forall cp :: c.signed(key.value, cp, cfg.sign.value(cp)))
  }

  lemma FlushedReads(c: Crypto, cfg: Config, disk: Disk, b: Book, dir: Dir, key: Option<string>)
    requires Coherent(cfg, disk, b) && b.unanchored == 0 && |b.history| <= U64_MAX
    requires Shows(dir, disk, b) && Matching(c, cfg, key)
    ensures Records(dir) == Retained(disk, b) && Checkpoints(dir) == disk.checkpoints
    ensures !BadKey(c, dir, key) && !BadSidecar(dir) && !BadAnchor(dir)
    ensures BadLogs(dir) <==> !AllCurrent(Retained(disk, b))
    ensures Sealed(c.hash, dir.anchor, Retained(disk, b))
  {
    RecordsShown(dir, disk, b);
    ReadableExactly(LogLines(dir));
    RetainedIntact(cfg, disk, b);
    ValuesWritten(disk.checkpoints);
    assert b.history[..0] == [];
  }

  lemma FlushedHonest(c: Crypto, cfg: Config, disk: Disk, b: Book, key: Option<string>)
    requires Coherent(cfg, disk, b) && Matching(c, cfg, key)
    ensures Consecutive(Retained(disk, b))
    ensures var log := Retained(disk, b);
      ClockHeld(log, disk.checkpoints) <==>
      forall cl :: cl in disk.checkpoints && Covers(log, cl.checkpoint) ==> Honest(c, key, log, cl)
  {
    var log := Retained(disk, b);
    RetainedIntact(cfg, disk, b);
    forall cl | cl in disk.checkpoints && Covers(log, cl.checkpoint)
      ensures Honest(c, key, log, cl) <==> cl.checkpoint.tsUnixMs >= log[cl.checkpoint.seqNo - log[0].seqNo].tsUnixMs
    {
      AttestsRetained(cfg, disk, b, cl);
    }
  }

  /**
   A flushed directory verifies, in whatever order it is listed and however much of it was pruned,
   exactly when its records have the current schema, no covered record is newer than its checkpoint, and
   a key, if one is given, finds some checkpoint in range.
   */
  lemma FlushedVerifies(c: Crypto, cfg: Config, disk: Disk, b: Book, dir: Dir, key: Option<string>)
    requires Coherent(cfg, disk, b) && b.unanchored == 0 && |b.history| <= U64_MAX
    requires Shows(dir, disk, b) && Matching(c, cfg, key)
    ensures var log := Retained(disk, b);
      && Intact(cfg.hash, log)
      && (Accepts(c, dir, key) <==>
          && AllCurrent(log) && ClockHeld(log, disk.checkpoints)
          && (key.Some? && log != [] ==> exists cl :: cl in disk.checkpoints && Covers(log, cl.checkpoint)))
  {
    RetainedIntact(cfg, disk, b);
    FlushedReads(c, cfg, disk, b, dir, key);
    FlushedHonest(c, cfg, disk, b, key);
    AcceptsMeans(c, dir, key);
  }

  /** A signed flush after at least one record leaves such a checkpoint: the one over the last record. */
  lemma SealedFlushCovers(cfg: Config, disk: Disk, b: Book)
    requires Chronicle(cfg.hash, b.history) && Filed(disk, b) && LastSealed(b.history, disk.checkpoints)
    ensures exists cl :: cl in disk.checkpoints && Covers(Retained(disk, b), cl.checkpoint)
  {
    RetainedIntact(cfg, disk, b);
    var cl :| cl in disk.checkpoints && cl.checkpoint.seqNo + 1 == |b.history|;
    assert Covers(Retained(disk, b), cl.checkpoint);
  }

  /**
   The clock matters: a writer whose clock goes back between a record and its checkpoint leaves a log, correctly
   chained, signed and anchored, that the verifier rejects.
   */
  lemma BackwardClockRejected(c: Crypto, cfg: Config, rec: AuditRecord)
    requires Matching(c, cfg, None) && cfg.sign.Some? && rec.tsUnixMs > 0
    ensures var tip, line := Append(cfg.hash, GENESIS, rec).0, Append(cfg.hash, GENESIS, rec).1;
      var cp := Checkpoint(0, tip.lastHash, rec.tsUnixMs - 1, 1);
      var cls := [CheckpointLine(cp, cfg.sign.value(cp))];
      var disk, b := Disk(map[], Some([line]), cls, Some(Seal(tip, Bytes(cfg, [line])))), Book([line], 1, 1, 0, 1);
      var dir := Dir([File(ACTIVE, Written([line]))], Some(Written(cls)), Anchor(tip.lastHash, tip.lastSeq));
      Coherent(cfg, disk, b) && b.unanchored == 0 && Shows(dir, disk, b) && !Accepts(c, dir, None)
  {
    var tip, line := Append(cfg.hash, GENESIS, rec).0, Append(cfg.hash, GENESIS, rec).1;
    var cp := Checkpoint(0, tip.lastHash, rec.tsUnixMs - 1, 1);
    var cls := [CheckpointLine(cp, cfg.sign.value(cp))];
    var disk, b := Disk(map[], Some([line]), cls, Some(Seal(tip, Bytes(cfg, [line])))), Book([line], 1, 1, 0, 1);
    var dir := Dir([File(ACTIVE, Written([line]))], Some(Written(cls)), Anchor(tip.lastHash, tip.lastSeq));
    OneRecord(cfg, rec, cls, disk, b);
    assert OnlyLogs(dir.listing) == LogFiles(disk, b);
    assert Retained(disk, b) == [line];
    FlushedVerifies(c, cfg, disk, b, dir, None);
    assert cls[0] in cls && Covers([line], cls[0].checkpoint);
  }

  /** One record, checkpointed and anchored. */
  lemma OneRecord(cfg: Config, rec: AuditRecord, cls: seq<CheckpointLine>, disk: Disk, b: Book)
    requires cfg.sign.Some? && |cls| == 1 && cls[0].signature == cfg.sign.value(cls[0].checkpoint)
    requires var (tip, line) := Append(cfg.hash, GENESIS, rec);
      && disk == Disk(map[], Some([line]), cls, Some(Seal(tip, Bytes(cfg, [line])))) && b == Book([line], 1, 1, 0, 1)
      && cls[0].checkpoint == Checkpoint(0, tip.lastHash, cls[0].checkpoint.tsUnixMs, 1)
    ensures Coherent(cfg, disk, b)
  {
    var h, active := b.history, disk.active.value;
    assert h[..1] == h && h[..0] == [] && active[..1] == active;
    assert LinkedAt(cfg.hash, h, 0);
    assert Joined(map[], 1, 1) == [] && [] + active == h;
  }

  // Restarts.

  /**
   A restart is documented never to issue a number twice. Between operations it resumes at the exact tip.
   Once a rotation has renamed the active log it does so exactly if nothing was written since the anchor,
   and otherwise it issues every number since the anchor again. Once the rotation has replaced the anchor,
   which counts the line still to be written, it skips that line's number.
   */
  lemma RestartExactly(cfg: Config, disk: Disk, b: Book, rec: AuditRecord)
    requires Coherent(cfg, disk, b) && disk.active.value != [] && |b.history| <= U64_MAX
    ensures var h, tip := b.history, TipAt(cfg.hash, b.history, |b.history|);
      var renamed := Renamed(disk, b.hi);
      var anchored := renamed.(active := Some([]), anchor := Some(Seal(Append(cfg.hash, tip, rec).0, 0)));
      && Recover(cfg, disk) == tip
      && (Recover(cfg, renamed) == tip <==> b.unanchored == 0)
      && Recover(cfg, renamed).lastSeq == |h| - b.unanchored
      && Recover(cfg, anchored).lastSeq == |h| + 1
  {
    RestartSettled(cfg, disk, b);
    RecoverFromAnchor(cfg, Renamed(disk, b.hi), b);
  }

  /** Concretely: one record written, no anchor yet, and a crash just after its file is renamed. */
  lemma RenameForgets(cfg: Config, rec: AuditRecord)
    ensures var line := Append(cfg.hash, GENESIS, rec).1;
      var disk, b := Disk(map[], Some([line]), [], None), Book([line], 1, 1, 1, 0);
      && Coherent(cfg, disk, b)
      && Recover(cfg, disk).lastSeq == 1
      && Recover(cfg, Renamed(disk, 1)) == GENESIS
  {
    var line := Append(cfg.hash, GENESIS, rec).1;
    var h, active := [line], [line];
    assert h[..0] == [] && active[..0] == [];
    assert LinkedAt(cfg.hash, h, 0);
    assert Joined(map[], 1, 1) == [] && [] + active == h;
  }
}

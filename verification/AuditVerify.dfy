/** Verification of an audit directory: the logs, the signed checkpoints, and the anchor. */
module AuditVerify {
  import opened Words
  import opened Wrappers
  import opened AuditChain
  import opened AuditFiles
  import opened AuditReplay
  import opened AuditReplayTheorems

  datatype AuditError = Malformed | BadSignature

  /** One physical line of a JSONL file. */
  datatype Line<+T> = Blank | Garbage | Parsed(value: T)

  datatype Checkpoint = Checkpoint(seqNo: U64, chainHeadHash: string, tsUnixMs: U64, recordCount: U64)

  datatype CheckpointLine = CheckpointLine(checkpoint: Checkpoint, signature: string)

  datatype AnchorFile = NoAnchor | GarbageAnchor | Anchor(lastHash: string, lastSeq: U64)

  datatype Dir = Dir(
    listing: seq<File<seq<Line<AuditRecord>>>>,
    sidecar: Option<seq<Line<CheckpointLine>>>,
    anchor: AnchorFile)

  /** The primitives the verifier relies on: the record hash, key parsing, and signature verification. */
  datatype Crypto = Crypto(hash: Hash, goodKey: string -> bool, signed: (string, Checkpoint, string) -> bool)

  datatype VerifyReport = VerifyReport(
    files: nat,
    chainOk: bool,
    outcome: ReplayOutcome,
    checkpointsVerified: nat,
    checkpointsFailed: nat,
    signatureChecked: bool,
    headMatchesAnchor: bool)

  // What a directory says, independently of how it is read.

  function Values<T>(lines: seq<Line<T>>): seq<T> {
    if lines == [] then []
    else
      var l := lines[|lines| - 1];
      Values(lines[..|lines| - 1]) + if l.Parsed? then [l.value] else []
  }

  predicate ParsesAll<T>(lines: seq<Line<T>>) {
    forall i :: 0 <= i < |lines| ==> !lines[i].Garbage?
  }

  /** Every line is blank or a record of the current schema. */
  predicate Readable(lines: seq<Line<AuditRecord>>) {
    forall i :: 0 <= i < |lines| ==>
      !lines[i].Garbage? && (lines[i].Parsed? ==> lines[i].value.schemaVersion == SCHEMA_VERSION)
  }

  function AllLines<T>(fs: seq<File<seq<Line<T>>>>): seq<Line<T>> {
    if fs == [] then [] else AllLines(fs[..|fs| - 1]) + fs[|fs| - 1].content
  }

  function LogLines(dir: Dir): seq<Line<AuditRecord>> {
    AllLines(Logs(dir.listing))
  }

  /** The records of a directory, oldest first. */
  function Records(dir: Dir): seq<AuditRecord> {
    Values(LogLines(dir))
  }

  function Checkpoints(dir: Dir): seq<CheckpointLine> {
    if dir.sidecar.None? then [] else Values(dir.sidecar.value)
  }

  predicate BadKey(c: Crypto, dir: Dir, key: Option<string>) {
    dir.sidecar.Some? && key.Some? && !c.goodKey(key.value)
  }

  predicate BadSidecar(dir: Dir) {
    dir.sidecar.Some? && !ParsesAll(dir.sidecar.value)
  }

  predicate BadLogs(dir: Dir) {
    !Readable(LogLines(dir))
  }

  predicate BadAnchor(dir: Dir) {
    || dir.anchor.GarbageAnchor?
    || (dir.anchor.Anchor? && Records(dir) != [] && Records(dir)[|Records(dir)| - 1].seqNo == U64_MAX)
  }

  // Checkpoints.

  predicate InRange(o: ReplayOutcome, cl: CheckpointLine) {
    o.records > 0 && o.firstSeq <= cl.checkpoint.seqNo <= o.lastSeq
  }

  /** The signature holds if one is asked for, and the checkpoint agrees with the replayed log at its number. */
  predicate Binds(c: Crypto, key: Option<string>, o: ReplayOutcome, cl: CheckpointLine) {
    var cp := cl.checkpoint;
    && (key.Some? ==> c.signed(key.value, cp, cl.signature))
    && cp.seqNo in o.seqToHash && o.seqToHash[cp.seqNo] == cp.chainHeadHash
    && cp.recordCount <= cp.seqNo + 1
    && cp.seqNo in o.seqToTs && cp.tsUnixMs >= o.seqToTs[cp.seqNo]
  }

  function CountIf<T>(s: seq<T>, p: T -> bool): nat {
    if s == [] then 0 else CountIf(s[..|s| - 1], p) + if p(s[|s| - 1]) then 1 else 0
  }

  function Verified(c: Crypto, key: Option<string>, o: ReplayOutcome, cls: seq<CheckpointLine>): nat {
    CountIf(cls, cl => InRange(o, cl) && Binds(c, key, o, cl))
  }

  function Refuted(c: Crypto, key: Option<string>, o: ReplayOutcome, cls: seq<CheckpointLine>): nat {
    CountIf(cls, cl => InRange(o, cl) && !Binds(c, key, o, cl))
  }

  function Evaluated(o: ReplayOutcome, cls: seq<CheckpointLine>): nat {
    CountIf(cls, cl => InRange(o, cl))
  }

  /** Verification was asked for, and nothing could be checked. */
  predicate Unsealed(key: Option<string>, o: ReplayOutcome, cls: seq<CheckpointLine>) {
    key.Some? && o.records > 0 && Evaluated(o, cls) == 0
  }

  method EvalCheckpoints(c: Crypto, key: Option<string>, sidecar: Option<seq<CheckpointLine>>, o: ReplayOutcome)
    returns (verified: nat, failed: nat, checked: bool)
    ensures checked == key.Some?
    ensures var cls := if sidecar.Some? then sidecar.value else [];
      && verified == Verified(c, key, o, cls)
      && failed == Refuted(c, key, o, cls) + (if Unsealed(key, o, cls) then 1 else 0)
  {
    checked := key.Some?;
    if sidecar.None? {
      if checked && o.records > 0 {
        return 0, 1, true;
      }
      return 0, 0, checked;
    }
    var cls := sidecar.value;
    verified, failed := 0, 0;
    var evaluated := 0;
    assert cls[..0] == [];
    for i := 0 to |cls|
      invariant verified == Verified(c, key, o, cls[..i])
      invariant failed == Refuted(c, key, o, cls[..i])
      invariant evaluated == Evaluated(o, cls[..i])
    {
      var cl := cls[i];
      assert cls[..i + 1][..i] == cls[..i];
      var cp := cl.checkpoint;
      if o.records == 0 || cp.seqNo < o.firstSeq || cp.seqNo > o.lastSeq {
        continue;
      }
      evaluated := evaluated + 1;
      var sigOk := if key.Some? then c.signed(key.value, cp, cl.signature) else true;
      var countOk := (if cp.recordCount == 0 then 0 else cp.recordCount - 1) <= cp.seqNo;
      var tsOk := cp.seqNo in o.seqToTs && cp.tsUnixMs >= o.seqToTs[cp.seqNo];
      var hashOk := cp.seqNo in o.seqToHash && o.seqToHash[cp.seqNo] == cp.chainHeadHash;
      if sigOk && hashOk && countOk && tsOk {
        verified := verified + 1;
      } else {
        failed := failed + 1;
      }
    }
    assert cls[..|cls|] == cls;
    if key.Some? && o.records > 0 && evaluated == 0 {
      failed := failed + 1;
    }
  }

  // The anchor.

  /** A seal agrees with a log when it holds the head and the next number; no seal agrees only with no log. */
  ghost predicate Sealed(hash: Hash, anchor: AnchorFile, log: seq<AuditRecord>) {
    match anchor
    case NoAnchor => log == []
    case GarbageAnchor => false
    case Anchor(h, n) =>
      if log == [] then h == GENESIS_HASH && n == 0
      else h == LogHead(hash, log) && n == log[|log| - 1].seqNo + 1
  }

  /** Compare the anchor with the end of a replay, which is all the replay keeps of the log. */
  method CheckAnchor(
    anchor: AnchorFile, recordsEmpty: bool, lastSeq: U64, head: string, ghost hash: Hash, ghost log: seq<AuditRecord>)
    returns (r: Result<bool, AuditError>)
    requires recordsEmpty == (log == []) && head == LogHead(hash, log) && (log != [] ==> lastSeq == log[|log| - 1].seqNo)
    ensures r.Err? <==> anchor.GarbageAnchor? || (anchor.Anchor? && log != [] && log[|log| - 1].seqNo == U64_MAX)
    ensures r.Err? ==> r.error == Malformed
    ensures r.Ok? ==> (r.value <==> Sealed(hash, anchor, log))
  {
    match anchor {
      case NoAnchor =>
        return Ok(recordsEmpty);
      case GarbageAnchor =>
        return Err(Malformed);
      case Anchor(h, n) =>
        if recordsEmpty {
          return Ok(h == GENESIS_HASH && n == 0);
        }
        if lastSeq == U64_MAX {
          return Err(Malformed);
        }
        return Ok(h == head && n == lastSeq + 1);
    }
  }

  // Reading.

  method ReadSidecar(c: Crypto, dir: Dir, key: Option<string>) returns (r: Result<Option<seq<CheckpointLine>>, AuditError>)
    ensures r == if BadKey(c, dir, key) then Err(BadSignature) else if BadSidecar(dir) then Err(Malformed)
                 else Ok(if dir.sidecar.None? then None else Some(Checkpoints(dir)))
  {
    if dir.sidecar.None? {
      return Ok(None);
    }
    if key.Some? && !c.goodKey(key.value) {
      return Err(BadSignature);
    }
    var lines := dir.sidecar.value;
    var cls := [];
    for i := 0 to |lines|
      invariant ParsesAll(lines[..i]) && cls == Values(lines[..i])
    {
      assert lines[..i + 1][..i] == lines[..i];
      if lines[i].Garbage? {
        return Err(Malformed);
      }
      if lines[i].Parsed? {
        cls := cls + [lines[i].value];
      }
    }
    assert lines[..|lines|] == lines;
    return Ok(Some(cls));
  }

  lemma ValuesConcat<T>(a: seq<Line<T>>, b: seq<Line<T>>)
    ensures Values(a + b) == Values(a) + Values(b)
    decreases |b|
  {
    if b == [] {
      assert a + b == a;
    } else {
      assert (a + b)[..|a + b| - 1] == a + b[..|b| - 1];
      ValuesConcat(a, b[..|b| - 1]);
    }
  }

  /** Replay one line: a blank is skipped, anything unreadable or of another schema version stops the replay. */
  method ReplayLine(replay: StreamReplay, line: Line<AuditRecord>) returns (ok: bool)
    requires replay.Valid()
    modifies replay
    ensures replay.Valid()
    ensures ok <==> Readable([line])
    ensures ok ==> replay.log == old(replay.log) + if line.Parsed? then [line.value] else []
  {
    assert [line][0] == line;
    match line {
      case Blank =>
        return true;
      case Garbage =>
        return false;
      case Parsed(rec) =>
        if rec.schemaVersion != SCHEMA_VERSION {
          return false;
        }
        replay.Push(rec);
        return true;
    }
  }

  /** Replay one file; stop at the first line that does not replay. */
  method ReplayFile(replay: StreamReplay, lines: seq<Line<AuditRecord>>) returns (ok: bool)
    requires replay.Valid()
    modifies replay
    ensures replay.Valid()
    ensures ok <==> Readable(lines)
    ensures ok ==> replay.log == old(replay.log) + Values(lines)
  {
    assert lines[..0] == [];
    for i := 0 to |lines|
      invariant replay.Valid()
      invariant Readable(lines[..i])
      invariant replay.log == old(replay.log) + Values(lines[..i])
    {
      assert lines[..i + 1] == lines[..i] + [lines[i]] && lines[..i + 1][..i] == lines[..i];
      ReadableConcat(lines[..i], [lines[i]]);
      ok := ReplayLine(replay, lines[i]);
      if !ok {
        assert !Readable(lines) by {
          assert lines == lines[..i + 1] + lines[i + 1..];
          ReadableConcat(lines[..i + 1], lines[i + 1..]);
        }
        return;
      }
    }
    assert lines[..|lines|] == lines;
    return true;
  }

  lemma ReadableConcat(a: seq<Line<AuditRecord>>, b: seq<Line<AuditRecord>>)
    ensures Readable(a + b) <==> Readable(a) && Readable(b)
  {
    assert forall i :: 0 <= i < |b| ==> b[i] == (a + b)[|a| + i];
    assert forall i :: 0 <= i < |a| ==> a[i] == (a + b)[i];
  }

  lemma {:induction false} ReadablePrefix(fs: seq<File<seq<Line<AuditRecord>>>>, i: nat)
    requires i <= |fs| && Readable(AllLines(fs))
    ensures Readable(AllLines(fs[..i]))
  {
    if i == |fs| {
      assert fs[..i] == fs;
    } else {
      var init := fs[..|fs| - 1];
      ReadableConcat(AllLines(init), fs[|fs| - 1].content);
      ReadablePrefix(init, i);
      assert init[..i] == fs[..i];
    }
  }

  lemma AllLinesGrow<T>(fs: seq<File<seq<Line<T>>>>, i: nat)
    requires i < |fs|
    ensures AllLines(fs[..i + 1]) == AllLines(fs[..i]) + fs[i].content
  {
    assert fs[..i + 1][..i] == fs[..i];
  }

  method ReplayLogs(replay: StreamReplay, fs: seq<File<seq<Line<AuditRecord>>>>) returns (ok: bool)
    requires replay.Valid() && replay.log == []
    modifies replay
    ensures replay.Valid()
    ensures ok <==> Readable(AllLines(fs))
    ensures ok ==> replay.log == Values(AllLines(fs))
  {
    for i := 0 to |fs|
      invariant replay.Valid()
      invariant Readable(AllLines(fs[..i]))
      invariant replay.log == Values(AllLines(fs[..i]))
    {
      ghost var before := AllLines(fs[..i]);
      AllLinesGrow(fs, i);
      ValuesConcat(before, fs[i].content);
      ReadableConcat(before, fs[i].content);
      ok := ReplayFile(replay, fs[i].content);
      if !ok {
        if Readable(AllLines(fs)) {
          ReadablePrefix(fs, i + 1);
        }
        return;
      }
    }
    assert fs[..|fs|] == fs;
    ok := true;
  }

  method Replay(hash: Hash, needed: set<U64>, dir: Dir) returns (r: Result<ReplayOutcome, AuditError>)
    ensures r == if BadLogs(dir) then Err(Malformed) else Ok(Report(needed, FactsOf(hash, Records(dir))))
    ensures r.Ok? ==>
      && r.value.records == |Records(dir)| && r.value.head == LogHead(hash, Records(dir))
      && (Records(dir) != [] ==> r.value.lastSeq == Records(dir)[|Records(dir)| - 1].seqNo)
      && (ReplayAccepts(r.value) <==> Intact(hash, Records(dir)))
  {
    var replay := new StreamReplay(hash, needed);
    var ok := ReplayLogs(replay, Logs(dir.listing));
    if !ok {
      return Err(Malformed);
    }
    var o := replay.Finish();
    FactsHold(hash, Records(dir));
    AcceptsExactlyIntactLogs(hash, needed, Records(dir));
    return Ok(o);
  }

  /**
   Verify a directory. An error is reported exactly when something cannot be read; otherwise the verdict
   is exactly that the records form an intact chain, that every checkpoint in range binds and a requested
   key sealed something, and that the anchor agrees.
   */
  method VerifyDir(c: Crypto, dir: Dir, key: Option<string>) returns (r: Result<VerifyReport, AuditError>)
    ensures r.Err? <==> BadKey(c, dir, key) || BadSidecar(dir) || BadLogs(dir) || BadAnchor(dir)
    ensures r.Err? ==> r.error == if BadKey(c, dir, key) then BadSignature else Malformed
    ensures r.Ok? ==>
      var log, o := Records(dir), r.value.outcome;
      && o == Report(Needed(Checkpoints(dir)), FactsOf(c.hash, log))
      && r.value.files == |Logs(dir.listing)| && r.value.signatureChecked == key.Some?
      && r.value.checkpointsVerified == Verified(c, key, o, Checkpoints(dir))
      && r.value.checkpointsFailed ==
         Refuted(c, key, o, Checkpoints(dir)) + (if Unsealed(key, o, Checkpoints(dir)) then 1 else 0)
      && (r.value.headMatchesAnchor <==> Sealed(c.hash, dir.anchor, log))
      && (r.value.chainOk <==>
          && Intact(c.hash, log)
          && Refuted(c, key, o, Checkpoints(dir)) == 0 && !Unsealed(key, o, Checkpoints(dir))
          && Sealed(c.hash, dir.anchor, log))
  {
    var sidecar := ReadSidecar(c, dir, key);
    if sidecar.Err? {
      return Err(sidecar.error);
    }
    var cls := if sidecar.value.Some? then sidecar.value.value else [];
    var replayed := Replay(c.hash, Needed(cls), dir);
    if replayed.Err? {
      return Err(replayed.error);
    }
    var o := replayed.value;
    var verified, failed, checked := EvalCheckpoints(c, key, sidecar.value, o);
    var sealed := CheckAnchor(dir.anchor, o.records == 0, o.lastSeq, o.head, c.hash, Records(dir));
    if sealed.Err? {
      return Err(sealed.error);
    }
    var chainOk := ReplayAccepts(o) && failed == 0 && sealed.value;
    return Ok(VerifyReport(|Logs(dir.listing)|, chainOk, o, verified, failed, checked, sealed.value));
  }

  /** The sequence numbers the checkpoints speak of: the only ones whose hash and time are retained. */
  function Needed(cls: seq<CheckpointLine>): set<U64> {
    set cl | cl in cls :: cl.checkpoint.seqNo
  }
}

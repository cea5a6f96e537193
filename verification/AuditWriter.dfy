/**
 The audit writer: the chain tip it keeps in memory, the files it keeps on disk, and how it finds the
 tip again after a restart.

 Every change the writer makes to the directory is one step: a line appended, a file renamed, created
 or removed, an anchor replaced. A crash can fall between any two.
 */
module AuditWriter {
  import opened Wrappers
  import opened AuditChain
  import opened AuditVerify

  const CHECKPOINT_INTERVAL: nat := 100

  datatype Config = Config(
    hash: Hash,
    size: AuditRecord -> nat,
    sign: Option<Checkpoint -> string>,
    rotateMaxBytes: nat,
    rotateKeepFiles: nat)

  /** The anchor file: the tip when it was written, and how many bytes of the active file it covers. */
  datatype Seal = Seal(tip: Tip, activeBytes: nat)

  datatype Disk = Disk(
    rotated: map<nat, seq<AuditRecord>>,
    active: Option<seq<AuditRecord>>,
    checkpoints: seq<CheckpointLine>,
    anchor: Option<Seal>)

  /** A record's line: its text and the line end. */
  function LineBytes(cfg: Config, rec: AuditRecord): (n: nat)
    ensures n > 0
  {
    cfg.size(rec) + 1
  }

  function Bytes(cfg: Config, log: seq<AuditRecord>): nat {
    if log == [] then 0 else Bytes(cfg, log[..|log| - 1]) + LineBytes(cfg, log[|log| - 1])
  }

  // Recovery.

  /** The records that start at or after a byte offset; a line cut by the offset does not parse. */
  function From(cfg: Config, log: seq<AuditRecord>, offset: nat): seq<AuditRecord> {
    if offset == 0 || log == [] then log
    else if offset < LineBytes(cfg, log[0]) then log[1..]
    else From(cfg, log[1..], offset - LineBytes(cfg, log[0]))
  }

  /** The tip a restarted writer resumes from: the last record past the anchor, or the anchor, or genesis. */
  function Recover(cfg: Config, disk: Disk): Tip {
    var covered := if disk.anchor.Some? then disk.anchor.value.activeBytes else 0;
    var offset := if disk.active.Some? && covered > Bytes(cfg, disk.active.value) then 0 else covered;
    var tail := if disk.active.Some? then From(cfg, disk.active.value, offset) else [];
    if tail != [] then
      var r := tail[|tail| - 1];
      Tip(cfg.hash(r.prevHash, r), r.seqNo + 1)
    else if disk.anchor.Some? then disk.anchor.value.tip
    else GENESIS
  }

  /** The first step of a rotation: the active log takes the next index, and there is no active log. */
  function Renamed(disk: Disk, n: nat): Disk
    requires disk.active.Some?
  {
    disk.(rotated := disk.rotated[n := disk.active.value], active := None)
  }

  // What the files should hold, given everything ever written.

  /** The tip after the first `n` records. */
  function TipAt(hash: Hash, history: seq<AuditRecord>, n: nat): Tip
    requires n <= |history|
  {
    Tip(Head(hash, GENESIS_HASH, history[..n]), n)
  }

  /** A history from genesis: numbered from zero, every record linked to those before it. */
  ghost predicate Chronicle(hash: Hash, history: seq<AuditRecord>) {
    && Intact(hash, history)
    && (history != [] ==> history[0].seqNo == 0 && history[0].prevHash == GENESIS_HASH)
  }

  /** Rotated files `lo` up to `hi`, one after the other. */
  function Joined(rotated: map<nat, seq<AuditRecord>>, lo: nat, hi: nat): seq<AuditRecord> {
    if hi <= lo then []
    else Joined(rotated, lo, hi - 1) + if hi - 1 in rotated then rotated[hi - 1] else []
  }

  ghost predicate Shelved(rotated: map<nat, seq<AuditRecord>>, lo: nat, hi: nat) {
    && 1 <= lo <= hi && (lo == hi ==> hi == 1)
    && (forall n :: n in rotated <==> lo <= n < hi)
    && (forall n :: n in rotated ==> rotated[n] != [])
  }

  ghost predicate EndOf(part: seq<AuditRecord>, history: seq<AuditRecord>) {
    |part| <= |history| && forall i :: 0 <= i < |part| ==> part[i] == history[|history| - |part| + i]
  }

  /**
   What the files stand for: everything ever written, the indices of the rotated files, how many records
   were written since the anchor was, and after which active record the anchor's offset points.
   */
  datatype Book = Book(history: seq<AuditRecord>, lo: nat, hi: nat, unanchored: nat, mark: nat)

  /** The files hold the end of the history, oldest file first. */
  ghost predicate Filed(disk: Disk, b: Book) {
    && disk.active.Some?
    && Shelved(disk.rotated, b.lo, b.hi)
    && EndOf(Joined(disk.rotated, b.lo, b.hi) + disk.active.value, b.history)
    && (b.history != [] ==> Joined(disk.rotated, b.lo, b.hi) + disk.active.value != [])
  }

  /** ... and so do the rotated files alone, while the active log is being replaced. */
  ghost predicate MidRotation(disk: Disk, b: Book) {
    Shelved(disk.rotated, b.lo, b.hi) && b.lo < b.hi && EndOf(Joined(disk.rotated, b.lo, b.hi), b.history)
  }

  /** The anchor's tip is that of `unanchored` records ago; before there is one it is genesis. */
  ghost predicate OldAnchor(cfg: Config, disk: Disk, b: Book) {
    && b.unanchored <= |b.history|
    && (if disk.anchor.Some? then disk.anchor.value.tip else GENESIS) == TipAt(cfg.hash, b.history, |b.history| - b.unanchored)
  }

  /** ... and its offset points after the `mark`th active record, which is no later. */
  ghost predicate Anchored(cfg: Config, disk: Disk, b: Book)
    requires disk.active.Some?
  {
    && OldAnchor(cfg, disk, b)
    && b.mark + b.unanchored <= |disk.active.value|
    && (if disk.anchor.Some? then disk.anchor.value.activeBytes else 0) == Bytes(cfg, disk.active.value[..b.mark])
  }

  /** A checkpoint the writer signed over `history`. */
  ghost predicate Attests(cfg: Config, history: seq<AuditRecord>, cl: CheckpointLine) {
    var cp := cl.checkpoint;
    && cfg.sign.Some? && cl.signature == cfg.sign.value(cp)
    && cp.seqNo < |history| && cp.recordCount <= cp.seqNo + 1
    && cp.chainHeadHash == TipAt(cfg.hash, history, cp.seqNo + 1).lastHash
  }

  ghost predicate AllAttest(cfg: Config, history: seq<AuditRecord>, cls: seq<CheckpointLine>) {
    forall cl :: cl in cls ==> Attests(cfg, history, cl)
  }

  /** A directory a writer can be opened on: files, anchor and checkpoints agree on one history from genesis. */
  ghost predicate Coherent(cfg: Config, disk: Disk, b: Book) {
    && Chronicle(cfg.hash, b.history)
    && Filed(disk, b) && Anchored(cfg, disk, b)
    && AllAttest(cfg, b.history, disk.checkpoints)
  }

  // Moments: the directory as a crash would leave it.

  /** The changes a writer makes to its directory, one file at a time. `PutAnchorAhead` is a rotation's anchor,
      which counts the line still to be written. */
  datatype Operation =
    | Opened
    | Rename(index: nat)
    | Create
    | Remove(index: nat)
    | PutAnchor(seal: Seal)
    | PutAnchorAhead(seal: Seal)
    | AddCheckpoint(line: CheckpointLine)
    | AddRecord(rec: AuditRecord)

  predicate CanApply(disk: Disk, op: Operation) {
    match op
    case Rename(n) => disk.active.Some? && n !in disk.rotated
    case Create => disk.active.None?
    case Remove(n) => n in disk.rotated
    case AddRecord(_) => disk.active.Some?
    case _ => true
  }

  function Applied(disk: Disk, op: Operation): Disk
    requires CanApply(disk, op)
  {
    match op
    case Opened => disk.(active := Some(if disk.active.Some? then disk.active.value else []))
    case Rename(n) => Renamed(disk, n)
    case Create => disk.(active := Some([]))
    case Remove(n) => disk.(rotated := disk.rotated - {n})
    case PutAnchor(seal) => disk.(anchor := Some(seal))
    case PutAnchorAhead(seal) => disk.(anchor := Some(seal))
    case AddCheckpoint(line) => disk.(checkpoints := disk.checkpoints + [line])
    case AddRecord(rec) => disk.(active := Some(disk.active.value + [rec]))
  }

  /** Only an appended line is a record more. */
  function HistoryAfter(history: seq<AuditRecord>, op: Operation): seq<AuditRecord> {
    if op.AddRecord? then history + [op.rec] else history
  }

  /** The directory after an operation, and what it stands for. */
  datatype Moment = Moment(op: Operation, disk: Disk, book: Book)

  /**
   What a restart at this moment finds. Between writer operations it is the exact tip. Between the renaming of
   the active file and the new anchor it is the old anchor, so it is exact only if nothing was written
   since, and otherwise the numbers since are issued a second time. Between that anchor and the pending
   line it is one number too far.
   */
  ghost predicate Restart(cfg: Config, m: Moment) {
    var r, b := Recover(cfg, m.disk), m.book;
    match m.op
    case Rename(_) => b.unanchored <= |b.history| && r == TipAt(cfg.hash, b.history, |b.history| - b.unanchored)
    case Create => b.unanchored <= |b.history| && r == TipAt(cfg.hash, b.history, |b.history| - b.unanchored)
    case Remove(_) => b.unanchored <= |b.history| && r == TipAt(cfg.hash, b.history, |b.history| - b.unanchored)
    case PutAnchorAhead(_) => r.lastSeq == |b.history| + 1
    case _ => Coherent(cfg, m.disk, b) && r == TipAt(cfg.hash, b.history, |b.history|)
  }

  /** `m'` is one operation after `m`. */
  predicate Succeeds(m: Moment, m': Moment) {
    && CanApply(m.disk, m'.op) && m'.disk == Applied(m.disk, m'.op)
    && m'.book.history == HistoryAfter(m.book.history, m'.op)
  }

  /** A directory over time. */
  datatype Trace = Begun(now: Moment) | Then(past: Trace, now: Moment)

  /** No operation is left out, and a crash after any of them is recovered from as `Restart` states. */
  ghost predicate Traced(cfg: Config, t: Trace) {
    Restart(cfg, t.now) && (t.Then? ==> Succeeds(t.past.now, t.now) && Traced(cfg, t.past))
  }

  /** `t` is how `t'` was at some time. */
  predicate Past(t: Trace, t': Trace) {
    t == t' || (t'.Then? && Past(t, t'.past))
  }

  lemma {:induction false} PastTransitive(t: Trace, t': Trace, t'': Trace)
    requires Past(t, t') && Past(t', t'')
    ensures Past(t, t'')
  {
    if t' != t'' {
      PastTransitive(t, t', t''.past);
    }
  }

  /** So it was at every time. */
  lemma {:induction false} TracedPast(cfg: Config, t: Trace, t': Trace)
    requires Past(t, t') && Traced(cfg, t')
    ensures Traced(cfg, t)
  {
    if t != t' {
      TracedPast(cfg, t, t'.past);
    }
  }

  lemma {:induction false} FromMark(cfg: Config, log: seq<AuditRecord>, mark: nat)
    requires mark <= |log|
    ensures From(cfg, log, Bytes(cfg, log[..mark])) == log[mark..]
    ensures Bytes(cfg, log[..mark]) <= Bytes(cfg, log)
    decreases |log|
  {
    if mark == 0 {
      assert log[..0] == [] && log[0..] == log;
    } else {
      BytesFront(cfg, log[..mark]);
      BytesFront(cfg, log);
      assert log[..mark][1..] == log[1..][..mark - 1] && log[1..][mark - 1..] == log[mark..];
      FromMark(cfg, log[1..], mark - 1);
    }
  }

  lemma {:induction false} BytesFront(cfg: Config, log: seq<AuditRecord>)
    requires log != []
    ensures Bytes(cfg, log) == LineBytes(cfg, log[0]) + Bytes(cfg, log[1..])
  {
    if |log| == 1 {
      assert log[..0] == [] && log[1..] == [];
    } else {
      var init := log[..|log| - 1];
      BytesFront(cfg, init);
      assert log[1..][..|log| - 2] == init[1..];
    }
  }

  /** The tip is what the last record of a history says it is. */
  lemma LastRecordIsTip(hash: Hash, history: seq<AuditRecord>)
    requires Chronicle(hash, history) && history != []
    ensures var r := history[|history| - 1]; TipAt(hash, history, |history|) == Tip(hash(r.prevHash, r), r.seqNo + 1)
  {
    LinkedHead(hash, history, |history| - 1);
  }

  /** With its offset on a line boundary, recovery reads the last active record past it, or the anchor. */
  lemma RecoverReads(cfg: Config, disk: Disk, mark: nat)
    requires disk.active.Some? && mark <= |disk.active.value|
    requires (if disk.anchor.Some? then disk.anchor.value.activeBytes else 0) == Bytes(cfg, disk.active.value[..mark])
    ensures var active := disk.active.value;
      Recover(cfg, disk) ==
        if mark < |active| then
          var r := active[|active| - 1];
          Tip(cfg.hash(r.prevHash, r), r.seqNo + 1)
        else if disk.anchor.Some? then disk.anchor.value.tip
        else GENESIS
  {
    FromMark(cfg, disk.active.value, mark);
  }

  /** Recovery is exact whenever the anchor agrees with the files, however far behind it is. */
  lemma RecoverExact(cfg: Config, disk: Disk, b: Book)
    requires Chronicle(cfg.hash, b.history) && disk.active.Some? && Anchored(cfg, disk, b)
    requires var active := disk.active.value;
      active != [] ==> b.history != [] && active[|active| - 1] == b.history[|b.history| - 1]
    ensures Recover(cfg, disk) == TipAt(cfg.hash, b.history, |b.history|)
  {
    RecoverReads(cfg, disk, b.mark);
    if b.mark < |disk.active.value| {
      LastRecordIsTip(cfg.hash, b.history);
    }
  }

  /** While the active file is missing or new, only the anchor speaks. */
  lemma RecoverFromAnchor(cfg: Config, disk: Disk, b: Book)
    requires OldAnchor(cfg, disk, b) && (disk.active == None || disk.active == Some([]))
    ensures Recover(cfg, disk) == TipAt(cfg.hash, b.history, |b.history| - b.unanchored)
  {
  }

  ghost predicate LastSealed(history: seq<AuditRecord>, cls: seq<CheckpointLine>) {
    exists cl :: cl in cls && cl.checkpoint.seqNo + 1 == |history|
  }
}

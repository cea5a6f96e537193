/**
 The audit records and the hash chain they form.

 The record hash (SHA-256 over the previous hash and the record's canonical bytes) is a parameter:
 every result holds for any function of those two arguments, and the results that need it to be
 collision free say for which arguments.
 */
module AuditChain {
  import opened Words
  import opened Wrappers

  const SCHEMA_VERSION: nat := 2
  const GAP_SENTINEL_METHOD := "__AUDIT_GAP__"

  const GENESIS_HASH := "0000000000000000000000000000000000000000000000000000000000000000"

  datatype EventClass = Auth | KeyMgmt | Admin | DataPlane | System | Deny

  datatype AuditRecord = AuditRecord(
    schemaVersion: nat,
    seqNo: U64,
    tsUnixMs: U64,
    tsMonotonicNs: U64,
    prevHash: string,
    requestId: string,
    identity: Option<string>,
    pkcsMethod: string,
    class_: EventClass,
    slot: Option<U64>,
    session: Option<U64>,
    objectRef: Option<string>,
    ckRv: U64,
    latencyUs: U64,
    droppedCount: Option<U64>)

  type Hash = (string, AuditRecord) -> string

  /** The count a gap sentinel carries; nothing for a record that breaks any part of the sentinel contract. */
  function SentinelCount(rec: AuditRecord): Option<U64> {
    if rec.pkcsMethod == GAP_SENTINEL_METHOD && rec.class_ == System then rec.droppedCount else None
  }

  /** The head reached by hashing `log`, in order, on top of `base`. */
  function Head(hash: Hash, base: string, log: seq<AuditRecord>): string {
    if log == [] then base else hash(Head(hash, base, log[..|log| - 1]), log[|log| - 1])
  }

  /** A log starts from whatever its first record points back to: an older prefix may have been pruned. */
  function Base(log: seq<AuditRecord>): string {
    if log == [] then GENESIS_HASH else log[0].prevHash
  }

  function LogHead(hash: Hash, log: seq<AuditRecord>): string {
    Head(hash, Base(log), log)
  }

  /** Record `i` points back at the head of the records before it. */
  ghost predicate LinkedAt(hash: Hash, log: seq<AuditRecord>, i: nat)
    requires i < |log|
  {
    log[i].prevHash == Head(hash, Base(log), log[..i])
  }

  ghost predicate Linked(hash: Hash, log: seq<AuditRecord>) {
    forall i: nat :: i < |log| ==> LinkedAt(hash, log, i)
  }

  /** Each record's number is one more than its predecessor's. */
  ghost predicate Consecutive(log: seq<AuditRecord>) {
    forall i :: 0 <= i < |log| ==> log[i].seqNo == log[0].seqNo + i
  }

  ghost predicate Ascending(log: seq<AuditRecord>) {
    forall i, j :: 0 <= i <= j < |log| ==> log[i].seqNo <= log[j].seqNo
  }

  /** What a log must be for a verifier to accept it, said without reference to how it is read. */
  ghost predicate Intact(hash: Hash, log: seq<AuditRecord>) {
    Linked(hash, log) && Consecutive(log)
  }

  lemma {:induction false} HeadConcat(hash: Hash, base: string, a: seq<AuditRecord>, b: seq<AuditRecord>)
    ensures Head(hash, base, a + b) == Head(hash, Head(hash, base, a), b)
    decreases |b|
  {
    if b == [] {
      assert a + b == a;
    } else {
      HeadConcat(hash, base, a, b[..|b| - 1]);
      assert (a + b)[..|a + b| - 1] == a + b[..|b| - 1];
    }
  }

  /** Replaying from the middle of a linked log reaches the same heads. */
  lemma SuffixHead(hash: Hash, log: seq<AuditRecord>, n: nat, i: nat)
    requires Linked(hash, log) && n + i <= |log| && n < |log|
    ensures Head(hash, Base(log[n..]), log[n..][..i]) == Head(hash, Base(log), log[..n + i])
  {
    assert LinkedAt(hash, log, n);
    assert log[..n + i] == log[..n] + log[n..][..i];
    HeadConcat(hash, Base(log), log[..n], log[n..][..i]);
  }

  /** A suffix of an intact log is intact: this is what lets the oldest files be pruned. */
  lemma SuffixIntact(hash: Hash, log: seq<AuditRecord>, n: nat)
    requires Intact(hash, log) && n <= |log|
    ensures Intact(hash, log[n..])
    ensures n < |log| ==> LogHead(hash, log[n..]) == LogHead(hash, log)
  {
    var tail := log[n..];
    forall i: nat | i < |tail|
      ensures LinkedAt(hash, tail, i)
    {
      assert LinkedAt(hash, log, n + i);
      SuffixHead(hash, log, n, i);
    }
    if n < |log| {
      SuffixHead(hash, log, n, |tail|);
      assert tail[..|tail|] == tail && log[..n + |tail|] == log;
    }
  }

  /** Adding a record that points at the head and takes the next number keeps a log intact. */
  lemma IntactExtend(hash: Hash, log: seq<AuditRecord>, rec: AuditRecord)
    requires Intact(hash, log)
    requires log != [] ==> rec.prevHash == LogHead(hash, log) && rec.seqNo == log[|log| - 1].seqNo + 1
    ensures Intact(hash, log + [rec])
    ensures LogHead(hash, log + [rec]) == hash(rec.prevHash, rec)
  {
    var all := log + [rec];
    assert all[..|all| - 1] == log && Head(hash, Base(all), log) == rec.prevHash;
    forall i: nat | i < |all|
      ensures LinkedAt(hash, all, i)
    {
      if i < |log| {
        assert all[..i] == log[..i] && LinkedAt(hash, log, i);
      } else {
        assert all[..i] == log;
      }
    }
  }

  /** The tip of a chain: the running head, and the number the next record takes. */
  datatype Tip = Tip(lastHash: string, lastSeq: nat)

  const GENESIS := Tip(GENESIS_HASH, 0)

  /** Number a record from the tip, link it to the tip, and advance the tip past it. */
  function Append(hash: Hash, tip: Tip, rec: AuditRecord): (r: (Tip, AuditRecord))
    requires tip.lastSeq <= U64_MAX
  {
    var stamped := rec.(seqNo := tip.lastSeq, prevHash := tip.lastHash);
    (Tip(hash(tip.lastHash, stamped), tip.lastSeq + 1), stamped)
  }

  /** `tip` is where a writer that has written exactly `log` must stand. */
  ghost predicate TipOf(hash: Hash, log: seq<AuditRecord>, tip: Tip) {
    log != [] ==> tip == Tip(LogHead(hash, log), log[|log| - 1].seqNo + 1)
  }

  lemma AppendIntact(hash: Hash, log: seq<AuditRecord>, tip: Tip, rec: AuditRecord)
    requires Intact(hash, log) && TipOf(hash, log, tip) && tip.lastSeq <= U64_MAX
    ensures var r := Append(hash, tip, rec); Intact(hash, log + [r.1]) && TipOf(hash, log + [r.1], r.0)
  {
    IntactExtend(hash, log, Append(hash, tip, rec).1);
  }

  /** The hash a record contributes when it is linked where it says it is. */
  function OwnHash(hash: Hash, rec: AuditRecord): string {
    hash(rec.prevHash, rec)
  }

  /** No record of one log shares its hash with a different record of the other. */
  ghost predicate CollisionFree(hash: Hash, a: seq<AuditRecord>, b: seq<AuditRecord>) {
    forall i, j {:trigger OwnHash(hash, a[i]), OwnHash(hash, b[j])} ::
      0 <= i < |a| && 0 <= j < |b| && OwnHash(hash, a[i]) == OwnHash(hash, b[j]) ==> a[i] == b[j]
  }

  /**
   A head commits to history: two linked logs with the same head agree record by record from the end,
   so one is a suffix of the other, unless the hash collides on two of their records.
   */
  lemma {:induction false} SameHeadSameHistory(hash: Hash, a: seq<AuditRecord>, b: seq<AuditRecord>, k: nat)
    requires Linked(hash, a) && Linked(hash, b) && CollisionFree(hash, a, b)
    requires LogHead(hash, a) == LogHead(hash, b)
    requires k < |a| && k < |b|
    ensures a[|a| - 1 - k] == b[|b| - 1 - k]
    decreases k
  {
    LinkedHead(hash, a, |a| - 1 - k);
    LinkedHead(hash, b, |b| - 1 - k);
    if k == 0 {
      assert a[..|a|] == a && b[..|b|] == b;
    } else {
      SameHeadSameHistory(hash, a, b, k - 1);
    }
  }

  lemma LinkedHead(hash: Hash, log: seq<AuditRecord>, i: nat)
    requires Linked(hash, log) && i < |log|
    ensures Head(hash, Base(log), log[..i + 1]) == OwnHash(hash, log[i])
    ensures i + 1 < |log| ==> log[i + 1].prevHash == OwnHash(hash, log[i])
  {
    assert LinkedAt(hash, log, i) && log[..i + 1][..i] == log[..i];
    if i + 1 < |log| {
      assert LinkedAt(hash, log, i + 1);
    }
  }

  /** ... and the same from a checkpoint in the middle: the records a sealed head covers cannot differ. */
  lemma SameCheckpointSameHistory(hash: Hash, a: seq<AuditRecord>, m: nat, b: seq<AuditRecord>, n: nat, k: nat)
    requires Linked(hash, a) && Linked(hash, b) && CollisionFree(hash, a, b)
    requires k < m <= |a| && k < n <= |b|
    requires Head(hash, Base(a), a[..m]) == Head(hash, Base(b), b[..n])
    ensures a[m - 1 - k] == b[n - 1 - k]
  {
    PrefixLinked(hash, a, m);
    PrefixLinked(hash, b, n);
    SameHeadSameHistory(hash, a[..m], b[..n], k);
  }

  lemma PrefixLinked(hash: Hash, log: seq<AuditRecord>, m: nat)
    requires Linked(hash, log) && 0 < m <= |log|
    ensures Linked(hash, log[..m]) && Base(log[..m]) == Base(log)
  {
    forall i: nat | i < m
      ensures LinkedAt(hash, log[..m], i)
    {
      assert LinkedAt(hash, log, i) && log[..m][..i] == log[..i];
    }
  }
}

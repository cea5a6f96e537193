/** What an accepting verdict commits to. */
module AuditVerifyTheorems {
  import opened Words
  import opened Wrappers
  import opened AuditChain
  import opened AuditReplay
  import opened AuditReplayTheorems
  import opened AuditVerify

  /** The verdict of `VerifyDir`, as a property of the directory. */
  ghost predicate Accepts(c: Crypto, dir: Dir, key: Option<string>) {
    var log, cls := Records(dir), Checkpoints(dir);
    var o := Report(Needed(cls), FactsOf(c.hash, log));
    && !BadKey(c, dir, key) && !BadSidecar(dir) && !BadLogs(dir) && !BadAnchor(dir)
    && Intact(c.hash, log)
    && Refuted(c, key, o, cls) == 0 && !Unsealed(key, o, cls)
    && Sealed(c.hash, dir.anchor, log)
  }

  // Checkpoints.

  lemma {:induction false} CountSame<T>(s: seq<T>, p: T -> bool, q: T -> bool)
    requires forall x :: x in s ==> p(x) == q(x)
    ensures CountIf(s, p) == CountIf(s, q)
  {
    if s != [] {
      assert s[|s| - 1] in s;
      CountSame(s[..|s| - 1], p, q);
    }
  }

  lemma {:induction false} CountSplit<T>(s: seq<T>, p: T -> bool, q: T -> bool, r: T -> bool)
    requires forall x :: x in s ==> (r(x) <==> p(x) || q(x)) && !(p(x) && q(x))
    ensures CountIf(s, p) + CountIf(s, q) == CountIf(s, r)
  {
    if s != [] {
      assert s[|s| - 1] in s;
      CountSplit(s[..|s| - 1], p, q, r);
    }
  }

  lemma {:induction false} CountNone<T>(s: seq<T>, p: T -> bool)
    ensures CountIf(s, p) == 0 <==> forall x :: x in s ==> !p(x)
  {
    if s != [] {
      var init, l := s[..|s| - 1], s[|s| - 1];
      CountNone(init, p);
      assert forall x :: x in s <==> x in init || x == l;
    }
  }

  /** Every checkpoint in range is either verified or failed, and none out of range is either. */
  lemma EveryCheckpointCounted(c: Crypto, key: Option<string>, o: ReplayOutcome, cls: seq<CheckpointLine>)
    ensures Verified(c, key, o, cls) + Refuted(c, key, o, cls) == Evaluated(o, cls) <= |cls|
  {
    CountSplit(
      cls, cl => InRange(o, cl) && Binds(c, key, o, cl), cl => InRange(o, cl) && !Binds(c, key, o, cl), cl => InRange(o, cl));
    CountAtMost(cls, cl => InRange(o, cl));
  }

  lemma {:induction false} CountAtMost<T>(s: seq<T>, p: T -> bool)
    ensures CountIf(s, p) <= |s|
  {
    if s != [] {
      CountAtMost(s[..|s| - 1], p);
    }
  }

  /** Retaining only what the checkpoints name loses nothing: any larger retention gives the same counts. */
  lemma NeededSuffices(c: Crypto, key: Option<string>, f: Facts, cls: seq<CheckpointLine>, kept: set<U64>)
    requires Needed(cls) <= kept
    ensures Verified(c, key, Report(Needed(cls), f), cls) == Verified(c, key, Report(kept, f), cls)
    ensures Refuted(c, key, Report(Needed(cls), f), cls) == Refuted(c, key, Report(kept, f), cls)
    ensures Unsealed(key, Report(Needed(cls), f), cls) == Unsealed(key, Report(kept, f), cls)
  {
    var o, o' := Report(Needed(cls), f), Report(kept, f);
    forall cl | cl in cls
      ensures InRange(o, cl) == InRange(o', cl) && Binds(c, key, o, cl) == Binds(c, key, o', cl)
    {
      assert cl.checkpoint.seqNo in Needed(cls);
    }
    CountSame(cls, cl => InRange(o, cl) && Binds(c, key, o, cl), cl => InRange(o', cl) && Binds(c, key, o', cl));
    CountSame(cls, cl => InRange(o, cl) && !Binds(c, key, o, cl), cl => InRange(o', cl) && !Binds(c, key, o', cl));
    CountSame(cls, cl => InRange(o, cl), cl => InRange(o', cl));
  }

  /** Where in a log of consecutive numbers a checkpoint points. */
  predicate Covers(log: seq<AuditRecord>, cp: Checkpoint) {
    log != [] && log[0].seqNo <= cp.seqNo <= log[|log| - 1].seqNo
  }

  /** A checkpoint agrees with the log: head, count and time of the record it seals. */
  ghost predicate SealsRecord(hash: Hash, log: seq<AuditRecord>, cp: Checkpoint)
    requires Covers(log, cp) && Consecutive(log)
  {
    var k := cp.seqNo - log[0].seqNo;
    && cp.chainHeadHash == Head(hash, Base(log), log[..k + 1])
    && cp.recordCount <= cp.seqNo + 1
    && cp.tsUnixMs >= log[k].tsUnixMs
  }

  /** What the replay of consecutive numbers retains at a number it was asked to keep. */
  lemma RetainedAt(hash: Hash, needed: set<U64>, log: seq<AuditRecord>, k: nat)
    requires Consecutive(log) && k < |log| && log[k].seqNo in needed
    ensures var o, s := Report(needed, FactsOf(hash, log)), log[k].seqNo;
      && s in o.seqToHash && o.seqToHash[s] == Head(hash, Base(log), log[..k + 1])
      && s in o.seqToTs && o.seqToTs[s] == log[k].tsUnixMs
  {
    LastOccurrence(hash, log, k);
  }

  /** ... and its signature holds if a key is given. */
  ghost predicate Honest(c: Crypto, key: Option<string>, log: seq<AuditRecord>, cl: CheckpointLine)
    requires Covers(log, cl.checkpoint) && Consecutive(log)
  {
    (key.Some? ==> c.signed(key.value, cl.checkpoint, cl.signature)) && SealsRecord(c.hash, log, cl.checkpoint)
  }

  lemma InRangeExactly(hash: Hash, needed: set<U64>, log: seq<AuditRecord>, cl: CheckpointLine)
    ensures InRange(Report(needed, FactsOf(hash, log)), cl) <==> Covers(log, cl.checkpoint)
  {
    FactsHold(hash, log);
  }

  /** With the right hash and time retained, a line binds exactly when it is honest. */
  lemma BindsWith(c: Crypto, key: Option<string>, log: seq<AuditRecord>, o: ReplayOutcome, cl: CheckpointLine)
    requires Consecutive(log) && Covers(log, cl.checkpoint)
    requires var s := cl.checkpoint.seqNo;
      var k := s - log[0].seqNo;
      && s in o.seqToHash && o.seqToHash[s] == Head(c.hash, Base(log), log[..k + 1])
      && s in o.seqToTs && o.seqToTs[s] == log[k].tsUnixMs
    ensures Binds(c, key, o, cl) <==> Honest(c, key, log, cl)
  {
  }

  lemma BindsExactly(c: Crypto, key: Option<string>, log: seq<AuditRecord>, needed: set<U64>, cl: CheckpointLine)
    requires Consecutive(log) && cl.checkpoint.seqNo in needed && Covers(log, cl.checkpoint)
    ensures Binds(c, key, Report(needed, FactsOf(c.hash, log)), cl) <==> Honest(c, key, log, cl)
  {
    RetainedAt(c.hash, needed, log, cl.checkpoint.seqNo - log[0].seqNo);
    BindsWith(c, key, log, Report(needed, FactsOf(c.hash, log)), cl);
  }

  lemma CheckpointsExactly(c: Crypto, key: Option<string>, log: seq<AuditRecord>, cls: seq<CheckpointLine>)
    requires Consecutive(log)
    ensures var o := Report(Needed(cls), FactsOf(c.hash, log));
      && (Refuted(c, key, o, cls) == 0 <==>
          forall cl :: cl in cls && Covers(log, cl.checkpoint) ==> Honest(c, key, log, cl))
      && (Evaluated(o, cls) == 0 <==> forall cl :: cl in cls ==> !Covers(log, cl.checkpoint))
      && o.records == |log|
  {
    var o := Report(Needed(cls), FactsOf(c.hash, log));
    forall cl | cl in cls
      ensures InRange(o, cl) <==> Covers(log, cl.checkpoint)
      ensures Covers(log, cl.checkpoint) ==> (Binds(c, key, o, cl) <==> Honest(c, key, log, cl))
    {
      InRangeExactly(c.hash, Needed(cls), log, cl);
      if Covers(log, cl.checkpoint) {
        BindsExactly(c, key, log, Needed(cls), cl);
      }
    }
    CountNone(cls, cl => InRange(o, cl) && !Binds(c, key, o, cl));
    CountNone(cls, cl => InRange(o, cl));
    assert o.records == |log| by { FactsHold(c.hash, log); }
  }

  /** The verdict again, said of the log, its seals and its checkpoints alone. */
  lemma AcceptsMeans(c: Crypto, dir: Dir, key: Option<string>)
    ensures Accepts(c, dir, key) <==>
      var log, cls := Records(dir), Checkpoints(dir);
      && !BadKey(c, dir, key) && !BadSidecar(dir) && !BadLogs(dir) && !BadAnchor(dir)
      && Intact(c.hash, log) && Sealed(c.hash, dir.anchor, log)
      && (forall cl :: cl in cls && Covers(log, cl.checkpoint) ==> Honest(c, key, log, cl))
      && (key.Some? && log != [] ==> exists cl :: cl in cls && Covers(log, cl.checkpoint))
  {
    if Consecutive(Records(dir)) {
      CheckpointsExactly(c, key, Records(dir), Checkpoints(dir));
    }
  }

  // Tamper evidence.

  /**
   Two accepted directories under one anchor, whatever keys they were checked with, hold the same history:
   the shorter log is a suffix of the longer, record for record, unless the hash collides on two of their
   records.
   */
  lemma AnchorFixesHistory(c: Crypto, a: Dir, b: Dir, keyA: Option<string>, keyB: Option<string>, k: nat)
    requires Accepts(c, a, keyA) && Accepts(c, b, keyB) && a.anchor == b.anchor
    requires CollisionFree(c.hash, Records(a), Records(b))
    requires k < |Records(a)| && k < |Records(b)|
    ensures Records(a)[|Records(a)| - 1 - k] == Records(b)[|Records(b)| - 1 - k]
  {
    SameHeadSameHistory(c.hash, Records(a), Records(b), k);
  }

  /** What acceptance says of one checkpoint in range. */
  lemma AcceptedHead(c: Crypto, dir: Dir, key: Option<string>, cl: CheckpointLine)
    requires Accepts(c, dir, key) && cl in Checkpoints(dir) && Covers(Records(dir), cl.checkpoint)
    ensures Intact(c.hash, Records(dir)) && SealsRecord(c.hash, Records(dir), cl.checkpoint)
  {
    AcceptsMeans(c, dir, key);
  }

  lemma SealFixesHistory(hash: Hash, a: seq<AuditRecord>, b: seq<AuditRecord>, cp: Checkpoint, i: nat, j: nat)
    requires Intact(hash, a) && Intact(hash, b) && CollisionFree(hash, a, b)
    requires Covers(a, cp) && Covers(b, cp) && SealsRecord(hash, a, cp) && SealsRecord(hash, b, cp)
    requires i < |a| && j < |b| && a[i].seqNo == b[j].seqNo <= cp.seqNo
    ensures a[i] == b[j]
  {
    var m, n := cp.seqNo - a[0].seqNo + 1, cp.seqNo - b[0].seqNo + 1;
    assert m <= |a| && n <= |b|;
    assert i == m - 1 - (cp.seqNo - a[i].seqNo) && j == n - 1 - (cp.seqNo - a[i].seqNo);
    SameCheckpointSameHistory(hash, a, m, b, n, cp.seqNo - a[i].seqNo);
  }

  /** One checkpoint in range of both does the same for every record it covers. */
  lemma CheckpointFixesHistory(
    c: Crypto, a: Dir, b: Dir, keyA: Option<string>, keyB: Option<string>, cl: CheckpointLine, i: nat, j: nat)
    requires Accepts(c, a, keyA) && Accepts(c, b, keyB)
    requires cl in Checkpoints(a) && cl in Checkpoints(b)
    requires Covers(Records(a), cl.checkpoint) && Covers(Records(b), cl.checkpoint)
    requires CollisionFree(c.hash, Records(a), Records(b))
    requires i < |Records(a)| && j < |Records(b)| && Records(a)[i].seqNo == Records(b)[j].seqNo <= cl.checkpoint.seqNo
    ensures Records(a)[i] == Records(b)[j]
  {
    AcceptedHead(c, a, keyA, cl);
    AcceptedHead(c, b, keyB, cl);
    SealFixesHistory(c.hash, Records(a), Records(b), cl.checkpoint, i, j);
  }
}

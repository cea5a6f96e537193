/** The streaming replay: one pass over the records, keeping only running state and capped samples. */
module AuditReplay {
  import opened Words
  import opened Wrappers
  import opened AuditChain

  const MAX_VERIFY_GAPS: nat := 10_000

  /** The sequence numbers from `lo` up to, but not including, `hi`. */
  function Span(lo: nat, hi: nat): (s: seq<nat>)
    requires lo <= hi
    ensures |s| == hi - lo && forall i :: 0 <= i < |s| ==> s[i] == lo + i
  {
    seq(hi - lo, i requires 0 <= i < hi - lo => lo + i)
  }

  /** What an unbounded replay would know of the records it has read. */
  datatype Facts = Facts(
    count: nat,
    first: U64,
    last: U64,
    linked: bool,
    ascending: bool,
    missing: seq<nat>,
    repeats: seq<nat>,
    hashes: map<U64, string>,
    times: map<U64, U64>,
    head: string,
    dropped: nat)

  const NOTHING := Facts(0, 0, 0, true, true, [], [], map[], map[], GENESIS_HASH, 0)

  function Repeated(repeats: seq<nat>, last: nat, next: nat): seq<nat> {
    if last == next && (repeats == [] || repeats[|repeats| - 1] != last) then repeats + [last] else repeats
  }

  function Skipped(missing: seq<nat>, last: nat, next: nat): seq<nat> {
    if last < next then missing + Span(last + 1, next) else missing
  }

  function Observe(hash: Hash, f: Facts, rec: AuditRecord): Facts {
    var expected := if f.count == 0 then rec.prevHash else f.head;
    var h := hash(expected, rec);
    Facts(
      f.count + 1,
      if f.count == 0 then rec.seqNo else f.first,
      rec.seqNo,
      f.linked && rec.prevHash == expected,
      f.ascending && (f.count == 0 || f.last <= rec.seqNo),
      if f.count == 0 then [] else Skipped(f.missing, f.last, rec.seqNo),
      if f.count == 0 then [] else Repeated(f.repeats, f.last, rec.seqNo),
      f.hashes[rec.seqNo := h],
      f.times[rec.seqNo := rec.tsUnixMs],
      h,
      f.dropped + if SentinelCount(rec).Some? then SentinelCount(rec).value else 0)
  }

  function FactsOf(hash: Hash, log: seq<AuditRecord>): Facts {
    if log == [] then NOTHING else Observe(hash, FactsOf(hash, log[..|log| - 1]), log[|log| - 1])
  }

  lemma FactsGrow(hash: Hash, log: seq<AuditRecord>, rec: AuditRecord)
    ensures FactsOf(hash, log + [rec]) == Observe(hash, FactsOf(hash, log), rec)
  {
    assert (log + [rec])[..|log|] == log;
  }

  function Capped(s: seq<nat>): seq<nat> {
    if |s| <= MAX_VERIFY_GAPS then s else s[..MAX_VERIFY_GAPS]
  }

  function Saturated(n: nat): U64 {
    if n <= U64_MAX then n else U64_MAX
  }

  function Only<V>(m: map<U64, V>, keys: set<U64>): map<U64, V> {
    map k | k in m && k in keys :: m[k]
  }

  lemma OnlyUpdated<V>(m: map<U64, V>, keys: set<U64>, k: U64, v: V)
    ensures Only(m[k := v], keys) == if k in keys then Only(m, keys)[k := v] else Only(m, keys)
  {
  }

  datatype ReplayOutcome = ReplayOutcome(
    records: nat,
    firstSeq: U64,
    lastSeq: U64,
    linksOk: bool,
    contiguous: bool,
    unordered: bool,
    gaps: seq<nat>,
    gapsTruncated: bool,
    duplicates: seq<nat>,
    duplicatesTruncated: bool,
    seqToHash: map<U64, string>,
    seqToTs: map<U64, U64>,
    head: string,
    droppedRecords: U64)

  /** The bounded report of those facts. */
  function Report(needed: set<U64>, f: Facts): ReplayOutcome {
    ReplayOutcome(
      f.count, f.first, f.last, f.linked, f.missing == [], !f.ascending,
      Capped(f.missing), |f.missing| > MAX_VERIFY_GAPS,
      Capped(f.repeats), |f.repeats| > MAX_VERIFY_GAPS,
      Only(f.hashes, needed), Only(f.times, needed), f.head, Saturated(f.dropped))
  }

  /** The sample and the count of a list of repeats; the count is exact until the cap is passed. */
  predicate Listed(repeats: seq<nat>, sample: seq<nat>, total: U64) {
    sample == Capped(repeats) && total >= |sample| && (total == |sample| <==> |repeats| <= MAX_VERIFY_GAPS)
  }

  lemma RepeatCapped(repeats: seq<nat>, p: nat)
    ensures var sample, after := Capped(repeats), Repeated(repeats, p, p);
      if |repeats| > MAX_VERIFY_GAPS then Capped(after) == sample && |after| > MAX_VERIFY_GAPS
      else if sample != [] && sample[|sample| - 1] == p then after == repeats
      else |after| == |repeats| + 1 && Capped(after) == if |sample| < MAX_VERIFY_GAPS then sample + [p] else sample
  {
  }

  class StreamReplay {
    const hash: Hash
    const needed: set<U64>
    var records: nat
    var firstSeq: U64
    var lastSeq: U64
    var linksOk: bool
    var unordered: bool
    var expectedPrev: Option<string>
    var prevSeq: Option<U64>
    var gaps: seq<nat>
    var missingTotal: U64
    var duplicates: seq<nat>
    var dupValuesTotal: U64
    var seqToHash: map<U64, string>
    var seqToTs: map<U64, U64>
    var droppedRecords: U64
    /** The records pushed so far, and all that could be known of them. */
    ghost var log: seq<AuditRecord>
    ghost var facts: Facts
    /** How often the loop over skipped numbers has gone round, over all records. */
    ghost var gapSteps: nat

    ghost predicate Valid()
      reads this
    {
      facts == FactsOf(hash, log) && Tracks()
    }

    ghost predicate Tracks()
      reads this
    {
      Framed(facts) && Ordered(facts) && Chained(facts)
    }

    ghost predicate Framed(f: Facts)
      reads this
    {
      && records == f.count
      && firstSeq == f.first
      && lastSeq == f.last
      && prevSeq == (if f.count == 0 then None else Some(f.last))
      && expectedPrev == (if f.count == 0 then None else Some(f.head))
      && (f.count == 0 ==> f == NOTHING)
    }

    ghost predicate Ordered(f: Facts)
      reads this
    {
      && unordered == !f.ascending
      && gaps == Capped(f.missing)
      && gapSteps == |gaps|
      && missingTotal == Saturated(|f.missing|)
      && Listed(f.repeats, duplicates, dupValuesTotal)
    }

    ghost predicate Chained(f: Facts)
      reads this
    {
      && linksOk == f.linked
      && seqToHash == Only(f.hashes, needed)
      && seqToTs == Only(f.times, needed)
      && droppedRecords == Saturated(f.dropped)
    }

    constructor (hash: Hash, needed: set<U64>)
      ensures Valid() && log == [] && this.hash == hash && this.needed == needed
    {
      this.hash, this.needed := hash, needed;
      records, firstSeq, lastSeq := 0, 0, 0;
      linksOk, unordered := true, false;
      expectedPrev, prevSeq := None, None;
      gaps, missingTotal, duplicates, dupValuesTotal := [], 0, [], 0;
      seqToHash, seqToTs, droppedRecords := map[], map[], 0;
      log, facts, gapSteps := [], NOTHING, 0;
    }

    /** Replay one record. However wide the skips, all pushes together walk at most the cap of them. */
    method Push(rec: AuditRecord)
      requires Valid()
      modifies this
      ensures Valid() && log == old(log) + [rec] && gapSteps <= MAX_VERIFY_GAPS
    {
      FactsGrow(hash, log, rec);
      Absorb(rec);
      log := log + [rec];
    }

    method Absorb(rec: AuditRecord)
      requires Tracks()
      modifies this
      ensures Tracks() && facts == Observe(hash, old(facts), rec) && log == old(log)
    {
      NotePosition(rec);
      NoteLink(rec);
      facts := Observe(hash, facts, rec);
    }

    /** Take the baseline from the first record; compare every later one with its predecessor. */
    method NotePosition(rec: AuditRecord)
      requires Framed(facts) && Ordered(facts)
      modifies `records, `firstSeq, `lastSeq, `prevSeq, `expectedPrev
      modifies `unordered, `duplicates, `dupValuesTotal, `missingTotal, `gaps, `gapSteps
      ensures Ordered(Observe(hash, facts, rec))
      ensures records == facts.count + 1 && lastSeq == rec.seqNo && prevSeq == Some(rec.seqNo)
      ensures firstSeq == if facts.count == 0 then rec.seqNo else facts.first
      ensures expectedPrev == Some(if facts.count == 0 then rec.prevHash else facts.head)
    {
      if records == 0 {
        firstSeq := rec.seqNo;
        expectedPrev := Some(rec.prevHash);
      } else if prevSeq.Some? {
        NoteOrder(prevSeq.value, rec);
      }
      prevSeq := Some(rec.seqNo);
      lastSeq := rec.seqNo;
      records := records + 1;
    }

    /** Sequence-order analysis of the adjacent pair `prev`, `rec`. */
    method NoteOrder(prev: U64, rec: AuditRecord)
      requires Ordered(facts) && facts.count > 0 && prev == facts.last
      modifies `unordered, `duplicates, `dupValuesTotal, `missingTotal, `gaps, `gapSteps
      ensures Ordered(Observe(hash, facts, rec))
    {
      if rec.seqNo < prev {
        unordered := true;
      } else if rec.seqNo == prev {
        NoteRepeat(prev, facts.repeats);
      } else {
        NoteGap(prev, rec.seqNo, facts.missing);
      }
    }

    /** Enter a repeated number once per run; past the cap it is only counted. */
    method NoteRepeat(prev: U64, ghost before: seq<nat>)
      requires Listed(before, duplicates, dupValuesTotal)
      modifies `duplicates, `dupValuesTotal
      ensures Listed(Repeated(before, prev, prev), duplicates, dupValuesTotal)
    {
      RepeatCapped(before, prev);
      if duplicates == [] || duplicates[|duplicates| - 1] != prev {
        dupValuesTotal := SaturatingAdd(dupValuesTotal, 1);
        if |duplicates| < MAX_VERIFY_GAPS {
          duplicates := duplicates + [prev];
        }
      }
    }

    /** Count every number between `prev` and `next`, and sample them up to the cap. */
    method NoteGap(prev: U64, next: U64, ghost before: seq<nat>)
      requires prev < next
      requires gaps == Capped(before) && missingTotal == Saturated(|before|) && gapSteps == |gaps|
      modifies `missingTotal, `gaps, `gapSteps
      ensures gaps == Capped(Skipped(before, prev, next)) && missingTotal == Saturated(|Skipped(before, prev, next)|)
      ensures gapSteps == |gaps|
    {
      ghost var span := Span(prev + 1, next);
      var missing := next - prev - 1;
      if missing > 0 {
        missingTotal := SaturatingAdd(missingTotal, missing);
        assert before + span[..0] == before;
        var s := prev + 1;
        while s < next && |gaps| < MAX_VERIFY_GAPS
          invariant prev < s <= next
          invariant missingTotal == SaturatingAdd(old(missingTotal), missing)
          invariant gaps == Capped(before + span[..s - prev - 1]) && gapSteps == |gaps|
        {
          assert before + span[..s - prev] == before + span[..s - prev - 1] + [s];
          gaps, gapSteps := gaps + [s], gapSteps + 1;
          s := s + 1;
        }
        FullIsFinal(before, span, s - prev - 1);
        assert |before + span| == |before| + missing;
      } else {
        assert before + span == before;
      }
    }

    /** Check the record's back link, advance the running head, and keep what a checkpoint needs. */
    method NoteLink(rec: AuditRecord)
      requires Chained(facts)
      requires expectedPrev == Some(if facts.count == 0 then rec.prevHash else facts.head)
      modifies `linksOk, `seqToHash, `seqToTs, `expectedPrev, `droppedRecords
      ensures Chained(Observe(hash, facts, rec)) && expectedPrev == Some(Observe(hash, facts, rec).head)
    {
      var expected := if expectedPrev.Some? then expectedPrev.value else "";
      if rec.prevHash != expected {
        linksOk := false;
      }
      var h := hash(expected, rec);
      OnlyUpdated(facts.hashes, needed, rec.seqNo, h);
      OnlyUpdated(facts.times, needed, rec.seqNo, rec.tsUnixMs);
      if rec.seqNo in needed {
        seqToHash := seqToHash[rec.seqNo := h];
        seqToTs := seqToTs[rec.seqNo := rec.tsUnixMs];
      }
      expectedPrev := Some(h);
      var n := SentinelCount(rec);
      if n.Some? {
        droppedRecords := SaturatingAdd(droppedRecords, n.value);
      }
    }

    /** The report, which is that of an unbounded replay cut to the caps. */
    method Finish() returns (o: ReplayOutcome)
      requires Valid()
      ensures o == Report(needed, FactsOf(hash, log))
    {
      o := ReplayOutcome(
        records, firstSeq, lastSeq, linksOk, missingTotal == 0, unordered,
        gaps, missingTotal > |gaps|, duplicates, dupValuesTotal > |duplicates|,
        seqToHash, seqToTs,
        if expectedPrev.Some? then expectedPrev.value else GENESIS_HASH, droppedRecords);
    }
  }

  /** Once the sample is full, or the span exhausted, the rest of the span changes nothing. */
  lemma FullIsFinal(before: seq<nat>, span: seq<nat>, n: nat)
    requires n <= |span|
    requires n == |span| || |Capped(before + span[..n])| == MAX_VERIFY_GAPS
    ensures Capped(before + span[..n]) == Capped(before + span)
  {
    assert before + span == before + span[..n] + span[n..];
  }
}

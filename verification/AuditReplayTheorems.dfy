/** What the replay's report means for the log as a whole. */
module AuditReplayTheorems {
  import opened Words
  import opened AuditChain
  import opened AuditReplay

  lemma LinkedGrows(hash: Hash, log: seq<AuditRecord>, rec: AuditRecord)
    ensures log == [] ==> Linked(hash, log + [rec]) && LogHead(hash, log + [rec]) == hash(rec.prevHash, rec)
    ensures log != [] ==> LogHead(hash, log + [rec]) == hash(LogHead(hash, log), rec)
    ensures log != [] ==> (Linked(hash, log + [rec]) <==> Linked(hash, log) && rec.prevHash == LogHead(hash, log))
  {
    var all := log + [rec];
    assert all[..|all| - 1] == all[..|log|] == log;
    if log == [] {
      assert LinkedAt(hash, all, 0);
    } else {
      forall i: nat | i < |log|
        ensures LinkedAt(hash, log, i) == LinkedAt(hash, all, i)
      {
        assert all[..i] == log[..i];
      }
      assert LinkedAt(hash, all, |log|) <==> rec.prevHash == LogHead(hash, log);
    }
  }

  lemma OrderGrows(log: seq<AuditRecord>, rec: AuditRecord)
    ensures Ascending(log + [rec]) <==> Ascending(log) && (log != [] ==> log[|log| - 1].seqNo <= rec.seqNo)
  {
    var all := log + [rec];
    assert forall i :: 0 <= i < |log| ==> all[i] == log[i];
    if Ascending(all) && log != [] {
      assert all[|log| - 1].seqNo <= all[|log|].seqNo;
      forall i, j | 0 <= i <= j < |log|
        ensures log[i].seqNo <= log[j].seqNo
      {
        assert all[i].seqNo <= all[j].seqNo;
      }
    }
  }

  lemma {:induction false} FactsPosition(hash: Hash, log: seq<AuditRecord>)
    ensures var f := FactsOf(hash, log);
      && f.count == |log|
      && (log != [] ==> f.first == log[0].seqNo && f.last == log[|log| - 1].seqNo)
  {
    if log != [] {
      FactsPosition(hash, log[..|log| - 1]);
    }
  }

  lemma {:induction false} FactsLinked(hash: Hash, log: seq<AuditRecord>)
    ensures FactsOf(hash, log).head == LogHead(hash, log)
    ensures FactsOf(hash, log).linked <==> Linked(hash, log)
  {
    if log != [] {
      var init, rec := log[..|log| - 1], log[|log| - 1];
      assert log == init + [rec];
      FactsLinked(hash, init);
      FactsPosition(hash, init);
      LinkedGrows(hash, init, rec);
    }
  }

  lemma {:induction false} FactsAscending(hash: Hash, log: seq<AuditRecord>)
    ensures FactsOf(hash, log).ascending <==> Ascending(log)
  {
    if log != [] {
      var init, rec := log[..|log| - 1], log[|log| - 1];
      assert log == init + [rec];
      FactsAscending(hash, init);
      FactsPosition(hash, init);
      OrderGrows(init, rec);
    }
  }

  /** The running values are what they are named for. */
  lemma FactsHold(hash: Hash, log: seq<AuditRecord>)
    ensures var f := FactsOf(hash, log);
      && f.count == |log|
      && (log != [] ==> f.first == log[0].seqNo && f.last == log[|log| - 1].seqNo)
      && f.head == LogHead(hash, log)
      && (f.linked <==> Linked(hash, log))
      && (f.ascending <==> Ascending(log))
  {
    FactsPosition(hash, log);
    FactsLinked(hash, log);
    FactsAscending(hash, log);
  }

  function Numbers(log: seq<AuditRecord>): (ns: seq<nat>)
    ensures |ns| == |log| && forall i :: 0 <= i < |ns| ==> ns[i] == log[i].seqNo
  {
    seq(|log|, i requires 0 <= i < |log| => log[i].seqNo as nat)
  }

  function Skips(ns: seq<nat>): seq<nat> {
    if |ns| < 2 then [] else Skipped(Skips(ns[..|ns| - 1]), ns[|ns| - 2], ns[|ns| - 1])
  }

  function Runs(ns: seq<nat>): seq<nat> {
    if |ns| < 2 then [] else Repeated(Runs(ns[..|ns| - 1]), ns[|ns| - 2], ns[|ns| - 1])
  }

  lemma {:induction false} FactsOfNumbers(hash: Hash, log: seq<AuditRecord>)
    ensures FactsOf(hash, log).missing == Skips(Numbers(log))
    ensures FactsOf(hash, log).repeats == Runs(Numbers(log))
  {
    if |log| > 1 {
      var n, ns := |log| - 1, Numbers(log);
      var init := log[..n];
      FactsOfNumbers(hash, init);
      FactsHold(hash, init);
      assert ns[..n] == Numbers(init);
      assert FactsOf(hash, init).last == ns[n - 1];
    } else if |log| == 1 {
      assert FactsOf(hash, log[..0]) == NOTHING;
    }
  }

  lemma {:induction false} NoSkips(ns: seq<nat>)
    ensures Skips(ns) == [] <==> forall i :: 0 < i < |ns| ==> ns[i] <= ns[i - 1] + 1
  {
    if |ns| >= 2 {
      var init, n := ns[..|ns| - 1], |ns| - 1;
      NoSkips(init);
      assert Skips(ns) == [] <==> Skips(init) == [] && ns[n] <= ns[n - 1] + 1;
      assert forall i :: 0 <= i < |init| ==> init[i] == ns[i];
    }
  }

  lemma {:induction false} NoRuns(ns: seq<nat>)
    ensures Runs(ns) == [] <==> forall i :: 0 < i < |ns| ==> ns[i] != ns[i - 1]
  {
    if |ns| >= 2 {
      var init, n := ns[..|ns| - 1], |ns| - 1;
      NoRuns(init);
      assert Runs(ns) == [] <==> Runs(init) == [] && ns[n] != ns[n - 1];
      assert forall i :: 0 <= i < |init| ==> init[i] == ns[i];
    }
  }

  /** The replay part of the verdict: every check passes exactly when the log is an unbroken run of linked records. */
  predicate ReplayAccepts(o: ReplayOutcome) {
    o.linksOk && o.contiguous && o.duplicates == [] && !o.duplicatesTruncated && !o.unordered
  }

  lemma AcceptsExactlyIntactLogs(hash: Hash, needed: set<U64>, log: seq<AuditRecord>)
    ensures ReplayAccepts(Report(needed, FactsOf(hash, log))) <==> Intact(hash, log)
  {
    FactsHold(hash, log);
    FactsOfNumbers(hash, log);
    StepByOne(log);
    assert Capped(Runs(Numbers(log))) == [] <==> Runs(Numbers(log)) == [];
  }

  lemma StepByOne(log: seq<AuditRecord>)
    ensures Skips(Numbers(log)) == [] && Runs(Numbers(log)) == [] && Ascending(log) <==> Consecutive(log)
  {
    var ns := Numbers(log);
    NoSkips(ns);
    NoRuns(ns);
    if Consecutive(log) {
      assert forall i :: 0 < i < |ns| ==> ns[i] == ns[i - 1] + 1;
    } else if Ascending(log) && Skips(ns) == [] && Runs(ns) == [] {
      var i := FirstStray(log);
      assert false;
    }
  }

  lemma {:induction false} FirstStray(log: seq<AuditRecord>) returns (i: nat)
    requires !Consecutive(log)
    ensures 0 < i < |log| && log[i].seqNo != log[i - 1].seqNo + 1
  {
    i := |log| - 1;
    if log[i].seqNo == log[i - 1].seqNo + 1 {
      assert !Consecutive(log[..i]);
      i := FirstStray(log[..i]);
    }
  }

  ghost predicate Sorted(ns: seq<nat>) {
    forall i, j :: 0 <= i <= j < |ns| ==> ns[i] <= ns[j]
  }

  function Count(ns: seq<nat>, s: nat): nat {
    if ns == [] then 0 else Count(ns[..|ns| - 1], s) + if ns[|ns| - 1] == s then 1 else 0
  }

  lemma CountGrows(ns: seq<nat>, q: nat, s: nat)
    ensures Count(ns + [q], s) == Count(ns, s) + if q == s then 1 else 0
  {
    assert (ns + [q])[..|ns|] == ns;
  }

  lemma {:induction false} CountAbove(ns: seq<nat>, s: nat)
    requires Sorted(ns) && (ns != [] ==> ns[|ns| - 1] < s)
    ensures Count(ns, s) == 0
  {
    if ns != [] {
      CountAbove(ns[..|ns| - 1], s);
    }
  }

  /** The numbers from `lo` up to `hi`, ascending, whose count of records is wanted. */
  function Picked(ns: seq<nat>, lo: nat, hi: nat, wanted: nat -> bool): seq<nat> {
    if hi <= lo then [] else Picked(ns, lo, hi - 1, wanted) + if wanted(Count(ns, hi - 1)) then [hi - 1] else []
  }

  const NONE: nat -> bool := c => c == 0
  const SEVERAL: nat -> bool := c => c > 1

  lemma {:induction false} PickedSame(a: seq<nat>, b: seq<nat>, lo: nat, hi: nat, wanted: nat -> bool)
    requires forall s :: lo <= s < hi ==> wanted(Count(a, s)) == wanted(Count(b, s))
    ensures Picked(a, lo, hi, wanted) == Picked(b, lo, hi, wanted)
    decreases hi
  {
    if lo < hi {
      PickedSame(a, b, lo, hi - 1, wanted);
      assert wanted(Count(a, hi - 1)) == wanted(Count(b, hi - 1));
    }
  }

  lemma {:induction false} PickedBelow(ns: seq<nat>, lo: nat, hi: nat, wanted: nat -> bool)
    ensures forall s :: s in Picked(ns, lo, hi, wanted) ==> lo <= s < hi
    decreases hi
  {
    if lo < hi {
      PickedBelow(ns, lo, hi - 1, wanted);
    }
  }

  /** Numbers past the end of an ordered list are all absent, and none is repeated. */
  lemma {:induction false} PickedPast(ns: seq<nat>, lo: nat, mid: nat, hi: nat)
    requires Sorted(ns) && lo <= mid <= hi && (ns != [] ==> ns[|ns| - 1] < mid)
    ensures Picked(ns, lo, hi, NONE) == Picked(ns, lo, mid, NONE) + Span(mid, hi)
    ensures Picked(ns, lo, hi, SEVERAL) == Picked(ns, lo, mid, SEVERAL)
    decreases hi
  {
    if mid < hi {
      PickedPast(ns, lo, mid, hi - 1);
      CountAbove(ns, hi - 1);
      assert Span(mid, hi) == Span(mid, hi - 1) + [hi - 1];
    }
  }

  lemma {:induction false} CountOfLast(ns: seq<nat>)
    requires ns != []
    ensures Count(ns, ns[|ns| - 1]) > 0
  {
  }

  /** Only the number just appended can change its count. */
  lemma PickedBefore(init: seq<nat>, q: nat, lo: nat, wanted: nat -> bool)
    ensures Picked(init + [q], lo, q, wanted) == Picked(init, lo, q, wanted)
  {
    forall s | lo <= s < q
      ensures Count(init + [q], s) == Count(init, s)
    {
      CountGrows(init, q, s);
    }
    PickedSame(init + [q], init, lo, q, wanted);
  }

  lemma ListsGrow(init: seq<nat>, q: nat, lo: nat)
    requires Sorted(init) && init != [] && lo <= init[|init| - 1] <= q
    ensures var p := init[|init| - 1];
      && Picked(init + [q], lo, q + 1, NONE) == Skipped(Picked(init, lo, p + 1, NONE), p, q)
      && Picked(init + [q], lo, q + 1, SEVERAL) == Repeated(Picked(init, lo, p + 1, SEVERAL), p, q)
  {
    var p := init[|init| - 1];
    PickedBefore(init, q, lo, NONE);
    PickedBefore(init, q, lo, SEVERAL);
    CountGrows(init, q, q);
    if p < q {
      PickedPast(init, lo, p + 1, q);
      CountAbove(init, q);
    } else {
      CountOfLast(init);
      PickedBelow(init, lo, p, SEVERAL);
      var below := Picked(init, lo, p, SEVERAL);
      assert below == [] || below[|below| - 1] in below;
      assert Picked(init, lo, p + 1, SEVERAL) == if Count(init, p) > 1 then below + [p] else below;
    }
  }

  /**
   In an ordered log the gaps are exactly the numbers no record carries, and the duplicates exactly
   the numbers that several carry, each once and in ascending order.
   */
  lemma {:induction false} ListsExact(ns: seq<nat>)
    requires Sorted(ns) && ns != []
    ensures Skips(ns) == Picked(ns, ns[0], ns[|ns| - 1] + 1, NONE)
    ensures Runs(ns) == Picked(ns, ns[0], ns[|ns| - 1] + 1, SEVERAL)
  {
    var n := |ns| - 1;
    if n == 0 {
      assert Picked(ns, ns[0], ns[0], NONE) == Picked(ns, ns[0], ns[0], SEVERAL) == [];
      assert Count(ns, ns[0]) == 1;
    } else {
      var init := ns[..n];
      assert ns == init + [ns[n]];
      ListsExact(init);
      ListsGrow(init, ns[n], ns[0]);
    }
  }

  /** What the capped report says of an ordered log: the exact lists, or a prefix of them and the flag. */
  lemma ReportOfOrderedLog(hash: Hash, needed: set<U64>, log: seq<AuditRecord>)
    requires log != [] && Ascending(log)
    ensures var o, ns := Report(needed, FactsOf(hash, log)), Numbers(log);
      var absent := Picked(ns, ns[0], ns[|ns| - 1] + 1, NONE);
      var several := Picked(ns, ns[0], ns[|ns| - 1] + 1, SEVERAL);
      && o.gaps == Capped(absent) && (o.gapsTruncated <==> |absent| > MAX_VERIFY_GAPS)
      && o.duplicates == Capped(several) && (o.duplicatesTruncated <==> |several| > MAX_VERIFY_GAPS)
      && |absent| <= U64_MAX
  {
    FactsOfNumbers(hash, log);
    ListsExact(Numbers(log));
    PickedLength(Numbers(log), log[0].seqNo, log[|log| - 1].seqNo, NONE);
    CountOfLast(Numbers(log));
  }

  lemma {:induction false} PickedLength(ns: seq<nat>, lo: nat, hi: nat, wanted: nat -> bool)
    ensures |Picked(ns, lo, hi, wanted)| <= if lo < hi then hi - lo else 0
    decreases hi
  {
    if lo < hi {
      PickedLength(ns, lo, hi - 1, wanted);
    }
  }

  /** Number `s` stands next to itself somewhere. */
  ghost predicate Adjacent(ns: seq<nat>, s: nat) {
    exists i :: 0 < i < |ns| && PairAt(ns, i, s)
  }

  predicate PairAt(ns: seq<nat>, i: nat, s: nat)
    requires 0 < i < |ns|
  {
    ns[i - 1] == s && ns[i] == s
  }

  lemma {:induction false} RunsHas(ns: seq<nat>, s: nat)
    ensures s in Runs(ns) <==> Adjacent(ns, s)
  {
    if |ns| >= 2 {
      var n := |ns| - 1;
      var init := ns[..n];
      RunsHas(init, s);
      if i :| 0 < i < n && PairAt(init, i, s) {
        assert PairAt(ns, i, s);
      }
      if i :| 0 < i < |ns| && PairAt(ns, i, s) {
        if i == n {
          assert Runs(init) != [] && Runs(init)[|Runs(init)| - 1] == s ==> s in Runs(init);
        } else {
          assert PairAt(init, i, s);
        }
      }
      if ns[n] == s && ns[n - 1] == s {
        assert PairAt(ns, n, s);
      }
    }
  }

  lemma {:induction false} AdjacentCounts(ns: seq<nat>, i: nat)
    requires 0 < i < |ns| && ns[i - 1] == ns[i]
    ensures Count(ns, ns[i]) > 1
  {
    var n := |ns| - 1;
    if i == n {
      CountOfLast(ns[..n]);
    } else {
      AdjacentCounts(ns[..n], i);
    }
  }

  /** In any log, the runs are all the repeated numbers exactly when each of those stands next to itself somewhere. */
  lemma RunsCompleteExactly(ns: seq<nat>)
    ensures (forall s :: s in Runs(ns) <==> Count(ns, s) > 1) <==> (forall s :: Count(ns, s) > 1 ==> Adjacent(ns, s))
  {
    forall s
      ensures s in Runs(ns) <==> Adjacent(ns, s)
      ensures Adjacent(ns, s) ==> Count(ns, s) > 1
    {
      RunsHas(ns, s);
      if i :| 0 < i < |ns| && PairAt(ns, i, s) {
        AdjacentCounts(ns, i);
      }
    }
  }

  /** Adjacent pairs come in order of their numbers. */
  ghost predicate PairsAscend(ns: seq<nat>) {
    forall i, j, s, t :: 0 < i <= j < |ns| && PairAt(ns, i, s) && PairAt(ns, j, t) ==> s <= t
  }

  ghost predicate StrictlyAscending(xs: seq<nat>) {
    forall i, j :: 0 <= i < j < |xs| ==> xs[i] < xs[j]
  }

  lemma PairsOfPrefix(ns: seq<nat>, n: nat)
    requires n <= |ns|
    ensures forall i, s :: 0 < i < n ==> PairAt(ns[..n], i, s) == PairAt(ns, i, s)
    ensures PairsAscend(ns) ==> PairsAscend(ns[..n])
  {
    forall i, s | 0 < i < n
      ensures PairAt(ns[..n], i, s) == PairAt(ns, i, s)
    {
    }
  }

  /** The number of the latest pair is the last run. */
  lemma {:induction false} LastRun(ns: seq<nat>) returns (i: nat)
    requires Runs(ns) != []
    ensures 0 < i < |ns| && PairAt(ns, i, Runs(ns)[|Runs(ns)| - 1])
  {
    var n := |ns| - 1;
    var init := ns[..n];
    PairsOfPrefix(ns, n);
    if ns[n] == ns[n - 1] {
      i := n;
    } else {
      i := LastRun(init);
    }
  }

  /** In any log, the runs come each once and ascending exactly when adjacent pairs do. */
  lemma {:induction false} RunsAscendExactly(ns: seq<nat>)
    ensures StrictlyAscending(Runs(ns)) <==> PairsAscend(ns)
  {
    if |ns| >= 2 {
      var n := |ns| - 1;
      var init := ns[..n];
      PairsOfPrefix(ns, n);
      RunsAscendExactly(init);
      if ns[n] != ns[n - 1] {
        NoNewPair(ns);
      } else {
        assert PairAt(ns, n, ns[n]);
        RunsAscendAtPair(ns);
      }
    }
  }

  lemma NoNewPair(ns: seq<nat>)
    requires |ns| >= 2 && ns[|ns| - 1] != ns[|ns| - 2]
    ensures PairsAscend(ns) <==> PairsAscend(ns[..|ns| - 1])
  {
    var n := |ns| - 1;
    PairsOfPrefix(ns, n);
    if PairsAscend(ns[..n]) {
      forall i, j, s, t | 0 < i <= j < |ns| && PairAt(ns, i, s) && PairAt(ns, j, t)
        ensures s <= t
      {
        assert PairAt(ns[..n], i, s) && PairAt(ns[..n], j, t);
      }
    }
  }

  lemma RunsAscendAtPair(ns: seq<nat>)
    requires |ns| >= 2 && ns[|ns| - 1] == ns[|ns| - 2]
    requires StrictlyAscending(Runs(ns[..|ns| - 1])) <==> PairsAscend(ns[..|ns| - 1])
    ensures StrictlyAscending(Runs(ns)) <==> PairsAscend(ns)
  {
    var n := |ns| - 1;
    var init, runs, q := ns[..n], Runs(ns[..n]), ns[n];
    PairsOfPrefix(ns, n);
    assert PairAt(ns, n, q);
    if PairsAscend(ns) {
      if runs != [] {
        var i := LastRun(init);
        assert PairAt(ns, i, runs[|runs| - 1]);
      }
    } else if StrictlyAscending(Runs(ns)) {
      assert StrictlyAscending(runs) by {
        assert forall i :: 0 <= i < |runs| ==> Runs(ns)[i] == runs[i];
      }
      forall i, j, s, t | 0 < i <= j < |ns| && PairAt(ns, i, s) && PairAt(ns, j, t)
        ensures s <= t
      {
        if j < n {
          assert PairAt(init, i, s) && PairAt(init, j, t);
        } else if i < n {
          assert PairAt(init, i, s);
          RunsHas(init, s);
        }
      }
    }
  }

  /** Out of order a number can be listed twice, and the numbers need not ascend. */
  lemma UnorderedRuns()
    ensures Runs([5, 5, 1, 1]) == [5, 1] && Runs([1, 1, 2, 2, 1, 1]) == [1, 2, 1]
  {
    assert [5, 5, 1, 1][..3] == [5, 5, 1] && [5, 5, 1][..2] == [5, 5] && [5, 5][..1] == [5];
    var a := [1, 1, 2, 2, 1, 1];
    assert a[..5] == [1, 1, 2, 2, 1] && a[..5][..4] == [1, 1, 2, 2];
    assert [1, 1, 2, 2][..3] == [1, 1, 2] && [1, 1, 2][..2] == [1, 1] && [1, 1][..1] == [1];
  }

  /** Number `s` lies strictly inside the step from record `i - 1` up to record `i`. */
  predicate InsideAt(ns: seq<nat>, i: nat, s: nat)
    requires 0 < i < |ns|
  {
    ns[i - 1] < s < ns[i]
  }

  ghost predicate Inside(ns: seq<nat>, s: nat) {
    exists i :: 0 < i < |ns| && InsideAt(ns, i, s)
  }

  lemma {:induction false} SkipsHas(ns: seq<nat>, s: nat)
    ensures s in Skips(ns) <==> Inside(ns, s)
  {
    if |ns| >= 2 {
      var n := |ns| - 1;
      var init := ns[..n];
      SkipsHas(init, s);
      assert s in Skips(ns) <==> s in Skips(init) || InsideAt(ns, n, s) by {
        SpanHas(ns[n - 1], ns[n], s);
      }
      assert forall i :: 0 < i < n ==> InsideAt(init, i, s) == InsideAt(ns, i, s);
      if i :| 0 < i < |ns| && InsideAt(ns, i, s) {
        assert i < n ==> InsideAt(init, i, s);
      }
    }
  }

  lemma SpanHas(p: nat, q: nat, s: nat)
    ensures p < q ==> (s in Span(p + 1, q) <==> p < s < q)
  {
    if p < s < q {
      assert Span(p + 1, q)[s - p - 1] == s;
    }
  }

  /** Whatever the order of the log, every number missing between its first and its last record is reported. */
  lemma {:induction false} GapsComplete(ns: seq<nat>, s: nat)
    requires ns != [] && ns[0] < s < ns[|ns| - 1] && s !in ns
    ensures s in Skips(ns)
  {
    var n := |ns| - 1;
    SkipsHas(ns, s);
    if ns[n - 1] < s {
      assert InsideAt(ns, n, s);
    } else {
      GapsComplete(ns[..n], s);
      assert s in Skips(ns[..n]);
    }
  }

  /** A step up over more than one number stays between the first and last record, and no record is inside it. */
  predicate CleanAt(ns: seq<nat>, i: nat)
    requires 0 < i < |ns|
  {
    ns[i] > ns[i - 1] + 1 ==>
      ns[0] <= ns[i - 1] && ns[i] <= ns[|ns| - 1] && forall k :: 0 <= k < |ns| ==> !(ns[i - 1] < ns[k] < ns[i])
  }

  ghost predicate Missing(ns: seq<nat>, s: nat) {
    ns != [] && ns[0] < s < ns[|ns| - 1] && s !in ns
  }

  /** In any log, the skips are exactly the numbers missing between first and last record when every wide step is clean. */
  lemma GapsExactly(ns: seq<nat>)
    ensures (forall s :: s in Skips(ns) <==> Missing(ns, s)) <==> (forall i :: 0 < i < |ns| ==> CleanAt(ns, i))
  {
    if forall i :: 0 < i < |ns| ==> CleanAt(ns, i) {
      forall s
        ensures s in Skips(ns) <==> Missing(ns, s)
      {
        SkipsHas(ns, s);
        if i :| 0 < i < |ns| && InsideAt(ns, i, s) {
          assert CleanAt(ns, i);
        }
        if Missing(ns, s) {
          GapsComplete(ns, s);
        }
      }
    } else {
      var i :| 0 < i < |ns| && !CleanAt(ns, i);
      var s := Unclean(ns, i);
      SkipsHas(ns, s);
    }
  }

  /** A step that is not clean has a number inside it that is not missing. */
  lemma Unclean(ns: seq<nat>, i: nat) returns (s: nat)
    requires 0 < i < |ns| && !CleanAt(ns, i)
    ensures InsideAt(ns, i, s) && !Missing(ns, s)
  {
    if ns[i - 1] < ns[0] {
      s := ns[i - 1] + 1;
    } else if ns[|ns| - 1] < ns[i] {
      s := ns[i] - 1;
    } else {
      var k :| 0 <= k < |ns| && ns[i - 1] < ns[k] < ns[i];
      s := ns[k];
    }
  }

  /** Out of order, number 2 is reported missing though a record carries it, and 7 though it is past the last record. */
  lemma UnorderedGaps()
    ensures Skips([1, 3, 2]) == [2] && Skips([5, 8, 6]) == [6, 7]
  {
    assert [1, 3, 2][..2] == [1, 3] && [1, 3][..1] == [1];
    assert [5, 8, 6][..2] == [5, 8] && [5, 8][..1] == [5];
  }

  /** Out of order the lists are not exact: number 1 comes twice here and is not reported. */
  lemma UnorderedHidesDuplicates(hash: Hash, rec: AuditRecord)
    ensures var log := [rec.(seqNo := 1), rec.(seqNo := 2), rec.(seqNo := 1)];
      && Count(Numbers(log), 1) == 2
      && FactsOf(hash, log).repeats == []
      && !FactsOf(hash, log).ascending
  {
    var a, b := rec.(seqNo := 1), rec.(seqNo := 2);
    var log := [a, b, a];
    FactsOfNumbers(hash, log);
    FactsHold(hash, log);
    assert log[1].seqNo > log[2].seqNo;
    assert Numbers(log) == [1, 2, 1];
    NoRuns([1, 2, 1]);
    assert [1, 2, 1][..2] == [1, 2] && [1, 2][..1] == [1] && [1][..0] == [];
  }

  /** The retained hash and time of a number are those of its last record. */
  lemma {:induction false} LastOccurrence(hash: Hash, log: seq<AuditRecord>, i: nat)
    requires i < |log| && forall j :: i < j < |log| ==> log[j].seqNo != log[i].seqNo
    ensures var f := FactsOf(hash, log);
      && log[i].seqNo in f.hashes && f.hashes[log[i].seqNo] == Head(hash, Base(log), log[..i + 1])
      && log[i].seqNo in f.times && f.times[log[i].seqNo] == log[i].tsUnixMs
  {
    var init := log[..|log| - 1];
    FactsHold(hash, init);
    FactsHold(hash, log);
    if i == |log| - 1 {
      assert log[..i + 1] == log;
    } else {
      LastOccurrence(hash, init, i);
      assert init[..i + 1] == log[..i + 1] && Base(init) == Base(log);
    }
  }

  /** Records the gap sentinels of a log say were dropped. */
  function Dropped(log: seq<AuditRecord>): nat {
    if log == [] then 0
    else
      var n := SentinelCount(log[|log| - 1]);
      Dropped(log[..|log| - 1]) + if n.Some? then n.value else 0
  }

  lemma DroppedGrows(log: seq<AuditRecord>, rec: AuditRecord)
    ensures Dropped(log + [rec]) == Dropped(log) + if SentinelCount(rec).Some? then SentinelCount(rec).value else 0
  {
    assert (log + [rec])[..|log|] == log;
  }

  lemma {:induction false} FactsDropped(hash: Hash, log: seq<AuditRecord>)
    ensures FactsOf(hash, log).dropped == Dropped(log)
  {
    if log != [] {
      FactsDropped(hash, log[..|log| - 1]);
    }
  }
}

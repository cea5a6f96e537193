/** Which files of an audit directory are logs, and the order they are read in. */
module AuditFiles {
  import opened Sorting
  import opened Text

  const ACTIVE := "audit.jsonl"
  const PREFIX := "audit."
  const SUFFIX := ".jsonl"

  /** The text between the fixed prefix and suffix, if both are there and do not overlap. */
  function Middle(name: string): string {
    if |PREFIX| + |SUFFIX| <= |name| && name[..|PREFIX|] == PREFIX && name[|name| - |SUFFIX|..] == SUFFIX
    then name[|PREFIX|..|name| - |SUFFIX|]
    else ""
  }

  predicate IsAuditLog(name: string) {
    name == ACTIVE || (Middle(name) != "" && Digits(Middle(name)))
  }

  function Rotated(digits: string): (name: string)
    ensures Middle(name) == digits && name != ACTIVE
  {
    assert (PREFIX + digits + SUFFIX)[..|PREFIX|] == PREFIX;
    assert |ACTIVE| < |PREFIX| + |SUFFIX|;
    PREFIX + digits + SUFFIX
  }

  /** Rotated files by length of index and then by index text, the active file last. */
  predicate ReadBefore(a: string, b: string) {
    if a == ACTIVE then false
    else if b == ACTIVE then true
    else
      var x, y := Middle(a), Middle(b);
      |x| < |y| || (|x| == |y| && Before(x, y))
  }

  /** Without leading zeros the reading order is the numeric order. */
  lemma CanonicalOrder(a: string, b: string)
    requires Canonical(a) && Canonical(b)
    ensures ReadBefore(Rotated(a), Rotated(b)) <==> Value(a) < Value(b)
  {
    if |a| == |b| {
      SameLengthOrder(a, b);
    } else if |a| < |b| {
      LongerIsLarger(a, b);
    } else {
      LongerIsLarger(b, a);
    }
  }

  /** In numeric order against every index without leading zeros. */
  ghost predicate OrderedByNumber(b: string)
    requires Digits(b)
  {
    forall a :: Canonical(a) ==> (ReadBefore(Rotated(a), Rotated(b)) <==> Value(a) < Value(b))
  }

  /**
   The order is documented as numeric for digit strings of any length. An index is ordered numerically
   against every index without leading zeros exactly when it has none itself.
   */
  lemma NumericOrderNeedsCanonical(b: string)
    requires Digits(b) && b != ""
    ensures OrderedByNumber(b) <==> Canonical(b)
  {
    if Canonical(b) {
      forall a | Canonical(a)
        ensures ReadBefore(Rotated(a), Rotated(b)) <==> Value(a) < Value(b)
      {
        CanonicalOrder(a, b);
      }
    } else {
      var a := Strip(b);
      StripKeepsValue(b);
      assert ReadBefore(Rotated(a), Rotated(b)) && Value(a) == Value(b);
    }
  }

  /**
   For any two indices: the order read is the order of the numbers exactly when the lengths are equal, or the
   lengths are ordered as the indices without their leading zeros are read.
   */
  lemma NumericPairExactly(a: string, b: string)
    requires Digits(a) && Digits(b) && a != "" && b != ""
    ensures (ReadBefore(Rotated(a), Rotated(b)) <==> Value(a) < Value(b)) <==>
              |a| == |b| || (|a| < |b| <==> ReadBefore(Rotated(Strip(a)), Rotated(Strip(b))))
  {
    StripKeepsValue(a);
    StripKeepsValue(b);
    CanonicalOrder(Strip(a), Strip(b));
    if |a| == |b| {
      SameLengthOrder(a, b);
    }
  }

  /** `audit.01.jsonl` is read after `audit.2.jsonl`. */
  lemma LeadingZeroCounterexample()
    ensures Value("01") < Value("2") && ReadBefore(Rotated("2"), Rotated("01"))
  {
    assert "01"[..1] == "0" && "0"[..0] == "" && "2"[..0] == "";
  }

  // The order is a strict total order on log names, so sorting has one result.

  lemma NameOfMiddle(name: string)
    requires Middle(name) != ""
    ensures name == Rotated(Middle(name))
  {
  }

  lemma ReadBeforeTotal(a: string, b: string)
    requires IsAuditLog(a) && IsAuditLog(b)
    ensures (ReadBefore(a, b) || ReadBefore(b, a)) <==> a != b
    ensures !(ReadBefore(a, b) && ReadBefore(b, a))
  {
    BeforeTotal(Middle(a), Middle(b));
    if a != ACTIVE && b != ACTIVE {
      NameOfMiddle(a);
      NameOfMiddle(b);
    }
  }

  /** One entry of the directory: a name and what is in the file. */
  datatype File<T> = File(name: string, content: T)

  ghost predicate InOrder<T>(fs: seq<File<T>>) {
    forall i, j :: 0 <= i < j < |fs| ==> ReadBefore(fs[i].name, fs[j].name)
  }

  ghost predicate AllLogs<T>(fs: seq<File<T>>) {
    forall i :: 0 <= i < |fs| ==> IsAuditLog(fs[i].name)
  }

  ghost predicate DistinctNames<T>(fs: seq<File<T>>) {
    forall i, j :: 0 <= i < j < |fs| ==> fs[i].name != fs[j].name
  }

  predicate FileBefore<T>(a: File<T>, b: File<T>) {
    ReadBefore(a.name, b.name)
  }

  /** The log entries of a listing as they come. */
  function OnlyLogs<T>(listing: seq<File<T>>): seq<File<T>> {
    if listing == [] then []
    else if IsAuditLog(listing[0].name) then [listing[0]] + OnlyLogs(listing[1..])
    else OnlyLogs(listing[1..])
  }

  /** The logs of a directory listing, in reading order. */
  function Logs<T>(listing: seq<File<T>>): seq<File<T>> {
    Sort((a, b) => FileBefore(a, b), OnlyLogs(listing))
  }

  /** Names are compared by a key, so of three names any two in order have the third on one side. */
  lemma ReadBeforeBetween(a: string, b: string, c: string)
    requires ReadBefore(a, c)
    ensures ReadBefore(a, b) || ReadBefore(b, c)
  {
    BeforeTotal(Middle(a), Middle(b));
    if c != ACTIVE && b != ACTIVE && Before(Middle(a), Middle(c)) && Before(Middle(b), Middle(a)) {
      BeforeTransitive(Middle(b), Middle(a), Middle(c));
    }
  }

  lemma FileOrder<T(!new)>()
    ensures Weak((a: File<T>, b: File<T>) => FileBefore(a, b))
  {
    forall a: File<T>, b: File<T>
      ensures FileBefore(a, b) ==> !FileBefore(b, a)
    {
      BeforeTotal(Middle(a.name), Middle(b.name));
    }
    forall a: File<T>, b: File<T>, c: File<T> | FileBefore(a, c)
      ensures FileBefore(a, b) || FileBefore(b, c)
    {
      ReadBeforeBetween(a.name, b.name, c.name);
    }
  }

  lemma {:induction false} OnlyLogsHas<T>(listing: seq<File<T>>)
    requires DistinctNames(listing)
    ensures var logs := OnlyLogs(listing);
      && DistinctNames(logs) && AllLogs(logs) && forall f :: f in logs ==> f in listing
  {
    if listing != [] {
      OnlyLogsHas(listing[1..]);
      var f, logs := listing[0], OnlyLogs(listing[1..]);
      forall i | 0 <= i < |logs|
        ensures logs[i].name != f.name
      {
        assert logs[i] in listing[1..];
      }
    }
  }

  lemma LogsSorted<T(!new)>(listing: seq<File<T>>)
    requires DistinctNames(listing)
    ensures InOrder(Logs(listing)) && multiset(Logs(listing)) == multiset(OnlyLogs(listing))
  {
    var found, logs := OnlyLogs(listing), Logs(listing);
    OnlyLogsHas(listing);
    FileOrder<T>();
    SortSorts((a: File<T>, b: File<T>) => FileBefore(a, b), found);
    forall i, j | 0 <= i < j < |logs|
      ensures ReadBefore(logs[i].name, logs[j].name)
    {
      assert !FileBefore(logs[j], logs[i]);
      assert logs[i] in multiset(found) && logs[j] in multiset(found);
      NamesStayDistinct(found, logs, i, j);
      ReadBeforeTotal(logs[i].name, logs[j].name);
    }
  }

  lemma NamesStayDistinct<T>(a: seq<File<T>>, b: seq<File<T>>, i: nat, j: nat)
    requires DistinctNames(a) && multiset(a) == multiset(b) && i < j < |b|
    ensures b[i].name != b[j].name
  {
    assert b[i] in multiset(a) && b[j] in multiset(a);
    if b[i].name == b[j].name {
      var k :| 0 <= k < |a| && a[k] == b[i];
      var l :| 0 <= l < |a| && a[l] == b[j];
      assert b == b[..j] + b[j..] && b[i] in b[..j] && b[j] in b[j..];
      assert multiset(b)[b[i]] >= 2;
      OnlyOnce(a, k);
      assert false;
    }
  }

  lemma OnlyOnce<T>(a: seq<File<T>>, k: nat)
    requires DistinctNames(a) && k < |a|
    ensures multiset(a)[a[k]] == 1
  {
    assert a == a[..k] + [a[k]] + a[k + 1..];
    assert a[k] !in a[..k] && a[k] !in a[k + 1..];
  }

  /** Two orderings of the same logs start alike. */
  lemma SameFirst<T>(a: seq<File<T>>, b: seq<File<T>>)
    requires InOrder(a) && InOrder(b) && AllLogs(a) && multiset(a) == multiset(b) && a != []
    ensures b != [] && a[0] == b[0]
  {
    assert a[0] in multiset(b);
    assert b[0] in multiset(a);
    if a[0] != b[0] {
      var i :| 0 <= i < |b| && b[i] == a[0];
      var j :| 0 <= j < |a| && a[j] == b[0];
      ReadBeforeTotal(a[0].name, a[j].name);
      assert false;
    }
  }

  lemma RestOf<T>(a: seq<File<T>>)
    requires a != []
    ensures multiset(a[1..]) == multiset(a) - multiset{a[0]}
  {
    assert a == [a[0]] + a[1..];
  }

  /** Sorting has one answer: whatever order the directory was listed in, the logs are read alike. */
  lemma {:induction false} OneOrder<T>(a: seq<File<T>>, b: seq<File<T>>)
    requires InOrder(a) && InOrder(b) && AllLogs(a) && multiset(a) == multiset(b)
    ensures a == b
  {
    if a == [] {
      assert |multiset(b)| == 0;
    } else {
      SameFirst(a, b);
      RestOf(a);
      RestOf(b);
      OneOrder(a[1..], b[1..]);
      assert a == [a[0]] + a[1..] && b == [b[0]] + b[1..];
    }
  }

  /** The logs of a directory do not depend on the order it was listed in. */
  lemma LogsOfAnyListing<T(!new)>(listing: seq<File<T>>, logs: seq<File<T>>)
    requires DistinctNames(listing) && InOrder(logs) && AllLogs(logs)
    requires multiset(OnlyLogs(listing)) == multiset(logs)
    ensures Logs(listing) == logs
  {
    LogsSorted(listing);
    OneOrder(logs, Logs(listing));
  }
}

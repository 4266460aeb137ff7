/** The end of each stage's `main`: results sorted by their first word,
    counted, the first five failures listed, and the exit status. Also the
    pool sizes the drivers choose. */
module Summary {
  import opened Text

  /** The categories a result string falls into, by its first word. */
  datatype Kind = DownloadedKind | SkippedKind | FailedKind | ConvertedKind | MissingKind

  /** `r.startswith(...)` as each summary tests it; a failure is a result
      starting with `Failed` or with `Error`. */
  predicate Is(k: Kind, r: string)
  {
    match k
    case DownloadedKind => StartsWith(r, "Downloaded")
    case SkippedKind => StartsWith(r, "Skipped")
    case FailedKind => StartsWith(r, "Failed") || StartsWith(r, "Error")
    case ConvertedKind => StartsWith(r, "Converted")
    case MissingKind => StartsWith(r, "Missing")
  }

  /** The download summary's categories, and the build summary's. */
  const DownloadKinds: seq<Kind> := [DownloadedKind, SkippedKind, FailedKind]
  const BuildKinds: seq<Kind> := [ConvertedKind, SkippedKind, MissingKind, FailedKind]

  /** A result that one of the download summary's categories takes. */
  predicate DownloadReport(r: string)
  {
    Is(DownloadedKind, r) || Is(SkippedKind, r) || Is(FailedKind, r)
  }

  /** A result that one of the build summary's categories takes. */
  predicate BuildReport(r: string)
  {
    Is(ConvertedKind, r) || Is(SkippedKind, r) || Is(MissingKind, r) || Is(FailedKind, r)
  }

  /** `[r for r in results if ...]`. */
  function Select(k: Kind, rs: seq<string>): (out: seq<string>)
    ensures |out| <= |rs|
    ensures forall i :: 0 <= i < |out| ==> Is(k, out[i])
  {
    if rs == [] then []
    else Select(k, rs[..|rs| - 1]) + (if Is(k, rs[|rs| - 1]) then [rs[|rs| - 1]] else [])
  }

  /** The selection holds exactly the results of its category, each as
      often as it occurs. */
  lemma {:induction false} SelectExact(k: Kind, rs: seq<string>)
    ensures forall r :: r in Select(k, rs) <==> r in rs && Is(k, r)
    ensures forall r :: multiset(Select(k, rs))[r] == if Is(k, r) then multiset(rs)[r] else 0
  {
    if rs != [] {
      var init, last := rs[..|rs| - 1], rs[|rs| - 1];
      SelectExact(k, init);
      assert rs == init + [last];
    }
  }

  /** No result falls into two categories: their words begin with different
      letters (`Failed` and `Error` share one category). */
  lemma Exclusive(k1: Kind, k2: Kind, r: string)
    requires Is(k1, r) && Is(k2, r)
    ensures k1 == k2
  {
    FirstLetter(k1, r);
    FirstLetter(k2, r);
  }

  /** A result of one category belongs to no other. */
  lemma Sole(k: Kind, r: string)
    requires Is(k, r)
    ensures forall k2 :: Is(k2, r) <==> k2 == k
  {
    forall k2 | Is(k2, r)
      ensures k2 == k
    {
      Exclusive(k, k2, r);
    }
  }

  /** The first letter of a category's word (`F` for failures; `E` also
      marks one). */
  function Lead(k: Kind): char
  {
    match k
    case DownloadedKind => 'D'
    case SkippedKind => 'S'
    case FailedKind => 'F'
    case ConvertedKind => 'C'
    case MissingKind => 'M'
  }

  lemma FirstLetter(k: Kind, r: string)
    requires Is(k, r)
    ensures r[0] == Lead(k) || (k == FailedKind && r[0] == 'E')
  {
    match k
    case DownloadedKind => assert r[..10] == "Downloaded";
    case SkippedKind => assert r[..7] == "Skipped";
    case ConvertedKind => assert r[..9] == "Converted";
    case MissingKind => assert r[..7] == "Missing";
    case FailedKind =>
      if StartsWith(r, "Failed") {
        assert r[..6] == "Failed";
      } else {
        assert r[..5] == "Error";
      }
  }

  /** How many of `kinds` take `r`. */
  function Takers(kinds: seq<Kind>, r: string): nat
  {
    if kinds == [] then 0 else (if Is(kinds[0], r) then 1 else 0) + Takers(kinds[1..], r)
  }

  /** The sizes of the selections for `kinds`, added up. */
  function Total(kinds: seq<Kind>, rs: seq<string>): nat
  {
    if kinds == [] then 0 else |Select(kinds[0], rs)| + Total(kinds[1..], rs)
  }

  lemma {:induction false} TotalSnoc(kinds: seq<Kind>, rs: seq<string>, r: string)
    ensures Total(kinds, rs + [r]) == Total(kinds, rs) + Takers(kinds, r)
  {
    assert (rs + [r])[..|rs|] == rs;
    if kinds != [] {
      TotalSnoc(kinds[1..], rs, r);
    }
  }

  /** A result that some category takes is taken by exactly one of a list of
      distinct categories. */
  lemma {:induction false} OneTaker(kinds: seq<Kind>, r: string, k: Kind)
    requires forall i, j :: 0 <= i < j < |kinds| ==> kinds[i] != kinds[j]
    requires k in kinds && Is(k, r)
    ensures Takers(kinds, r) == 1
  {
    if kinds[0] == k {
      NoOtherTaker(kinds[1..], r, k);
    } else {
      if Is(kinds[0], r) {
        Exclusive(kinds[0], k, r);
      }
      OneTaker(kinds[1..], r, k);
    }
  }

  lemma {:induction false} NoOtherTaker(kinds: seq<Kind>, r: string, k: Kind)
    requires k !in kinds && Is(k, r)
    ensures Takers(kinds, r) == 0
  {
    if kinds != [] {
      if Is(kinds[0], r) {
        Exclusive(kinds[0], k, r);
      }
      NoOtherTaker(kinds[1..], r, k);
    }
  }

  /** When every result falls into one of the distinct categories `kinds`,
      the category counts add up to the number of results. */
  lemma {:induction false} Partition(kinds: seq<Kind>, rs: seq<string>)
    requires forall i, j :: 0 <= i < j < |kinds| ==> kinds[i] != kinds[j]
    requires forall i :: 0 <= i < |rs| ==> exists j :: 0 <= j < |kinds| && Is(kinds[j], rs[i])
    ensures Total(kinds, rs) == |rs|
  {
    if rs == [] {
      EmptyTotal(kinds);
    } else {
      var init, last := rs[..|rs| - 1], rs[|rs| - 1];
      assert rs == init + [last];
      Partition(kinds, init);
      TotalSnoc(kinds, init, last);
      assert exists j :: 0 <= j < |kinds| && Is(kinds[j], rs[|rs| - 1]);
      var j :| 0 <= j < |kinds| && Is(kinds[j], last);
      OneTaker(kinds, last, kinds[j]);
    }
  }

  lemma {:induction false} EmptyTotal(kinds: seq<Kind>)
    ensures Total(kinds, []) == 0
  {
    if kinds != [] {
      EmptyTotal(kinds[1..]);
    }
  }

  /** The download summary's three counts add up to the number of results
      when each result is one the summary sorts. */
  lemma DownloadPartition(rs: seq<string>)
    requires forall i :: 0 <= i < |rs| ==> DownloadReport(rs[i])
    ensures |Select(DownloadedKind, rs)| + |Select(SkippedKind, rs)| + |Select(FailedKind, rs)| == |rs|
  {
    var kinds := [DownloadedKind, SkippedKind, FailedKind];
    forall i | 0 <= i < |rs|
      ensures exists j :: 0 <= j < |kinds| && Is(kinds[j], rs[i])
    {
      var j := if Is(DownloadedKind, rs[i]) then 0 else if Is(SkippedKind, rs[i]) then 1 else 2;
      assert Is(kinds[j], rs[i]);
    }
    assert forall i :: 0 <= i < |rs| ==> exists j :: 0 <= j < |kinds| && Is(kinds[j], rs[i]);
    assert forall i, j :: 0 <= i < j < |kinds| ==> kinds[i] != kinds[j];
    Partition(kinds, rs);
    assert kinds[1..] == [SkippedKind, FailedKind] && kinds[1..][1..] == [FailedKind] && kinds[1..][1..][1..] == [];
    assert Total([FailedKind], rs) == |Select(FailedKind, rs)|;
    assert Total([SkippedKind, FailedKind], rs) == |Select(SkippedKind, rs)| + Total([FailedKind], rs);
  }

  /** The build summary's four counts add up to the number of results when
      each result is one the summary sorts. */
  lemma BuildPartition(rs: seq<string>)
    requires forall i :: 0 <= i < |rs| ==> BuildReport(rs[i])
    ensures |Select(ConvertedKind, rs)| + |Select(SkippedKind, rs)| + |Select(MissingKind, rs)| + |Select(FailedKind, rs)| == |rs|
  {
    var kinds := [ConvertedKind, SkippedKind, MissingKind, FailedKind];
    forall i | 0 <= i < |rs|
      ensures exists j :: 0 <= j < |kinds| && Is(kinds[j], rs[i])
    {
      var j := if Is(ConvertedKind, rs[i]) then 0 else if Is(SkippedKind, rs[i]) then 1 else if Is(MissingKind, rs[i]) then 2 else 3;
      assert Is(kinds[j], rs[i]);
    }
    assert forall i :: 0 <= i < |rs| ==> exists j :: 0 <= j < |kinds| && Is(kinds[j], rs[i]);
    assert forall i, j :: 0 <= i < j < |kinds| ==> kinds[i] != kinds[j];
    Partition(kinds, rs);
    assert kinds[1..] == [SkippedKind, MissingKind, FailedKind] && kinds[1..][1..] == [MissingKind, FailedKind];
    assert kinds[1..][1..][1..] == [FailedKind] && kinds[1..][1..][1..][1..] == [];
    assert Total([FailedKind], rs) == |Select(FailedKind, rs)|;
    assert Total([MissingKind, FailedKind], rs) == |Select(MissingKind, rs)| + Total([FailedKind], rs);
    assert Total([SkippedKind, MissingKind, FailedKind], rs) == |Select(SkippedKind, rs)| + Total([MissingKind, FailedKind], rs);
  }

  /** `sys.exit(1)` when the failure list is not empty; a normal end is 0. */
  function ExitCode(failed: seq<string>): int
  {
    if failed != [] then 1 else 0
  }

  /** The run fails exactly when some result starts with `Failed` or
      `Error`. */
  lemma ExitRule(rs: seq<string>)
    ensures ExitCode(Select(FailedKind, rs)) == 1 <==> exists i :: 0 <= i < |rs| && Is(FailedKind, rs[i])
    ensures ExitCode(Select(FailedKind, rs)) == 0 <==> forall i :: 0 <= i < |rs| ==> !Is(FailedKind, rs[i])
  {
    SelectExact(FailedKind, rs);
    if exists i :: 0 <= i < |rs| && Is(FailedKind, rs[i]) {
      var i :| 0 <= i < |rs| && Is(FailedKind, rs[i]);
      assert rs[i] in Select(FailedKind, rs);
    }
  }

  /** The printed block for a category: a blank line (the header's leading
      `\n`), the header, the first five entries indented by two spaces, and
      `... and k more` for the rest; nothing when the category is empty. */
  function Listing(header: string, items: seq<string>): seq<string>
  {
    if items == [] then []
    else
      var shown := if |items| < 5 then |items| else 5;
      ["", header] + seq(shown, i requires 0 <= i < shown => "  " + items[i])
      + (if |items| > 5 then ["  ... and " + NatToString(|items| - 5) + " more"] else [])
  }

  /** A blank line comes before the header, at most five entries are listed,
      the first five in order, and the `more` line appears exactly when there
      are more than five. */
  lemma ListingShape(header: string, items: seq<string>)
    ensures items == [] <==> Listing(header, items) == []
    ensures items != [] ==> Listing(header, items)[0] == "" && Listing(header, items)[1] == header
    ensures items != [] ==> |Listing(header, items)| == 2 + (if |items| <= 5 then |items| else 6)
    ensures forall i :: 0 <= i < 5 && i < |items| ==> Listing(header, items)[2 + i] == "  " + items[i]
    ensures |items| > 5 ==> Listing(header, items)[7] == "  ... and " + NatToString(|items| - 5) + " more"
  {
  }

  /** `min(a, b)`. */
  function Min(a: int, b: int): (m: int)
    ensures m <= a && m <= b && (m == a || m == b)
  {
    if b < a then b else a
  }

  /** The pool sizes: `min(20, n)` threads and `min(cpu_count(), 8, n)`
      processes in the thread-and-process downloader, `min(10, n)` concurrent
      requests in the async one, `min(14, n)` threads in the build. Every
      one is between 1 and its cap once there is a task and a CPU. */
  function ThreadWorkers(n: nat): int { Min(20, n) }
  function ProcessWorkers(cpus: nat, n: nat): int { Min(Min(cpus, 8), n) }
  function AsyncBound(n: nat): int { Min(10, n) }
  function BuildWorkers(n: nat): int { Min(14, n) }

  lemma PoolSizes(cpus: nat, n: nat)
    ensures n >= 1 ==> 1 <= ThreadWorkers(n) <= 20 && 1 <= AsyncBound(n) <= 10 && 1 <= BuildWorkers(n) <= 14
    ensures n >= 1 && cpus >= 1 ==> 1 <= ProcessWorkers(cpus, n) <= 8
    ensures ThreadWorkers(n) <= n && ProcessWorkers(cpus, n) <= n && AsyncBound(n) <= n && BuildWorkers(n) <= n
    ensures ProcessWorkers(cpus, n) <= cpus
  {
  }
}

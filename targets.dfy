/** Where a partition lands on disk: the artifact path, its `.last-modified`
    marker beside it, and the name of the parquet file the build stage makes
    from it. */
module Targets {
  import opened Text
  import opened PosixPath

  const MarkerSuffix: string := ".last-modified"

  /** The three names a manifest entry resolves to. */
  datatype Target = Target(dataType: string, dirName: string, fileName: string)

  /** `seg` is the last `/`-separated segment of `head`, ending at `b`: it is
      preceded by a `/` or the start, and followed by the whole run of
      slashes at the end of `head` (so `b` is where that run begins). */
  predicate LastSegmentAt(head: string, seg: string, b: int)
  {
    |seg| <= b < |head| && head[b - |seg|..b] == seg
    && (forall k :: b <= k < |head| ==> head[k] == '/')
    && (b == 0 || head[b - 1] != '/')
    && (b == |seg| || head[b - |seg| - 1] == '/')
  }

  /** A head has at most one last segment: two `/`-free segments that both
      end its text as `LastSegmentAt` says are the same, at the same place
      (the end is where the trailing slashes begin, and a shorter segment
      would have a `/` right before it inside the longer one). */
  lemma LastSegmentUnique(head: string, s1: string, b1: int, s2: string, b2: int)
    requires LastSegmentAt(head, s1, b1) && LastSegmentAt(head, s2, b2)
    requires forall k :: 0 <= k < |s1| ==> s1[k] != '/'
    requires forall k :: 0 <= k < |s2| ==> s2[k] != '/'
    ensures b1 == b2 && s1 == s2
  {
  }

  /** `filename = basename(url)`, `dir_name = basename(dirname(url))`: the
      file name is the text after the last `/`, and the directory name is the
      last segment before it (empty when nothing but slashes precedes it). */
  function Resolve(dataType: string, url: string): (t: Target)
    ensures t.dataType == dataType
    ensures forall k :: 0 <= k < |t.fileName| ==> t.fileName[k] != '/'
    ensures forall k :: 0 <= k < |t.dirName| ==> t.dirName[k] != '/'
    ensures |t.fileName| <= |url| && url == url[..|url| - |t.fileName|] + t.fileName
    ensures |t.fileName| < |url| ==> url[|url| - |t.fileName| - 1] == '/'
    ensures |t.fileName| < |url| ==> exists b {:trigger LastSegmentAt(url[..|url| - |t.fileName|], t.dirName, b)} :: LastSegmentAt(url[..|url| - |t.fileName|], t.dirName, b)
    ensures |t.fileName| == |url| ==> t.dirName == ""
  {
    var fileName := Basename(url);
    var dirName := Basename(Dirname(url));
    DirNameIsLastSegment(url);
    Target(dataType, dirName, fileName)
  }

  /** `basename(dirname(url))` is the last segment of the text before the
      file name, or empty when `url` has no `/`. */
  lemma DirNameIsLastSegment(url: string)
    ensures SplitPoint(url) > 0 ==> exists b {:trigger LastSegmentAt(url[..SplitPoint(url)], Basename(Dirname(url)), b)} :: LastSegmentAt(url[..SplitPoint(url)], Basename(Dirname(url)), b)
    ensures SplitPoint(url) == 0 ==> Basename(Dirname(url)) == ""
  {
    var head := url[..SplitPoint(url)];
    if head != [] {
      if AllSlashes(head) {
        assert Dirname(url) == head;
        SlashesSegment(head);
      } else {
        assert Dirname(url) == TrimSlashes(head);
        TrimmedSegment(head);
      }
    }
  }

  /** A head of slashes only has an empty last segment. */
  lemma SlashesSegment(head: string)
    requires head != [] && AllSlashes(head)
    ensures LastSegmentAt(head, Basename(head), 0)
  {
    assert head[|head| - 1] == '/';
    assert SplitPoint(head) == |head|;
  }

  /** A head that ends in `/` but is not slashes only: its trailing slashes
      trimmed, the basename of what is left is the segment that ends where
      those slashes begin. */
  lemma TrimmedSegment(head: string)
    requires head != [] && head[|head| - 1] == '/' && !AllSlashes(head)
    ensures LastSegmentAt(head, Basename(TrimSlashes(head)), |TrimSlashes(head)|)
  {
    var r := TrimSlashes(head);
    var d := Basename(r);
    assert r != [];
    assert |r| < |head|;
    assert head[|r| - |d|..|r|] == r[|r| - |d|..] == d;
  }

  /** `Resolve`'s contract singles out the names Python computes: for
      `x/a//f`, any file and directory names that meet it are `f` and `a`
      (`basename(dirname("x/a//f")) == "a"`). */
  lemma DoubledSlashNames(url: string, fileName: string, dirName: string)
    requires url == "x/a//f"
    requires forall k :: 0 <= k < |fileName| ==> fileName[k] != '/'
    requires forall k :: 0 <= k < |dirName| ==> dirName[k] != '/'
    requires |fileName| <= |url| && url == url[..|url| - |fileName|] + fileName
    requires |fileName| < |url| ==> url[|url| - |fileName| - 1] == '/'
    requires |fileName| < |url| ==> exists b {:trigger LastSegmentAt(url[..|url| - |fileName|], dirName, b)} :: LastSegmentAt(url[..|url| - |fileName|], dirName, b)
    ensures fileName == "f" && dirName == "a"
  {
    assert url[4] == '/' && url[5] != '/';
    assert |fileName| == 1;
    var head := url[..5];
    var b :| LastSegmentAt(head, dirName, b);
    assert LastSegmentAt(head, "a", 3);
    LastSegmentUnique(head, dirName, b, "a", 3);
  }

  /** `Path('.') / data_type / dir_name`. */
  function DownloadDir(t: Target): string
  {
    JoinParts([t.dataType, t.dirName])
  }

  /** `download_dir / filename`. */
  function ArtifactPath(t: Target): string
  {
    JoinParts([t.dataType, t.dirName, t.fileName])
  }

  /** `download_dir / f"{filename}.last-modified"`. */
  function MarkerPath(t: Target): string
  {
    JoinParts([t.dataType, t.dirName, t.fileName + MarkerSuffix])
  }

  lemma JoinLast(parts: seq<string>, last: string)
    ensures JoinParts(parts + [last]) == Append(JoinParts(parts), last)
  {
    assert (parts + [last])[..|parts|] == parts;
  }

  /** For an ordinary file name the marker is the artifact path with
      `.last-modified` appended, in the same directory; for any name the two
      paths differ, and the marker is longer. */
  lemma {:induction false} MarkerBesideArtifact(t: Target)
    ensures Kept(t.fileName) ==> MarkerPath(t) == ArtifactPath(t) + MarkerSuffix
    ensures Kept(t.fileName) ==> ArtifactPath(t) == Append(DownloadDir(t), t.fileName)
    ensures Kept(t.fileName) ==> MarkerPath(t) == Append(DownloadDir(t), t.fileName + MarkerSuffix)
    ensures !Kept(t.fileName) ==> ArtifactPath(t) == DownloadDir(t)
    ensures |MarkerPath(t)| > |ArtifactPath(t)|
    ensures MarkerPath(t) != ArtifactPath(t)
  {
    var d := [t.dataType, t.dirName];
    JoinLast(d, t.fileName);
    JoinLast(d, t.fileName + MarkerSuffix);
    assert [t.dataType, t.dirName, t.fileName] == d + [t.fileName];
    assert [t.dataType, t.dirName, t.fileName + MarkerSuffix] == d + [t.fileName + MarkerSuffix];
    assert Kept(t.fileName + MarkerSuffix);
  }

  /** Two targets whose artifact paths are ordinary files and whose markers
      coincide also share their artifact path. */
  lemma MarkerDeterminesArtifact(t1: Target, t2: Target)
    requires Kept(t1.fileName) && Kept(t2.fileName)
    requires MarkerPath(t1) == MarkerPath(t2)
    ensures ArtifactPath(t1) == ArtifactPath(t2)
  {
    MarkerBesideArtifact(t1);
    MarkerBesideArtifact(t2);
    var a1, a2 := ArtifactPath(t1), ArtifactPath(t2);
    assert |a1| == |a2|;
    assert a1 == (a1 + MarkerSuffix)[..|a1|];
  }

  /** `filename[:-9]` after `.json.zip`, `filename[:-4]` after `.zip`, else the
      file name itself. */
  function BaseName(fileName: string): string
  {
    if EndsWith(fileName, ".json.zip") then fileName[..|fileName| - 9]
    else if EndsWith(fileName, ".zip") then fileName[..|fileName| - 4]
    else fileName
  }

  /** `f"{base_name}.parquet"`. */
  function BrickFileName(fileName: string): string
  {
    BaseName(fileName) + ".parquet"
  }

  /** `x.json.zip` becomes `x.parquet`. */
  lemma BrickNameOfJsonZip(x: string)
    ensures BrickFileName(x + ".json.zip") == x + ".parquet"
  {
    assert (x + ".json.zip")[..|x|] == x;
  }

  /** `x.zip` becomes `x.parquet` (when `x` itself ends in `.json` this is the
      `.json.zip` case). */
  lemma BrickNameOfZip(x: string)
    requires !EndsWith(x, ".json")
    ensures BrickFileName(x + ".zip") == x + ".parquet"
  {
    var z := x + ".zip";
    assert z[..|x|] == x;
  }

  /** A name that does not end in `.zip` keeps its whole name, so `x.json`
      becomes `x.json.parquet`. */
  lemma BrickNameOfOther(f: string)
    requires !EndsWith(f, ".zip")
    ensures BrickFileName(f) == f + ".parquet"
  {
  }

  lemma BrickNameOfJson(x: string)
    ensures BrickFileName(x + ".json") == x + ".json.parquet"
  {
    var j := x + ".json";
    assert j[|j| - 4..] == "json";
    BrickNameOfOther(j);
  }
}

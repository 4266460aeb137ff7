/** `os.path.basename`, `os.path.dirname` and the way `pathlib` joins parts. */
module PosixPath {
  import Text

  /** `p.rfind('/') + 1`: where the last component of `p` starts. */
  function SplitPoint(p: string): (i: nat)
    ensures i <= |p|
    ensures i > 0 ==> p[i - 1] == '/'
    ensures forall k :: i <= k < |p| ==> p[k] != '/'
  {
    if p == [] then 0
    else if p[|p| - 1] == '/' then |p|
    else SplitPoint(p[..|p| - 1])
  }

  /** `os.path.basename(p)`: the text after the last `/`. */
  function Basename(p: string): (r: string)
    ensures forall k :: 0 <= k < |r| ==> r[k] != '/'
    ensures |r| <= |p| && p == p[..|p| - |r|] + r
    ensures |r| < |p| ==> p[|p| - |r| - 1] == '/'
  {
    p[SplitPoint(p)..]
  }

  predicate AllSlashes(s: string)
  {
    forall k :: 0 <= k < |s| ==> s[k] == '/'
  }

  /** `head.rstrip('/')`. */
  function TrimSlashes(s: string): (r: string)
    ensures |r| <= |s| && r == s[..|r|]
    ensures r == [] || r[|r| - 1] != '/'
    ensures forall k :: |r| <= k < |s| ==> s[k] == '/'
  {
    if s != [] && s[|s| - 1] == '/' then TrimSlashes(s[..|s| - 1]) else s
  }

  /** `os.path.dirname(p)`: everything before the last `/`, with trailing
      slashes removed unless the head consists of slashes only. */
  function Dirname(p: string): (r: string)
    ensures |r| <= SplitPoint(p) && r == p[..|r|]
    ensures r == [] <==> SplitPoint(p) == 0
    ensures forall k :: |r| <= k < SplitPoint(p) ==> p[k] == '/'
    ensures AllSlashes(r) || r[|r| - 1] != '/'
    ensures AllSlashes(r) ==> |r| == SplitPoint(p)
    ensures !AllSlashes(r) ==> |r| < SplitPoint(p)
  {
    var head := p[..SplitPoint(p)];
    if head != [] && !AllSlashes(head) then TrimSlashes(head) else head
  }

  /** `Path(a) / b` drops parts that are empty or `.`. */
  predicate Kept(part: string)
  {
    part != "" && part != "."
  }

  function Append(base: string, part: string): string
  {
    if !Kept(part) then base else if base == "" then part else base + "/" + part
  }

  /** `Path('.') / parts[0] / ... / parts[n-1]` as a string. */
  function JoinParts(parts: seq<string>): string
  {
    if parts == [] then "" else Append(JoinParts(parts[..|parts| - 1]), parts[|parts| - 1])
  }
}

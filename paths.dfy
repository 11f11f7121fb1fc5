/** The parts of a POSIX path that `pathlib.Path` exposes as `name`, `stem` and `suffix`. */
module Paths {
  import opened Wrappers

  /** `s.rfind(c)`: the last position of `c` in `s`, or -1 when it does not occur. */
  function LastIndexOf(s: string, c: char): (r: int)
    ensures -1 <= r < |s|
    ensures r >= 0 ==> s[r] == c
    ensures forall j :: r < j < |s| ==> s[j] != c
  {
    if s == [] then -1
    else if s[|s| - 1] == c then |s| - 1
    else LastIndexOf(s[..|s| - 1], c)
  }

  /** `Path(p).name`: the last component of `p` once the empty and "." components are dropped,
      or "" when there is none. */
  function FinalName(p: string): (r: string)
    ensures |r| <= |p|
    ensures forall j :: 0 <= j < |r| ==> r[j] != '/'
    ensures r != "."
    decreases |p|
  {
    var i := LastIndexOf(p, '/');
    var tail := p[i + 1..];
    if tail != "" && tail != "." then tail
    else if i < 0 then ""
    else FinalName(p[..i])
  }

  /** A name without a separator is its own final name. */
  lemma PlainFinalName(p: string)
    requires forall j :: 0 <= j < |p| ==> p[j] != '/'
    requires p != "."
    ensures FinalName(p) == p
  {
    assert LastIndexOf(p, '/') == -1;
    assert p[0..] == p;
  }

  /** `Path.suffix` of a final name: from the last '.' on, provided that dot is neither the first
      nor the last character; "" otherwise. */
  function Suffix(name: string): (r: string)
    ensures r == [] || (2 <= |r| < |name| && r[0] == '.' && r == name[|name| - |r|..])
    ensures forall j :: 1 <= j < |r| ==> r[j] != '.'
  {
    var i := LastIndexOf(name, '.');
    if 0 < i < |name| - 1 then name[i..] else ""
  }

  /** `Path.stem` of a final name: the name without its suffix. */
  function Stem(name: string): (r: string)
    ensures r + Suffix(name) == name
    ensures Suffix(name) != [] ==> r != []
  {
    var i := LastIndexOf(name, '.');
    if 0 < i < |name| - 1 then name[..i] else name
  }

  /** A name whose last dot sits at `i`, neither first nor last, splits there. */
  lemma SplitAtLastDot(name: string, i: nat)
    requires 0 < i < |name| - 1 && name[i] == '.'
    requires forall j :: i < j < |name| ==> name[j] != '.'
    ensures Stem(name) == name[..i] && Suffix(name) == name[i..]
  {
    assert LastIndexOf(name, '.') == i;
  }

  /** A name without a dot after its first character has no suffix and is its own stem. */
  lemma NoDotNoSuffix(name: string)
    requires forall j :: 1 <= j < |name| ==> name[j] != '.'
    ensures Suffix(name) == "" && Stem(name) == name
  {
  }

  /** `Path(dir) / name` for a relative name and a directory other than the root: the two are
      always joined by one separator, so `Join("/", name)` is `"//" + name` where the path
      library gives `"/" + name`, and a directory given with a trailing separator keeps it. */
  function Join(dir: string, name: string): (r: string)
    ensures |r| == |dir| + 1 + |name|
    ensures r[..|dir|] == dir && r[|dir|] == '/' && r[|dir| + 1..] == name
  {
    dir + "/" + name
  }
}

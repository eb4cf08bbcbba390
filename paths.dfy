/** File-system paths as sequences of segments, with the parts of Node's `path`
    module that the core uses: `join` and `relative`. A path here is already
    normalised: no segment is empty, "." or "..". */
module Paths {

  type Path = seq<string>

  /** The file system, as the set of paths that currently exist. */
  type FileSystem = set<Path>

  /** `path.join(base, rel)` for normalised paths. */
  function Join(base: Path, rel: Path): (r: Path)
    ensures |r| == |base| + |rel|
    ensures r[..|base|] == base && r[|base|..] == rel
  {
    base + rel
  }

  /** `s.split('/')` with empty and "." segments dropped, as `path.join` does
      when it normalises its arguments. */
  function Split(s: string): (r: Path)
    ensures forall i :: 0 <= i < |r| ==> r[i] != "" && r[i] != "." && '/' !in r[i]
    decreases |s|
  {
    var k := IndexOf(s, '/');
    var head := s[..k];
    var rest := if k < |s| then Split(s[k + 1..]) else [];
    if head == "" || head == "." then rest else [head] + rest
  }

  /** Index of the first `c` in `s`, or `|s|` when there is none. */
  function IndexOf(s: string, c: char): (k: nat)
    ensures k <= |s|
    ensures c !in s[..k]
    ensures k < |s| ==> s[k] == c
  {
    if s == [] then 0
    else if s[0] == c then 0
    else 1 + IndexOf(s[1..], c)
  }

  /** Length of the longest common prefix of `a` and `b`. */
  function CommonPrefix(a: Path, b: Path): (n: nat)
    ensures n <= |a| && n <= |b|
    ensures a[..n] == b[..n]
    ensures n < |a| && n < |b| ==> a[n] != b[n]
  {
    if a == [] || b == [] || a[0] != b[0] then 0
    else
      var n := 1 + CommonPrefix(a[1..], b[1..]);
      assert a[..n] == [a[0]] + a[1..][..n - 1];
      assert b[..n] == [b[0]] + b[1..][..n - 1];
      n
  }

  function Ups(n: nat): (r: Path)
    ensures |r| == n && forall i :: 0 <= i < n ==> r[i] == ".."
  {
    if n == 0 then [] else [".."] + Ups(n - 1)
  }

  /** `path.relative(from, to)` for normalised absolute paths: climb out of
      the part of `from` that `to` does not share, then descend into the rest
      of `to`. The empty path is Node's "". */
  function Relative(from: Path, to: Path): (r: Path)
  {
    var n := CommonPrefix(from, to);
    Ups(|from| - n) + to[n..]
  }

  /** Going from `base` to `base` joined with `rel` gives back `rel`. */
  lemma RelativeJoin(base: Path, rel: Path)
    ensures Relative(base, Join(base, rel)) == rel
  {
    var n := CommonPrefix(base, Join(base, rel));
    assert n == |base|;
  }

  /** Joining `from` with the relative path leads back to `to` when `to` lies
      inside `from`. */
  lemma JoinRelative(from: Path, to: Path)
    requires |from| <= |to| && to[..|from|] == from
    ensures Join(from, Relative(from, to)) == to
  {
    RelativeJoin(from, to[|from|..]);
    assert Join(from, to[|from|..]) == to;
  }

  /** `path.relative` gives "" exactly when the two paths are the same. */
  lemma RelativeEmpty(from: Path, to: Path)
    ensures Relative(from, to) == [] <==> from == to
  {
    var n := CommonPrefix(from, to);
    if Relative(from, to) == [] {
      assert |Ups(|from| - n)| == 0 && |to[n..]| == 0;
      assert from == from[..n] && to == to[..n];
    }
  }
}

/** lib/helper.js: probing an ordered list of candidate paths. */
module Helper {
  import opened Wrappers
  import opened Paths

  /** Candidate `i` of `candidates`, joined onto `baseDir`, exists. */
  predicate ExistsAt(fs: FileSystem, baseDir: Path, candidates: seq<Path>, i: int)
    requires 0 <= i < |candidates|
  {
    Join(baseDir, candidates[i]) in fs
  }

  /** Reference definition of the probe: the first candidate that exists,
      otherwise `fallback` (JavaScript's `undefined` when the caller passes
      none). */
  function FirstExisting(fs: FileSystem, baseDir: Path, candidates: seq<Path>,
                         fallback: Option<Path>): Option<Path>
  {
    if candidates == [] then fallback
    else if Join(baseDir, candidates[0]) in fs then Some(Join(baseDir, candidates[0]))
    else FirstExisting(fs, baseDir, candidates[1..], fallback)
  }

  /** `takeFirstExistsPath(baseDir, candidates, fallback)`: walks the
      candidates in order and returns the first joined path that exists.
      The file system is only queried. */
  method TakeFirstExistsPath(fs: FileSystem, baseDir: Path, candidates: seq<Path>,
                             fallback: Option<Path>) returns (r: Option<Path>)
    ensures r == FirstExisting(fs, baseDir, candidates, fallback)
    ensures (exists i :: 0 <= i < |candidates| && ExistsAt(fs, baseDir, candidates, i))
              ==> exists i :: 0 <= i < |candidates| && ExistsAt(fs, baseDir, candidates, i)
                    && r == Some(Join(baseDir, candidates[i]))
                    && forall j :: 0 <= j < i ==> !ExistsAt(fs, baseDir, candidates, j)
    ensures (forall i :: 0 <= i < |candidates| ==> !ExistsAt(fs, baseDir, candidates, i))
              ==> r == fallback
  {
    var i := 0;
    while i < |candidates|
      invariant 0 <= i <= |candidates|
      invariant forall j :: 0 <= j < i ==> !ExistsAt(fs, baseDir, candidates, j)
      invariant FirstExisting(fs, baseDir, candidates, fallback)
                == FirstExisting(fs, baseDir, candidates[i..], fallback)
    {
      var dir := Join(baseDir, candidates[i]);
      if dir in fs {
        assert ExistsAt(fs, baseDir, candidates, i);
        return Some(dir);
      }
      assert candidates[i..][1..] == candidates[i + 1..];
      i := i + 1;
    }
    return fallback;
  }

  /** The probe returns either the fallback or one of the joined candidates. */
  lemma {:induction false} FirstExistingIsCandidateOrFallback(
    fs: FileSystem, baseDir: Path, candidates: seq<Path>, fallback: Option<Path>)
    ensures var r := FirstExisting(fs, baseDir, candidates, fallback);
            r == fallback || exists c :: c in candidates && r == Some(Join(baseDir, c))
  {
    if candidates != [] && Join(baseDir, candidates[0]) !in fs {
      FirstExistingIsCandidateOrFallback(fs, baseDir, candidates[1..], fallback);
      var r := FirstExisting(fs, baseDir, candidates, fallback);
      if r != fallback {
        var c :| c in candidates[1..] && r == Some(Join(baseDir, c));
        assert c in candidates;
      }
    }
  }

  /** When candidates `i < j` both exist, the result is candidate `i` or an
      earlier one: order decides the winner. */
  lemma {:induction false} EarlierCandidateWins(
    fs: FileSystem, baseDir: Path, candidates: seq<Path>, fallback: Option<Path>, i: nat, j: nat)
    requires i < j < |candidates|
    requires ExistsAt(fs, baseDir, candidates, i) && ExistsAt(fs, baseDir, candidates, j)
    ensures exists k :: 0 <= k <= i &&
              FirstExisting(fs, baseDir, candidates, fallback) == Some(Join(baseDir, candidates[k]))
  {
    if Join(baseDir, candidates[0]) !in fs {
      EarlierCandidateWins(fs, baseDir, candidates[1..], fallback, i - 1, j - 1);
      var k :| 0 <= k <= i - 1 &&
        FirstExisting(fs, baseDir, candidates[1..], fallback) == Some(Join(baseDir, candidates[1..][k]));
      assert FirstExisting(fs, baseDir, candidates, fallback) == Some(Join(baseDir, candidates[k + 1]));
    } else {
      assert FirstExisting(fs, baseDir, candidates, fallback) == Some(Join(baseDir, candidates[0]));
    }
  }
}

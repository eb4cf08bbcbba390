/** commands/deploy.js: planning a deployment. Which files to upload and
    from where, whether the required pages are present, the version name
    rule, which files are compressed, the upload paths, and the version
    record sent to the API. Uploads, gzip, prompts and the API exchange are
    foreign: their results are parameters. */
module Deploy {
  import opened Wrappers
  import opened Paths
  import opened JsText
  import opened Dedup
  import Helper
  import Api

  datatype DeployError =
    | ConfigIncomplete
    | NoBuildDirectory
    | GlobFailed(message: string)
    | MissingIndexPage(baseDir: Path)
    | MissingLoginPage
    | InvalidVersionName(message: string)
    | ApiFailed(error: Api.ApiError)
    | AppNotFound

  /** The deploy settings of the program: `deployFiles` when it is an array,
      and `deployBase`. */
  datatype DeployConfig = DeployConfig(cwd: Path, deployFiles: Option<seq<string>>,
                                       deployBase: Option<string>)

  /** `program.deployBase` is truthy. */
  predicate HasBase(c: DeployConfig)
  {
    c.deployBase.Some? && c.deployBase.value != ""
  }

  /** `(patterns && !baseDir) || (baseDir && !patterns)`: one of the two is
      set without the other. An empty array is truthy. */
  predicate Incomplete(c: DeployConfig)
  {
    c.deployFiles.Some? != HasBase(c)
  }

  /** `glob(pattern, {cwd: baseDir, ...})`: the matches, or an error. */
  type Glob = (Path, string) -> Result<seq<string>, string>

  datatype DeployFiles = DeployFiles(baseDir: Path, files: seq<string>)

  const ConventionDirs: seq<Path> := [["dist"], ["build"]]

  /** The base directory and the patterns to expand, lines 97-116. */
  function DeploySource(c: DeployConfig, fs: FileSystem): (r: Result<(Path, seq<string>), DeployError>)
    ensures Incomplete(c) ==> r == Err(ConfigIncomplete)
    ensures !Incomplete(c) && HasBase(c) ==> r == Ok((Split(c.deployBase.value), c.deployFiles.value))
    ensures !Incomplete(c) && !HasBase(c) ==>
              match Helper.FirstExisting(fs, c.cwd, ConventionDirs, None)
              case None => r == Err(NoBuildDirectory)
              case Some(dir) => r == Ok((dir, ["**/*.*"]))
  {
    if Incomplete(c) then Err(ConfigIncomplete)
    else if c.deployFiles.Some? then Ok((Split(c.deployBase.value), c.deployFiles.value))
    else match Helper.FirstExisting(fs, c.cwd, ConventionDirs, None)
      case None => Err(NoBuildDirectory)
      case Some(dir) => Ok((dir, ["**/*.*"]))
  }

  /** Without explicit patterns the base is `dist` when it exists, else
      `build` when it exists, and an error otherwise. */
  lemma ConventionalBase(c: DeployConfig, fs: FileSystem)
    requires c.deployFiles.None? && !HasBase(c)
    ensures Join(c.cwd, ["dist"]) in fs ==> DeploySource(c, fs) == Ok((Join(c.cwd, ["dist"]), ["**/*.*"]))
    ensures Join(c.cwd, ["dist"]) !in fs && Join(c.cwd, ["build"]) in fs ==>
              DeploySource(c, fs) == Ok((Join(c.cwd, ["build"]), ["**/*.*"]))
    ensures Join(c.cwd, ["dist"]) !in fs && Join(c.cwd, ["build"]) !in fs ==>
              DeploySource(c, fs) == Err(NoBuildDirectory)
  {
    var dist, build := Join(c.cwd, ["dist"]), Join(c.cwd, ["build"]);
    assert ConventionDirs[0] == ["dist"] && ConventionDirs[1..] == [["build"]];
    assert Helper.FirstExisting(fs, c.cwd, [["build"]], None)
           == if build in fs then Some(build) else Helper.FirstExisting(fs, c.cwd, [], None);
    assert Helper.FirstExisting(fs, c.cwd, ConventionDirs, None)
           == if dist in fs then Some(dist) else Helper.FirstExisting(fs, c.cwd, [["build"]], None);
  }

  /** The matches of the patterns in order, stopping at the first failure. */
  function AllMatches(baseDir: Path, patterns: seq<string>, glob: Glob): Result<seq<string>, string>
  {
    if patterns == [] then Ok([])
    else match AllMatches(baseDir, patterns[..|patterns| - 1], glob)
      case Err(e) => Err(e)
      case Ok(prev) =>
        match glob(baseDir, patterns[|patterns| - 1])
        case Err(e) => Err(e)
        case Ok(ms) => Ok(prev + ms)
  }

  /** What `gatherDeployFiles` yields: the base directory and the matches of
      every pattern, each file once, in the order first matched. */
  function Gathered(c: DeployConfig, fs: FileSystem, glob: Glob): (r: Result<DeployFiles, DeployError>)
    ensures DeploySource(c, fs).Err? ==> r == Err(DeploySource(c, fs).error)
    ensures r.Ok? ==> DeploySource(c, fs).Ok? && r.value.baseDir == DeploySource(c, fs).value.0
    ensures r.Ok? ==> NoDuplicates(r.value.files)
  {
    match DeploySource(c, fs)
    case Err(e) => Err(e)
    case Ok((baseDir, patterns)) =>
      match AllMatches(baseDir, patterns, glob)
      case Err(e) => Err(GlobFailed(e))
      case Ok(all) =>
        AccumulateElements(all);
        Ok(DeployFiles(baseDir, Accumulate(all)))
  }

  /** The gathered files are exactly the matched ones, each once, in the
      order first matched. */
  lemma GatheredFiles(c: DeployConfig, fs: FileSystem, glob: Glob)
    requires Gathered(c, fs, glob).Ok?
    ensures var all := AllMatches(DeploySource(c, fs).value.0, DeploySource(c, fs).value.1, glob).value;
            var files := Gathered(c, fs, glob).value.files;
            (forall f :: f in files <==> f in all) && FirstSeenOrder(all, files)
  {
    var all := AllMatches(DeploySource(c, fs).value.0, DeploySource(c, fs).value.1, glob).value;
    AccumulateElements(all);
    AccumulateOrder(all);
  }

  /** `gatherDeployFiles`: probes for the base directory, then walks every
      pattern's matches, adding each file not yet listed. */
  method GatherDeployFiles(c: DeployConfig, fs: FileSystem, glob: Glob)
    returns (r: Result<DeployFiles, DeployError>)
    ensures r == Gathered(c, fs, glob)
  {
    if Incomplete(c) {
      return Err(ConfigIncomplete);
    }
    var baseDir: Path, patterns: seq<string>;
    if c.deployFiles.Some? {
      baseDir, patterns := Split(c.deployBase.value), c.deployFiles.value;
    } else {
      var probed := Helper.TakeFirstExistsPath(fs, c.cwd, ConventionDirs, None);
      if probed.None? {
        return Err(NoBuildDirectory);
      }
      baseDir, patterns := probed.value, ["**/*.*"];
    }
    assert DeploySource(c, fs) == Ok((baseDir, patterns));
    var files: seq<string> := [];
    ghost var seen: seq<string> := [];
    var p := 0;
    while p < |patterns|
      invariant 0 <= p <= |patterns|
      invariant AllMatches(baseDir, patterns[..p], glob) == Ok(seen)
      invariant files == Accumulate(seen)
    {
      assert patterns[..p + 1][..p] == patterns[..p];
      var matches := glob(baseDir, patterns[p]);
      if matches.Err? {
        AllMatchesPrefixErr(baseDir, patterns, glob, p + 1);
        GatheredCases(c, fs, glob);
        return Err(GlobFailed(AllMatches(baseDir, patterns, glob).error));
      }
      files := AddMatches(files, seen, matches.value);
      seen := seen + matches.value;
      p := p + 1;
    }
    assert patterns[..p] == patterns;
    GatheredCases(c, fs, glob);
    return Ok(DeployFiles(baseDir, files));
  }

  /** The inner loop over one pattern's matches: each match not yet listed
      is appended. */
  method AddMatches(files: seq<string>, ghost seen: seq<string>, ms: seq<string>) returns (r: seq<string>)
    requires files == Accumulate(seen)
    ensures r == Accumulate(seen + ms)
  {
    r := files;
    var i := 0;
    assert seen + ms[..0] == seen;
    while i < |ms|
      invariant 0 <= i <= |ms|
      invariant r == Accumulate(seen + ms[..i])
    {
      AccumulateSnoc(seen + ms[..i], ms[i]);
      assert seen + ms[..i + 1] == (seen + ms[..i]) + [ms[i]];
      if ms[i] !in r {
        r := r + [ms[i]];
      }
      i := i + 1;
    }
    assert ms[..i] == ms;
  }

  /** `Gathered` unfolded once the base directory is known. */
  lemma GatheredCases(c: DeployConfig, fs: FileSystem, glob: Glob)
    requires DeploySource(c, fs).Ok?
    ensures var (baseDir, patterns) := DeploySource(c, fs).value;
            match AllMatches(baseDir, patterns, glob)
            case Err(e) => Gathered(c, fs, glob) == Err(GlobFailed(e))
            case Ok(all) => Gathered(c, fs, glob) == Ok(DeployFiles(baseDir, Accumulate(all)))
  {
  }

  /** A failure in the first `k` patterns is the failure of the whole list. */
  lemma {:induction false} AllMatchesPrefixErr(baseDir: Path, patterns: seq<string>, glob: Glob, k: nat)
    requires k <= |patterns|
    requires AllMatches(baseDir, patterns[..k], glob).Err?
    ensures AllMatches(baseDir, patterns, glob) == AllMatches(baseDir, patterns[..k], glob)
    decreases |patterns| - k
  {
    if k < |patterns| {
      assert patterns[..k + 1][..k] == patterns[..k];
      AllMatchesPrefixErr(baseDir, patterns, glob, k + 1);
    } else {
      assert patterns[..k] == patterns;
    }
  }

  /** `verifyRequiredFiles`: `index.html` must be deployed, and so must
      `login.html` when the app uses OAuth. */
  function VerifyRequiredFiles(d: DeployFiles, authType: Option<string>): (r: Result<(), DeployError>)
    ensures "index.html" !in d.files ==> r == Err(MissingIndexPage(d.baseDir))
    ensures "index.html" in d.files && authType == Some("oauth") && "login.html" !in d.files ==>
              r == Err(MissingLoginPage)
    ensures r.Ok? <==> "index.html" in d.files && (authType == Some("oauth") ==> "login.html" in d.files)
  {
    if "index.html" !in d.files then Err(MissingIndexPage(d.baseDir))
    else if authType == Some("oauth") && "login.html" !in d.files then Err(MissingLoginPage)
    else Ok(())
  }

  /** A character of `/^[a-z\.\_\-0-9]{5,20}$/i`. */
  predicate VersionChar(c: char)
  {
    IsAsciiAlnum(c) || c == '.' || c == '_' || c == '-'
  }

  datatype VersionCheck = VersionOk | VersionRejected(message: string)

  /** What the rejection says after the offending name. */
  const VersionRule := " can only consist of letters, numbers, dashes, periods, or underscores "
                       + "and must be between 5 and 20 characters"

  /** `validateVersionName`: the regular expression is tested against
      `'' + name`, so an absent name is tested as "undefined". */
  function ValidateVersionName(name: Option<string>): (r: VersionCheck)
    ensures r == VersionOk <==>
              5 <= |Str(name)| <= 20 && forall i :: 0 <= i < |Str(name)| ==> VersionChar(Str(name)[i])
    ensures r != VersionOk ==>
              r == VersionRejected("Version " + Str(name) + VersionRule)
  {
    var s := Str(name);
    if 5 <= |s| <= 20 && forall i :: 0 <= i < |s| ==> VersionChar(s[i]) then VersionOk
    else VersionRejected("Version " + s + VersionRule)
  }

  /** `path.extname` of a POSIX path: from the last dot of the last segment,
      unless that dot starts the segment; `..` has none. */
  function Extname(file: string): (ext: string)
    ensures ext == "" || (ext[0] == '.' && |ext| <= |file| && ext == file[|file| - |ext|..])
    ensures '/' !in ext
  {
    var j := LastIndexAfter(file, '/');
    var base := file[j..];
    var dot := LastIndex(base, '.');
    if dot <= 0 || base == ".." then ""
    else
      SuffixOfSuffix(file, j, dot);
      base[dot..]
  }

  lemma SuffixOfSuffix(s: string, j: nat, k: nat)
    requires j + k <= |s|
    ensures s[j..][k..] == s[j + k..] && |s| - (|s| - j - k) == j + k
  {
  }

  /** Index just past the last `c` in `s`, or 0. */
  function LastIndexAfter(s: string, c: char): (k: nat)
    ensures k <= |s| && c !in s[k..]
  {
    if s == [] then 0
    else if s[|s| - 1] == c then |s|
    else
      var k := LastIndexAfter(s[..|s| - 1], c);
      SuffixThroughLast(s, k);
      k
  }

  /** A suffix of `s` is the suffix of `s` without its last element, then that element. */
  lemma SuffixThroughLast(s: string, j: nat)
    requires j < |s|
    ensures s[j..] == s[..|s| - 1][j..] + [s[|s| - 1]]
  {
  }

  /** Index of the last `c` in `s`, or -1. */
  function LastIndex(s: string, c: char): (k: int)
    ensures -1 <= k < |s|
    ensures k >= 0 ==> s[k] == c && c !in s[k + 1..]
    ensures k == -1 ==> c !in s
  {
    if s == [] then -1
    else if s[|s| - 1] == c then |s| - 1
    else
      var k := LastIndex(s[..|s| - 1], c);
      if k >= 0 then
        SuffixThroughLast(s, k + 1);
        k
      else
        k
  }

  const CompressExtensions: seq<string> := [".html", ".css", ".js", ".json", ".txt", ".svg"]

  /** `shouldCompress`: never the two pages the platform serves itself;
      otherwise exactly the text formats. */
  function ShouldCompress(file: string): (compress: bool)
    ensures file == "index.html" || file == "login.html" ==> !compress
    ensures file != "index.html" && file != "login.html" ==> (compress <==> Extname(file) in CompressExtensions)
  {
    if file == "index.html" || file == "login.html" then false
    else Extname(file) in CompressExtensions
  }

  /** Only the last path segment decides the extension. */
  lemma {:induction false} LastIndexAfterSegment(dir: string, name: string)
    requires '/' !in name
    ensures LastIndexAfter(dir + "/" + name, '/') == |dir| + 1
  {
    if name != [] {
      var s := dir + "/" + name;
      assert s[..|s| - 1] == dir + "/" + name[..|name| - 1];
      LastIndexAfterSegment(dir, name[..|name| - 1]);
    }
  }

  lemma {:induction false} LastIndexAfterAbsent(name: string)
    requires '/' !in name
    ensures LastIndexAfter(name, '/') == 0
  {
    if name != [] {
      LastIndexAfterAbsent(name[..|name| - 1]);
    }
  }

  /** The extension of a name with no directory part. */
  lemma ExtnameOfName(name: string)
    requires '/' !in name
    ensures Extname(name) == (var dot := LastIndex(name, '.');
                              if dot <= 0 || name == ".." then "" else name[dot..])
  {
    LastIndexAfterAbsent(name);
  }

  /** The extension of a file in a directory is that of its name. */
  lemma ExtnameOfSegment(dir: string, name: string)
    requires '/' !in name
    ensures Extname(dir + "/" + name) == Extname(name)
  {
    LastIndexAfterSegment(dir, name);
    ExtnameOfName(name);
    assert (dir + "/" + name)[|dir| + 1..] == name;
  }

  lemma {:induction false} LastIndexOfSuffix(stem: string, ext: string)
    requires ext != [] && ext[0] == '.' && '.' !in ext[1..]
    ensures LastIndex(stem + ext, '.') == |stem|
  {
    if |ext| > 1 {
      var s := stem + ext;
      assert s[..|s| - 1] == stem + ext[..|ext| - 1];
      assert ext[..|ext| - 1][1..] == ext[1..|ext| - 1];
      LastIndexOfSuffix(stem, ext[..|ext| - 1]);
    }
  }

  /** A name `stem.ext` whose stem is not empty has extension `.ext`. */
  lemma ExtnameOfStem(stem: string, ext: string)
    requires stem != [] && '/' !in stem + ext
    requires |ext| > 1 && ext[0] == '.' && '.' !in ext[1..]
    ensures Extname(stem + ext) == ext
  {
    assert |stem + ext| > 2;
    LastIndexOfSuffix(stem, ext);
    ExtnameOfName(stem + ext);
    assert (stem + ext)[|stem|..] == ext;
  }

  /** A file `stem.ext` in any directory is compressed exactly when `.ext`
      is one of the text formats: `index.html` below the root included. */
  lemma CompressionByExtension(dir: string, stem: string, ext: string)
    requires stem != [] && '/' !in stem + ext
    requires |ext| > 1 && ext[0] == '.' && '.' !in ext[1..]
    ensures ShouldCompress(dir + "/" + (stem + ext)) <==> ext in CompressExtensions
  {
    var file := dir + "/" + (stem + ext);
    ExtnameOfStem(stem, ext);
    ExtnameOfSegment(dir, stem + ext);
    NestedIsNotRootPage(file, |dir|);
    assert ShouldCompress(file) == (Extname(file) in CompressExtensions);
  }

  /** A path with a directory part is neither root page. */
  lemma NestedIsNotRootPage(file: string, k: nat)
    requires k < |file| && file[k] == '/'
    ensures file != "index.html" && file != "login.html"
  {
    assert '/' in file;
  }

  /** A dot-file such as `.htaccess` has no extension and is never
      compressed. */
  lemma DotFileNotCompressed(dir: string, name: string)
    requires |name| > 1 && name[0] == '.' && '.' !in name[1..] && '/' !in name
    ensures !ShouldCompress(dir + "/" + name)
  {
    ExtnameOfSegment(dir, name);
    ExtnameOfName(name);
    assert LastIndex(name, '.') == 0 by {
      LastIndexOfSuffix([], name);
      assert [] + name == name;
    }
    assert "" !in CompressExtensions;
  }

  /** `file.replace(/\\/g, '/')`. */
  function ForwardSlashes(file: string): (r: string)
    ensures |r| == |file|
    ensures forall i :: 0 <= i < |r| ==> r[i] == (if file[i] == '\\' then '/' else file[i])
  {
    if file == [] then [] else [if file[0] == '\\' then '/' else file[0]] + ForwardSlashes(file[1..])
  }

  /** No backslash is left, and a path already using forward slashes is
      unchanged. */
  lemma ForwardSlashesNormal(file: string)
    ensures '\\' !in ForwardSlashes(file)
    ensures ForwardSlashes(ForwardSlashes(file)) == ForwardSlashes(file)
    ensures '\\' !in file ==> ForwardSlashes(file) == file
  {
  }

  /** The storage path of one file: the storage key, a slash, and the file's
      path relative to the base with forward slashes. */
  function UploadPath(storageKey: string, file: string): (p: string)
    ensures |p| == |storageKey| + 1 + |file|
    ensures p[..|storageKey| + 1] == storageKey + "/"
    ensures p[|storageKey| + 1..] == ForwardSlashes(file)
  {
    storageKey + "/" + ForwardSlashes(file)
  }

  /** Two different files (up to the direction of their slashes) never
      share an upload path under one key. */
  lemma UploadPathInjective(key: string, a: string, b: string)
    requires '\\' !in a && '\\' !in b
    requires UploadPath(key, a) == UploadPath(key, b)
    ensures a == b
  {
    ForwardSlashesNormal(a);
    ForwardSlashesNormal(b);
    assert UploadPath(key, a)[|key| + 1..] == UploadPath(key, b)[|key| + 1..];
  }

  /** One upload: the API path it is sent to, and whether it is gzipped. */
  datatype Upload = Upload(file: string, apiPath: string, compress: bool)

  function UploadFor(appId: Option<string>, storageKey: string, file: string): Upload
  {
    Upload(file, "/dev/" + Str(appId) + "/deploy/" + UploadPath(storageKey, file), ShouldCompress(file))
  }

  /** The uploads of `deployFiles`, one per file. They run concurrently in the
      source; their order here is the order of the files. */
  function Uploads(appId: Option<string>, storageKey: string, files: seq<string>): (us: seq<Upload>)
    ensures |us| == |files|
    ensures forall i :: 0 <= i < |files| ==> us[i] == UploadFor(appId, storageKey, files[i])
  {
    if files == [] then [] else [UploadFor(appId, storageKey, files[0])] + Uploads(appId, storageKey, files[1..])
  }

  /** The record posted to create the version. `storageKey` is the version
      id. */
  datatype VersionData = VersionData(
    versionId: string, appId: Option<string>, userId: Option<string>, storageKey: string,
    name: Option<string>, message: Option<string>, force: Option<bool>,
    forceAllTrafficToNewVersion: Option<string>)

  function NewVersionData(versionId: string, appId: Option<string>, userId: Option<string>): (v: VersionData)
    ensures v.storageKey == v.versionId == versionId
  {
    VersionData(versionId, appId, userId, versionId, None, None, None, None)
  }

  /** `getDefaultVersion`: `appVersion` when truthy, else a timestamp (the
      clock is a parameter). */
  function DefaultVersion(appVersion: Option<string>, timestamp: string): (v: string)
    ensures appVersion.Some? && appVersion.value != "" ==> v == appVersion.value
    ensures appVersion.None? || appVersion.value == "" ==> v == timestamp
  {
    if appVersion.Some? && appVersion.value != "" then appVersion.value else timestamp
  }

  /** `_.isEmpty` of a string or `undefined`. */
  predicate IsEmpty(s: Option<string>)
  {
    s.None? || s.value == ""
  }

  /** The unattended branch of `collectVersionInputs` as written (lines
      147-163): a given version is validated only when it is EMPTY, and a
      non-empty one is replaced by the default. */
  function UnattendedAsWritten(v: VersionData, version: Option<string>, defaultVersion: string,
                               message: Option<string>, force: Option<bool>): (r: Result<VersionData, DeployError>)
    ensures version.None? ==> r.Ok? && r.value.name == v.name
    ensures version == Some("") ==> r.Err?
    ensures !IsEmpty(version) ==> r.Ok? && r.value.name == Some(defaultVersion)
    ensures r.Ok? ==> r.value.message == message
  {
    if IsEmpty(version) then
      match ValidateVersionName(version)
      case VersionRejected(m) => Err(InvalidVersionName(m))
      case VersionOk => Ok(v.(message := message, force := if force == Some(true) then Some(true) else v.force))
    else
      Ok(v.(name := Some(defaultVersion), message := message,
            force := if force == Some(true) then Some(true) else v.force))
  }

  /** The unattended branch as evidently intended: an empty version takes the
      default, and a given one is validated and used. */
  function Unattended(v: VersionData, version: Option<string>, defaultVersion: string,
                      message: Option<string>, force: Option<bool>): (r: Result<VersionData, DeployError>)
    ensures r.Ok? ==> r.value.name.Some? && r.value.message == message
    ensures IsEmpty(version) ==> r.Ok? && r.value.name == Some(defaultVersion)
    ensures !IsEmpty(version) ==>
              (r.Ok? <==> ValidateVersionName(version) == VersionOk)
              && (r.Ok? ==> r.value.name == version)
    ensures r.Ok? ==> (r.value.force == Some(true) <==> force == Some(true) || v.force == Some(true))
  {
    if IsEmpty(version) then
      Ok(v.(name := Some(defaultVersion), message := message,
            force := if force == Some(true) then Some(true) else v.force))
    else
      match ValidateVersionName(version)
      case VersionRejected(m) => Err(InvalidVersionName(m))
      case VersionOk => Ok(v.(name := version, message := message,
                              force := if force == Some(true) then Some(true) else v.force))
  }

  /** The as-written branch discards a valid version given on the command
      line, and leaves the version unnamed when none is given, where the
      intended branch uses the given name and the default. */
  lemma UnattendedDiscrepancy(v: VersionData)
    requires v.name.None?
    ensures UnattendedAsWritten(v, Some("v1.0.0"), "2015-1-2-3:4", None, None).value.name == Some("2015-1-2-3:4")
    ensures Unattended(v, Some("v1.0.0"), "2015-1-2-3:4", None, None).value.name == Some("v1.0.0")
    ensures UnattendedAsWritten(v, None, "2015-1-2-3:4", None, None).value.name == None
    ensures Unattended(v, None, "2015-1-2-3:4", None, None).value.name == Some("2015-1-2-3:4")
  {
    assert ValidateVersionName(Some("v1.0.0")) == VersionOk;
    assert ValidateVersionName(None) == VersionOk;
  }

  /** The answers of the interactive prompt. inquirer asks for the version
      until it passes `validateVersionName`. */
  datatype Answers = Answers(version: string, message: Option<string>, runBuildStep: Option<bool>,
                             force: Option<bool>)

  /** The interactive branch (lines 202-213): the `force` it leaves on the
      program, and the version record. */
  function Interactive(v: VersionData, answers: Answers, trafficControlEnabled: Option<bool>)
    : (r: (Option<bool>, VersionData))
    requires ValidateVersionName(Some(answers.version)) == VersionOk
    ensures trafficControlEnabled != Some(true) ==> r.0 == Some(true)
    ensures trafficControlEnabled == Some(true) ==> r.0 == answers.force
    ensures r.1 == v.(name := Some(answers.version), message := answers.message)
  {
    (if trafficControlEnabled != Some(true) then Some(true) else answers.force,
     v.(name := Some(answers.version), message := answers.message))
  }

  /** `createNewVersion`: the traffic switch is set to "1" exactly when
      `force` is `true`. */
  function WithForce(v: VersionData, force: Option<bool>): (r: VersionData)
    ensures r.forceAllTrafficToNewVersion == (if force == Some(true) then Some("1")
                                               else v.forceAllTrafficToNewVersion)
    ensures r.(forceAllTrafficToNewVersion := v.forceAllTrafficToNewVersion) == v
  {
    if force == Some(true) then v.(forceAllTrafficToNewVersion := Some("1")) else v
  }

  /** Without traffic control an interactive deploy always takes all the
      traffic. */
  lemma InteractiveForcesWithoutTrafficControl(v: VersionData, answers: Answers,
                                               trafficControlEnabled: Option<bool>)
    requires ValidateVersionName(Some(answers.version)) == VersionOk
    requires trafficControlEnabled != Some(true)
    ensures var (force, data) := Interactive(v, answers, trafficControlEnabled);
            WithForce(data, force).forceAllTrafficToNewVersion == Some("1")
  {
  }

  /** The steps queued for `async.series`. */
  datatype Step = FetchApp | CollectInputs | RunBuild | GatherFiles | VerifyFiles | UploadFiles | CreateVersion

  /** As written: `runBuildStep` is read when the list is built, before the
      prompt has set it, so the build never runs. */
  function StepsAsWritten(buildAnswer: Option<bool>): (s: seq<Step>)
    ensures RunBuild !in s
    ensures s == Steps(Some(false))
  {
    var runBuildStep := false;
    [FetchApp, CollectInputs] + (if runBuildStep then [RunBuild] else [])
      + [GatherFiles, VerifyFiles, UploadFiles, CreateVersion]
  }

  /** As evidently intended: the build runs after the prompt when it was
      accepted. */
  function Steps(buildAnswer: Option<bool>): (s: seq<Step>)
    ensures RunBuild in s <==> buildAnswer == Some(true)
    ensures |s| >= 6
    ensures s[..2] == [FetchApp, CollectInputs] && s[|s| - 4..] == [GatherFiles, VerifyFiles, UploadFiles, CreateVersion]
  {
    [FetchApp, CollectInputs] + (if buildAnswer == Some(true) then [RunBuild] else [])
      + [GatherFiles, VerifyFiles, UploadFiles, CreateVersion]
  }

  /** Accepting the build prompt changes nothing in the steps as written. */
  lemma BuildAnswerIgnored()
    ensures RunBuild !in StepsAsWritten(Some(true))
    ensures RunBuild in Steps(Some(true))
  {
  }

  /** The app record the command reads. */
  datatype App = App(authType: Option<string>, trafficControlEnabled: Option<bool>)

  /** How the version inputs are collected. */
  datatype Inputs =
    | UnattendedInputs(version: Option<string>, message: Option<string>, force: Option<bool>)
    | InteractiveInputs(answers: Answers)

  /** Everything a successful deploy did: the uploads and the version record
      it posted. */
  datatype Deployed = Deployed(files: DeployFiles, uploads: seq<Upload>, version: VersionData)

  /** The version inputs step: the `force` left on the program and the
      version record, or the rejected version name. */
  function CollectVersion(versionId: string, appId: Option<string>, userId: Option<string>, app: App,
                          inputs: Inputs, defaultVersion: string): (r: Result<(Option<bool>, VersionData), DeployError>)
    requires inputs.InteractiveInputs? ==> ValidateVersionName(Some(inputs.answers.version)) == VersionOk
    ensures r.Ok? ==> r.value.1.storageKey == versionId && r.value.1.name.Some?
  {
    var v0 := NewVersionData(versionId, appId, userId);
    match inputs
    case UnattendedInputs(version, message, force) =>
      (match Unattended(v0, version, defaultVersion, message, force)
       case Err(e) => Err(e)
       case Ok(v) => Ok((force, v)))
    case InteractiveInputs(answers) => Ok(Interactive(v0, answers, app.trafficControlEnabled))
  }

  /** The gather and verify steps. */
  function GatherAndVerify(config: DeployConfig, fs: FileSystem, glob: Glob, authType: Option<string>)
    : (r: Result<DeployFiles, DeployError>)
    ensures r.Ok? ==> NoDuplicates(r.value.files) && "index.html" in r.value.files
                      && (authType == Some("oauth") ==> "login.html" in r.value.files)
  {
    match Gathered(config, fs, glob)
    case Err(e) => Err(e)
    case Ok(files) =>
      match VerifyRequiredFiles(files, authType)
      case Err(e) => Err(e)
      case Ok(_) => Ok(files)
  }

  /** The deploy command's series of steps with the evidently intended
      unattended branch. `program.force` is the force the interactive prompt
      leaves, or the command-line flag when unattended. */
  function RunDeploy(versionId: string, appId: Option<string>, userId: Option<string>,
                     fetched: Api.Outcome<App>, inputs: Inputs, defaultVersion: string,
                     config: DeployConfig, fs: FileSystem, glob: Glob): (r: Result<Deployed, DeployError>)
    requires inputs.InteractiveInputs? ==> ValidateVersionName(Some(inputs.answers.version)) == VersionOk
    ensures fetched.Failed? ==> r == Err(ApiFailed(fetched.error))
    ensures fetched.Done? && fetched.body.None? ==> r == Err(AppNotFound)
    ensures r.Ok? ==>
              var d := r.value;
              NoDuplicates(d.files.files)
              && "index.html" in d.files.files
              && (fetched.body.value.authType == Some("oauth") ==> "login.html" in d.files.files)
              && |d.uploads| == |d.files.files|
              && (forall i :: 0 <= i < |d.uploads| ==>
                    d.uploads[i].apiPath == "/dev/" + Str(appId) + "/deploy/" + versionId + "/"
                                            + ForwardSlashes(d.files.files[i]))
              && d.version.storageKey == versionId
              && d.version.name.Some?
  {
    match fetched
    case Failed(e) => Err(ApiFailed(e))
    case Done(None, _) => Err(AppNotFound)
    case Done(Some(app), _) =>
      var collected := CollectVersion(versionId, appId, userId, app, inputs, defaultVersion);
      if collected.Err? then Err(collected.error)
      else
        var gathered := GatherAndVerify(config, fs, glob, app.authType);
        if gathered.Err? then Err(gathered.error)
        else
          var v := collected.value.1;
          UploadPaths(appId, v.storageKey, gathered.value.files);
          Ok(Deployed(gathered.value, Uploads(appId, v.storageKey, gathered.value.files),
                      WithForce(v, collected.value.0)))
  }

  /** Every upload of a file goes to the version's storage key. */
  lemma UploadPaths(appId: Option<string>, key: string, files: seq<string>)
    ensures forall i :: 0 <= i < |files| ==>
              Uploads(appId, key, files)[i].apiPath == "/dev/" + Str(appId) + "/deploy/" + key + "/"
                                                     + ForwardSlashes(files[i])
  {
    var us := Uploads(appId, key, files);
    forall i | 0 <= i < |files|
      ensures us[i].apiPath == "/dev/" + Str(appId) + "/deploy/" + key + "/" + ForwardSlashes(files[i])
    {
      assert us[i] == UploadFor(appId, key, files[i]);
      UploadForPath(appId, key, files[i]);
    }
  }

  lemma UploadForPath(appId: Option<string>, key: string, file: string)
    ensures UploadFor(appId, key, file).apiPath == "/dev/" + Str(appId) + "/deploy/" + key + "/" + ForwardSlashes(file)
  {
    var pre := "/dev/" + Str(appId) + "/deploy/";
    assert pre + (key + "/" + ForwardSlashes(file)) == pre + key + "/" + ForwardSlashes(file);
  }
}

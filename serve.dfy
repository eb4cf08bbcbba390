/** commands/serve.js: the local development server. Option defaults and
    the build check, finding the index page, the start-up sequence, the
    registry of files the page requested, and routing a file change to a
    live-reload notification. express, the watcher and the live-reload
    broadcaster are foreign: what the command asks of them is recorded as
    effects and state. */
module Serve {
  import opened Wrappers
  import opened Paths
  import opened JsText
  import opened Dedup
  import Api
  import Log
  import IndexPage

  datatype BaseDirs = BaseDirs(debug: Path, release: Path)

  /** The command's options; `None` is an absent key. */
  datatype Program = Program(
    appId: Option<string>, protocol: Option<string>, port: Option<nat>, build: Option<string>,
    watch: Option<string>, livereload: Option<bool>, livereloadPort: Option<nat>,
    baseDirs: Option<BaseDirs>)

  const DefaultPort: nat := 3000
  const DefaultLivereloadPort: nat := 35728

  /** `_.defaults(program, {...})` followed by the `baseDirs` default: only
      missing keys are filled, both base directories being `cwd`. */
  function WithDefaults(p: Program, cwd: Path): (r: Program)
    ensures r.appId == p.appId
    ensures r.protocol == Some(p.protocol.GetOr("http")) && r.port == Some(p.port.GetOr(DefaultPort))
    ensures r.build == Some(p.build.GetOr("debug")) && r.watch == Some(p.watch.GetOr("watch"))
    ensures r.livereload == Some(p.livereload.GetOr(true))
    ensures r.livereloadPort == Some(p.livereloadPort.GetOr(DefaultLivereloadPort))
    ensures r.baseDirs == Some(p.baseDirs.GetOr(BaseDirs(cwd, cwd)))
  {
    Program(p.appId, Some(p.protocol.GetOr("http")), Some(p.port.GetOr(DefaultPort)),
            Some(p.build.GetOr("debug")), Some(p.watch.GetOr("watch")), Some(p.livereload.GetOr(true)),
            Some(p.livereloadPort.GetOr(DefaultLivereloadPort)), Some(p.baseDirs.GetOr(BaseDirs(cwd, cwd))))
  }

  predicate ValidBuild(build: string)
  {
    build == "debug" || build == "release"
  }

  /** `program.baseDirs[program.build]`. */
  function BaseDirFor(dirs: BaseDirs, build: string): Path
    requires ValidBuild(build)
  {
    if build == "debug" then dirs.debug else dirs.release
  }

  datatype ServeError =
    | InvalidBuild(message: string)
    | MissingIndexPage(message: string)
    | ApiFailed(error: Api.ApiError)
    | AppNotFound

  const InvalidBuildMessage := "Valid values for the build option are 'debug' and 'release'"
  /** `new Error(format, dir)` keeps only its first argument: the message is
      the format string itself, placeholder included. */
  const MissingIndexPageMessage := "Missing index page in %s"

  /** What the command asks of the outside world, in order. */
  datatype Effect =
    | ProbeIndexPage(path: Path)
    | FetchApp(apiPath: string)
    | WatchFiles(paths: seq<Path>)
    | RunBuildWatch(task: string)
    | ListenLiveReload(port: nat)
    | Listen(url: string)

  /** The server URL: https exactly when the app requires SSL. */
  function ServerUrl(requireSsl: bool, port: nat): (url: string)
    ensures requireSsl ==> url == "https://localhost:" + NatToString(port)
    ensures !requireSsl ==> url == "http://localhost:" + NatToString(port)
  {
    (if requireSsl then "https" else "http") + "://localhost:" + NatToString(port)
  }

  /** A running server: where it listens and what the middleware needs. */
  datatype Running = Running(url: string, indexPagePath: Path, baseDir: Path, options: Program,
                             app: IndexPage.App)

  datatype Outcome = Outcome(result: Result<Running, ServeError>, effects: seq<Effect>)

  /** The index page probed: `index.html` in the base directory of the
      build. */
  function IndexPagePathFor(program: Program, cwd: Path): Path
    requires ValidBuild(program.build.GetOr("debug"))
  {
    Join(BaseDirFor(program.baseDirs.GetOr(BaseDirs(cwd, cwd)), program.build.GetOr("debug")), ["index.html"])
  }

  /** The command from its defaults to the server listening. `fetched` is
      the API's answer; a missing app fails where line 58 dereferences it. */
  function Start(program: Program, cwd: Path, fs: FileSystem, fetched: Api.Outcome<IndexPage.App>): (o: Outcome)
    ensures !ValidBuild(program.build.GetOr("debug")) ==> o == Outcome(Err(InvalidBuild(InvalidBuildMessage)), [])
    ensures ValidBuild(program.build.GetOr("debug")) ==>
              |o.effects| > 0 && o.effects[0] == ProbeIndexPage(IndexPagePathFor(program, cwd))
    ensures ValidBuild(program.build.GetOr("debug")) && IndexPagePathFor(program, cwd) !in fs ==>
              o == Outcome(Err(MissingIndexPage(MissingIndexPageMessage)), [ProbeIndexPage(IndexPagePathFor(program, cwd))])
    ensures ValidBuild(program.build.GetOr("debug")) && IndexPagePathFor(program, cwd) in fs ==>
              |o.effects| >= 2 && o.effects[1] == FetchApp("/api/apps/" + Str(program.appId))
    ensures ValidBuild(program.build.GetOr("debug")) && IndexPagePathFor(program, cwd) in fs && fetched.Failed? ==>
              o.result == Err(ApiFailed(fetched.error)) && |o.effects| == 2
    ensures ValidBuild(program.build.GetOr("debug")) && IndexPagePathFor(program, cwd) in fs
            && fetched.Done? && fetched.body.None? ==>
              o.result == Err(AppNotFound) && |o.effects| == 2
    ensures ValidBuild(program.build.GetOr("debug")) && IndexPagePathFor(program, cwd) in fs
            && fetched.Done? && fetched.body.Some? ==>
              o.result.Ok? && o.result.value.app == fetched.body.value
              && o.result.value.indexPagePath == IndexPagePathFor(program, cwd)
    ensures o.result.Ok? ==> |o.effects| >= 3 && o.effects[|o.effects| - 1] == Listen(o.result.value.url)
                             && o.result.value.url == "https://localhost:" + NatToString(program.port.GetOr(DefaultPort))
  {
    var p := WithDefaults(program, cwd);
    var build := p.build.value;
    if !ValidBuild(build) then Outcome(Err(InvalidBuild(InvalidBuildMessage)), [])
    else
      var baseDir := BaseDirFor(p.baseDirs.value, build);
      var indexPagePath := Join(baseDir, ["index.html"]);
      var probe := [ProbeIndexPage(indexPagePath)];
      if indexPagePath !in fs then Outcome(Err(MissingIndexPage(MissingIndexPageMessage)), probe)
      else
        var fetch := probe + [FetchApp("/api/apps/" + Str(p.appId))];
        match fetched
        case Failed(e) => Outcome(Err(ApiFailed(e)), fetch)
        case Done(None, _) => Outcome(Err(AppNotFound), fetch)
        case Done(Some(app), _) =>
          var requireSsl := true;
          var livereload := p.livereload == Some(true);
          var watching := if livereload then
                            [WatchFiles([indexPagePath])]
                            + (if p.watch.value != "" then [RunBuildWatch(p.watch.value)] else [])
                          else [];
          var url := ServerUrl(requireSsl, p.port.value);
          var listening := (if livereload then [ListenLiveReload(p.livereloadPort.value)] else []) + [Listen(url)];
          Outcome(Ok(Running(url, indexPagePath, baseDir, p, app)), fetch + watching + listening)
  }

  /** A bad build value stops the command before it touches anything. */
  lemma InvalidBuildHasNoEffects(program: Program, cwd: Path, fs: FileSystem, fetched: Api.Outcome<IndexPage.App>)
    requires program.build.Some? && !ValidBuild(program.build.value)
    ensures Start(program, cwd, fs, fetched).effects == []
    ensures Start(program, cwd, fs, fetched).result == Err(InvalidBuild(InvalidBuildMessage))
  {
  }

  /** With live reload on (the default) the index page is watched before any
      request, and the live-reload server listens before the page server. */
  lemma LiveReloadStartUp(program: Program, cwd: Path, fs: FileSystem, fetched: Api.Outcome<IndexPage.App>)
    requires program.livereload != Some(false)
    requires Start(program, cwd, fs, fetched).result.Ok?
    ensures var o := Start(program, cwd, fs, fetched);
            WatchFiles([o.result.value.indexPagePath]) in o.effects
            && o.effects[|o.effects| - 2] == ListenLiveReload(program.livereloadPort.GetOr(DefaultLivereloadPort))
  {
    var p := WithDefaults(program, cwd);
    assert program.livereload.GetOr(true);
    var o := Start(program, cwd, fs, fetched);
    assert o.effects[2] == WatchFiles([o.result.value.indexPagePath]);
  }

  /** The file a request asks for: the index page for `/`, otherwise the
      request path under the base directory. */
  function AssetPath(indexPagePath: Path, baseDir: Path, reqPath: string): (a: Path)
    ensures reqPath == "/" ==> a == indexPagePath
    ensures reqPath != "/" ==> |a| == |baseDir| + |Split(reqPath)| && a[..|baseDir|] == baseDir && a[|baseDir|..] == Split(reqPath)
  {
    if reqPath == "/" then indexPagePath else Join(baseDir, Split(reqPath))
  }

  /** What `tiny-lr` is told changed. */
  datatype Target = Root | Asset(relative: Path)

  /** `onFileChanged`'s choice: `/` for the index page, the path relative to
      the base directory for a watched file (none when that is empty), and
      none for anything else. */
  function Route(indexPagePath: Path, baseDir: Path, watched: seq<Path>, changed: Path): (t: Option<Target>)
    ensures t == Some(Root) <==> changed == indexPagePath
    ensures t.Some? ==> changed == indexPagePath || changed in watched
    ensures changed != indexPagePath && changed in watched && changed != baseDir ==>
              t == Some(Asset(Relative(baseDir, changed)))
    ensures changed != indexPagePath && (changed !in watched || changed == baseDir) ==> t == None
  {
    if changed == indexPagePath then Some(Root)
    else if changed in watched then
      RelativeEmpty(baseDir, changed);
      var rel := Relative(baseDir, changed);
      if rel == [] then None else Some(Asset(rel))
    else None
  }

  /** A requested asset, once registered, routes back to the path it was
      requested under. */
  lemma RequestRoutesBack(indexPagePath: Path, baseDir: Path, watched: seq<Path>, reqPath: string)
    requires reqPath != "/" && Split(reqPath) != []
    requires AssetPath(indexPagePath, baseDir, reqPath) != indexPagePath
    requires AssetPath(indexPagePath, baseDir, reqPath) in watched
    ensures Route(indexPagePath, baseDir, watched, AssetPath(indexPagePath, baseDir, reqPath))
            == Some(Asset(Split(reqPath)))
  {
    RelativeJoin(baseDir, Split(reqPath));
  }

  /** The request log line: status 200 is green, anything else magenta. */
  function RequestLog(statusCode: nat, reqPath: string): (o: Log.Options)
    ensures o.process == Some("yoke") && o.status == Some(NatToString(statusCode))
    ensures o.color == Some(if statusCode == 200 then "green" else "magenta")
    ensures o.message == Log.Plain("Serving " + reqPath)
  {
    Log.Options(Some("yoke"), Some(NatToString(statusCode)),
                Some(if statusCode == 200 then "green" else "magenta"), Log.Plain("Serving " + reqPath))
  }

  /** The options the `/` handler passes to the page renderer. */
  function PageOptions(p: Program): IndexPage.Options
  {
    IndexPage.Options(p.build, p.livereloadPort, p.livereload, p.port)
  }

  /** Served through this command the page carries the command's defaults,
      not the renderer's: live reload on port 35728 and the CDN on port
      3000. */
  lemma PageThroughServe(program: Program, cwd: Path)
    requires program.livereloadPort.None? && program.port.None? && program.livereload.None?
    ensures var o := IndexPage.WithDefaults(PageOptions(WithDefaults(program, cwd)));
            o.livereloadPort == Some(35728) && o.port == Some(3000) && o.livereload == Some(true)
            && IndexPage.LiveReloadScript(o.livereloadPort).attrs["src"] == "//localhost:35728/livereload.js"
  {
    DefaultLiveReloadSrc();
  }

  lemma DefaultLiveReloadSrc()
    ensures IndexPage.LiveReloadScript(Some(35728)).attrs["src"] == "//localhost:35728/livereload.js"
  {
    DefaultLiveReloadPortText();
  }

  lemma DefaultLiveReloadPortText()
    ensures NatToString(35728) == "35728"
  {
    assert NatToString(3) == "3";
    assert NatToString(35) == "35";
    assert NatToString(357) == "357";
    assert NatToString(3572) == "3572";
  }

  lemma AppendAssoc(a: seq<Path>, b: seq<Path>, c: seq<Path>)
    ensures (a + b) + c == a + (b + c)
  {
  }

  /** The per-request middleware and the change handler, over the closure
      state they share. */
  class WatchRegistry {
    const indexPagePath: Path
    const baseDir: Path
    const livereload: bool
    /** `watchedFiles`. */
    var watchedFiles: seq<Path>
    /** The paths handed to the watcher. */
    var watcherPaths: seq<Path>
    /** The paths `tiny-lr` was told about, in order. */
    var notifications: seq<Target>
    /** Every asset path requested while live reload is on. */
    ghost var requested: seq<Path>

    ghost predicate Valid()
      reads this
    {
      watchedFiles == Accumulate(requested)
      && NoDuplicates(watchedFiles)
      && (livereload ==> watcherPaths == [indexPagePath] + watchedFiles)
      && (!livereload ==> watcherPaths == [] && requested == [])
    }

    constructor (indexPagePath: Path, baseDir: Path, livereload: bool)
      ensures Valid()
      ensures this.indexPagePath == indexPagePath && this.baseDir == baseDir && this.livereload == livereload
      ensures watchedFiles == [] && notifications == [] && requested == []
      ensures watcherPaths == (if livereload then [indexPagePath] else [])
    {
      this.indexPagePath := indexPagePath;
      this.baseDir := baseDir;
      this.livereload := livereload;
      watchedFiles := [];
      watcherPaths := if livereload then [indexPagePath] else [];
      notifications := [];
      requested := [];
    }

    /** The middleware: with live reload on, the requested asset is watched
      once. */
    method OnRequest(reqPath: string)
      requires Valid()
      modifies this
      ensures Valid()
      ensures notifications == old(notifications)
      ensures !livereload ==> watchedFiles == old(watchedFiles) && watcherPaths == old(watcherPaths)
      ensures livereload ==>
                var a := AssetPath(indexPagePath, baseDir, reqPath);
                requested == old(requested) + [a]
                && watchedFiles == (if a in old(watchedFiles) then old(watchedFiles) else old(watchedFiles) + [a])
                && watcherPaths == (if a in old(watchedFiles) then old(watcherPaths) else old(watcherPaths) + [a])
    {
      if livereload {
        var assetPath := if reqPath == "/" then indexPagePath else Join(baseDir, Split(reqPath));
        assert assetPath == AssetPath(indexPagePath, baseDir, reqPath);
        AccumulateSnoc(requested, assetPath);
        if assetPath !in watchedFiles {
          AppendAssoc([indexPagePath], watchedFiles, [assetPath]);
          watcherPaths := watcherPaths + [assetPath];
          watchedFiles := watchedFiles + [assetPath];
        }
        requested := requested + [assetPath];
        AccumulateElements(requested);
      }
    }

    /** The change handler: at most one notification, by `Route`. */
    method OnFileChanged(changed: Path)
      requires Valid()
      modifies this
      ensures Valid()
      ensures watchedFiles == old(watchedFiles) && watcherPaths == old(watcherPaths)
      ensures requested == old(requested)
      ensures notifications == old(notifications)
                + (match Route(indexPagePath, baseDir, watchedFiles, changed)
                   case None => []
                   case Some(t) => [t])
    {
      var target: Option<Target> := None;
      if changed == indexPagePath {
        target := Some(Root);
      } else if changed in watchedFiles {
        var rel := Relative(baseDir, changed);
        if rel != [] {
          target := Some(Asset(rel));
        }
      }
      if target.Some? {
        notifications := notifications + [target.value];
      }
    }
  }

  /** The watched files are exactly the requested assets, each once, in the
      order first requested. */
  lemma WatchedAreRequested(r: WatchRegistry)
    requires r.Valid()
    ensures forall a :: a in r.watchedFiles <==> a in r.requested
    ensures FirstSeenOrder(r.requested, r.watchedFiles)
  {
    AccumulateElements(r.requested);
    AccumulateOrder(r.requested);
  }
}

/** lib/indexPage.js: rendering the app's index page for the local server.
    Blocks meant for another build are stripped, the client configuration
    script is appended to `head`, and the live-reload script to `body`.
    The HTML parser and serialiser and `JSON.stringify` are foreign: the
    page is a tree of nodes and the configuration object stays a value. */
module IndexPage {
  import opened Wrappers
  import opened Paths
  import opened JsText

  /** A node of the parsed page. `ConfigAssignment(c)` is the text
      `__aerobatic__ = __config__ = <c as JSON>;`. */
  datatype Node =
    | Element(tag: string, attrs: map<string, string>, children: seq<Node>)
    | Text(text: string)
    | ConfigAssignment(config: ClientConfig)

  /** One entry of `app.configSettings`. */
  datatype Setting = Setting(key: string, value: string, serverOnly: Option<bool>)

  /** The app fields the page uses; `configSettings` is `None` when it is
      not an array. */
  datatype App = App(appId: Option<string>, name: Option<string>, configSettings: Option<seq<Setting>>)

  /** The `__aerobatic__` global handed to the page. */
  datatype ClientConfig = ClientConfig(
    appId: Option<string>, appName: Option<string>, env: map<string, string>,
    cdnHost: string, cdnUrl: string, versionId: string, versionName: string, appHost: string)

  /** The options the page reads. */
  datatype Options = Options(build: Option<string>, livereloadPort: Option<nat>,
                             livereload: Option<bool>, port: Option<nat>)

  const BuildAttribute := "data-aero-build"
  const DefaultLivereloadPort: nat := 35729

  /** `_.defaults(options, {build: 'debug', livereloadPort: 35729})`: only
      missing keys are filled. */
  function WithDefaults(o: Options): (r: Options)
    ensures r.build == Some(o.build.GetOr("debug"))
    ensures r.livereloadPort == Some(o.livereloadPort.GetOr(DefaultLivereloadPort))
    ensures r.livereload == o.livereload && r.port == o.port
  {
    o.(build := Some(o.build.GetOr("debug")),
       livereloadPort := Some(o.livereloadPort.GetOr(DefaultLivereloadPort)))
  }

  /** `'' + port`, where an absent port reads "undefined". */
  function PortText(port: Option<nat>): string
  {
    match port
    case None => "undefined"
    case Some(p) => NatToString(p)
  }

  // ---------------------------------------------------------------------
  // Build blocks

  /** A node survives the strip: it is not an element whose build attribute
      names another build. */
  predicate Keep(n: Node, build: string)
  {
    !(n.Element? && BuildAttribute in n.attrs && n.attrs[BuildAttribute] != build)
  }

  /** Reference definition of the strip: every element of another build is
      removed with its whole subtree. */
  function StripAll(nodes: seq<Node>, build: string): seq<Node>
    decreases nodes
  {
    if nodes == [] then []
    else
      var last := nodes[|nodes| - 1];
      StripAll(nodes[..|nodes| - 1], build) + (if Keep(last, build) then [StripNode(last, build)] else [])
  }

  function StripNode(n: Node, build: string): Node
    decreases n
  {
    match n
    case Element(tag, attrs, children) => Element(tag, attrs, StripAll(children, build))
    case _ => n
  }

  /** No element of another build is left anywhere in the tree. */
  predicate Clean(nodes: seq<Node>, build: string)
    decreases nodes
  {
    forall i :: 0 <= i < |nodes| ==>
      Keep(nodes[i], build) && (nodes[i].Element? ==> Clean(nodes[i].children, build))
  }

  /** The `$('[data-aero-build]').each(...)` pass: walks the nodes in
      document order, dropping each element of another build and descending
      into the others. */
  method StripBuildBlocks(nodes: seq<Node>, build: string) returns (r: seq<Node>)
    ensures r == StripAll(nodes, build)
    decreases nodes
  {
    r := [];
    var i := 0;
    while i < |nodes|
      invariant 0 <= i <= |nodes|
      invariant r == StripAll(nodes[..i], build)
    {
      assert nodes[..i + 1][..i] == nodes[..i];
      var n := nodes[i];
      if Keep(n, build) {
        if n.Element? {
          var children := StripBuildBlocks(n.children, build);
          n := Element(n.tag, n.attrs, children);
        }
        r := r + [n];
      }
      i := i + 1;
    }
    assert nodes[..i] == nodes;
  }

  /** After the strip no element of another build remains. */
  lemma {:induction false} StripIsClean(nodes: seq<Node>, build: string)
    ensures Clean(StripAll(nodes, build), build)
    decreases nodes
  {
    if nodes != [] {
      var init, last := nodes[..|nodes| - 1], nodes[|nodes| - 1];
      StripIsClean(init, build);
      if last.Element? {
        StripIsClean(last.children, build);
      }
      var r := StripAll(nodes, build);
      forall i | 0 <= i < |r|
        ensures Keep(r[i], build) && (r[i].Element? ==> Clean(r[i].children, build))
      {
        if i < |StripAll(init, build)| {
          assert r[i] == StripAll(init, build)[i];
        }
      }
    }
  }

  /** A page with nothing to strip is left as it is: elements of the current
      build and elements without the attribute stay, subtrees included. */
  lemma {:induction false} CleanUnchanged(nodes: seq<Node>, build: string)
    requires Clean(nodes, build)
    ensures StripAll(nodes, build) == nodes
    decreases nodes
  {
    if nodes != [] {
      var init, last := nodes[..|nodes| - 1], nodes[|nodes| - 1];
      assert Clean(init, build) by {
        forall i | 0 <= i < |init|
          ensures Keep(init[i], build) && (init[i].Element? ==> Clean(init[i].children, build))
        {
          assert init[i] == nodes[i];
        }
      }
      CleanUnchanged(init, build);
      if last.Element? {
        CleanUnchanged(last.children, build);
      }
      assert init + [last] == nodes;
    }
  }

  /** Stripping twice is stripping once. */
  lemma StripIdempotent(nodes: seq<Node>, build: string)
    ensures StripAll(StripAll(nodes, build), build) == StripAll(nodes, build)
  {
    StripIsClean(nodes, build);
    CleanUnchanged(StripAll(nodes, build), build);
  }

  // ---------------------------------------------------------------------
  // Appending scripts

  /** `$.root().find(tag).append(child)`: `child` becomes the last child of
      every element with that tag, at any depth. */
  function AppendToTag(nodes: seq<Node>, tag: string, child: Node): (r: seq<Node>)
    ensures |r| == |nodes|
    decreases nodes
  {
    if nodes == [] then []
    else AppendToTag(nodes[..|nodes| - 1], tag, child) + [AppendInNode(nodes[|nodes| - 1], tag, child)]
  }

  function AppendInNode(n: Node, tag: string, child: Node): Node
    decreases n
  {
    match n
    case Element(t, attrs, children) =>
      Element(t, attrs, AppendToTag(children, tag, child) + (if t == tag then [child] else []))
    case _ => n
  }

  /** Some element at any depth has the tag. */
  predicate HasTag(nodes: seq<Node>, tag: string)
    decreases nodes
  {
    exists i :: 0 <= i < |nodes| && nodes[i].Element? &&
      (nodes[i].tag == tag || HasTag(nodes[i].children, tag))
  }

  /** Every element with the tag, at any depth, ends with `child`. */
  predicate EndsWith(nodes: seq<Node>, tag: string, child: Node)
    decreases nodes
  {
    forall i :: 0 <= i < |nodes| && nodes[i].Element? ==>
      (nodes[i].tag == tag ==> |nodes[i].children| > 0 && nodes[i].children[|nodes[i].children| - 1] == child)
      && EndsWith(nodes[i].children, tag, child)
  }

  /** A subtree without the tag gains nothing. */
  lemma {:induction false} AppendWithoutTag(nodes: seq<Node>, tag: string, child: Node)
    requires !HasTag(nodes, tag)
    ensures AppendToTag(nodes, tag, child) == nodes
    decreases nodes
  {
    if nodes != [] {
      var init, last := nodes[..|nodes| - 1], nodes[|nodes| - 1];
      forall i | 0 <= i < |init|
        ensures !(init[i].Element? && (init[i].tag == tag || HasTag(init[i].children, tag)))
      {
        assert init[i] == nodes[i];
      }
      AppendWithoutTag(init, tag, child);
      AppendInNodeWithoutTag(last, tag, child);
      assert init + [last] == nodes;
    }
  }

  lemma {:induction false} AppendInNodeWithoutTag(n: Node, tag: string, child: Node)
    requires !(n.Element? && (n.tag == tag || HasTag(n.children, tag)))
    ensures AppendInNode(n, tag, child) == n
    decreases n
  {
    if n.Element? {
      AppendWithoutTag(n.children, tag, child);
      assert AppendToTag(n.children, tag, child) + [] == n.children;
    }
  }

  /** With no element of the tag inside `child`, every element with the tag
      ends with `child` after the append. */
  lemma {:induction false} AppendEndsWith(nodes: seq<Node>, tag: string, child: Node)
    requires !HasTag([child], tag)
    ensures EndsWith(AppendToTag(nodes, tag, child), tag, child)
    decreases nodes
  {
    if nodes != [] {
      var init, last := nodes[..|nodes| - 1], nodes[|nodes| - 1];
      AppendEndsWith(init, tag, child);
      var r := AppendToTag(nodes, tag, child);
      if last.Element? {
        AppendEndsWith(last.children, tag, child);
        ChildEndsWith(tag, child);
        EndsWithAppend(AppendToTag(last.children, tag, child), if last.tag == tag then [child] else [], tag, child);
      }
      forall i | 0 <= i < |r| && r[i].Element?
        ensures (r[i].tag == tag ==> |r[i].children| > 0 && r[i].children[|r[i].children| - 1] == child)
                && EndsWith(r[i].children, tag, child)
      {
        if i < |init| {
          assert r[i] == AppendToTag(init, tag, child)[i];
        }
      }
    }
  }

  /** A node without the tag inside satisfies `EndsWith` vacuously. */
  lemma ChildEndsWith(tag: string, child: Node)
    requires !HasTag([child], tag)
    ensures EndsWith([child], tag, child)
  {
    if child.Element? {
      assert [child][0] == child;
      assert child.tag != tag && !HasTag(child.children, tag);
      NoTagEndsWith(child.children, tag, child);
    }
  }

  lemma {:induction false} NoTagEndsWith(nodes: seq<Node>, tag: string, child: Node)
    requires !HasTag(nodes, tag)
    ensures EndsWith(nodes, tag, child)
    decreases nodes
  {
    forall i | 0 <= i < |nodes| && nodes[i].Element?
      ensures EndsWith(nodes[i].children, tag, child)
    {
      NoTagEndsWith(nodes[i].children, tag, child);
    }
  }

  lemma EndsWithAppend(a: seq<Node>, b: seq<Node>, tag: string, child: Node)
    requires EndsWith(a, tag, child) && EndsWith(b, tag, child)
    ensures EndsWith(a + b, tag, child)
  {
    var ab := a + b;
    forall i | 0 <= i < |ab| && ab[i].Element?
      ensures (ab[i].tag == tag ==> |ab[i].children| > 0 && ab[i].children[|ab[i].children| - 1] == child)
              && EndsWith(ab[i].children, tag, child)
    {
      if i < |a| { assert ab[i] == a[i]; } else { assert ab[i] == b[i - |a|]; }
    }
  }

  /** Undoing an append: the last child of every element with the tag, at
      any depth, is removed. */
  function DropLastOfTag(nodes: seq<Node>, tag: string): seq<Node>
    decreases nodes
  {
    if nodes == [] then []
    else DropLastOfTag(nodes[..|nodes| - 1], tag) + [DropLastInNode(nodes[|nodes| - 1], tag)]
  }

  function DropLastInNode(n: Node, tag: string): Node
    decreases n
  {
    match n
    case Element(t, attrs, children) =>
      Element(t, attrs, DropLastOfTag(if t == tag && children != [] then children[..|children| - 1] else children, tag))
    case _ => n
  }

  /** The append only adds: removing the last child of every element with
      the tag gives the page back, so every element keeps its tag, its
      attributes and its earlier children in order. */
  lemma {:induction false} DropLastUndoesAppend(nodes: seq<Node>, tag: string, child: Node)
    ensures DropLastOfTag(AppendToTag(nodes, tag, child), tag) == nodes
    decreases nodes
  {
    if nodes != [] {
      var init, last := nodes[..|nodes| - 1], nodes[|nodes| - 1];
      DropLastUndoesAppend(init, tag, child);
      DropLastInNodeUndoes(last, tag, child);
      var a := AppendToTag(nodes, tag, child);
      assert a[..|a| - 1] == AppendToTag(init, tag, child);
      assert a[|a| - 1] == AppendInNode(last, tag, child);
      assert init + [last] == nodes;
    }
  }

  lemma {:induction false} DropLastInNodeUndoes(n: Node, tag: string, child: Node)
    ensures DropLastInNode(AppendInNode(n, tag, child), tag) == n
    decreases n
  {
    if n.Element? {
      DropLastUndoesAppend(n.children, tag, child);
      var front := AppendToTag(n.children, tag, child);
      var cs := front + (if n.tag == tag then [child] else []);
      if n.tag == tag {
        assert cs != [] && cs[..|cs| - 1] == front;
      } else {
        assert cs == front;
      }
    }
  }

  /** Appending under another tag keeps every element with the first tag
      ending with its node, when neither appended node holds the other's
      tag. */
  lemma {:induction false} AppendKeepsEndsWith(nodes: seq<Node>, tag: string, child: Node,
                                               other: string, d: Node)
    requires tag != other && EndsWith(nodes, tag, child)
    requires !HasTag([child], other) && !HasTag([d], tag)
    ensures EndsWith(AppendToTag(nodes, other, d), tag, child)
    decreases nodes
  {
    if nodes != [] {
      var init, last := nodes[..|nodes| - 1], nodes[|nodes| - 1];
      assert EndsWith(init, tag, child) by {
        forall i | 0 <= i < |init| && init[i].Element?
          ensures (init[i].tag == tag ==> |init[i].children| > 0
                                          && init[i].children[|init[i].children| - 1] == child)
                  && EndsWith(init[i].children, tag, child)
        {
          assert init[i] == nodes[i];
        }
      }
      AppendKeepsEndsWith(init, tag, child, other, d);
      var n := AppendInNode(last, other, d);
      assert EndsWith([n], tag, child) by {
        if last.Element? {
          AppendKeepsEndsWith(last.children, tag, child, other, d);
          var front := AppendToTag(last.children, other, d);
          var extra := if last.tag == other then [d] else [];
          NoTagEndsWith([d], tag, child);
          EndsWithAppend(front, extra, tag, child);
          if last.tag == tag {
            var cs := last.children;
            assert [child][0] == child;
            AppendInNodeWithoutTag(child, other, d);
            assert front[|front| - 1] == AppendInNode(cs[|cs| - 1], other, d);
          }
          assert [n][0] == n;
        }
      }
      EndsWithAppend(AppendToTag(init, other, d), [n], tag, child);
    }
  }

  // ---------------------------------------------------------------------
  // Client configuration

  /** A setting the client may see: `serverOnly !== true`. */
  predicate Shared(s: Setting)
  {
    s.serverOnly != Some(true)
  }

  /** Reference definition of `env`: the shared settings in order, a later
      key overwriting an earlier one. */
  function EnvOf(settings: seq<Setting>): map<string, string>
  {
    if settings == [] then map[]
    else
      var last := settings[|settings| - 1];
      var env := EnvOf(settings[..|settings| - 1]);
      if Shared(last) then env[last.key := last.value] else env
  }

  /** The `_.each` over `configSettings`. */
  method BuildEnv(configSettings: Option<seq<Setting>>) returns (env: map<string, string>)
    ensures configSettings.None? ==> env == map[]
    ensures configSettings.Some? ==> env == EnvOf(configSettings.value)
  {
    env := map[];
    if configSettings.None? {
      return;
    }
    var settings := configSettings.value;
    for i := 0 to |settings|
      invariant env == EnvOf(settings[..i])
    {
      assert settings[..i + 1][..i] == settings[..i];
      if settings[i].serverOnly != Some(true) {
        env := env[settings[i].key := settings[i].value];
      }
    }
    assert settings[..|settings|] == settings;
  }

  /** A key is in `env` exactly when some shared setting carries it. */
  lemma {:induction false} EnvKeys(settings: seq<Setting>, k: string)
    ensures k in EnvOf(settings) <==> exists i :: 0 <= i < |settings| && Shared(settings[i]) && settings[i].key == k
  {
    if settings != [] {
      var init := settings[..|settings| - 1];
      EnvKeys(init, k);
      if exists i :: 0 <= i < |init| && Shared(init[i]) && init[i].key == k {
        var i :| 0 <= i < |init| && Shared(init[i]) && init[i].key == k;
        assert settings[i] == init[i];
      }
      if exists i :: 0 <= i < |settings| && Shared(settings[i]) && settings[i].key == k {
        var i :| 0 <= i < |settings| && Shared(settings[i]) && settings[i].key == k;
        if i < |init| {
          assert init[i] == settings[i];
        }
      }
    }
  }

  /** A key's value is that of the last shared setting carrying it. */
  lemma {:induction false} EnvLastWins(settings: seq<Setting>, i: nat)
    requires i < |settings| && Shared(settings[i])
    requires forall j :: i < j < |settings| && Shared(settings[j]) ==> settings[j].key != settings[i].key
    ensures settings[i].key in EnvOf(settings) && EnvOf(settings)[settings[i].key] == settings[i].value
  {
    if i < |settings| - 1 {
      var init := settings[..|settings| - 1];
      assert init[i] == settings[i];
      forall j | i < j < |init| && Shared(init[j])
        ensures init[j].key != init[i].key
      {
        assert init[j] == settings[j];
      }
      EnvLastWins(init, i);
    }
  }

  /** `buildConfigScript`'s configuration object. */
  function BuildConfig(app: App, env: map<string, string>, port: Option<nat>): (c: ClientConfig)
    ensures c.appId == app.appId && c.appName == app.name && c.env == env
    ensures c.cdnHost == "localhost:" + PortText(port) && c.cdnUrl == "//" + c.cdnHost
    ensures c.versionId == c.versionName == "local" && c.appHost == "localhost"
  {
    ClientConfig(app.appId, app.name, env, "localhost:" + PortText(port), "//localhost:" + PortText(port),
                 "local", "local", "localhost")
  }

  /** The configuration as a `<script>` element. */
  function ConfigScript(c: ClientConfig): Node
  {
    Element("script", map[], [ConfigAssignment(c)])
  }

  /** The live-reload `<script>` element. */
  function LiveReloadScript(port: Option<nat>): (n: Node)
    ensures n.Element? && n.tag == "script" && n.children == []
    ensures n.attrs == map["src" := "//localhost:" + PortText(port) + "/livereload.js"]
  {
    Element("script", map["src" := "//localhost:" + PortText(port) + "/livereload.js"], [])
  }

  // ---------------------------------------------------------------------
  // Rendering

  datatype PageError = IndexPageMissing | ReadFailed(message: string) | InvalidDocument(message: string)

  /** What reading and parsing the file gave: the parser is foreign. */
  datatype Loaded = ReadError(message: string) | ParseError(message: string) | Parsed(document: seq<Node>)

  /** The `env` of the app's settings. */
  function EnvFor(app: App): map<string, string>
  {
    if app.configSettings.None? then map[] else EnvOf(app.configSettings.value)
  }

  /** The configuration script of the page. */
  function ConfigFor(app: App, options: Options): Node
  {
    ConfigScript(BuildConfig(app, EnvFor(app), WithDefaults(options).port))
  }

  /** The transformed document once parsed: no block of another build
      remains, every `head` ends with the configuration script and, with live
      reload on, every `body` with the live-reload script; taking those
      scripts off again gives the stripped page back. */
  function Transform(document: seq<Node>, app: App, options: Options): (r: seq<Node>)
    ensures Clean(r, WithDefaults(options).build.value)
    ensures EndsWith(r, "head", ConfigFor(app, options))
    ensures options.livereload == Some(true) ==>
              EndsWith(r, "body", LiveReloadScript(WithDefaults(options).livereloadPort))
              && DropLastOfTag(DropLastOfTag(r, "body"), "head")
                 == StripAll(document, WithDefaults(options).build.value)
    ensures options.livereload != Some(true) ==>
              DropLastOfTag(r, "head") == StripAll(document, WithDefaults(options).build.value)
  {
    var o := WithDefaults(options);
    var build := o.build.value;
    var stripped := StripAll(document, build);
    var cfg := ConfigFor(app, options);
    var lr := LiveReloadScript(o.livereloadPort);
    var withConfig := AppendToTag(stripped, "head", cfg);
    StripIsClean(document, build);
    TransformFacts(stripped, build, BuildConfig(app, EnvFor(app), o.port), o.livereloadPort);
    if o.livereload == Some(true) then AppendToTag(withConfig, "body", lr)
    else withConfig
  }

  /** The facts `Transform` promises, about its two appends. */
  lemma TransformFacts(stripped: seq<Node>, build: string, c: ClientConfig, port: Option<nat>)
    requires Clean(stripped, build)
    ensures var cfg, lr := ConfigScript(c), LiveReloadScript(port);
            var withConfig := AppendToTag(stripped, "head", cfg);
            Clean(withConfig, build) && EndsWith(withConfig, "head", cfg)
            && DropLastOfTag(withConfig, "head") == stripped
            && var withBody := AppendToTag(withConfig, "body", lr);
               Clean(withBody, build) && EndsWith(withBody, "head", cfg) && EndsWith(withBody, "body", lr)
               && DropLastOfTag(withBody, "body") == withConfig
  {
    var cfg, lr := ConfigScript(c), LiveReloadScript(port);
    var withConfig := AppendToTag(stripped, "head", cfg);
    assert !HasTag(cfg.children, "head") && !HasTag(cfg.children, "body");
    assert !HasTag([cfg], "head") && !HasTag([cfg], "body");
    assert [lr][0] == lr && lr.children == [];
    assert !HasTag([lr], "body");
    assert !HasTag([lr], "head");
    assert Clean(cfg.children, build) && Clean(lr.children, build);
    AppendKeepsClean(stripped, "head", cfg, build);
    AppendEndsWith(stripped, "head", cfg);
    DropLastUndoesAppend(stripped, "head", cfg);
    AppendKeepsClean(withConfig, "body", lr, build);
    AppendEndsWith(withConfig, "body", lr);
    AppendKeepsEndsWith(withConfig, "head", cfg, "body", lr);
    DropLastUndoesAppend(withConfig, "body", lr);
  }

  /** The exported function: a missing file is an error, then the read and
      parse results, then the transform. */
  method Render(indexPagePath: Path, fs: FileSystem, loaded: Loaded, app: App, options: Options)
    returns (r: Result<seq<Node>, PageError>)
    ensures indexPagePath !in fs ==> r == Err(IndexPageMissing)
    ensures indexPagePath in fs ==>
              match loaded
              case ReadError(m) => r == Err(ReadFailed(m))
              case ParseError(m) => r == Err(InvalidDocument("Invalid index document: " + m))
              case Parsed(document) => r == Ok(Transform(document, app, options))
  {
    if indexPagePath !in fs {
      return Err(IndexPageMissing);
    }
    match loaded
    case ReadError(m) => return Err(ReadFailed(m));
    case ParseError(m) => return Err(InvalidDocument("Invalid index document: " + m));
    case Parsed(document) =>
      var o := WithDefaults(options);
      var page := StripBuildBlocks(document, o.build.value);
      var env := BuildEnv(app.configSettings);
      page := AppendToTag(page, "head", ConfigScript(BuildConfig(app, env, o.port)));
      if o.livereload == Some(true) {
        page := AppendToTag(page, "body", LiveReloadScript(o.livereloadPort));
      }
      return Ok(page);
  }

  lemma {:induction false} AppendKeepsClean(nodes: seq<Node>, tag: string, child: Node, build: string)
    requires Clean(nodes, build) && Keep(child, build)
    requires child.Element? ==> Clean(child.children, build)
    ensures Clean(AppendToTag(nodes, tag, child), build)
    decreases nodes
  {
    if nodes != [] {
      var init, last := nodes[..|nodes| - 1], nodes[|nodes| - 1];
      assert Clean(init, build) by {
        forall i | 0 <= i < |init|
          ensures Keep(init[i], build) && (init[i].Element? ==> Clean(init[i].children, build))
        {
          assert init[i] == nodes[i];
        }
      }
      AppendKeepsClean(init, tag, child, build);
      var r := AppendToTag(nodes, tag, child);
      var n := AppendInNode(last, tag, child);
      assert r == AppendToTag(init, tag, child) + [n];
      assert Keep(n, build) && (n.Element? ==> Clean(n.children, build)) by {
        if last.Element? {
          AppendKeepsClean(last.children, tag, child, build);
          var front := AppendToTag(last.children, tag, child);
          var c := front + (if last.tag == tag then [child] else []);
          assert n.children == c && n.attrs == last.attrs;
          forall i | 0 <= i < |c|
            ensures Keep(c[i], build) && (c[i].Element? ==> Clean(c[i].children, build))
          {
            if i < |front| {
              assert c[i] == front[i];
            } else {
              assert c[i] == child;
            }
          }
        }
      }
      forall i | 0 <= i < |r|
        ensures Keep(r[i], build) && (r[i].Element? ==> Clean(r[i].children, build))
      {
        if i < |init| {
          assert r[i] == AppendToTag(init, tag, child)[i];
        } else {
          assert r[i] == n;
        }
      }
    }
  }
}

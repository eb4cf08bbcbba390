/** commands/appCreate.js: the app-name rule, the template choices, the
    archive URL and the plan of tasks run in series to create the app.
    Prompts, downloads, tar extraction and child processes are foreign: the
    answers, the API outcome and the file system are parameters. */
module AppCreate {
  import opened Wrappers
  import opened Paths
  import opened JsText
  import Api

  /** A character of `/^[a-z0-9-_]+$/`: lower-case only, there is no `i`
      flag. */
  predicate AppNameChar(c: char)
  {
    IsLower(c) || IsDigit(c) || c == '-' || c == '_'
  }

  /** The format test of the app-name validator (line 166). */
  function AppNameFormatOk(input: string): (ok: bool)
    ensures ok <==> |input| > 0 && forall i :: 0 <= i < |input| ==> AppNameChar(input[i])
  {
    |input| > 0 && forall i :: 0 <= i < |input| ==> AppNameChar(input[i])
  }

  /** An upper-case letter anywhere makes a name invalid. */
  lemma UpperCaseRejected(input: string, i: nat)
    requires i < |input| && IsUpper(input[i])
    ensures !AppNameFormatOk(input)
  {
    assert !AppNameChar(input[i]);
  }

  /** `appNameExists`: the name is taken exactly when the HEAD request
      answers 200; API errors are passed on. */
  function AppNameExists<B>(o: Api.Outcome<B>): (r: Result<bool, Api.ApiError>)
    ensures o.Failed? ==> r == Err(o.error)
    ensures o.Done? ==> r == Ok(o.statusCode == 200)
  {
    match o
    case Failed(e) => Err(e)
    case Done(_, code) => Ok(code == 200)
  }

  /** What the asynchronous validator finally reports. */
  datatype NameCheck = NameOk | NameRejected(message: string) | NameError(error: Api.ApiError)

  /** The whole app-name validator (lines 163-181). The API is asked only
      when the format passes. */
  function ValidateAppName<B>(input: string, head: Api.Outcome<B>): (r: NameCheck)
    ensures !AppNameFormatOk(input) ==>
              r == NameRejected("Name may only contain letters, numbers, dashes, and underscores")
    ensures r == NameOk <==> AppNameFormatOk(input) && AppNameExists(head) == Ok(false)
    ensures AppNameFormatOk(input) && AppNameExists(head) == Ok(true) ==>
              r == NameRejected("App name " + input + " is not available.")
  {
    if !AppNameFormatOk(input) then
      NameRejected("Name may only contain letters, numbers, dashes, and underscores")
    else match AppNameExists(head)
      case Err(e) => NameError(e)
      case Ok(taken) =>
        if taken then NameRejected("App name " + input + " is not available.") else NameOk
  }

  datatype Template = Template(title: string, gitHubRepo: string, buildTools: Option<seq<string>>)

  /** A list-prompt choice: a display name and the template it selects
      (`null` for none). */
  datatype TemplateChoice = TemplateChoice(name: string, value: Option<Template>)

  /** `buildTemplateChoices`: "None" first, then one choice per template in
      the order given. */
  method BuildTemplateChoices(templates: seq<Template>) returns (choices: seq<TemplateChoice>)
    ensures |choices| == |templates| + 1
    ensures choices[0] == TemplateChoice("None", None)
    ensures forall i :: 0 <= i < |templates| ==>
              choices[i + 1] == TemplateChoice(templates[i].title, Some(templates[i]))
  {
    choices := [TemplateChoice("None", None)];
    var i := 0;
    while i < |templates|
      invariant 0 <= i <= |templates|
      invariant |choices| == i + 1
      invariant choices[0] == TemplateChoice("None", None)
      invariant forall j :: 0 <= j < i ==> choices[j + 1] == TemplateChoice(templates[j].title, Some(templates[j]))
    {
      choices := choices + [TemplateChoice(templates[i].title, Some(templates[i]))];
      i := i + 1;
    }
  }

  /** The archive of a template: the branch is the chosen build tool, or
      `master` when none was chosen (an empty answer is falsy too). */
  function ArchiveUrl(gitHubUrl: string, template: Template, buildTool: Option<string>): (url: string)
    ensures buildTool.Some? && buildTool.value != "" ==>
              url == gitHubUrl + "/" + template.gitHubRepo + "/archive/" + buildTool.value + ".tar.gz"
    ensures buildTool.None? || buildTool.value == "" ==>
              url == gitHubUrl + "/" + template.gitHubRepo + "/archive/master.tar.gz"
  {
    var branch := if buildTool.Some? && buildTool.value != "" then buildTool.value else "master";
    gitHubUrl + "/" + template.gitHubRepo + "/archive/" + branch + ".tar.gz"
  }

  /** The answers of the questionnaire. */
  datatype Answers = Answers(orgId: Option<string>, startingMode: Option<string>,
                             confirmExistingDir: Option<bool>, appName: string,
                             template: Option<Template>, buildTool: Option<string>)

  datatype Task =
    | MakeDir(dir: Path)
    | Unpack(archiveUrl: string, dest: Path)
    | NpmInstall(dir: Path)
    | BowerInstall(dir: Path)
    | CreateApp(name: string, orgId: Option<string>)
    | UpdatePackageJson(dir: Path)

  const ReRunMessage: string :=
    "Please re-run 'yoke app:create' from the root of the directory where your existing app code resides."

  /** Lines 32-77: the app directory and the tasks queued for `async.series`. */
  method PlanTasks(baseDir: Path, gitHubUrl: string, answers: Answers)
    returns (r: Result<(Path, seq<Task>), string>)
    ensures answers.confirmExistingDir == Some(false) <==> r.Err?
    ensures r.Err? ==> r.error == ReRunMessage
    ensures r.Ok? ==> var (appDir, tasks) := r.value;
              var scratch := answers.startingMode == Some("scratch");
              var pre := if scratch then [MakeDir(appDir)] else [];
              var template := if answers.template.Some? then
                                var url := ArchiveUrl(gitHubUrl, answers.template.value, answers.buildTool);
                                [Unpack(url, appDir), NpmInstall(appDir), BowerInstall(appDir)]
                              else [];
              appDir == (if scratch then Join(baseDir, [answers.appName]) else baseDir)
              && tasks == pre + template + [CreateApp(answers.appName, answers.orgId), UpdatePackageJson(appDir)]
  {
    if answers.confirmExistingDir == Some(false) {
      return Err(ReRunMessage);
    }
    var tasks: seq<Task> := [];
    var appDir;
    if answers.startingMode == Some("scratch") {
      appDir := Join(baseDir, [answers.appName]);
      tasks := tasks + [MakeDir(appDir)];
    } else {
      appDir := baseDir;
    }
    if answers.template.Some? {
      tasks := tasks + [Unpack(ArchiveUrl(gitHubUrl, answers.template.value, answers.buildTool), appDir)];
      tasks := tasks + [NpmInstall(appDir)];
      tasks := tasks + [BowerInstall(appDir)];
    }
    tasks := tasks + [CreateApp(answers.appName, answers.orgId)];
    tasks := tasks + [UpdatePackageJson(appDir)];
    return Ok((appDir, tasks));
  }

  /** The install steps run exactly when a template was chosen, in the order
      unpack, npm, bower, and always before the app is created. */
  lemma TemplateStepsOrder(tasks: seq<Task>, answers: Answers, appDir: Path, gitHubUrl: string)
    requires answers.confirmExistingDir != Some(false)
    requires var scratch := answers.startingMode == Some("scratch");
             var pre := if scratch then [MakeDir(appDir)] else [];
             var template := if answers.template.Some? then
                               var url := ArchiveUrl(gitHubUrl, answers.template.value, answers.buildTool);
                               [Unpack(url, appDir), NpmInstall(appDir), BowerInstall(appDir)]
                             else [];
             tasks == pre + template + [CreateApp(answers.appName, answers.orgId), UpdatePackageJson(appDir)]
    ensures (exists i :: 0 <= i < |tasks| && tasks[i].NpmInstall?) <==> answers.template.Some?
    ensures (exists i :: 0 <= i < |tasks| && tasks[i].Unpack?) <==> answers.template.Some?
    ensures forall i, j :: 0 <= i < |tasks| && 0 <= j < |tasks| && tasks[i].Unpack? && tasks[j].NpmInstall?
              ==> i < j
    ensures forall i, j :: 0 <= i < |tasks| && 0 <= j < |tasks| && tasks[i].NpmInstall? && tasks[j].BowerInstall?
              ==> i < j
    ensures forall i, j :: 0 <= i < |tasks| && 0 <= j < |tasks| && tasks[i].BowerInstall? && tasks[j].CreateApp?
              ==> i < j
    ensures tasks[0].MakeDir? <==> answers.startingMode == Some("scratch")
    ensures tasks[|tasks| - 1] == UpdatePackageJson(appDir)
  {
    var scratch := answers.startingMode == Some("scratch");
    var p := if scratch then 1 else 0;
    if answers.template.Some? {
      assert tasks[p].Unpack? && tasks[p + 1].NpmInstall?;
    }
  }

  /** `npmInstall` and `bowerInstall`: the installer runs only when its
      manifest exists in the app directory; otherwise the step succeeds
      without spawning anything. */
  datatype InstallStep = Skip | Spawn(command: string, args: seq<string>, cwd: Path)

  function InstallStepFor(fs: FileSystem, appDir: Path, manifest: string, command: string): (s: InstallStep)
    ensures s == Skip <==> Join(appDir, [manifest]) !in fs
    ensures s != Skip ==> s == Spawn(command, ["install"], appDir)
  {
    if Join(appDir, [manifest]) in fs then Spawn(command, ["install"], appDir) else Skip
  }

  function NpmInstallStep(fs: FileSystem, appDir: Path): InstallStep
  {
    InstallStepFor(fs, appDir, "package.json", "npm")
  }

  function BowerInstallStep(fs: FileSystem, appDir: Path): InstallStep
  {
    InstallStepFor(fs, appDir, "bower.json", "bower")
  }
}

# yoke-cli decision rules in Dafny

yoke is the command-line tool of the Aerobatic hosting platform. Developers
use it to log in, create apps from templates, run a local development
server with live reload, and deploy a new version of an app. Most of the tool
is glue between prompts, HTTP calls, child processes and an express server.
This project models the deterministic rules inside that glue and proves what
they promise:

- probing candidate directories (`lib/helper.js`);
- planning a deployment (`commands/deploy.js`):
  - the deploy-config rule and the `dist`/`build` fallback;
  - the duplicate-free file list;
  - the required pages and the version-name rule;
  - compression and upload paths;
  - the version record and its `force` handling;
- the development server (`commands/serve.js`):
  - option defaults and the build check;
  - the start-up sequence;
  - the registry of watched assets;
  - routing a changed file to a live-reload notification;
- the index page transform (`lib/indexPage.js`):
  - stripping build blocks;
  - the client configuration and its `env`;
  - the appended scripts;
- child build tools (`lib/buildTool.js`):
  - the Grunt-before-gulp choice and task normalisation;
  - the exit-code outcome;
  - cleaning child output, where `ESC [ digits m` is the subset of SGR control
    sequences (section 8.3.117 of ECMA-48) that the tool strips;
- API requests (`lib/api.js`):
  - the URL and `strictSSL` choice and the header defaults;
  - the `Authorization` header, which is HTTP Basic authentication per
    section 2 of RFC 7617 and uses base64 per section 4 of RFC 4648;
  - how status codes map to outcomes;
- the login validators and the credential-file fallback (`commands/login.js`);
- the app-name rule, template choices, archive URL and task plan
  (`commands/appCreate.js`);
- the log line layout (`lib/log.js`) and the prompt separator
  (`lib/ui/choicesHeading.js`).

The model makes these choices:

- A path is a sequence of segments, and the file system is the set of paths
  that exist.
- JavaScript's `undefined` is `None`. `'' + undefined` is the text
  "undefined".
- Colours, `JSON.stringify`, the HTML parser and serialiser, prompts,
  network calls and child processes are foreign to the model. Their results
  are parameters, and the requests made of them are values such as effects,
  tasks and records.

Modules:

- `Wrappers`, `Paths`, `JsText`, `Encoding` and `Dedup` are shared helpers.
- Every other module follows one source file: `Helper`, `Deploy`, `Serve`,
  `IndexPage`, `BuildTool`, `Api`, `Login`, `AppCreate`, `Log` and
  `ChoicesHeading`.

Where the source changes state step by step, the model is imperative:

- the candidate probe, the gathering of deploy files, the build-block strip
  and the `env` fill are loop methods, each proved equal to a reference
  function;
- the request options of `lib/api.js`, the console of `lib/log.js` and the
  watch registry of `commands/serve.js` are classes whose methods state their
  new state.

`lib/indexPage.js:56-76` builds the client configuration with no
`buildType` key, and the model follows the code. `test/commands/serve.js`
expects messages and options that `commands/serve.js` does not have, and the
model follows `commands/serve.js`.

## Model

| member | source | states |
|---|---|---|
| Helper.TakeFirstExistsPath | lib/helper.js:5-13 | returns the joined path of the first candidate that exists, with no earlier candidate existing; returns `fallback` when none exists (the empty list included); equals the reference `FirstExisting` |
| Helper.FirstExistingIsCandidateOrFallback | lib/helper.js:5-13 | the result is always `fallback` or `join(baseDir, c)` for some candidate `c` |
| Helper.EarlierCandidateWins | lib/helper.js:6-9 | when candidates `i < j` both exist, the winner is candidate `i` or an earlier one |
| Deploy.DeploySource | commands/deploy.js:97-116 | one of `deployFiles`-is-an-array and `deployBase`-is-truthy without the other is the config error; with both, the patterns and the split base are used; with neither, the first existing of `dist`, `build` and `**/*.*`, or the no-build-directory error |
| Deploy.ConventionalBase | commands/deploy.js:107-116 | without explicit config the base is `cwd/dist` if it exists, else `cwd/build` if it exists, else an error |
| Deploy.Gathered | commands/deploy.js:118-138 | the gathered list never holds a duplicate; a config error is passed on unchanged |
| Deploy.GatheredFiles | commands/deploy.js:122-132 | the gathered files are exactly the matched files, in the order each was first matched |
| Deploy.GatherDeployFiles | commands/deploy.js:94-139 | the probing and nested loops compute `Gathered`: first glob failure, else the base and the duplicate-free accumulation of every pattern's matches |
| Deploy.AddMatches | commands/deploy.js:122-132 | the inner loop appends each match not yet listed, which extends the accumulation by that pattern's matches |
| Dedup.AccumulateOrder | commands/deploy.js:126-129 | the push-if-absent list keeps first-seen order: earlier in the list means first seen earlier in the input |
| Dedup.AccumulateIdempotent | commands/deploy.js:126-129 | accumulating an already accumulated list changes nothing |
| Deploy.VerifyRequiredFiles | commands/deploy.js:82-92 | missing `index.html` fails first (with the base directory); then, under OAuth, missing `login.html` fails; success iff both conditions hold |
| Deploy.ValidateVersionName | commands/deploy.js:227-231 | accepted iff 5 to 20 characters, all letters of either case, digits, `.`, `_` or `-`; otherwise the exact message; an absent name is tested as "undefined" |
| Deploy.Extname | commands/deploy.js:264 | the extension is empty or a dot-led suffix of the file name with no `/` |
| Deploy.ExtnameOfStem | commands/deploy.js:264 | a non-empty stem followed by a one-dot extension has exactly that extension |
| Deploy.ShouldCompress | commands/deploy.js:257-265 | `index.html` and `login.html` are never compressed; any other file is iff its extension is `.html .css .js .json .txt .svg` |
| Deploy.CompressionByExtension | commands/deploy.js:257-265 | a `stem.ext` file in a sub-directory (`index.html` included) is compressed iff `.ext` is a listed extension |
| Deploy.DotFileNotCompressed | commands/deploy.js:264 | a dot-file such as `.js` has no extension and is not compressed |
| Deploy.ForwardSlashesNormal | commands/deploy.js:241 | no backslash remains, the replacement is idempotent, and a path without backslashes is unchanged |
| Deploy.UploadPath | commands/deploy.js:240-243 | the upload path is the storage key, a slash, and the file with forward slashes |
| Deploy.UploadPathInjective | commands/deploy.js:240-243 | two files without backslashes never share an upload path under one key |
| Deploy.Uploads | commands/deploy.js:233-247 | one upload per deploy file, in order, each to `/dev/<appId>/deploy/<upload path>` with its compression flag |
| Deploy.UploadPaths | commands/deploy.js:240-245 | every file is uploaded to `/dev/<appId>/deploy/<storage key>/` followed by the file with forward slashes |
| Deploy.NewVersionData | commands/deploy.js:29-35 | the storage key equals the version id |
| Deploy.DefaultVersion | commands/deploy.js:216-225 | a truthy `appVersion` wins, otherwise the timestamp |
| Deploy.Unattended | commands/deploy.js:147-163 | corrected branch: an empty version takes the default; a given one is used iff it passes `ValidateVersionName`; the message is copied and `force` is set only by `true` |
| Deploy.UnattendedAsWritten | commands/deploy.js:150-156 | as written: with no version the name stays unset, an empty version is rejected, and any given version is replaced by the default |
| Deploy.UnattendedDiscrepancy | commands/deploy.js:150-156 | as written, a valid given version is replaced by the default and an absent one leaves the version unnamed; the corrected branch does neither |
| Deploy.Interactive | commands/deploy.js:204-213 | without traffic control `force` is true, otherwise the answer; the version is named by the answer and carries its message |
| Deploy.WithForce | commands/deploy.js:308-315 | `forceAllTrafficToNewVersion` becomes "1" iff `force` is `true`, and nothing else changes |
| Deploy.InteractiveForcesWithoutTrafficControl | commands/deploy.js:205-207 | an interactive deploy of an app without traffic control always sends "1" |
| Deploy.Steps | commands/deploy.js:48-58 | corrected plan: the build step is queued iff the prompt accepted it, after input collection and before gathering |
| Deploy.StepsAsWritten | commands/deploy.js:48-58 | as written, the plan never holds the build step: it is the corrected plan with the build declined, whatever the answer |
| Deploy.BuildAnswerIgnored | commands/deploy.js:48-58 | as written, accepting the build prompt queues no build step |
| Deploy.CollectVersion | commands/deploy.js:145-214 | with the corrected unattended branch (`Deploy.Unattended`), a collected version is always named and stored under the version id |
| Deploy.GatherAndVerify | commands/deploy.js:60-68 | the verified file list is duplicate-free, holds `index.html`, and `login.html` under OAuth |
| Deploy.RunDeploy | commands/deploy.js:37-84 | an API failure or a missing app stops the deploy; a successful one uploads each file once, includes the required pages and stores every file under the version id; with the corrected unattended branch it also names the version |
| Serve.WithDefaults | commands/serve.js:21-43 | only missing options are filled: http, port 3000, build `debug`, watch `watch`, live reload on, port 35728, both base directories `cwd` |
| Serve.Start | commands/serve.js:20-77 | a bad build value returns the error with no effect; otherwise the index page is probed first; a missing index page ends there with "Missing index page in %s"; otherwise the app is fetched from `/api/apps/<appId>` second, and a failed fetch or an absent app ends there; a fetched app starts the server on that page and app, listening last at `https://localhost:<port>` |
| Serve.InvalidBuildHasNoEffects | commands/serve.js:32-35 | a build other than `debug`/`release` yields the exact error before any discovery, API call or listen |
| Serve.LiveReloadStartUp | commands/serve.js:60-67 | with live reload on, the index page is watched and the live-reload server listens just before the page server |
| Serve.ServerUrl | commands/serve.js:187-198 | the URL is https iff SSL is required, else http, on the given port |
| Serve.AssetPath | commands/serve.js:129-133 | `/` maps to the index page; any other request path maps to its segments under the base directory |
| Serve.Route | commands/serve.js:84-88 | `/` iff the index page changed; a watched file routes to its path relative to the base; anything else, or an empty relative path, routes nowhere |
| Serve.RequestRoutesBack | commands/serve.js:84-88 | a requested and watched asset routes back to the path it was requested under |
| Serve.RequestLog | commands/serve.js:142-150 | each request is logged in the `yoke` column with its status, green for 200 and magenta otherwise |
| Serve.PageThroughServe | commands/serve.js:155-163 | through this command the page gets live reload on port 35728 and the CDN on port 3000, not the renderer's defaults |
| Serve.WatchRegistry.constructor | commands/serve.js:45 | nothing is watched yet; with live reload on, the watcher starts on the index page |
| Serve.WatchRegistry.OnRequest | commands/serve.js:125-140 | with live reload on, the asset is appended to the watched files and the watcher only if absent; with it off nothing changes; the registry stays duplicate-free |
| Serve.WatchRegistry.OnFileChanged | commands/serve.js:79-95 | at most one notification, exactly the one `Route` gives, and the registry is unchanged |
| Serve.WatchedAreRequested | commands/serve.js:135-139 | the watched files are exactly the requested assets, each once, in first-request order |
| IndexPage.WithDefaults | lib/indexPage.js:6-9 | only a missing build (`debug`) or live-reload port (35729) is filled |
| IndexPage.StripBuildBlocks | lib/indexPage.js:27-31 | the document-order walk computes the reference strip `StripAll` |
| IndexPage.StripIsClean | lib/indexPage.js:27-31 | no element whose `data-aero-build` names another build remains at any depth |
| IndexPage.CleanUnchanged | lib/indexPage.js:27-31 | elements of the current build and elements without the attribute stay, subtrees included |
| IndexPage.StripIdempotent | lib/indexPage.js:27-31 | stripping twice equals stripping once |
| IndexPage.AppendToTag | lib/indexPage.js:33-42 | appending keeps the number of top-level nodes |
| IndexPage.DropLastUndoesAppend | lib/indexPage.js:33-42 | the append only adds: removing the last child of every element with the tag gives the page back, so tags, attributes and earlier children are kept in order |
| IndexPage.AppendKeepsEndsWith | lib/indexPage.js:36-42 | appending under `body` keeps every `head` ending with the configuration script |
| IndexPage.AppendEndsWith | lib/indexPage.js:33-42 | after the append every element with the tag, at any depth, ends with the appended node |
| IndexPage.AppendWithoutTag | lib/indexPage.js:38-42 | a page without the tag is left unchanged |
| IndexPage.AppendKeepsClean | lib/indexPage.js:33-42 | appending a clean node to a clean page keeps it free of other builds' blocks |
| IndexPage.BuildEnv | lib/indexPage.js:63-68 | the loop computes the reference `EnvOf`; settings that are not an array give an empty env |
| IndexPage.EnvKeys | lib/indexPage.js:63-68 | a key is in env iff some setting that is not server-only carries it |
| IndexPage.EnvLastWins | lib/indexPage.js:64-67 | a key's value is that of the last shared setting carrying it |
| IndexPage.BuildConfig | lib/indexPage.js:54-77 | app id and name from the app, the env, `localhost:<port>` and `//localhost:<port>`, version id and name `local`, host `localhost` |
| IndexPage.LiveReloadScript | lib/indexPage.js:41-42 | a script element with src `//localhost:<port>/livereload.js` |
| IndexPage.Render | lib/indexPage.js:5-52 | a missing file is an error; then read and parse errors; otherwise the transform |
| IndexPage.Transform | lib/indexPage.js:26-44 | the page holds no block of another build; every `head` ends with the configuration script; with live reload on every `body` ends with the live-reload script; taking the appended scripts off gives the stripped page back |
| BuildTool.StripSgr | lib/buildTool.js:59 | the result is no longer than its input |
| BuildTool.StripSgrRender | lib/buildTool.js:59 | on text made of characters and well-formed `ESC [ digits m` sequences, the strip leaves exactly the visible characters |
| BuildTool.StripSgrNoEscape | lib/buildTool.js:59 | text without ESC is unchanged |
| BuildTool.SinglePass | lib/buildTool.js:59 | an `ESC [` in front of a removed code survives the pass, though the removal exposes a new code |
| BuildTool.DropChevrons | lib/buildTool.js:60 | one leading `>>` is removed, and only when present |
| BuildTool.FixChildProcessOut | lib/buildTool.js:54-63 | the cleaned text is the trim of the stripped text without its `>>`, has no whitespace at either end, and the second trim changes nothing |
| BuildTool.FixChildProcessOutTrimmed | lib/buildTool.js:54-63 | the cleaned text has no leading or trailing whitespace, and the second trim changes nothing |
| BuildTool.FixGruntLine | lib/buildTool.js:54-63 | a styled `>>` line from Grunt cleans to its visible text |
| BuildTool.DetermineBuildTool | lib/buildTool.js:73-89 | Grunt iff `Gruntfile.js` exists; gulp iff only `gulpfile.js` exists; no tool iff neither exists |
| BuildTool.NormalizeTasks | lib/buildTool.js:20-21 | a single task name becomes a one-element list, and a list is kept |
| BuildTool.OutputRecords | lib/buildTool.js:32-43 | every record is in the tool's column, and stdout that cleans to nothing is never logged |
| BuildTool.OutputRecordsAppend | lib/buildTool.js:32-43 | output events arriving in two batches log the first batch's records followed by the second's |
| BuildTool.OutputRecordsSnocStdout | lib/buildTool.js:33-37 | a stdout `data` event appends one record in the tool's column with the cleaned text, or nothing when the text cleans to the empty string |
| BuildTool.OutputRecordsSnocStderr | lib/buildTool.js:39-42 | a stderr `data` event appends one record in the tool's column with status `ERR!`, colour `bgRed` and the raw text |
| BuildTool.RunBuildTool | lib/buildTool.js:15-50 | no build file: the one record is the warning "Could not find either a Gruntfile.js or gulpfile.js", nothing is spawned and the outcome is success; otherwise the first record is the info "Running <tool> <tasks>", the tool runs with the normalised tasks, the remaining records are exactly `OutputRecords` of the child's output when output is normalised and none otherwise, and the run fails iff the exit code is not 0, carrying the tasks and code (lib/buildTool.js:82-85) |
| JsText.TrimIsTrimmedSlice | lib/buildTool.js:61 | the trim is a slice of its input with no whitespace at either end and only whitespace removed |
| JsText.TrimEnds | lib/buildTool.js:61 | the trim has no whitespace at either end |
| JsText.TrimIdempotent | lib/buildTool.js:62 | trimming twice equals trimming once |
| Api.RequestUrl | lib/api.js:14-21 | `apiUrl + path` when `apiUrl` is set; else the dev host when `dev === true`; else the production host |
| Api.RequestOptions.Prepare | lib/api.js:7-27 | method `post`, JSON and `strictSSL` true fill only absent options; `strictSSL` is false only for the dev host; the URL is chosen; the three headers are merged over the caller's |
| Api.ApiHeaders | lib/api.js:23-27 | exactly `User-Agent` (`yoke-cli@<version>`), `Authorization` and `Accept: application/json` |
| Api.HeadersOverwrite | lib/api.js:23-27 | the three headers replace caller headers of the same name, and every other caller header is kept |
| Api.Authorization | lib/api.js:25 | `Basic ` followed by base64 that decodes to the UTF-8 bytes of `userId:secretKey` |
| Api.AuthorizationDecodes | lib/api.js:25 | the header is `Basic ` followed by base64 that decodes to the UTF-8 bytes of `userId:secretKey` |
| Api.AuthorizationAscii | lib/api.js:25 | for ASCII credentials the decoded bytes are the characters of `userId:secretKey` |
| Encoding.DecodeEncode | lib/api.js:25 | base64 decoding inverts encoding |
| Encoding.EncodeLength | lib/api.js:25 | the encoding has four characters for every started group of three bytes |
| Encoding.EncodeAlphabet | lib/api.js:25 | encoded text uses only the base64 alphabet and `=` |
| Encoding.EncodeInjective | lib/api.js:25 | two byte strings with the same base64 encoding are equal |
| Api.HandleResponse | lib/api.js:30-47 | a transport error is passed on; 200, 201 and 202 succeed with body and code; 401 is the Unauthorized error; 404 is no error with no body; any other code is an HTTP error |
| Api.OutcomeClasses | lib/api.js:34-47 | a response succeeds with a body iff its code is 200, 201 or 202 |
| Login.ValidateUserId | commands/login.js:49-54 | valid iff non-empty and every character is an ASCII letter, digit, `-` or `_` |
| Login.ValidateSecretKey | commands/login.js:60-67 | empty or non-alphanumeric keys fail on characters first; other keys fail on length unless exactly 32; valid iff 32 ASCII alphanumerics |
| Login.SecretKeyIsUserIdShaped | commands/login.js:50-64 | every valid key would pass the userId rule, and `a-b` separates the two rules |
| Login.ExistingUserId | commands/login.js:25-41 | an unreadable or unparsable file offers no default; otherwise its `userId` |
| Login.FirstAccepted | commands/login.js:44-81 | the answer settled on is the first typed one the question's validator accepts; every earlier one is rejected |
| Login.RunLogin | commands/login.js:14-88 | the prompt is offered the stored `userId`; something is written iff each question gets an acceptable answer; the written `userId` and `secretKey` are the first accepted answers, an empty `userId` answer taking the stored default |
| Login.EnterKeepsStoredUserId | commands/login.js:47-49 | pressing enter at the first question keeps a valid stored `userId` |
| AppCreate.AppNameFormatOk | commands/appCreate.js:166 | the format passes iff non-empty and only `a-z`, digits, `-` or `_` |
| AppCreate.UpperCaseRejected | commands/appCreate.js:166 | a name with an upper-case letter fails: there is no case-insensitive flag |
| AppCreate.AppNameExists | commands/appCreate.js:288-299 | the name is taken iff the HEAD request returns 200; API errors are passed on |
| AppCreate.ValidateAppName | commands/appCreate.js:163-181 | a bad format fails with its message first; the name is accepted iff well-formed and not taken |
| AppCreate.BuildTemplateChoices | commands/appCreate.js:215-225 | `None` first, then one choice per template in order, n+1 choices in all |
| AppCreate.ArchiveUrl | commands/appCreate.js:251-255 | `gitHubUrl/gitHubRepo/archive/<branch>.tar.gz`, the branch being the build tool, or `master` when it is absent or empty |
| AppCreate.PlanTasks | commands/appCreate.js:32-77 | declined existing directory is the re-run error; scratch mode uses `baseDir/appName` and starts with mkdir; a template adds unpack, npm and bower; create-app and the package.json update always end the plan |
| AppCreate.TemplateStepsOrder | commands/appCreate.js:50-77 | unpack, npm and bower run iff a template was chosen, in that order, before create-app; the package.json update is last |
| AppCreate.InstallStepFor | commands/appCreate.js:227-249 | the installer runs in the app directory iff its manifest exists, and is skipped otherwise |
| Log.ApplyDefaults | lib/log.js:46-50 | `yoke`, `info` and `green` fill only missing keys |
| Log.PadRight | lib/log.js:53 | the process column is left-justified to width 6, longer names unchanged |
| Log.StatusColumnWidth | lib/log.js:55-57 | a status of at most 6 characters plus its padding spans exactly 6 columns |
| Log.SplitLinesCount | lib/log.js:52 | a message with k newlines has k+1 lines |
| Log.JoinSplitLines | lib/log.js:52 | joining the lines with newlines gives back the message |
| Log.RecordsAsWritten | lib/log.js:52-59 | as written, five spans per line of the message |
| Log.RecordsAsWrittenLength | lib/log.js:52-59 | as written, each line produces a record and every record writes the whole message |
| Log.RecordsCarryLines | lib/log.js:52-59 | corrected: each record writes its own line, and the records' messages are exactly the lines |
| Log.TwoLineMessageIsDuplicated | lib/log.js:52-58 | as written, the message `a\nb` is written twice in full; corrected, once per line |
| Log.LevelOptions | lib/log.js:6-31 | each level's status and colour: debug/magenta, `ERR!`/bgRed, `WARN`/yellow, `info`/green, `OK!`/bgGreen; only success styles its message |
| Log.LevelColumns | lib/log.js:11-28 | every level's status fits the 6-column status field |
| Log.Console.Log | lib/log.js:37-60 | the output grows by one record per message line, as written |
| Log.Console.Level | lib/log.js:6-31 | debug writes nothing unless `YOKE_DEBUG` is "1"; other levels always write |
| Log.Console.Http | lib/log.js:33-35 | writes `yoke`, the green status code and the URL path |
| Log.Console.BlankLine | lib/log.js:41-43 | writes a single newline |
| ChoicesHeading.NewSeparator | lib/ui/choicesHeading.js:23-27 | type `separator`; the line is dim 7 copies of the line figure, the heading, and 7 copies again |
| ChoicesHeading.ArrayJoinCopies | lib/ui/choicesHeading.js:25 | `new Array(n).join(s)` is n-1 copies of `s` |
| ChoicesHeading.Exclude | lib/ui/choicesHeading.js:36-38 | false iff the object's type is `separator` |
| ChoicesHeading.ToString | lib/ui/choicesHeading.js:46-48 | returns the line unchanged |
| ChoicesHeading.SeparatorExcluded | lib/ui/choicesHeading.js:23-38 | a new separator is always excluded from the choices |

## Left out

- Network, file and process I/O are left out. This covers HTTP requests, uploads, gzip and tar streams, `fs.exists` and `fs.readFile`, spawning `npm`, `bower`, `grunt` and `gulp`, and opening a browser. Their results are parameters: a file-system set, a glob function, an API outcome, a child's output and exit code, a loaded document.
- Concurrency is left out. `async.each` over deploy patterns and uploads and `async.parallel` in `commands/appCreate.js` are modelled as sequential folds, so the order the model gives is one possible completion order.
- Node path normalisation is left out. `Paths.Split` drops empty and `.` segments but does not resolve `..`, does not decode URLs, and does not handle Windows separators. `Paths.Relative` assumes normalised paths.
- Strings are sequences of Unicode scalar values, not UTF-16 code units. Lengths counted by JavaScript can differ for characters outside the Basic Multilingual Plane.
- `JSON.stringify`, the HTML parser and serialiser, chalk colours, `printf`, `figures` and `util.format` are abstract. A coloured span is a style name and its text. The configuration script holds the configuration value. `log.messageBox` is not part of this model.
- Errors whose message embeds a path or a cause are modelled as error kinds rather than strings. Examples are the required-page errors of `commands/deploy.js` and the glob failure. The missing-index error of `commands/serve.js:105` embeds no path: `new Error` ignores its second argument, so its message is the literal "Missing index page in %s", which the model keeps.
- Deploy.RunDeploy: the build step itself (`npm run-script build`) is a child process and is not run; `Deploy.Steps` models only when it is scheduled. The failure of an individual upload is not modelled.
- Deploy.RunDeploy: a missing app (the API's 404 answer, a null body) is the `AppNotFound` error. The source instead fails on a null dereference.
- Serve.Start: a missing app is the `AppNotFound` error where `commands/serve.js:58` dereferences null. The https key and certificate, CORS, static file serving and the 404 and error handlers are not modelled.
- Api.HandleResponse: for codes other than 200, 201, 202, 401 and 404, `lib/api.js:46` reads `err.message` of a null `err`. The model gives the generic `HttpFailure(code)` error instead of that crash.
- IndexPage.Render: `lib/indexPage.js:12` refers to an undefined `path` when the file is missing. The model gives the `IndexPageMissing` error instead.
- BuildTool.RunBuildTool: `spawnOptions` (`stdio: 'inherit'`) is built but never passed to `spawn` (`lib/buildTool.js:24-31`), so it has no effect and is not modelled.
- Deploy.VerifyRequiredFiles: the OAuth message's `%s` placeholder is left unfilled in the source (`commands/deploy.js:89`). The model returns the error kind only.
- `shortid` ids, `os.tmpdir()` names and the clock are parameters, for example the version id and the timestamp for the default version name.
- commands/appBind.js, lib/uiHelper.js, lib/spawn.js, lib/preprocessors.js and Gruntfile.js are not part of this model. They are prompts, output, process wrappers and build configuration.
- Deploy.RunDeploy: the `createNewVersion` POST (`commands/deploy.js:308-330`) is assumed to succeed. Its failure is not modelled.
- Serve.Start: `commands/serve.js:66` starts the watch task with `buildTool(program.watch, {normalizeStdio: true})` and no callback. `lib/buildTool.js:17` and `:49` then call an undefined `callback` when neither build file exists or when the watch task exits. Neither that crash nor the watch task's output is modelled; the start-up records only that the task is run.
- Login.RunLogin: inquirer itself is foreign. The model assumes it validates an empty answer as the question's default, and asks again after each rejected answer. A question that never gets an acceptable answer gives no result, where the real prompt keeps waiting.
- `validateFile` in `commands/deploy.js:141-143` always returns `true`, so its check never fires and it is not modelled.
- IndexPage.StripBuildBlocks: the source removes elements from a mutable DOM. The model rebuilds the tree as a value, so node identity and aliasing are not captured.

## Findings

| source | as written | input that shows it | evidently intended | confidence | as-written member | corrected member |
|---|---|---|---|---|---|---|
| lib/log.js:52-58 | every line of a multi-line message writes the whole message | message `a\nb` writes `a\nb` twice | each record writes its own line | high, not executed | Log.TwoLineMessageIsDuplicated | Log.RecordsCarryLines |
| commands/deploy.js:150-156 | an unattended deploy validates the version only when it is empty, and replaces a non-empty version with the default | `--version v1.0.0` deploys under the default name; no version leaves the version unnamed | an empty version takes the default; a given one is validated and used | high, not executed | Deploy.UnattendedAsWritten, Deploy.UnattendedDiscrepancy | Deploy.Unattended |
| commands/deploy.js:48-58 | `runBuildStep` is tested while the task list is built, before the prompt sets it | answering yes to the build prompt runs no build | the build runs after the prompt when it was accepted | high, not executed | Deploy.StepsAsWritten, Deploy.BuildAnswerIgnored | Deploy.Steps |

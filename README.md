# intelligent-security-scan, step glue, in Dafny

This project models `index.js`, the script behind the Intelligent Security
Scan GitHub action. It reads the action inputs and the GitHub environment
and derives the SCM context (owner, repository, branch). When the
configuration asks for it, it runs the ephemeral-server handshake. It then
dispatches on the `stage` input:

- **IO**: download and run `prescription.sh`, read `result.json`, publish one
  step output per allow-listed activity and then the run id, optionally log
  the risk score card, and clean up.
- **WORKFLOW**: reuse or download the script, generate the workflow file, and
  run the workflow client only when that succeeded.
- **any other stage**: report an error.

The model has these modules:

- `Wrappers`: `Option`, where `None` stands for JavaScript's `undefined`.
- `JsText`: `String.prototype.split` with a one-character separator, its
  inverse `join`, indexing past the end, and ASCII case mapping.
- `Scm`: the SCM context and the branch name taken from `GITHUB_REF` or
  `GITHUB_HEAD_REF`.
- `Persona`: `getPersona`, both as the function that specifies it and as the
  loop it is.
- `Activities`: the activity allow-list and the outputs it produces.
- `Files`: `removeFiles` over the set of paths that exist.
- `Plan`: one whole run as a function of the inputs, the environment, what
  the external programs do (their exit codes and the files they leave) and
  the start state. It also holds the lemmas about a run.
- `Action`: class `Runner`. Its fields are the run's observable state. Its
  methods perform the run step by step, and each one is proved to end in the
  state the matching `Plan` function gives. The runner performs the
  evidently intended run, `Plan.Execute`. `Plan.ExecuteAsWritten` is the
  run with the two defects listed under "Findings".

## Model

| member | source | states |
|---|---|---|
| JsText.Split | index.js:21-22 | `split` with a one-character separator always returns at least one piece, and no piece contains the separator |
| JsText.Join | index.js:158 | the action never calls `join`: this is the inverse of the `split` on line 158, used to build argument strings from tokens; `JoinSplit` and `SplitJoin` prove it the inverse |
| JsText.JoinSplit | index.js:21-22 | joining the pieces of `split` with the same separator gives back the original string |
| JsText.SplitJoin | index.js:158-160 | splitting a `join` of separator-free pieces (at least one) gives back exactly those pieces |
| JsText.SplitPrefix | index.js:28 | a separator-free prefix merges into the first piece, and the later pieces are unchanged |
| JsText.SplitKeepsAbsent | index.js:160 | a character missing from the string is missing from every piece |
| JsText.At | index.js:22 | definition of indexing an array, `undefined` past its end |
| JsText.ToUpper | index.js:47 | definition of `toUpperCase` on ASCII letters; `UpperEqualIffLowerEqual` relates it to `ToLower` |
| JsText.ToLower | index.js:67 | definition of `toLowerCase` on ASCII letters; `UpperEqualIffLowerEqual` relates it to `ToUpper` |
| JsText.CaseFoldAgree | index.js:47 | two characters have the same upper case form iff they have the same lower case form |
| JsText.UpperEqualIffLowerEqual | index.js:47 | two strings agree after `toUpperCase` iff they agree after `toLowerCase` |
| Scm.BranchName | index.js:23-31 | definition of the branch rule; `BranchOfPush`, `ShortRefHasNoBranch` and `BranchOfOtherEvents` state its cases |
| Scm.ContextOf | index.js:20-31 | definition of the SCM flags; `OwnerAndRepo` states the owner and repository name, and `BranchName`'s lemmas the branch |
| Scm.OwnerAndRepo | index.js:21-22 | for a repository `owner/repo` with no other slashes, the owner and repo name are those two parts |
| Scm.BranchOfPush | index.js:27-28 | for push or workflow_dispatch with ref `a/b/name...`, the branch is the third `/` piece, `name`, whatever follows |
| Scm.FirstPieceBeforeSlash | index.js:28 | a slash-free segment followed by nothing or by a new segment is the whole first piece |
| Scm.ShortRefHasNoBranch | index.js:27-28 | for push or workflow_dispatch, a ref with fewer than three pieces gives an undefined branch |
| Scm.BranchOfOtherEvents | index.js:23-31 | pull_request takes `GITHUB_HEAD_REF` as it is; any other event keeps the branch "" |
| Scm.BranchExampleMain | index.js:27-28 | push with `refs/heads/main` gives branch `main` |
| Scm.BranchExampleNested | index.js:27-28 | workflow_dispatch with `refs/heads/feat/x` gives `feat`, not `feat/x` |
| Scm.BranchExamplePullRequest | index.js:27-31 | pull_request with head ref `feature-x` gives `feature-x`; a `schedule` event gives "" |
| Persona.FirstPersona | index.js:159-165 | definition of the search over the tokens; `FirstPersonaAt` and `FirstPersonaAbsent` state its two outcomes |
| Persona.GetPersona | index.js:157-165 | definition of `getPersona`; `GetPersonaSome` and `GetPersonaNone` characterise its result |
| Persona.FindPersona | index.js:157-165 | the loop that returns early on the first `--persona` token returns `GetPersona` of the arguments |
| Persona.FirstPersonaAt | index.js:159-163 | the first token whose `=`-name is exactly `--persona` decides the result, whatever follows it |
| Persona.FirstPersonaAbsent | index.js:159-165 | if no token names the option, the result is undefined |
| Persona.FirstOrNone | index.js:159-165 | either some token is the first to name the option, or none does |
| Persona.FirstIsUnique | index.js:159-163 | there is at most one first matching token |
| Persona.GetPersonaSome | index.js:157-165 | the result is `v` iff the first `--persona` token has `v` as its second `=`-piece |
| Persona.GetPersonaNone | index.js:157-165 | the result is undefined iff no token names the option, or the first one that does has no `=` |
| Persona.PersonaIsOnePiece | index.js:158-162 | a defined persona contains neither a space nor an `=` |
| Persona.PersonaOfTokens | index.js:157-165 | for arguments made of space-free tokens, the persona is the second `=`-piece of the first matching token |
| Persona.FirstPieceOf | index.js:160-161 | `x=y` splits on `=` into a first piece `x`, and into exactly `[x, y]` when `y` has no `=` |
| Persona.PersonaAfterOption | index.js:157-165 | an earlier non-persona option is skipped and the later `--persona=value` is returned |
| Persona.PersonaStopsAtSecondEquals | index.js:160-162 | `--persona=value=rest` gives `value`; everything after the second `=` is dropped |
| Persona.BareFlagGivesUndefined | index.js:161-162 | a bare `--persona` token ends the search with undefined, even when a later token has a value |
| Persona.FlagIsOnePiece | index.js:161 | `--persona` contains neither a space nor `=`, so it splits on `=` into itself |
| Persona.WithoutSeparator | index.js:158-160 | a string without the separator splits into itself alone |
| Persona.PersonaExampleSecondToken | index.js:157-165 | `--foo=bar --persona=devsecops` gives `devsecops` |
| Persona.PersonaExampleSecondPiece | index.js:160-162 | `--persona=a=b` gives `a` |
| Persona.PersonaExampleBareFlag | index.js:161-162 | `--persona --persona=devsecops` gives undefined |
| Persona.PersonaExampleNoMatch | index.js:161 | `--personas=devsecops` gives undefined, because the name must match exactly |
| Persona.PersonaExampleEmpty | index.js:157-165 | empty arguments give undefined |
| Activities.OutputOf | index.js:67-69 | definition of one activity's output under the allow-list; `SingleActivity` and `OutputMembership` state it |
| Activities.ActivityOutputs | index.js:66-75 | definition of the loop's outputs; `ActivityOutputsAppend`, `OutputMembership`, `OutputCount` and `OutputNamesAllowListed` state its properties |
| Activities.PublishedOutputs | index.js:66-81 | definition of everything the IO stage publishes; `RunIdOnceAndLast` states its shape |
| Activities.ActivityOutputsAppend | index.js:66-75 | the loop's outputs for `xs + ys` are those for `xs` followed by those for `ys` |
| Activities.ActivityOutputsSnoc | index.js:66-75 | one more activity adds its output, if it has one, at the end |
| Activities.SingleActivity | index.js:67-69 | one activity yields one output, named by the allow-list entry for its lower-cased key, iff that key is allow-listed; otherwise nothing |
| Activities.OutputMembership | index.js:66-75 | an output appears iff some activity has an allow-listed lower-cased key that maps to the output's name, with the `enabled` value as its value |
| Activities.OutputCount | index.js:66-75 | outputs plus activities skipped for an unlisted key equals the number of activities |
| Activities.OutputNamesAllowListed | index.js:63-69 | every activity output is named by an allow-list value, and none is named `runId` |
| Activities.RunIdOnceAndLast | index.js:66-81 | the published outputs hold exactly one `runId` output, the last, carrying the run id |
| Activities.PublishedExampleSca | index.js:63-81 | an `sca` activity publishes `scaScan` and then `runId` |
| Activities.PublishedExampleMixed | index.js:63-81 | `fuzz` is skipped and `SAST` publishes `sastScan`, in order, before `runId` |
| Activities.EchoAsWritten | index.js:63-69 | definition of the as-written lookup with its inherited members and the shell's reading of the echo; `ProtoKeyLeaks`, `ConstructorKeyBreaksEcho` and `EchoAgrees` state its cases |
| Activities.ActivityOutputsAsWritten | index.js:66-75 | definition of the outputs the as-written loop prints; `AsWrittenAgreesElsewhere` relates it to `ActivityOutputs` |
| Activities.ProtoKeyLeaks | index.js:63-69 | as written, an activity keyed `__proto__` publishes an output named `[object Object]`; the allow-list alone publishes nothing for it |
| Activities.ConstructorKeyBreaksEcho | index.js:67-69 | as written, an activity keyed `constructor` passes the test and its echo is a shell syntax error; the allow-list has no output for it |
| Activities.EchoAgrees | index.js:67-69 | for any key but `constructor` and `__proto__`, the as-written echo prints exactly the allow-list's output, or nothing |
| Activities.AsWrittenAgreesElsewhere | index.js:66-75 | when no key is `constructor` or `__proto__`, the as-written loop and the allow-list loop publish the same outputs |
| Files.Exists | index.js:148 | definition of `fs.existsSync`: a path that exists and is not "" |
| Files.Removed | index.js:146-155 | definition of the loop over the names; `RemovedIsDifference` states its result |
| Files.RemovedIsDifference | index.js:146-155 | `removeFiles` leaves exactly the paths that existed and were not listed, where "" names no file |
| Files.RemovedFrame | index.js:146-155 | afterwards a listed non-empty path does not exist, and any other path exists iff it did before |
| Files.RemovedIdempotent | index.js:146-155 | removing twice is removing once; repeating the list, or adding paths that are listed or missing, changes nothing |
| Files.RemovedOrderFree | index.js:146-155 | only which paths are listed matters, not their order or repeats |
| Files.RemovedEmptyPath | index.js:137 | `removeFiles([""])` removes nothing |
| Plan.NeedsEphemeralAuth | index.js:33 | definition of the handshake condition; `AuthenticateCleansUp` states its effect |
| Plan.EffectiveToken | index.js:33-41 | definition of the token in force; `CommandsCarryTokenAndContext` states that every command gets it |
| Plan.ReportsRisk | index.js:83 | definition of the devsecops test; `IoRiskThrows` states what it triggers |
| Plan.RemoveAll | index.js:146-155 | `removeFiles` on the run state, in the closed form `Files.RemovedIsDifference` proves of the loop |
| Plan.Spawn | index.js:52-55 | definition of one `shell.exec`; `Action.Runner.Launch` performs it |
| Plan.Flag | index.js:56-59 | definition of the exit-code check, the same at lines 70-73, 78-81 and 121-124; `Action.Runner.Check` performs it |
| Plan.Throw | index.js:142-143 | definition of the top-level `catch`; `Action.Runner.Catch` performs it |
| Plan.Fetch | index.js:52-54 | definition of the wget, chmod and sed of the script, the same at lines 103-105 |
| Plan.SelectStage | index.js:47-141 | definition of the stage dispatch; `SelectStageIgnoresCase` states it |
| Plan.ManifestFile | index.js:110-118 | the manifest path is non-empty iff the type is `yml` or `json`, and then it is `io.` followed by the type |
| Plan.SelectStageIgnoresCase | index.js:47-141 | the IO branch runs iff the lower-cased stage is `io`, WORKFLOW iff it is `workflow`, and the error branch otherwise |
| Plan.SelectStageExamples | index.js:47-141 | `io` and `IO` select IO; `workflow` and `Workflow` select WORKFLOW; `""` and `I O` are invalid |
| Plan.Authenticate | index.js:33-44 | definition of the evidently intended handshake; `AuthenticateCleansUp` states its effect |
| Plan.Emit | index.js:69-73 | definition of one echo and its exit check; `EmitAppends` and `EchoStep` state its effect |
| Plan.EmitActivities | index.js:66-75 | definition of the activity loop over the state; `EmitActivitiesEffect` states its effect |
| Plan.Publish | index.js:66-81 | definition of the loop and the run id echo; `PublishEffect` states its effect |
| Plan.EchoErrorsAppend | index.js:70-80 | the errors from echoes of two output lists are those of the first followed by those of the second |
| Plan.EchoStep | index.js:70-73 | one more echo adds an error iff its exit code is non-zero |
| Plan.EmitActivitiesEffect | index.js:66-75 | the activity loop appends exactly the activity outputs and one error per failed echo, sets failed iff some echo failed, and changes neither files nor commands |
| Plan.EmitActivitiesStep | index.js:66-75 | one more activity keeps the loop in the intended state |
| Plan.EmitAppends | index.js:69-73 | one more echo appends its output and, if it fails, its error |
| Plan.PublishEffect | index.js:66-81 | the same, with the `runId` output appended last |
| Plan.AuthenticateCleansUp | index.js:33-44 | with no token and the local URL, the handshake runs and none of cookie.txt, line.txt, output.json remain; otherwise nothing happens |
| Plan.IoPrescription | index.js:50-59 | definition of the IO stage's download and prescription; `IoPrescriptionEffect` states its effect |
| Plan.IoFinish | index.js:83-98 | definition of the risk report and the cleanup; `IoBranchPublishes` and `IoCleansUp` state the cleanup, `IoRiskThrows` the throw that skips it |
| Plan.IoBranch | index.js:47-98 | definition of the IO stage; `IoBranchLaunches` and `IoBranchPublishes` state its effect, and `IoMissingResultSkipsCleanup`, `IoNotJson` and `IoRiskThrows` its three exceptions |
| Plan.WorkflowPrescription | index.js:101-108 | definition of the WORKFLOW stage's download and prescription; `WorkflowBranchEffect` states its effect |
| Plan.WorkflowBranch | index.js:99-137 | definition of the WORKFLOW stage; `WorkflowBranchEffect` states it in full |
| Plan.InvalidStage | index.js:138-141 | definition of the error branch; `InvalidStageRunsNothing` states it |
| Plan.Execute | index.js:7-144 | definition of the evidently intended run; the lemmas below state its properties |
| Plan.IoPrescriptionEffect | index.js:50-59 | the IO prescription step replaces the old script by the download, adds the script's files, launches exactly the download and the prescription (without a workflow URL), and logs a non-zero exit without setting an exception |
| Plan.IoBranchLaunches | index.js:50-98 | the IO branch launches the download and the prescription and nothing more, whatever the result file holds |
| Plan.IoBranchPublishes | index.js:61-98 | with `result.json` present, whether left from before or written by the script, and readable, the IO branch appends the published outputs, adds one error per failed echo, fails iff the prescription or an echo failed or the risk card throws, and otherwise removes only io.yml and data.json |
| Plan.WorkflowBranchEffect | index.js:99-137 | the WORKFLOW branch in full: no outputs, no exception, one generation or client error, the download only without a script, the client only after exit 0, the removal of only the chosen manifest after success and of nothing after failure |
| Plan.CommandsLaunched | index.js:33-137 | the exact command sequence: the optional handshake; for IO a fresh download and the prescription; for WORKFLOW a download only when the script is missing, then the prescription with the workflow URL, then the client only after exit code 0; nothing for any other stage |
| Plan.ClientRunsOnlyAfterPrescription | index.js:108-124 | the workflow client runs iff the stage is WORKFLOW and the prescription exited 0 |
| Plan.IoBranchCarries | index.js:55 | the IO branch launches only commands carrying the given token, SCM context and extra arguments |
| Plan.WorkflowBranchCarries | index.js:108-120 | the WORKFLOW branch launches only commands carrying the given token, SCM context and extra arguments |
| Plan.CommandsCarryTokenAndContext | index.js:55-120 | every prescription and client run gets the token in force, and the prescription gets the environment's SCM context and the extra arguments verbatim |
| Plan.InvalidStageRunsNothing | index.js:138-141 | any other stage gives exactly the invalid-stage error and sets failed, with no outputs and no command but the optional handshake |
| Plan.ResultSurvivesAuthenticate | index.js:42-61 | `result.json` exists when line 61 reads it iff it existed before, or the handshake or the script wrote it |
| Plan.IoPublishes | index.js:55-83 | IO with `result.json` present and readable: the outputs are the published activity outputs with `runId` last; the errors are a non-zero prescription exit, then failed echoes; failed iff one of those occurred or the risk card throws |
| Plan.IoCleansUp | index.js:50-98 | IO with `result.json` present and without an exception: the old script is replaced by the download, and io.yml and data.json are gone with nothing else removed |
| Plan.IoMissingResultSkipsCleanup | index.js:61-98 | IO without result.json from any source: the read throws, failed is set, nothing is published, and a generated io.yml is left behind |
| Plan.IoNotJson | index.js:61-62 | IO with a `result.json` that is not JSON: the parse throws, failed is set, nothing is published, and a generated io.yml is left behind |
| Plan.IoRiskThrows | index.js:83-98 | IO with the devsecops persona and an incomplete score card: every output is published, then the report throws, so failed is set and a generated io.yml is left behind |
| Plan.WorkflowOutcome | index.js:99-137 | WORKFLOW: no outputs, no exception; the only error is a failed generation or, after success, a failed client; failed iff one of the two exit codes is non-zero |
| Plan.WorkflowCleansUp | index.js:101-137 | WORKFLOW: after success the chosen manifest, if any, is removed; after failure nothing is removed |
| Plan.EmitActivitiesAsWritten | index.js:66-75 | definition of the as-written activity loop; `ConstructorKeyFailsAsWritten` and `EmitAsWrittenAgrees` state its properties |
| Plan.PublishAsWritten | index.js:66-81 | definition of the as-written loop and the run id echo |
| Plan.IoBranchAsWritten | index.js:47-98 | definition of the IO stage with the as-written loop |
| Plan.ExecuteAsWritten | index.js:7-144 | definition of the run with both defects: the `const` assignment of line 41 and the inherited lookup of line 67 |
| Plan.EphemeralRunAsWrittenFails | index.js:33-44 | as written, an ephemeral run throws after the handshake: failed, no outputs, no errors, only the handshake ran, and its files remain |
| Plan.EphemeralIoNeverScansAsWritten | index.js:33-55 | with no token and the local URL, the IO prescription never runs as written but does in the intended run |
| Plan.ConstructorKeyFailsAsWritten | index.js:66-81 | as written, a `constructor` activity prints no output, logs the shell's status 2 and fails the step; in the intended run only the run id is published and only its echo can fail the step |
| Plan.EmitAsWrittenAgrees | index.js:66-75 | without `constructor` or `__proto__` keys the as-written and intended activity loops leave the same state |
| Plan.AsWrittenAgreesWithoutHandshake | index.js:33-98 | with no handshake and no `constructor` or `__proto__` key, the run as written is the intended run, so the two defects are the only differences |
| Action.Runner.constructor | index.js:7-18 | a fresh runner holds the given files and nothing else |
| Action.Runner.RemoveFiles | index.js:146-155 | the loop leaves the file set `Removed` describes, that is, the old set minus the listed paths, and touches no other field |
| Action.Runner.Launch | index.js:51-55 | a command is appended to the launched commands and leaves its files behind |
| Action.Runner.Check | index.js:56-59 | a non-zero exit code adds the given error and sets failed |
| Action.Runner.Catch | index.js:142-143 | an exception sets failed and is recorded |
| Action.Runner.SetOutput | index.js:69-81 | one output is appended, with the exit code checked |
| Action.Runner.PublishResult | index.js:66-81 | the loop ends in the state `Plan.Publish` gives; the outputs grow by exactly the published outputs; files, commands and exceptions are unchanged |
| Action.Runner.Authenticate | index.js:33-44 | the evidently intended handshake: ends in `Plan.Authenticate`'s state and returns the token in force |
| Action.Runner.RunIo | index.js:47-98 | ends in `Plan.IoBranch`'s state |
| Action.Runner.RunWorkflow | index.js:99-137 | ends in `Plan.WorkflowBranch`'s state |
| Action.Runner.Run | index.js:7-144 | the whole evidently intended run ends in `Plan.Execute`'s state, so every `Plan` lemma about `Execute` holds of it |

## Left out

- The contents of the external commands are not modelled: curl, wget, chmod, sed, jq, `prescription.sh` and the workflow client. The handshake's commands are one `Handshake` value, the wget, chmod and sed of the script one `Download` value, and the script and the client one value each. A `World` supplies their exit codes and the files they leave.
- The `echo ::set-output` commands are recorded by the output line each prints, and a `World` function gives each one's exit code. The shell's quoting and word splitting of those lines is modelled only for the names the lookup can produce.
- The exit code of an echo is a function of the line it prints, so two activities that print the same line, such as keys `sca` and `SCA` with the same `enabled` value, always get the same exit code. The model cannot give one of them a failed echo and not the other.
- Plan.Emit: records the output line even when its echo exits non-zero. Only the syntax error of a `constructor` key, in the as-written loop, prints nothing.
- The ephemeral token is a `World` parameter. Extracting it from the response cookie and the JSON body is not modelled.
- Reading and parsing `result.json` is not modelled. A `World` gives either the parsed prescription or "not JSON". Each activity is a key with a `longName` and an `enabled` string.
- A result with no `security` member throws a TypeError at line 64, before anything is published. The model has no such case.
- An `activities` value of `undefined`, `null` or a number gives a loop with no iterations, which is the model's empty sequence. A string gives its index keys, which are never allow-listed, so it is a sequence of unrecognised activities.
- An allow-listed activity whose value is `null` or `undefined` throws a TypeError at line 68, when `longName` is read, before its echo. In the model every activity has a value.
- Duplicate JSON keys, and the `for...in` order of integer-like keys (JavaScript visits those first, in numeric order), are left out. The activities are taken in the order the result lists them.
- The risk score card (lines 83-96) only logs. The model keeps one flag, whether all five scores are present. When any score is missing, `.split` throws. The floating-point total, computed with `parseFloat` of the piece after the first `/`, is not modelled.
- The read of `wf-output.json` (lines 126-131) can only log, and its failures are swallowed, so it has no effect on the model.
- A failing `unlinkSync` is swallowed by `removeFiles`. The model assumes unlinking an existing path always succeeds.
- Console and log output, and `core.getInput`, are left out. Inputs are plain strings, "" when unset.
- `process.env` is left out: the environment is an `Env` value. A missing `GITHUB_REPOSITORY` or `GITHUB_REF` would throw on `.split`, and that is not modelled.
- JsText.ToUpper, JsText.ToLower: map ASCII letters only, which is weaker than JavaScript's Unicode case mapping. For example, JavaScript upper-cases "ıo" to "IO", but this model does not.
- Plan.IoCleansUp: the code never deletes `result.json`, and this model follows the code. A `result.json` left by an earlier run is read and published again when the script writes none.
- Plan.WorkflowCleansUp: the code never deletes `wf-output.json`, and this model follows the code.
- Plan.IoMissingResultSkipsCleanup: when an exception is thrown, the IO cleanup never runs, and this model follows the code.

## Findings

| source | as written | input that shows it | evidently intended | confidence | as-written member | corrected member |
|---|---|---|---|---|---|---|
| index.js:41 | `ioServerToken` (line 9) is declared `const`, so assigning the issued token throws a TypeError. The top-level `catch` marks the step failed before the handshake files are removed and before either stage runs. | inputs `ioServerToken = ""`, `ioServerUrl = "http://localhost:9090"`, `stage = "io"` | the issued token replaces the empty one, the handshake files are removed, and the stage runs with that token | high (not executed) | Plan.EphemeralIoNeverScansAsWritten | Plan.AuthenticateCleansUp |
| index.js:63-69 | `preDefinedActivities[key]` also finds `__proto__`, inherited from `Object.prototype`, whose string form `[object Object]` becomes an output name | an activity keyed `__proto__` publishes `::set-output name=[object Object]::true` | only the ten listed activity keys publish outputs | medium (not executed) | Activities.ProtoKeyLeaks | Activities.OutputNamesAllowListed |
| index.js:66-73 | `preDefinedActivities[key]` also finds the inherited `constructor`, whose string form `function Object() { [native code] }` makes the echo of line 69 a shell syntax error: nothing is printed, and the non-zero status is logged and fails the step | an activity keyed `constructor` | the activity is skipped and the step fails only when an echo of a published output fails | medium (not executed) | Plan.ConstructorKeyFailsAsWritten | Plan.PublishEffect |

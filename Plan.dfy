/**
 * One run of the action (index.js:7-144) as a function of its inputs, the
 * environment, what the external programs do, and the files that exist at
 * the start. The external programs (curl, wget, chmod, sed, jq, the
 * prescription script, the workflow client, `echo`) are not modelled; only
 * their exit codes and the files they leave behind are, as fields of
 * `World`. The state records the observable effects: files, step outputs,
 * `core.error` messages, whether the step was marked failed, the exception
 * caught at the top, and the external commands launched.
 */
module Plan {

  import opened Wrappers
  import opened JsText
  import opened Scm
  import opened Persona
  import opened Activities
  import opened Files

  /** The action's inputs, as `core.getInput` returns them ("" when unset). */
  datatype Inputs = Inputs(
    ioServerUrl: string,
    ioServerToken: string,
    runId: string,
    workflowServerUrl: string,
    workflowVersion: string,
    ioManifestUrl: string,
    additionalWorkflowArgs: string,
    stage: string,
    releaseType: string,
    manifestType: string
  )

  /** `result.json` once parsed: `security.activities`, `runId`, and whether
      `riskScoreCard` holds the five score strings the risk report splits. */
  datatype PrescriptionResult = PrescriptionResult(
    activities: seq<Activity>,
    runId: string,
    riskScoreCardComplete: bool
  )

  /** What the external programs do in this run. */
  datatype World = World(
    ephemeralToken: string,              // what `jq -r '.token'` prints after the handshake
    authFiles: set<string>,              // files the handshake's curl and sed commands write
    downloaded: bool,                    // whether wget fetched prescription.sh
    prescriptionCode: int,               // exit code of prescription.sh
    prescriptionFiles: set<string>,      // files prescription.sh writes
    result: Option<PrescriptionResult>,  // JSON.parse of result.json; None when it is not JSON
    echoCode: Output -> int,             // exit code of `echo ::set-output ...` for an output
    clientCode: int,                     // exit code of the workflow client
    clientFiles: set<string>             // files the workflow client writes
  )

  datatype Stage = IO | Workflow | Invalid

  /** The messages passed to `core.error`. */
  datatype ErrorKind =
    | ExecutionFailed(code: int)              // "Execution failed and returncode is ..."
    | WorkflowFailed(code: int)               // "Workflow failed and returncode is ..."
    | WorkflowFileGenerationFailed(code: int) // "Workflow file generation failed ..."
    | InvalidStageGiven                       // "Invalid stage given as input"

  /** The exceptions that reach the top-level `catch`. */
  datatype Exception =
    | ResultFileMissing        // readFileSync('result.json') throws
    | ResultNotJson            // JSON.parse throws
    | RiskScoreCardIncomplete  // a risk score is missing, so `.split` throws
    | TokenIsConstant          // assignment to the `const` ioServerToken (line 41)

  /** The flags passed to prescription.sh. */
  datatype PrescriptionArgs = PrescriptionArgs(
    ioUrl: string,
    token: string,
    manifestUrl: string,
    manifestType: string,
    stage: string,
    releaseType: string,
    workflowVersion: string,
    workflowUrl: Option<string>,   // only the WORKFLOW stage passes --workflow.url
    scm: Context,
    extra: string                  // additionalWorkflowArgs, appended verbatim
  )

  /** The external commands launched, in order. */
  datatype Exec =
    | Handshake(url: string)                 // onboard, login, token issue (lines 36-41)
    | Download(version: string)               // wget, chmod and sed of prescription.sh
    | RunPrescription(args: PrescriptionArgs)
    | RunWorkflowClient(ioUrl: string, token: string, runId: string, engineUrl: string,
                        manifestPath: string)

  datatype RunState = RunState(
    files: set<string>,
    outputs: seq<Output>,
    errors: seq<ErrorKind>,
    failed: bool,
    uncaught: Option<Exception>,
    invoked: seq<Exec>
  )

  const EPHEMERAL_URL := "http://localhost:9090"
  const SCRIPT := "prescription.sh"
  const RESULT_FILE := "result.json"
  const AUTH_FILES := ["cookie.txt", "line.txt", "output.json"]
  const IO_CLEANUP := ["io.yml", "io.yml", "data.json"]
  const DEVSECOPS := "devsecops"

  function Initial(files: set<string>): RunState
  {
    RunState(files, [], [], false, None, [])
  }

  // ---------------------------------------------------------------------
  // Decisions

  /** `stage.toUpperCase()` against "IO" and "WORKFLOW". */
  function SelectStage(stage: string): Stage
  {
    var upper := ToUpper(stage);
    if upper == "IO" then IO else if upper == "WORKFLOW" then Workflow else Invalid
  }

  /** The manifest the workflow client reads: exact, case-sensitive match. */
  function ManifestFile(manifestType: string): (file: string)
    ensures file != "" <==> manifestType == "yml" || manifestType == "json"
    ensures file != "" ==> file == "io." + manifestType
  {
    if manifestType == "yml" then "io.yml"
    else if manifestType == "json" then "io.json"
    else ""
  }

  predicate NeedsEphemeralAuth(inp: Inputs)
  {
    inp.ioServerToken == "" && inp.ioServerUrl == EPHEMERAL_URL
  }

  /** The token in force after the optional handshake. */
  function EffectiveToken(inp: Inputs, w: World): string
  {
    if NeedsEphemeralAuth(inp) then w.ephemeralToken else inp.ioServerToken
  }

  /** The risk report runs, and can throw, only for the devsecops persona. */
  predicate ReportsRisk(inp: Inputs)
  {
    GetPersona(inp.additionalWorkflowArgs) == Some(DEVSECOPS)
  }

  // ---------------------------------------------------------------------
  // Steps

  /** `removeFiles`: the listed paths are gone (Files.RemovedIsDifference). */
  function RemoveAll(st: RunState, names: seq<string>): RunState
  {
    st.(files := st.files - Listed(names))
  }

  function Spawn(st: RunState, x: Exec, created: set<string>): RunState
  {
    st.(files := st.files + created, invoked := st.invoked + [x])
  }

  /** `if (code != 0) { core.error(...); core.setFailed(); }` */
  function Flag(st: RunState, code: int, e: ErrorKind): RunState
  {
    if code != 0 then st.(errors := st.errors + [e], failed := true) else st
  }

  function Throw(st: RunState, x: Exception): RunState
  {
    st.(failed := true, uncaught := Some(x))
  }

  /** One `echo ::set-output` and the check of its exit code. */
  function Emit(st: RunState, o: Output, code: int): RunState
  {
    Flag(st.(outputs := st.outputs + [o]), code, ExecutionFailed(code))
  }

  /** The activity loop, one activity at a time. */
  function EmitActivities(st: RunState, acts: seq<Activity>, echo: Output -> int): RunState
  {
    if acts == [] then st
    else
      var last := |acts| - 1;
      var before := EmitActivities(st, acts[..last], echo);
      match OutputOf(acts[last])
      case None => before
      case Some(o) => Emit(before, o, echo(o))
  }

  function Publish(st: RunState, r: PrescriptionResult, echo: Output -> int): RunState
  {
    var o := Output(RUN_ID_OUTPUT, r.runId);
    Emit(EmitActivities(st, r.activities, echo), o, echo(o))
  }

  /** The `core.error` entries for the echoes that failed, in order. */
  function EchoErrors(outs: seq<Output>, echo: Output -> int): seq<ErrorKind>
  {
    if outs == [] then []
    else
      var last := |outs| - 1;
      EchoErrors(outs[..last], echo) +
        (if echo(outs[last]) != 0 then [ExecutionFailed(echo(outs[last]))] else [])
  }

  /** Lines 33-44. */
  function Authenticate(inp: Inputs, w: World, st: RunState): RunState
  {
    if NeedsEphemeralAuth(inp) then
      RemoveAll(Spawn(st, Handshake(inp.ioServerUrl), w.authFiles), AUTH_FILES)
    else st
  }

  function PrescriptionArgsOf(inp: Inputs, scm: Context, token: string, workflowUrl: Option<string>)
    : PrescriptionArgs
  {
    PrescriptionArgs(inp.ioServerUrl, token, inp.ioManifestUrl, inp.manifestType, inp.stage,
                     inp.releaseType, inp.workflowVersion, workflowUrl, scm,
                     inp.additionalWorkflowArgs)
  }

  function Fetch(inp: Inputs, w: World, st: RunState): RunState
  {
    Spawn(st, Download(inp.workflowVersion), if w.downloaded then {SCRIPT} else {})
  }

  /** Lines 50-59: fresh download of the script, then the prescription. */
  function IoPrescription(inp: Inputs, scm: Context, token: string, w: World, st: RunState): RunState
  {
    var fetched := Fetch(inp, w, RemoveAll(st, [SCRIPT]));
    Flag(Spawn(fetched, RunPrescription(PrescriptionArgsOf(inp, scm, token, None)), w.prescriptionFiles),
         w.prescriptionCode, ExecutionFailed(w.prescriptionCode))
  }

  /** Lines 83-98, after publishing: the risk report, which throws on an
      incomplete score card, then the cleanup. */
  function IoFinish(inp: Inputs, r: PrescriptionResult, published: RunState): RunState
  {
    if ReportsRisk(inp) && !r.riskScoreCardComplete then Throw(published, RiskScoreCardIncomplete)
    else RemoveAll(published, IO_CLEANUP)
  }

  /** Lines 47-98: fresh download, prescription, publish, clean up. */
  function IoBranch(inp: Inputs, scm: Context, token: string, w: World, st: RunState): RunState
  {
    var ran := IoPrescription(inp, scm, token, w, st);
    if !Exists(ran.files, RESULT_FILE) then Throw(ran, ResultFileMissing)
    else
      match w.result
      case None => Throw(ran, ResultNotJson)
      case Some(r) => IoFinish(inp, r, Publish(ran, r, w.echoCode))
  }

  /** Lines 101-108: download only when the script is missing, then the
      prescription with the workflow URL. */
  function WorkflowPrescription(inp: Inputs, scm: Context, token: string, w: World, st: RunState): RunState
  {
    var fetched := if Exists(st.files, SCRIPT) then st else Fetch(inp, w, st);
    Spawn(fetched, RunPrescription(PrescriptionArgsOf(inp, scm, token, Some(inp.workflowServerUrl))),
          w.prescriptionFiles)
  }

  /** Lines 99-137: reuse the script, prescription, then the workflow client
      only when the prescription succeeded. */
  function WorkflowBranch(inp: Inputs, scm: Context, token: string, w: World, st: RunState): RunState
  {
    var ran := WorkflowPrescription(inp, scm, token, w, st);
    if w.prescriptionCode == 0 then
      var config := ManifestFile(inp.manifestType);
      var client := Spawn(ran, RunWorkflowClient(inp.ioServerUrl, token, inp.runId,
                                                 inp.workflowServerUrl, config),
                          w.clientFiles);
      RemoveAll(Flag(client, w.clientCode, WorkflowFailed(w.clientCode)), [config])
    else
      var reported := ran.(errors := ran.errors + [WorkflowFileGenerationFailed(w.prescriptionCode)],
                           failed := true);
      RemoveAll(reported, [""])
  }

  function Execute(inp: Inputs, env: Env, w: World, st: RunState): RunState
  {
    var scm := ContextOf(env);
    var authed := Authenticate(inp, w, st);
    var token := EffectiveToken(inp, w);
    match SelectStage(inp.stage)
    case IO => IoBranch(inp, scm, token, w, authed)
    case Workflow => WorkflowBranch(inp, scm, token, w, authed)
    case Invalid => InvalidStage(authed)
  }

  /** Lines 138-141. */
  function InvalidStage(st: RunState): RunState
  {
    st.(errors := st.errors + [InvalidStageGiven], failed := true)
  }

  // ---------------------------------------------------------------------
  // Properties

  /** The stage is compared ignoring case: "io", "Io", "IO" all pick IO. */
  lemma SelectStageIgnoresCase(stage: string)
    ensures SelectStage(stage) == IO <==> ToLower(stage) == "io"
    ensures SelectStage(stage) == Workflow <==> ToLower(stage) == "workflow"
    ensures SelectStage(stage) == Invalid <==> ToLower(stage) !in {"io", "workflow"}
  {
    UpperEqualIffLowerEqual(stage, "io");
    assert ToUpper("io") == "IO" && ToLower("io") == "io";
    UpperEqualIffLowerEqual(stage, "workflow");
    assert ToUpper("workflow") == "WORKFLOW" && ToLower("workflow") == "workflow";
  }

  lemma SelectStageExamples()
    ensures SelectStage("io") == IO && SelectStage("IO") == IO
    ensures SelectStage("workflow") == Workflow && SelectStage("Workflow") == Workflow
    ensures SelectStage("") == Invalid && SelectStage("I O") == Invalid
  {
    SelectStageIgnoresCase("io");
    SelectStageIgnoresCase("IO");
    SelectStageIgnoresCase("workflow");
    SelectStageIgnoresCase("Workflow");
    SelectStageIgnoresCase("");
    SelectStageIgnoresCase("I O");
  }

  lemma {:induction false} EchoErrorsAppend(outs: seq<Output>, more: seq<Output>, echo: Output -> int)
    ensures EchoErrors(outs + more, echo) == EchoErrors(outs, echo) + EchoErrors(more, echo)
  {
    if more == [] {
      assert outs + more == outs;
    } else {
      var last := |more| - 1;
      assert (outs + more)[..|outs + more| - 1] == outs + more[..last];
      assert (outs + more)[|outs + more| - 1] == more[last];
      EchoErrorsAppend(outs, more[..last], echo);
    }
  }

  /** The state the activity loop is meant to leave: the outputs appended,
      one error per failed echo, failed set iff some echo failed. */
  function Emitted(st: RunState, outs: seq<Output>, echo: Output -> int): RunState
  {
    st.(outputs := st.outputs + outs,
        errors := st.errors + EchoErrors(outs, echo),
        failed := st.failed || EchoErrors(outs, echo) != [])
  }

  /** The activity loop appends exactly the activity outputs, records one
      error per failed echo, and leaves files and commands alone. */
  lemma {:induction false} EmitActivitiesEffect(st: RunState, acts: seq<Activity>, echo: Output -> int)
    ensures EmitActivities(st, acts, echo) == Emitted(st, ActivityOutputs(acts), echo)
  {
    if acts == [] {
      assert st.outputs + [] == st.outputs && st.errors + [] == st.errors;
    } else {
      var last := |acts| - 1;
      EmitActivitiesEffect(st, acts[..last], echo);
      assert acts == acts[..last] + [acts[last]];
      EmitActivitiesStep(st, acts[..last], acts[last], echo);
    }
  }

  lemma EmitActivitiesStep(st: RunState, init: seq<Activity>, a: Activity, echo: Output -> int)
    requires EmitActivities(st, init, echo) == Emitted(st, ActivityOutputs(init), echo)
    ensures EmitActivities(st, init + [a], echo) == Emitted(st, ActivityOutputs(init + [a]), echo)
  {
    var acts := init + [a];
    var before := EmitActivities(st, init, echo);
    var outs0 := ActivityOutputs(init);
    assert acts[..|acts| - 1] == init && acts[|acts| - 1] == a;
    ActivityOutputsSnoc(init, a);
    match OutputOf(a)
    case None =>
      assert ActivityOutputs(acts) == outs0;
      assert EmitActivities(st, acts, echo) == before;
    case Some(o) =>
      assert EmitActivities(st, acts, echo) == Emit(before, o, echo(o));
      EmitAppends(st, outs0, o, echo);
  }

  /** One more emitted output extends the intended state by that output. */
  lemma EmitAppends(st: RunState, outs: seq<Output>, o: Output, echo: Output -> int)
    ensures Emit(Emitted(st, outs, echo), o, echo(o)) == Emitted(st, outs + [o], echo)
  {
    EchoStep(outs, o, echo);
    var e := if echo(o) != 0 then [ExecutionFailed(echo(o))] else [];
    assert st.outputs + outs + [o] == st.outputs + (outs + [o]);
    assert st.errors + EchoErrors(outs, echo) + e == st.errors + (EchoErrors(outs, echo) + e);
  }

  lemma EchoStep(outs: seq<Output>, o: Output, echo: Output -> int)
    ensures EchoErrors(outs + [o], echo) ==
            EchoErrors(outs, echo) + (if echo(o) != 0 then [ExecutionFailed(echo(o))] else [])
  {
    assert (outs + [o])[..|outs|] == outs;
  }

  /** Publishing appends the activity outputs and then the run id. */
  lemma PublishEffect(st: RunState, r: PrescriptionResult, echo: Output -> int)
    ensures Publish(st, r, echo) == Emitted(st, PublishedOutputs(r.activities, r.runId), echo)
  {
    EmitActivitiesEffect(st, r.activities, echo);
    EmitAppends(st, ActivityOutputs(r.activities), Output(RUN_ID_OUTPUT, r.runId), echo);
  }

  /** The handshake's cookie, line and token files never outlive it; nothing
      happens at all when a token is given or the server is not the local one. */
  lemma AuthenticateCleansUp(inp: Inputs, w: World, st: RunState)
    ensures NeedsEphemeralAuth(inp) ==>
              Authenticate(inp, w, st).files == (st.files + w.authFiles) - Listed(AUTH_FILES) &&
              Authenticate(inp, w, st).invoked == st.invoked + [Handshake(inp.ioServerUrl)]
    ensures NeedsEphemeralAuth(inp) ==>
              forall p :: p in AUTH_FILES ==> p !in Authenticate(inp, w, st).files
    ensures !NeedsEphemeralAuth(inp) ==> Authenticate(inp, w, st) == st
    ensures Authenticate(inp, w, st).outputs == st.outputs && Authenticate(inp, w, st).errors == st.errors
    ensures Authenticate(inp, w, st).failed == st.failed && Authenticate(inp, w, st).uncaught == st.uncaught
  {
  }

  /** Which branch a run takes, after the SCM context and the handshake. */
  lemma ExecuteDispatch(inp: Inputs, env: Env, w: World, st: RunState)
    ensures var authed := Authenticate(inp, w, st);
            var scm := ContextOf(env);
            var token := EffectiveToken(inp, w);
            (SelectStage(inp.stage) == IO ==>
               Execute(inp, env, w, st) == IoBranch(inp, scm, token, w, authed)) &&
            (SelectStage(inp.stage) == Workflow ==>
               Execute(inp, env, w, st) == WorkflowBranch(inp, scm, token, w, authed)) &&
            (SelectStage(inp.stage) == Invalid ==>
               Execute(inp, env, w, st) == InvalidStage(authed))
  {
  }

  /** The IO prescription step: the old script is replaced by the download,
      the script's files appear, and a non-zero exit is logged. */
  lemma IoPrescriptionEffect(inp: Inputs, scm: Context, token: string, w: World, st: RunState)
    ensures var ran := IoPrescription(inp, scm, token, w, st);
            ran.files == (st.files - {SCRIPT}) + (if w.downloaded then {SCRIPT} else {}) + w.prescriptionFiles &&
            ran.invoked == st.invoked + [Download(inp.workflowVersion),
                                         RunPrescription(PrescriptionArgsOf(inp, scm, token, None))] &&
            ran.outputs == st.outputs && ran.uncaught == st.uncaught &&
            ran.errors == st.errors + (if w.prescriptionCode != 0 then [ExecutionFailed(w.prescriptionCode)] else []) &&
            ran.failed == (st.failed || w.prescriptionCode != 0)
  {
    assert Listed([SCRIPT]) == {SCRIPT};
  }

  /** The IO branch launches the download and the prescription whatever
      happens afterwards. */
  lemma IoBranchLaunches(inp: Inputs, scm: Context, token: string, w: World, st: RunState)
    ensures IoBranch(inp, scm, token, w, st).invoked ==
            st.invoked + [Download(inp.workflowVersion), RunPrescription(PrescriptionArgsOf(inp, scm, token, None))]
  {
    var ran := IoPrescription(inp, scm, token, w, st);
    IoPrescriptionEffect(inp, scm, token, w, st);
    if Exists(ran.files, RESULT_FILE) && w.result.Some? {
      PublishEffect(ran, w.result.value, w.echoCode);
    }
  }

  /** The IO branch with a readable result, whether the script wrote it or
      it was left from before. */
  lemma IoBranchPublishes(inp: Inputs, scm: Context, token: string, w: World, st: RunState, r: PrescriptionResult)
    requires RESULT_FILE in st.files + w.prescriptionFiles && w.result == Some(r)
    ensures var s := IoBranch(inp, scm, token, w, st);
            var ran := IoPrescription(inp, scm, token, w, st);
            var outs := PublishedOutputs(r.activities, r.runId);
            s.outputs == st.outputs + outs &&
            s.errors == ran.errors + EchoErrors(outs, w.echoCode) &&
            (s.failed <==> ran.failed || EchoErrors(outs, w.echoCode) != [] ||
                           (ReportsRisk(inp) && !r.riskScoreCardComplete)) &&
            (!(ReportsRisk(inp) && !r.riskScoreCardComplete) ==>
               s.uncaught == st.uncaught && s.files == ran.files - {"io.yml", "data.json"})
  {
    var ran := IoPrescription(inp, scm, token, w, st);
    var outs := PublishedOutputs(r.activities, r.runId);
    assert Exists(ran.files, RESULT_FILE) && ran.outputs == st.outputs && ran.uncaught == st.uncaught by {
      IoPrescriptionEffect(inp, scm, token, w, st);
    }
    var published := Publish(ran, r, w.echoCode);
    assert published == Emitted(ran, outs, w.echoCode) by {
      PublishEffect(ran, r, w.echoCode);
    }
    if ReportsRisk(inp) && !r.riskScoreCardComplete {
      assert IoBranch(inp, scm, token, w, st) == Throw(published, RiskScoreCardIncomplete);
    } else {
      assert IoBranch(inp, scm, token, w, st) == RemoveAll(published, IO_CLEANUP);
      assert Listed(IO_CLEANUP) == {"io.yml", "data.json"};
    }
  }

  /** The commands a run launches: the handshake when needed; for IO always a
      fresh download and the prescription; for WORKFLOW a download only when
      no script is present, the prescription, and the workflow client only
      when the prescription exited 0; for any other stage nothing. */
  lemma CommandsLaunched(inp: Inputs, env: Env, w: World, st: RunState)
    ensures var authed := Authenticate(inp, w, st);
            var token := EffectiveToken(inp, w);
            var scm := ContextOf(env);
            Execute(inp, env, w, st).invoked ==
              authed.invoked +
              match SelectStage(inp.stage)
              case IO =>
                [Download(inp.workflowVersion), RunPrescription(PrescriptionArgsOf(inp, scm, token, None))]
              case Workflow =>
                (if SCRIPT in authed.files then [] else [Download(inp.workflowVersion)]) +
                [RunPrescription(PrescriptionArgsOf(inp, scm, token, Some(inp.workflowServerUrl)))] +
                (if w.prescriptionCode == 0
                 then [RunWorkflowClient(inp.ioServerUrl, token, inp.runId, inp.workflowServerUrl,
                                         ManifestFile(inp.manifestType))]
                 else [])
              case Invalid => []
  {
    ExecuteDispatch(inp, env, w, st);
    var authed := Authenticate(inp, w, st);
    var token := EffectiveToken(inp, w);
    var scm := ContextOf(env);
    match SelectStage(inp.stage)
    case IO => IoBranchLaunches(inp, scm, token, w, authed);
    case Workflow => WorkflowBranchEffect(inp, scm, token, w, authed);
    case Invalid =>
  }

  predicate InvokesClient(xs: seq<Exec>)
  {
    exists i :: 0 <= i < |xs| && xs[i].RunWorkflowClient?
  }

  /** The workflow client runs if and only if the stage is WORKFLOW and the
      prescription exited 0. */
  lemma ClientRunsOnlyAfterPrescription(inp: Inputs, env: Env, w: World, files: set<string>)
    ensures InvokesClient(Execute(inp, env, w, Initial(files)).invoked) <==>
            SelectStage(inp.stage) == Workflow && w.prescriptionCode == 0
  {
    var st := Initial(files);
    CommandsLaunched(inp, env, w, st);
    AuthenticateCleansUp(inp, w, st);
    var xs := Execute(inp, env, w, st).invoked;
    var authed := Authenticate(inp, w, st);
    assert forall i :: 0 <= i < |authed.invoked| ==> !authed.invoked[i].RunWorkflowClient?;
    if SelectStage(inp.stage) == Workflow && w.prescriptionCode == 0 {
      assert xs[|xs| - 1].RunWorkflowClient?;
    }
  }

  /** Every prescription run in `xs` carries `token`, the SCM context `scm`
      and the extra arguments `extra`, and every client run carries `token`. */
  predicate CarriesTokenAndContext(xs: seq<Exec>, token: string, scm: Context, extra: string)
  {
    forall i :: 0 <= i < |xs| ==>
      (xs[i].RunPrescription? ==>
         xs[i].args.token == token && xs[i].args.scm == scm && xs[i].args.extra == extra) &&
      (xs[i].RunWorkflowClient? ==> xs[i].token == token)
  }

  lemma CarriesAppend(xs: seq<Exec>, ys: seq<Exec>, token: string, scm: Context, extra: string)
    requires CarriesTokenAndContext(xs, token, scm, extra) && CarriesTokenAndContext(ys, token, scm, extra)
    ensures CarriesTokenAndContext(xs + ys, token, scm, extra)
  {
    forall i | 0 <= i < |xs + ys|
      ensures var x := (xs + ys)[i];
              (x.RunPrescription? ==> x.args.token == token && x.args.scm == scm && x.args.extra == extra) &&
              (x.RunWorkflowClient? ==> x.token == token)
    {
      if i >= |xs| {
        assert (xs + ys)[i] == ys[i - |xs|];
      }
    }
  }

  /** The IO branch adds only commands that carry the token and context. */
  lemma IoBranchCarries(inp: Inputs, scm: Context, token: string, w: World, st: RunState)
    requires CarriesTokenAndContext(st.invoked, token, scm, inp.additionalWorkflowArgs)
    ensures CarriesTokenAndContext(IoBranch(inp, scm, token, w, st).invoked, token, scm,
                                   inp.additionalWorkflowArgs)
  {
    var tail := [Download(inp.workflowVersion), RunPrescription(PrescriptionArgsOf(inp, scm, token, None))];
    IoBranchLaunches(inp, scm, token, w, st);
    assert CarriesTokenAndContext(tail, token, scm, inp.additionalWorkflowArgs);
    CarriesAppend(st.invoked, tail, token, scm, inp.additionalWorkflowArgs);
  }

  /** The WORKFLOW branch adds only commands that carry the token and context. */
  lemma WorkflowBranchCarries(inp: Inputs, scm: Context, token: string, w: World, st: RunState)
    requires CarriesTokenAndContext(st.invoked, token, scm, inp.additionalWorkflowArgs)
    ensures CarriesTokenAndContext(WorkflowBranch(inp, scm, token, w, st).invoked, token, scm,
                                   inp.additionalWorkflowArgs)
  {
    var extra := inp.additionalWorkflowArgs;
    var fetch := if SCRIPT in st.files then [] else [Download(inp.workflowVersion)];
    var run := [RunPrescription(PrescriptionArgsOf(inp, scm, token, Some(inp.workflowServerUrl)))];
    var client := if w.prescriptionCode == 0
                  then [RunWorkflowClient(inp.ioServerUrl, token, inp.runId, inp.workflowServerUrl,
                                          ManifestFile(inp.manifestType))]
                  else [];
    WorkflowBranchEffect(inp, scm, token, w, st);
    assert CarriesTokenAndContext(fetch, token, scm, extra);
    assert CarriesTokenAndContext(run, token, scm, extra);
    assert CarriesTokenAndContext(client, token, scm, extra);
    CarriesAppend(st.invoked, fetch, token, scm, extra);
    CarriesAppend(st.invoked + fetch, run, token, scm, extra);
    CarriesAppend(st.invoked + fetch + run, client, token, scm, extra);
  }

  /** Every command gets the same token (the given one, or the ephemeral one)
      and the prescription gets the SCM context of the environment. */
  lemma CommandsCarryTokenAndContext(inp: Inputs, env: Env, w: World, files: set<string>)
    ensures CarriesTokenAndContext(Execute(inp, env, w, Initial(files)).invoked,
                                   EffectiveToken(inp, w), ContextOf(env), inp.additionalWorkflowArgs)
  {
    var st := Initial(files);
    var authed := Authenticate(inp, w, st);
    var token := EffectiveToken(inp, w);
    var scm := ContextOf(env);
    ExecuteDispatch(inp, env, w, st);
    assert CarriesTokenAndContext(authed.invoked, token, scm, inp.additionalWorkflowArgs) by {
      AuthenticateCleansUp(inp, w, st);
    }
    match SelectStage(inp.stage)
    case IO => IoBranchCarries(inp, scm, token, w, authed);
    case Workflow => WorkflowBranchCarries(inp, scm, token, w, authed);
    case Invalid =>
  }

  /** Any stage but IO or WORKFLOW records the invalid-stage error, marks the
      step failed and runs neither branch. */
  lemma InvalidStageRunsNothing(inp: Inputs, env: Env, w: World, files: set<string>)
    requires SelectStage(inp.stage) == Invalid
    ensures var s := Execute(inp, env, w, Initial(files));
            s.errors == [InvalidStageGiven] && s.failed && s.outputs == [] && s.uncaught == None &&
            s.invoked == (if NeedsEphemeralAuth(inp) then [Handshake(inp.ioServerUrl)] else []) &&
            s.files == Authenticate(inp, w, Initial(files)).files
  {
    ExecuteDispatch(inp, env, w, Initial(files));
    AuthenticateCleansUp(inp, w, Initial(files));
  }

  /** `result.json` exists when line 61 reads it: it was there from the
      start, or the handshake or the script wrote it. */
  predicate ResultPresent(inp: Inputs, w: World, files: set<string>)
  {
    RESULT_FILE in files || RESULT_FILE in w.prescriptionFiles ||
    (NeedsEphemeralAuth(inp) && RESULT_FILE in w.authFiles)
  }

  /** The result file is still there after the handshake's cleanup. */
  lemma ResultSurvivesAuthenticate(inp: Inputs, w: World, files: set<string>)
    ensures var authed := Authenticate(inp, w, Initial(files));
            ResultPresent(inp, w, files) <==> RESULT_FILE in authed.files + w.prescriptionFiles
  {
    AuthenticateCleansUp(inp, w, Initial(files));
    assert RESULT_FILE !in Listed(AUTH_FILES);
  }

  /** IO stage with a readable result: all outputs are published in order
      with the run id last, a non-zero prescription exit is logged without
      stopping anything, and each failed echo adds one error. */
  lemma IoPublishes(inp: Inputs, env: Env, w: World, files: set<string>, r: PrescriptionResult)
    requires SelectStage(inp.stage) == IO
    requires ResultPresent(inp, w, files) && w.result == Some(r)
    ensures var s := Execute(inp, env, w, Initial(files));
            var outs := PublishedOutputs(r.activities, r.runId);
            s.outputs == outs &&
            s.errors == (if w.prescriptionCode != 0 then [ExecutionFailed(w.prescriptionCode)] else [])
                        + EchoErrors(outs, w.echoCode) &&
            (s.failed <==> w.prescriptionCode != 0 || EchoErrors(outs, w.echoCode) != [] ||
                           (ReportsRisk(inp) && !r.riskScoreCardComplete))
  {
    var st := Initial(files);
    var authed := Authenticate(inp, w, st);
    var scm := ContextOf(env);
    var token := EffectiveToken(inp, w);
    ExecuteDispatch(inp, env, w, st);
    AuthenticateCleansUp(inp, w, st);
    IoPrescriptionEffect(inp, scm, token, w, authed);
    ResultSurvivesAuthenticate(inp, w, files);
    IoBranchPublishes(inp, scm, token, w, authed, r);
    assert [] + PublishedOutputs(r.activities, r.runId) == PublishedOutputs(r.activities, r.runId);
  }

  /** IO stage: when nothing throws, io.yml and data.json are gone afterwards
      and no other file is removed by the cleanup. */
  lemma IoCleansUp(inp: Inputs, env: Env, w: World, files: set<string>, r: PrescriptionResult)
    requires SelectStage(inp.stage) == IO
    requires ResultPresent(inp, w, files) && w.result == Some(r)
    requires !(ReportsRisk(inp) && !r.riskScoreCardComplete)
    ensures var s := Execute(inp, env, w, Initial(files));
            s.uncaught == None &&
            s.files == ((Authenticate(inp, w, Initial(files)).files - {SCRIPT}) +
                        (if w.downloaded then {SCRIPT} else {}) + w.prescriptionFiles)
                       - {"io.yml", "data.json"}
  {
    var st := Initial(files);
    var authed := Authenticate(inp, w, st);
    var scm := ContextOf(env);
    var token := EffectiveToken(inp, w);
    ExecuteDispatch(inp, env, w, st);
    AuthenticateCleansUp(inp, w, st);
    IoPrescriptionEffect(inp, scm, token, w, authed);
    ResultSurvivesAuthenticate(inp, w, files);
    IoBranchPublishes(inp, scm, token, w, authed, r);
  }

  /** IO stage without a result file: the read throws, so nothing is
      published and the cleanup never runs; a manifest written by the script
      is left behind. */
  lemma IoMissingResultSkipsCleanup(inp: Inputs, env: Env, w: World, files: set<string>)
    requires SelectStage(inp.stage) == IO
    requires !ResultPresent(inp, w, files)
    ensures var s := Execute(inp, env, w, Initial(files));
            s.uncaught == Some(ResultFileMissing) && s.failed && s.outputs == [] &&
            ("io.yml" in w.prescriptionFiles ==> "io.yml" in s.files)
  {
    var st := Initial(files);
    var authed := Authenticate(inp, w, st);
    ExecuteDispatch(inp, env, w, st);
    ResultSurvivesAuthenticate(inp, w, files);
    IoPrescriptionEffect(inp, ContextOf(env), EffectiveToken(inp, w), w, authed);
  }

  /** IO stage with a `result.json` that is not JSON: the parse throws, so
      nothing is published and the cleanup never runs, unlike the swallowed
      read of `wf-output.json`. */
  lemma IoNotJson(inp: Inputs, env: Env, w: World, files: set<string>)
    requires SelectStage(inp.stage) == IO
    requires ResultPresent(inp, w, files) && w.result == None
    ensures var s := Execute(inp, env, w, Initial(files));
            s.uncaught == Some(ResultNotJson) && s.failed && s.outputs == [] &&
            ("io.yml" in w.prescriptionFiles ==> "io.yml" in s.files)
  {
    var st := Initial(files);
    var authed := Authenticate(inp, w, st);
    ExecuteDispatch(inp, env, w, st);
    ResultSurvivesAuthenticate(inp, w, files);
    IoPrescriptionEffect(inp, ContextOf(env), EffectiveToken(inp, w), w, authed);
  }

  /** IO stage, devsecops persona and an incomplete risk score card: all
      outputs are published first, then the report throws, so the cleanup
      never runs. */
  lemma IoRiskThrows(inp: Inputs, env: Env, w: World, files: set<string>, r: PrescriptionResult)
    requires SelectStage(inp.stage) == IO
    requires ResultPresent(inp, w, files) && w.result == Some(r)
    requires ReportsRisk(inp) && !r.riskScoreCardComplete
    ensures var s := Execute(inp, env, w, Initial(files));
            s.uncaught == Some(RiskScoreCardIncomplete) && s.failed &&
            s.outputs == PublishedOutputs(r.activities, r.runId) &&
            ("io.yml" in w.prescriptionFiles ==> "io.yml" in s.files)
  {
    var st := Initial(files);
    var authed := Authenticate(inp, w, st);
    var scm := ContextOf(env);
    var token := EffectiveToken(inp, w);
    var ran := IoPrescription(inp, scm, token, w, authed);
    ExecuteDispatch(inp, env, w, st);
    ResultSurvivesAuthenticate(inp, w, files);
    IoPrescriptionEffect(inp, scm, token, w, authed);
    assert Execute(inp, env, w, st) == Throw(Publish(ran, r, w.echoCode), RiskScoreCardIncomplete);
    PublishEffect(ran, r, w.echoCode);
    assert [] + PublishedOutputs(r.activities, r.runId) == PublishedOutputs(r.activities, r.runId);
  }

  /** The WORKFLOW branch on its own, in full. */
  lemma WorkflowBranchEffect(inp: Inputs, scm: Context, token: string, w: World, st: RunState)
    ensures var s := WorkflowBranch(inp, scm, token, w, st);
            var fetched := st.files + (if SCRIPT in st.files || !w.downloaded then {} else {SCRIPT});
            s.outputs == st.outputs && s.uncaught == st.uncaught &&
            s.errors == st.errors +
                        (if w.prescriptionCode != 0 then [WorkflowFileGenerationFailed(w.prescriptionCode)]
                         else if w.clientCode != 0 then [WorkflowFailed(w.clientCode)]
                         else []) &&
            s.failed == (st.failed || w.prescriptionCode != 0 || w.clientCode != 0) &&
            s.invoked == st.invoked +
                         (if SCRIPT in st.files then [] else [Download(inp.workflowVersion)]) +
                         [RunPrescription(PrescriptionArgsOf(inp, scm, token, Some(inp.workflowServerUrl)))] +
                         (if w.prescriptionCode == 0
                          then [RunWorkflowClient(inp.ioServerUrl, token, inp.runId, inp.workflowServerUrl,
                                                  ManifestFile(inp.manifestType))]
                          else []) &&
            s.files == if w.prescriptionCode == 0
                       then (fetched + w.prescriptionFiles + w.clientFiles) - ManifestRemoved(inp.manifestType)
                       else fetched + w.prescriptionFiles
  {
    assert Listed([ManifestFile(inp.manifestType)]) == ManifestRemoved(inp.manifestType);
    assert Listed([""]) == {};
  }

  /** What `removeFiles([configFile])` can remove: the chosen manifest, or
      nothing when there is none, since the path "" names no file. */
  function ManifestRemoved(manifestType: string): set<string>
  {
    if ManifestFile(manifestType) == "" then {} else {ManifestFile(manifestType)}
  }

  /** WORKFLOW stage: never publishes outputs and never throws; it fails
      exactly when the prescription or, after it, the client exits non-zero,
      with that one error. */
  lemma WorkflowOutcome(inp: Inputs, env: Env, w: World, files: set<string>)
    requires SelectStage(inp.stage) == Workflow
    ensures var s := Execute(inp, env, w, Initial(files));
            s.outputs == [] && s.uncaught == None &&
            s.errors == (if w.prescriptionCode != 0 then [WorkflowFileGenerationFailed(w.prescriptionCode)]
                         else if w.clientCode != 0 then [WorkflowFailed(w.clientCode)]
                         else []) &&
            (s.failed <==> w.prescriptionCode != 0 || w.clientCode != 0)
  {
    var st := Initial(files);
    ExecuteDispatch(inp, env, w, st);
    AuthenticateCleansUp(inp, w, st);
    WorkflowBranchEffect(inp, ContextOf(env), EffectiveToken(inp, w), w, Authenticate(inp, w, st));
  }

  /** WORKFLOW stage: after a successful prescription the selected manifest
      is removed, if there is one; after a failed one no file is removed. */
  lemma WorkflowCleansUp(inp: Inputs, env: Env, w: World, files: set<string>)
    requires SelectStage(inp.stage) == Workflow
    ensures var s := Execute(inp, env, w, Initial(files));
            var authed := Authenticate(inp, w, Initial(files));
            var fetched := authed.files + (if SCRIPT in authed.files || !w.downloaded then {} else {SCRIPT});
            (w.prescriptionCode == 0 ==>
               s.files == (fetched + w.prescriptionFiles + w.clientFiles) - ManifestRemoved(inp.manifestType)) &&
            (w.prescriptionCode != 0 ==> s.files == fetched + w.prescriptionFiles)
  {
    var st := Initial(files);
    ExecuteDispatch(inp, env, w, st);
    WorkflowBranchEffect(inp, ContextOf(env), EffectiveToken(inp, w), w, Authenticate(inp, w, st));
  }

  // ---------------------------------------------------------------------
  // As written. Two places differ from the evidently intended run that
  // `Execute` describes: `ioServerToken` is declared `const` (line 9), so
  // storing the issued token (line 41) throws; and the allow-list lookup
  // (line 67) also finds `constructor` and `__proto__`, see `EchoAsWritten`.

  /** The activity loop as written, one activity at a time: an activity
      whose echo the shell rejects prints nothing, and its exit status is
      checked like any other. */
  function EmitActivitiesAsWritten(st: RunState, acts: seq<Activity>, echo: Output -> int): RunState
  {
    if acts == [] then st
    else
      var last := |acts| - 1;
      var before := EmitActivitiesAsWritten(st, acts[..last], echo);
      match EchoAsWritten(acts[last])
      case Skipped => before
      case SyntaxError => Flag(before, SHELL_SYNTAX_ERROR, ExecutionFailed(SHELL_SYNTAX_ERROR))
      case Prints(o) => Emit(before, o, echo(o))
  }

  function PublishAsWritten(st: RunState, r: PrescriptionResult, echo: Output -> int): RunState
  {
    var o := Output(RUN_ID_OUTPUT, r.runId);
    Emit(EmitActivitiesAsWritten(st, r.activities, echo), o, echo(o))
  }

  /** Lines 47-98 as written: `IoBranch` with the as-written activity loop. */
  function IoBranchAsWritten(inp: Inputs, scm: Context, token: string, w: World, st: RunState): RunState
  {
    var ran := IoPrescription(inp, scm, token, w, st);
    if !Exists(ran.files, RESULT_FILE) then Throw(ran, ResultFileMissing)
    else
      match w.result
      case None => Throw(ran, ResultNotJson)
      case Some(r) => IoFinish(inp, r, PublishAsWritten(ran, r, w.echoCode))
  }

  /** A run as the code is written. The assignment of the issued token
      throws a TypeError after the handshake's commands have run: the
      handshake files are never removed and neither stage runs. Otherwise
      the token is the given one and the IO stage uses the as-written
      activity loop. */
  function ExecuteAsWritten(inp: Inputs, env: Env, w: World, st: RunState): RunState
  {
    if NeedsEphemeralAuth(inp) then
      Throw(Spawn(st, Handshake(inp.ioServerUrl), w.authFiles), TokenIsConstant)
    else
      var scm := ContextOf(env);
      match SelectStage(inp.stage)
      case IO => IoBranchAsWritten(inp, scm, inp.ioServerToken, w, st)
      case Workflow => WorkflowBranch(inp, scm, inp.ioServerToken, w, st)
      case Invalid => InvalidStage(st)
  }

  predicate RunsPrescription(xs: seq<Exec>)
  {
    exists i :: 0 <= i < |xs| && xs[i].RunPrescription?
  }

  /** As written, an ephemeral run always fails before either stage: no
      output, the handshake is the only command, its files stay behind. */
  lemma EphemeralRunAsWrittenFails(inp: Inputs, env: Env, w: World, files: set<string>)
    requires NeedsEphemeralAuth(inp)
    ensures var s := ExecuteAsWritten(inp, env, w, Initial(files));
            s.uncaught == Some(TokenIsConstant) && s.failed && s.outputs == [] && s.errors == [] &&
            s.invoked == [Handshake(inp.ioServerUrl)] && s.files == files + w.authFiles &&
            !RunsPrescription(s.invoked)
  {
  }

  /** The discrepancy: with no token and the local server URL, the IO stage
      never reaches the prescription as written, while the evidently
      intended run (`Execute`) does. */
  lemma EphemeralIoNeverScansAsWritten(inp: Inputs, env: Env, w: World, files: set<string>)
    requires inp.ioServerToken == "" && inp.ioServerUrl == EPHEMERAL_URL
    requires SelectStage(inp.stage) == IO
    ensures !RunsPrescription(ExecuteAsWritten(inp, env, w, Initial(files)).invoked)
    ensures RunsPrescription(Execute(inp, env, w, Initial(files)).invoked)
  {
    var st := Initial(files);
    CommandsLaunched(inp, env, w, st);
    AuthenticateCleansUp(inp, w, st);
    var xs := Execute(inp, env, w, st).invoked;
    assert xs[|xs| - 1].RunPrescription?;
  }

  /** As written, an activity keyed "constructor" publishes nothing and fails
      the step with the shell's status; the intended loop skips it, so only
      a failed echo of the run id can fail the step. */
  lemma ConstructorKeyFailsAsWritten(st: RunState, longName: string, enabled: string, runId: string,
                                     card: bool, echo: Output -> int)
    ensures var r := PrescriptionResult([Activity("constructor", longName, enabled)], runId, card);
            var s := PublishAsWritten(st, r, echo);
            s.outputs == st.outputs + [Output(RUN_ID_OUTPUT, runId)] && s.failed &&
            ExecutionFailed(SHELL_SYNTAX_ERROR) in s.errors
    ensures var r := PrescriptionResult([Activity("constructor", longName, enabled)], runId, card);
            var s := Publish(st, r, echo);
            var code := echo(Output(RUN_ID_OUTPUT, runId));
            s.outputs == st.outputs + [Output(RUN_ID_OUTPUT, runId)] &&
            s.errors == st.errors + (if code != 0 then [ExecutionFailed(code)] else []) &&
            s.failed == (st.failed || code != 0)
  {
    var a := Activity("constructor", longName, enabled);
    ConstructorKeyBreaksEcho(longName, enabled);
    assert [a][..0] == [];
    var o := Output(RUN_ID_OUTPUT, runId);
    var broken := Flag(st, SHELL_SYNTAX_ERROR, ExecutionFailed(SHELL_SYNTAX_ERROR));
    assert EmitActivitiesAsWritten(st, [a], echo) == broken;
    assert PublishAsWritten(st, PrescriptionResult([a], runId, card), echo) == Emit(broken, o, echo(o));
    assert ExecutionFailed(SHELL_SYNTAX_ERROR) == broken.errors[|broken.errors| - 1];
    assert EmitActivities(st, [a], echo) == st;
    assert Publish(st, PrescriptionResult([a], runId, card), echo) == Emit(st, o, echo(o));
  }

  /** Without inherited keys the two activity loops agree. */
  lemma {:induction false} EmitAsWrittenAgrees(st: RunState, acts: seq<Activity>, echo: Output -> int)
    requires forall i :: 0 <= i < |acts| ==> !Inherited(acts[i])
    ensures EmitActivitiesAsWritten(st, acts, echo) == EmitActivities(st, acts, echo)
  {
    if acts != [] {
      var last := |acts| - 1;
      EmitAsWrittenAgrees(st, acts[..last], echo);
      EchoAgrees(acts[last]);
    }
  }

  /** The two defects are the only differences: with a token given (or
      another server) and no activity keyed `constructor` or `__proto__`,
      the code as written performs `Execute`. */
  lemma AsWrittenAgreesWithoutHandshake(inp: Inputs, env: Env, w: World, st: RunState)
    requires !NeedsEphemeralAuth(inp)
    requires w.result.Some? ==>
               forall i :: 0 <= i < |w.result.value.activities| ==> !Inherited(w.result.value.activities[i])
    ensures ExecuteAsWritten(inp, env, w, st) == Execute(inp, env, w, st)
  {
    if w.result.Some? {
      var r := w.result.value;
      var ran := IoPrescription(inp, ContextOf(env), inp.ioServerToken, w, st);
      EmitAsWrittenAgrees(ran, r.activities, w.echoCode);
    }
  }
}

/**
 * The run step by step (index.js:7-155): a runner whose fields are the
 * observable state, changed one step at a time. Every method is proved to
 * leave exactly the state that the corresponding function of `Plan`
 * describes, so the properties proved there hold of the runner. The runner
 * performs the evidently intended run, `Plan.Execute`: it stores the issued
 * token, which the `const` declaration of line 9 forbids, and its activity
 * test finds only the ten allow-listed keys. `Plan.ExecuteAsWritten`
 * describes the run with both defects.
 */
module Action {

  import opened Wrappers
  import opened JsText
  import opened Scm
  import opened Persona
  import opened Activities
  import opened Files
  import opened Plan

  class Runner {
    var files: set<string>          // the paths that exist
    var outputs: seq<Output>        // `::set-output` lines, in order
    var errors: seq<ErrorKind>      // `core.error` messages, in order
    var failed: bool                // `core.setFailed` was called
    var uncaught: Option<Exception> // what reached the top-level `catch`
    var invoked: seq<Exec>          // external commands, in order

    function State(): RunState
      reads this
    {
      RunState(files, outputs, errors, failed, uncaught, invoked)
    }

    constructor (files0: set<string>)
      ensures State() == Initial(files0)
    {
      files := files0;
      outputs := [];
      errors := [];
      failed := false;
      uncaught := None;
      invoked := [];
    }

    /** `removeFiles` (lines 146-155): unlink each listed path that exists. */
    method RemoveFiles(names: seq<string>)
      modifies this
      ensures files == Removed(old(files), names)
      ensures files == old(files) - Listed(names)
      ensures outputs == old(outputs) && errors == old(errors) && failed == old(failed)
      ensures uncaught == old(uncaught) && invoked == old(invoked)
    {
      var i := 0;
      while i < |names|
        invariant 0 <= i <= |names|
        invariant Removed(files, names[i..]) == Removed(old(files), names)
        invariant outputs == old(outputs) && errors == old(errors) && failed == old(failed)
        invariant uncaught == old(uncaught) && invoked == old(invoked)
      {
        var file := names[i];
        assert names[i..][1..] == names[i + 1..];
        if Exists(files, file) {
          files := files - {file};
        }
        i := i + 1;
      }
      assert names[i..] == [];
      RemovedIsDifference(old(files), names);
    }

    /** `shell.exec` of an external command that leaves `created` behind. */
    method Launch(x: Exec, created: set<string>)
      modifies this
      ensures State() == Spawn(old(State()), x, created)
    {
      files := files + created;
      invoked := invoked + [x];
    }

    /** `if (code != 0) { core.error(e); core.setFailed(); }` */
    method Check(code: int, e: ErrorKind)
      modifies this
      ensures State() == Flag(old(State()), code, e)
    {
      if code != 0 {
        errors := errors + [e];
        failed := true;
      }
    }

    /** The top-level `catch`: `core.setFailed(error.message)`. */
    method Catch(x: Exception)
      modifies this
      ensures State() == Throw(old(State()), x)
    {
      failed := true;
      uncaught := Some(x);
    }

    /** One `echo ::set-output` whose exit code is `code`. */
    method SetOutput(o: Output, code: int)
      modifies this
      ensures State() == Emit(old(State()), o, code)
    {
      outputs := outputs + [o];
      Check(code, ExecutionFailed(code));
    }

    /** The activity loop and the run id output (lines 66-83). */
    method PublishResult(r: PrescriptionResult, echo: Output -> int)
      modifies this
      ensures State() == Publish(old(State()), r, echo)
      ensures outputs == old(outputs) + PublishedOutputs(r.activities, r.runId)
      ensures files == old(files) && invoked == old(invoked) && uncaught == old(uncaught)
    {
      var acts := r.activities;
      var i := 0;
      while i < |acts|
        invariant 0 <= i <= |acts|
        invariant State() == EmitActivities(old(State()), acts[..i], echo)
      {
        var a := acts[i];
        assert acts[..i + 1][..i] == acts[..i];
        var key := ToLower(a.key);
        if key in ALLOW_LIST {
          var o := Output(ALLOW_LIST[key], a.enabled);
          SetOutput(o, echo(o));
        }
        i := i + 1;
      }
      assert acts[..i] == acts;
      var o := Output(RUN_ID_OUTPUT, r.runId);
      SetOutput(o, echo(o));
      PublishEffect(old(State()), r, echo);
    }

    /** Lines 33-44: the optional handshake; returns the token in force. */
    method Authenticate(inp: Inputs, w: World) returns (token: string)
      modifies this
      ensures State() == Plan.Authenticate(inp, w, old(State()))
      ensures token == EffectiveToken(inp, w)
    {
      token := inp.ioServerToken;
      if token == "" && inp.ioServerUrl == EPHEMERAL_URL {
        Launch(Handshake(inp.ioServerUrl), w.authFiles);
        token := w.ephemeralToken;
        RemoveFiles(AUTH_FILES);
      }
    }

    /** Lines 47-98: the IO stage. */
    method RunIo(inp: Inputs, scm: Context, token: string, w: World)
      modifies this
      ensures State() == IoBranch(inp, scm, token, w, old(State()))
    {
      RemoveFiles([SCRIPT]);
      Launch(Download(inp.workflowVersion), if w.downloaded then {SCRIPT} else {});
      Launch(RunPrescription(PrescriptionArgsOf(inp, scm, token, None)), w.prescriptionFiles);
      var rcode := w.prescriptionCode;
      Check(rcode, ExecutionFailed(rcode));
      if !Exists(files, RESULT_FILE) {
        Catch(ResultFileMissing);
        return;
      }
      if w.result.None? {
        Catch(ResultNotJson);
        return;
      }
      var r := w.result.value;
      PublishResult(r, w.echoCode);
      var persona := FindPersona(inp.additionalWorkflowArgs);
      if persona == Some(DEVSECOPS) && !r.riskScoreCardComplete {
        Catch(RiskScoreCardIncomplete);
        return;
      }
      RemoveFiles(IO_CLEANUP);
    }

    /** Lines 99-137: the WORKFLOW stage. */
    method RunWorkflow(inp: Inputs, scm: Context, token: string, w: World)
      modifies this
      ensures State() == WorkflowBranch(inp, scm, token, w, old(State()))
    {
      if !Exists(files, SCRIPT) {
        Launch(Download(inp.workflowVersion), if w.downloaded then {SCRIPT} else {});
      }
      Launch(RunPrescription(PrescriptionArgsOf(inp, scm, token, Some(inp.workflowServerUrl))),
             w.prescriptionFiles);
      var wffilecode := w.prescriptionCode;
      var configFile := "";
      if wffilecode == 0 {
        if inp.manifestType == "yml" {
          configFile := "io.yml";
        } else if inp.manifestType == "json" {
          configFile := "io.json";
        }
        Launch(RunWorkflowClient(inp.ioServerUrl, token, inp.runId, inp.workflowServerUrl, configFile),
               w.clientFiles);
        var wfclientcode := w.clientCode;
        Check(wfclientcode, WorkflowFailed(wfclientcode));
      } else {
        errors := errors + [WorkflowFileGenerationFailed(wffilecode)];
        failed := true;
      }
      RemoveFiles([configFile]);
    }

    /** The whole run (lines 7-144). */
    method Run(inp: Inputs, env: Env, w: World)
      modifies this
      ensures State() == Execute(inp, env, w, old(State()))
    {
      var scm := ContextOf(env);
      var token := Authenticate(inp, w);
      var upper := ToUpper(inp.stage);
      if upper == "IO" {
        RunIo(inp, scm, token, w);
      } else if upper == "WORKFLOW" {
        RunWorkflow(inp, scm, token, w);
      } else {
        errors := errors + [InvalidStageGiven];
        failed := true;
      }
    }
  }
}

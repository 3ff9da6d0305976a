/**
 * Republishing the prescription's activities as step outputs
 * (index.js:63-77). Every activity whose lower-cased key is one of ten
 * known keys yields one output, named by the allow-list and valued by the
 * activity's `enabled` field, in the order of the activities; the run id
 * is always published after them.
 */
module Activities {

  import opened Wrappers
  import opened JsText

  /** One entry of `security.activities`, in the order `for...in` visits
      them. `enabled` is the text the template literal renders, e.g. "true". */
  datatype Activity = Activity(key: string, longName: string, enabled: string)

  /** A `::set-output name=...::value` line. */
  datatype Output = Output(name: string, value: string)

  const RUN_ID_OUTPUT := "runId"

  /** `preDefinedActivities`: lower-case activity key to output name. */
  const ALLOW_LIST: map<string, string> := map[
    "sca" := "scaScan",
    "dast" := "dastScan",
    "threatmodel" := "threatmodelScan",
    "network" := "networkScan",
    "cloud" := "cloudScan",
    "infra" := "infraScan",
    "sast" := "sastScan",
    "dastplusm" := "dastplusmScan",
    "imagescan" := "imageScan",
    "sastplusm" := "sastplusmScan"
  ]

  predicate Recognised(a: Activity)
  {
    ToLower(a.key) in ALLOW_LIST
  }

  /** The output one activity produces, if any. */
  function OutputOf(a: Activity): Option<Output>
  {
    if Recognised(a) then Some(Output(ALLOW_LIST[ToLower(a.key)], a.enabled)) else None
  }

  /** The outputs of the activity loop, in order. */
  function ActivityOutputs(acts: seq<Activity>): seq<Output>
  {
    if acts == [] then []
    else
      (match OutputOf(acts[0]) case Some(o) => [o] case None => []) + ActivityOutputs(acts[1..])
  }

  /** Everything the IO stage publishes: the activity outputs, then the run id. */
  function PublishedOutputs(acts: seq<Activity>, runId: string): seq<Output>
  {
    ActivityOutputs(acts) + [Output(RUN_ID_OUTPUT, runId)]
  }

  /** The outputs of a concatenation are the concatenation of the outputs:
      together with `SingleActivity` this says outputs follow the activities'
      order. */
  lemma {:induction false} ActivityOutputsAppend(xs: seq<Activity>, ys: seq<Activity>)
    ensures ActivityOutputs(xs + ys) == ActivityOutputs(xs) + ActivityOutputs(ys)
  {
    if xs != [] {
      assert (xs + ys)[0] == xs[0];
      assert (xs + ys)[1..] == xs[1..] + ys;
      ActivityOutputsAppend(xs[1..], ys);
    } else {
      assert xs + ys == ys;
    }
  }

  /** Appending one activity appends its output, if it has one. */
  lemma ActivityOutputsSnoc(acts: seq<Activity>, a: Activity)
    ensures ActivityOutputs(acts + [a]) ==
            ActivityOutputs(acts) + (if OutputOf(a).Some? then [OutputOf(a).value] else [])
  {
    ActivityOutputsAppend(acts, [a]);
    assert [a][1..] == [];
  }

  /** One activity gives one output exactly when its lower-cased key is
      allow-listed; the output carries the mapped name and `enabled`. */
  lemma SingleActivity(a: Activity)
    ensures ActivityOutputs([a]) == if ToLower(a.key) in ALLOW_LIST
                                    then [Output(ALLOW_LIST[ToLower(a.key)], a.enabled)]
                                    else []
  {
    assert [a][1..] == [];
  }

  /** An output is published exactly when some activity maps to it. */
  lemma {:induction false} OutputMembership(acts: seq<Activity>, o: Output)
    ensures o in ActivityOutputs(acts) <==>
            exists i :: 0 <= i < |acts| && Recognised(acts[i]) &&
                        o == Output(ALLOW_LIST[ToLower(acts[i].key)], acts[i].enabled)
  {
    if acts != [] {
      OutputMembership(acts[1..], o);
      if o in ActivityOutputs(acts[1..]) {
        var i :| 0 <= i < |acts[1..]| && Recognised(acts[1..][i]) &&
                 o == Output(ALLOW_LIST[ToLower(acts[1..][i].key)], acts[1..][i].enabled);
        assert acts[i + 1] == acts[1..][i];
      }
      if exists i :: 0 <= i < |acts| && Recognised(acts[i]) &&
                     o == Output(ALLOW_LIST[ToLower(acts[i].key)], acts[i].enabled) {
        var i :| 0 <= i < |acts| && Recognised(acts[i]) &&
                 o == Output(ALLOW_LIST[ToLower(acts[i].key)], acts[i].enabled);
        if i > 0 {
          assert acts[1..][i - 1] == acts[i];
        }
      }
    }
  }

  /** One output per recognised activity, no more. */
  lemma {:induction false} OutputCount(acts: seq<Activity>)
    ensures |ActivityOutputs(acts)| + CountUnrecognised(acts) == |acts|
  {
    if acts != [] {
      OutputCount(acts[1..]);
    }
  }

  function CountUnrecognised(acts: seq<Activity>): nat
  {
    if acts == [] then 0 else (if Recognised(acts[0]) then 0 else 1) + CountUnrecognised(acts[1..])
  }

  /** Every activity output is named by the allow-list, so never "runId". */
  lemma {:induction false} OutputNamesAllowListed(acts: seq<Activity>)
    ensures forall k :: 0 <= k < |ActivityOutputs(acts)| ==>
              ActivityOutputs(acts)[k].name in ALLOW_LIST.Values &&
              ActivityOutputs(acts)[k].name != RUN_ID_OUTPUT
  {
    if acts != [] {
      OutputNamesAllowListed(acts[1..]);
      if Recognised(acts[0]) {
        assert ALLOW_LIST[ToLower(acts[0].key)] in ALLOW_LIST.Values;
      }
    }
  }

  /** Exactly one "runId" output is published, and it comes last. */
  lemma RunIdOnceAndLast(acts: seq<Activity>, runId: string)
    ensures var outs := PublishedOutputs(acts, runId);
            outs[|outs| - 1] == Output(RUN_ID_OUTPUT, runId) &&
            forall k :: 0 <= k < |outs| - 1 ==> outs[k].name != RUN_ID_OUTPUT
  {
    OutputNamesAllowListed(acts);
  }

  /** A result with only `sca` enabled gives `scaScan=true` and the run id. */
  lemma PublishedExampleSca(runId: string)
    ensures PublishedOutputs([Activity("sca", "Software Composition Analysis", "true")], runId)
            == [Output("scaScan", "true"), Output("runId", runId)]
  {
    var sca := Activity("sca", "Software Composition Analysis", "true");
    assert ToLower(sca.key) == "sca";
    SingleActivity(sca);
  }

  /** An unknown key adds nothing, and the key's case does not matter. */
  lemma PublishedExampleMixed(runId: string)
    ensures PublishedOutputs([Activity("fuzz", "Fuzzing", "true"),
                              Activity("SAST", "Static Analysis", "false")], runId)
            == [Output("sastScan", "false"), Output("runId", runId)]
  {
    var fuzz := Activity("fuzz", "Fuzzing", "true");
    var sast := Activity("SAST", "Static Analysis", "false");
    assert ActivityOutputs([fuzz]) == [] by {
      assert ToLower(fuzz.key) == "fuzz";
      SingleActivity(fuzz);
    }
    assert ActivityOutputs([sast]) == [Output("sastScan", "false")] by {
      assert ToLower(sast.key) == "sast";
      SingleActivity(sast);
    }
    assert ActivityOutputs([fuzz, sast]) == ActivityOutputs([fuzz]) + ActivityOutputs([sast]) by {
      ActivityOutputsAppend([fuzz], [sast]);
      assert [fuzz] + [sast] == [fuzz, sast];
    }
  }

  // ---------------------------------------------------------------------
  // As written, `preDefinedActivities[val.toLowerCase()]` is a property
  // lookup on a plain object, so it also finds the members every object
  // inherits. Only two of those have all-lower-case names: `constructor`
  // (the function `Object`) and `__proto__` (`Object.prototype`). Both are
  // truthy, so such a key passes the test of line 67, and line 69 pastes
  // the member's string form, unquoted, into the `echo` command line.

  /** The string form of `Object.prototype`; the constructor's is
      "function Object() { [native code] }". */
  const OBJECT_PROTOTYPE_TEXT := "[object Object]"

  /** `/bin/sh` exits with status 2 on a syntax error. */
  const SHELL_SYNTAX_ERROR := 2

  predicate Inherited(a: Activity)
  {
    ToLower(a.key) in {"constructor", "__proto__"}
  }

  /** What the `echo` of line 69 does for one activity. */
  datatype Echo =
    | Skipped           // the lookup finds nothing: no command
    | Prints(o: Output) // the shell prints the `::set-output` line
    | SyntaxError       // the shell rejects the command line: nothing printed

  /** The lookup as the source writes it, and the shell's reading of the
      command it builds. An allow-list name and `[object Object]` are plain
      words, but the constructor's text holds an unquoted `(`, which ends a
      simple command: `/bin/sh` rejects the whole line. */
  function EchoAsWritten(a: Activity): Echo
  {
    var key := ToLower(a.key);
    if key in ALLOW_LIST then Prints(Output(ALLOW_LIST[key], a.enabled))
    else if key == "constructor" then SyntaxError
    else if key == "__proto__" then Prints(Output(OBJECT_PROTOTYPE_TEXT, a.enabled))
    else Skipped
  }

  /** The outputs the activity loop prints, as written. */
  function ActivityOutputsAsWritten(acts: seq<Activity>): seq<Output>
  {
    if acts == [] then []
    else
      (match EchoAsWritten(acts[0]) case Prints(o) => [o] case _ => []) +
      ActivityOutputsAsWritten(acts[1..])
  }

  /** An activity keyed "__proto__" publishes an output named
      "[object Object]"; the allow-list alone publishes nothing for it. */
  lemma ProtoKeyLeaks(longName: string, enabled: string)
    ensures ActivityOutputsAsWritten([Activity("__proto__", longName, enabled)])
            == [Output(OBJECT_PROTOTYPE_TEXT, enabled)]
    ensures ActivityOutputs([Activity("__proto__", longName, enabled)]) == []
  {
    var a := Activity("__proto__", longName, enabled);
    assert ToLower(a.key) == "__proto__";
    assert [a][1..] == [];
  }

  /** An activity keyed "constructor" passes the test, but its echo is a
      shell syntax error. */
  lemma ConstructorKeyBreaksEcho(longName: string, enabled: string)
    ensures EchoAsWritten(Activity("constructor", longName, enabled)) == SyntaxError
    ensures OutputOf(Activity("constructor", longName, enabled)) == None
  {
    assert ToLower("constructor") == "constructor";
  }

  /** For any other key the two lookups agree: the echo prints exactly the
      output `OutputOf` gives. */
  lemma EchoAgrees(a: Activity)
    requires !Inherited(a)
    ensures EchoAsWritten(a) == match OutputOf(a) case Some(o) => Prints(o) case None => Skipped
  {
  }

  /** Without the two inherited names the loops print the same outputs. */
  lemma {:induction false} AsWrittenAgreesElsewhere(acts: seq<Activity>)
    requires forall i :: 0 <= i < |acts| ==> !Inherited(acts[i])
    ensures ActivityOutputsAsWritten(acts) == ActivityOutputs(acts)
  {
    if acts != [] {
      EchoAgrees(acts[0]);
      AsWrittenAgreesElsewhere(acts[1..]);
    }
  }
}

/**
 * The source-control context handed to the prescription script
 * (index.js:20-31): owner and repository name from `GITHUB_REPOSITORY`,
 * and the branch, whose rule depends on the kind of event that started
 * the workflow.
 */
module Scm {

  import opened Wrappers
  import opened JsText

  /** The environment variables the action reads. A variable the runner does
      not set is `None`; `GITHUB_REPOSITORY` and `GITHUB_REF` are always set. */
  datatype Env = Env(
    repository: string,       // GITHUB_REPOSITORY, "owner/repo"
    actor: string,            // GITHUB_ACTOR
    eventName: string,        // GITHUB_EVENT_NAME
    ref: string,              // GITHUB_REF, e.g. "refs/heads/main"
    headRef: Option<string>   // GITHUB_HEAD_REF, set on pull requests
  )

  /** What the action passes as --scm.* and related flags. An entry that is
      `None` is JavaScript's `undefined`, which the command line spells
      "undefined". */
  datatype Context = Context(
    scmType: string,
    owner: string,
    repoName: Option<string>,
    branch: Option<string>,
    githubUsername: string,
    assetId: string
  )

  /** Branch rule: for "push" and "workflow_dispatch" the third '/'-separated
      segment of the ref; for "pull_request" the head ref; otherwise "". */
  function BranchName(eventName: string, ref: string, headRef: Option<string>): Option<string>
  {
    if eventName == "push" || eventName == "workflow_dispatch" then At(Split(ref, '/'), 2)
    else if eventName == "pull_request" then headRef
    else Some("")
  }

  /** Lines 20-31: the flags describing the repository and the branch. */
  function ContextOf(env: Env): Context
  {
    var parts := Split(env.repository, '/');
    Context("github", parts[0], At(parts, 1), BranchName(env.eventName, env.ref, env.headRef),
            env.actor, env.repository)
  }

  /** For a "push" or "workflow_dispatch", a ref "a/b/name...", where the
      first three segments hold no '/', yields exactly "name": anything after
      a further '/' is dropped. */
  lemma {:induction false} BranchOfPush(eventName: string, a: string, b: string, name: string, rest: string,
                                         headRef: Option<string>)
    requires eventName == "push" || eventName == "workflow_dispatch"
    requires '/' !in a && '/' !in b && '/' !in name
    requires rest == [] || rest[0] == '/'
    ensures BranchName(eventName, a + "/" + b + "/" + name + rest, headRef) == Some(name)
  {
    var ref := a + "/" + b + "/" + name + rest;
    var n3 := Split(name + rest, '/');
    assert n3[0] == name by {
      FirstPieceBeforeSlash(name, rest);
    }
    assert Split(ref, '/') == [a, b] + n3 by {
      assert ref == a + ("/" + (b + ("/" + (name + rest))));
      SlashStep(b, name + rest);
      SlashStep(a, b + ("/" + (name + rest)));
    }
  }

  /** A segment with no '/' is the whole first piece when what follows is
      empty or starts a new segment. */
  lemma FirstPieceBeforeSlash(name: string, rest: string)
    requires '/' !in name
    requires rest == [] || rest[0] == '/'
    ensures Split(name + rest, '/')[0] == name
  {
    SplitPrefix(name, rest, '/');
    var tail := Split(rest, '/');
    if rest == [] {
      assert tail[0] == "";
    } else {
      assert rest == [rest[0]] + rest[1..];
      assert tail == [""] + Split(rest[1..], '/');
    }
    assert name + tail[0] == name;
  }

  /** Splitting "x/r" when x has no '/' yields x followed by the pieces of r. */
  lemma SlashStep(x: string, r: string)
    requires '/' !in x
    ensures Split(x + ("/" + r), '/') == [x] + Split(r, '/')
  {
    SplitPrefix(x, "/" + r, '/');
    assert ("/" + r)[1..] == r;
    assert x + "" == x;
  }

  /** A ref with fewer than three segments gives `undefined` on a push or
      a manual dispatch. */
  lemma ShortRefHasNoBranch(eventName: string, a: string, b: string, headRef: Option<string>)
    requires eventName == "push" || eventName == "workflow_dispatch"
    requires '/' !in a && '/' !in b
    ensures BranchName(eventName, a, headRef) == None
    ensures BranchName(eventName, a + "/" + b, headRef) == None
  {
    SplitJoin([a], '/');
    assert a + "/" + b == a + ("/" + b);
    SlashStep(a, b);
    SplitJoin([b], '/');
  }

  /** Pull requests take the head ref verbatim; every other event gives "". */
  lemma BranchOfOtherEvents(eventName: string, ref: string, headRef: Option<string>)
    ensures eventName == "pull_request" ==> BranchName(eventName, ref, headRef) == headRef
    ensures eventName !in {"push", "workflow_dispatch", "pull_request"} ==>
              BranchName(eventName, ref, headRef) == Some("")
  {
  }

  lemma BranchExampleMain(ref: string)
    requires ref == "refs/heads/main"
    ensures BranchName("push", ref, None) == Some("main")
  {
    assert ref == "refs" + "/" + "heads" + "/" + "main" + "";
    BranchOfPush("push", "refs", "heads", "main", "", None);
  }

  /** Only the third segment is taken: a branch name with a '/' is cut short. */
  lemma BranchExampleNested(ref: string)
    requires ref == "refs/heads/feat/x"
    ensures BranchName("workflow_dispatch", ref, None) == Some("feat")
  {
    assert ref == "refs" + "/" + "heads" + "/" + "feat" + "/x";
    BranchOfPush("workflow_dispatch", "refs", "heads", "feat", "/x", None);
  }

  lemma BranchExamplePullRequest(ref: string)
    ensures BranchName("pull_request", ref, Some("feature-x")) == Some("feature-x")
    ensures BranchName("schedule", ref, Some("feature-x")) == Some("")
  {
  }

  /** "owner/repo" gives owner and repository name. */
  lemma {:induction false} OwnerAndRepo(env: Env, owner: string, repo: string)
    requires '/' !in owner && '/' !in repo
    requires env.repository == owner + "/" + repo
    ensures ContextOf(env).owner == owner && ContextOf(env).repoName == Some(repo)
  {
    assert env.repository == owner + ("/" + repo);
    SlashStep(owner, repo);
    SplitJoin([repo], '/');
  }
}

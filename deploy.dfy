/**
 * cmd/deploy.go: bringing the environment's stack up to date with the
 * service container. The stack service's answers (the existence check, the
 * create or update call, the status polls), the latest-build-tag lookup and
 * the template file are inputs.
 */
module DeployCmd {
  import opened Strings
  import opened Results
  import Utils
  import Aws
  import ConfigLoader
  import CmdGlobals

  /** One stack parameter: a key and its value. */
  datatype Parameter = Parameter(key: string, value: string)

  /** Where the stack template comes from: an S3 URL, or the contents of a local file. */
  datatype Template = TemplateUrl(url: string) | TemplateBody(body: string)

  /** The create or update request sent for the stack. */
  datatype StackRequest = StackRequest(create: bool, stackName: string, parameters: seq<Parameter>, template: Template)

  // ---------------------------------------------------------------------
  // parameters

  /** The configured parameter entries of an environment (none when it has no entry). */
  function EnvEntries(cfParameters: map<string, seq<string>>, env: string): seq<string>
  {
    if env in cfParameters then cfParameters[env] else []
  }

  /** `key=value` read as segment 0 and segment 1 of the split on '='; a missing '=' panics. */
  function EntryParameter(entry: string): (r: Result<Parameter>)
    ensures r.Ok? <==> '=' in entry
    ensures r.Ok? ==> |Split(entry, '=')| >= 2 && r.value.key == Split(entry, '=')[0] && r.value.value == Split(entry, '=')[1]
    ensures r.Err? ==> r.msg == Aws.IndexPanic
  {
    SplitSingle(entry, '=');
    var parts := Split(entry, '=');
    if |parts| >= 2 then Ok(Parameter(parts[0], parts[1])) else Err(Aws.IndexPanic)
  }

  /** An entry `k=v` gives the parameter (k, v); anything after a second '=' is dropped. */
  lemma EntryParameterOf(k: string, v: string, rest: string)
    requires '=' !in k && '=' !in v
    ensures EntryParameter(k + "=" + v) == Ok(Parameter(k, v))
    ensures EntryParameter(k + "=" + v + "=" + rest) == Ok(Parameter(k, v))
  {
    SplitAtSep(k, v, '=');
    SplitSingle(v, '=');
    SplitFirst(v, '=');
    assert k + "=" + v + "=" + rest == k + "=" + (v + "=" + rest);
    SplitAtSep(k, v + "=" + rest, '=');
    SplitAtSep(v, rest, '=');
  }

  /** Every entry has an '=', so that reading its segment 1 does not panic. */
  predicate EntriesHaveValues(entries: seq<string>)
  {
    forall i :: 0 <= i < |entries| ==> '=' in entries[i]
  }

  /**
   * The stack parameters built from well-formed entries: one per entry, in
   * order, then the image `container` and the task name `env-stack`.
   */
  predicate ParametersFor(parameters: seq<Parameter>, entries: seq<string>, container: string, env: string, stack: string)
    requires EntriesHaveValues(entries)
  {
    |parameters| == |entries| + 2
    && (forall i :: 0 <= i < |entries| ==> parameters[i] == EntryParameter(entries[i]).value)
    && parameters[|entries|] == Parameter("ImageID", container)
    && parameters[|entries| + 1] == Parameter("TaskName", Utils.TaskStackName(env, stack))
  }

  /**
   * setupParameters: the environment's entries in order, then the image
   * (the deploy command's container variable) and the task name
   * `env-stack`. An entry without '=' panics.
   */
  method SetupParameters(container: string, cfParameters: map<string, seq<string>>, env: string, stack: string)
    returns (r: Result<seq<Parameter>>)
    ensures r.Ok? <==> EntriesHaveValues(EnvEntries(cfParameters, env))
    ensures r.Ok? ==> ParametersFor(r.value, EnvEntries(cfParameters, env), container, env, stack)
    ensures r.Err? ==> r.msg == Aws.IndexPanic
  {
    var entries := EnvEntries(cfParameters, env);
    var parameters: seq<Parameter> := [];
    var i := 0;
    while i < |entries|
      invariant 0 <= i <= |entries|
      invariant |parameters| == i
      invariant forall j :: 0 <= j < i ==> '=' in entries[j] && parameters[j] == EntryParameter(entries[j]).value
    {
      var p := EntryParameter(entries[i]);
      if p.Err? {
        return Err(p.msg);
      }
      parameters := parameters + [p.value];
      i := i + 1;
    }
    parameters := parameters + [Parameter("ImageID", container)];
    parameters := parameters + [Parameter("TaskName", env + "-" + stack)];
    r := Ok(parameters);
  }

  // ---------------------------------------------------------------------
  // container

  /**
   * findContainer: a given container is used as it is; otherwise the latest
   * build of the service in the registry, `repo/name:tag`.
   */
  function FindContainer(container: string, ecrRepo: string, name: string, latestBuildTag: Result<string>): (r: Result<string>)
    ensures container != "" ==> r == Ok(container)
    ensures container == "" && latestBuildTag.Err? ==> r == Err("Error looking up latest build tag")
    ensures container == "" && latestBuildTag.Ok? ==> r == Ok(ecrRepo + "/" + name + ":" + latestBuildTag.value)
  {
    if container == "" then
      match latestBuildTag
      case Err(_) => Err("Error looking up latest build tag")
      case Ok(t) => Ok(ecrRepo + "/" + name + ":" + t)
    else Ok(container)
  }

  /**
   * The tag of the image found for deploying is what reading the image tag
   * of a task definition gives back.
   */
  lemma FoundContainerTag(ecrRepo: string, name: string, tag: string)
    requires ':' !in ecrRepo && ':' !in name && ':' !in tag
    ensures FindContainer("", ecrRepo, name, Ok(tag)).Ok?
    ensures Aws.ImageTag(FindContainer("", ecrRepo, name, Ok(tag)).value) == Ok(tag)
  {
    var repository := ecrRepo + "/" + name;
    assert ':' !in repository;
    assert ecrRepo + "/" + name + ":" + tag == repository + ":" + tag;
    Aws.ImageTagOfReference(repository, tag);
  }

  // ---------------------------------------------------------------------
  // launch

  /** The template is passed as a URL when it names an S3 location. */
  predicate IsS3Template(cfTemplate: string)
  {
    Contains(cfTemplate, "s3://")
  }

  /**
   * launchStack with the template file's contents and the create/update
   * call's error as inputs: the request that is sent, or the file error
   * when no request could be made.
   */
  function LaunchStack(newStack: bool, stackName: string, cfTemplate: string, parameters: seq<Parameter>,
                       templateFile: Result<string>, call: Option<string>): (r: (Option<string>, Option<StackRequest>))
    ensures r.1.Some? ==> r.1.value.create == newStack && r.1.value.stackName == stackName && r.1.value.parameters == parameters
    ensures IsS3Template(cfTemplate) ==> r.1 == Some(StackRequest(newStack, stackName, parameters, TemplateUrl(cfTemplate)))
    ensures !IsS3Template(cfTemplate) && templateFile.Err? ==> r == (Some(templateFile.msg), None)
    ensures !IsS3Template(cfTemplate) && templateFile.Ok? ==>
      r.1 == Some(StackRequest(newStack, stackName, parameters, TemplateBody(templateFile.value)))
    ensures r.1.Some? ==> r.0 == call
  {
    if IsS3Template(cfTemplate) then
      (call, Some(StackRequest(newStack, stackName, parameters, TemplateUrl(cfTemplate))))
    else
      match templateFile
      case Err(e) => (Some(e), None)
      case Ok(body) => (call, Some(StackRequest(newStack, stackName, parameters, TemplateBody(body))))
  }

  // ---------------------------------------------------------------------
  // watch

  /** What one stack status means to the wait loop. */
  datatype StatusClass = Complete | FailureState(msg: string) | InProgress

  const FailedStatuses := {"CREATE_FAILED", "ROLLBACK_FAILED", "UPDATE_ROLLBACK_FAILED", "UPDATE_ROLLBACK_COMPLETE"}

  /** The switch on the stack status: four failure states, two completion states, and waiting otherwise. */
  function Classify(status: string): (c: StatusClass)
    ensures c.FailureState? <==> status in FailedStatuses
    ensures c == Complete <==> status == "CREATE_COMPLETE" || status == "UPDATE_COMPLETE"
  {
    if status == "CREATE_FAILED" then FailureState("Failed to create the stack")
    else if status == "ROLLBACK_FAILED" then FailureState("Failed to rollback the stack")
    else if status == "UPDATE_ROLLBACK_FAILED" then FailureState("Failed to rollback the stack update")
    else if status == "UPDATE_ROLLBACK_COMPLETE" then FailureState("Stack update failed and rolledback")
    else if status == "CREATE_COMPLETE" || status == "UPDATE_COMPLETE" then Complete
    else InProgress
  }

  /** Each failure state is reported with its own message. */
  lemma FailureMessagesDistinct(s: string, t: string)
    requires s in FailedStatuses && t in FailedStatuses && s != t
    ensures Classify(s).msg != Classify(t).msg
  {
  }

  /** How the wait ends. StillPolling: the polls given ran out while the stack was in progress. */
  datatype WatchOutcome = Ready | StackFailed(err: string) | Panicked(msg: string) | StillPolling

  const EmptyStacksPanic := "runtime error: index out of range [0] with length 0"

  /** What one poll decides: None to poll again. */
  function PollDecision(poll: Result<seq<string>>): Option<WatchOutcome>
  {
    match poll
    case Err(e) => Some(StackFailed(e))
    case Ok(stacks) =>
      if |stacks| == 0 then Some(Panicked(EmptyStacksPanic))
      else match Classify(stacks[0])
        case Complete => Some(Ready)
        case FailureState(m) => Some(StackFailed(m))
        case InProgress => None
  }

  /** The wait over a feed of polls: its outcome and the number of polls made. */
  function WatchOf(feed: seq<Result<seq<string>>>): (r: (WatchOutcome, nat))
    ensures r.1 <= |feed|
  {
    if feed == [] then (StillPolling, 0)
    else match PollDecision(feed[0])
      case Some(o) => (o, 1)
      case None => var rest := WatchOf(feed[1..]); (rest.0, rest.1 + 1)
  }

  /**
   * The wait stops at the first deciding poll, with what that poll decided;
   * it polls the whole feed only when no poll decides.
   */
  lemma {:induction false} WatchOfStopsAtFirstDecision(feed: seq<Result<seq<string>>>)
    ensures var (o, n) := WatchOf(feed);
      (forall i :: 0 <= i < n - 1 ==> PollDecision(feed[i]).None?)
      && (o == StillPolling <==> n == |feed| && forall i :: 0 <= i < |feed| ==> PollDecision(feed[i]).None?)
      && (o != StillPolling ==> n >= 1 && PollDecision(feed[n - 1]) == Some(o))
  {
    if feed != [] && PollDecision(feed[0]).None? {
      WatchOfStopsAtFirstDecision(feed[1..]);
      var (o, n) := WatchOf(feed[1..]);
      assert WatchOf(feed) == (o, n + 1);
      forall i | 0 <= i < n ensures PollDecision(feed[i]).None? {
        if i > 0 {
          assert feed[i] == feed[1..][i - 1];
        }
      }
      if o != StillPolling {
        assert feed[n] == feed[1..][n - 1];
      }
      if n == |feed| - 1 && forall i :: 0 <= i < |feed| - 1 ==> PollDecision(feed[1..][i]).None? {
        forall i | 0 <= i < |feed| ensures PollDecision(feed[i]).None? {
          if i > 0 {
            assert feed[i] == feed[1..][i - 1];
          }
        }
      }
      if forall i :: 0 <= i < |feed| ==> PollDecision(feed[i]).None? {
        forall i | 0 <= i < |feed| - 1 ensures PollDecision(feed[1..][i]).None? {
          assert feed[1..][i] == feed[i + 1];
        }
      }
    }
  }

  /** watchStack over the given polls: it polls until a status decides. */
  method WatchStack(feed: seq<Result<seq<string>>>) returns (outcome: WatchOutcome, polls: nat)
    ensures (outcome, polls) == WatchOf(feed)
  {
    polls := 0;
    outcome := StillPolling;
    while polls < |feed|
      invariant 0 <= polls <= |feed|
      invariant WatchOf(feed) == (var rest := WatchOf(feed[polls..]); (rest.0, rest.1 + polls))
      decreases |feed| - polls
    {
      var poll := feed[polls];
      assert feed[polls..][1..] == feed[polls + 1..];
      polls := polls + 1;
      match poll
      case Err(e) =>
        return StackFailed(e), polls;
      case Ok(stacks) =>
        if |stacks| == 0 {
          return Panicked(EmptyStacksPanic), polls;
        }
        match Classify(stacks[0])
        case FailureState(m) =>
          return StackFailed(m), polls;
        case Complete =>
          return Ready, polls;
        case InProgress =>
    }
    assert feed[polls..] == [];
  }

  /** Two in-progress polls and then CREATE_COMPLETE: ready after exactly three polls. */
  lemma WatchExamplePending()
    ensures WatchOf([Ok(["CREATE_IN_PROGRESS"]), Ok(["CREATE_IN_PROGRESS"]), Ok(["CREATE_COMPLETE"])]) == (Ready, 3)
  {
    var feed := [Ok(["CREATE_IN_PROGRESS"]), Ok(["CREATE_IN_PROGRESS"]), Ok(["CREATE_COMPLETE"])];
    assert feed[1..] == [Ok(["CREATE_IN_PROGRESS"]), Ok(["CREATE_COMPLETE"])];
    assert feed[1..][1..] == [Ok(["CREATE_COMPLETE"])];
  }

  /** A failed rollback of an update stops the wait at the first poll. */
  lemma WatchExampleRollbackFailed()
    ensures WatchOf([Ok(["UPDATE_ROLLBACK_FAILED"])]) == (StackFailed("Failed to rollback the stack update"), 1)
  {
  }

  // ---------------------------------------------------------------------
  // deploy

  /**
   * How deploy ends: an exit code (0 for a stack that became ready, 2 for a
   * Go runtime panic), or StillWaiting when the polls given ran out first.
   */
  datatype DeployEnd = Exit(code: int) | StillWaiting

  const NotExisting := "does not exist"
  const NoUpdates := "No updates are to be performed"

  /**
   * deploy with the service answers as inputs: the session error, the
   * existence check's error, the latest build tag, the template file, the
   * create/update call's error and the status polls. It sets the
   * new-stack variable when the stack does not exist and replaces the
   * container variable by the container found.
   */
  method Deploy(g: CmdGlobals.Globals, env: string, config: ConfigLoader.Config,
                session: Option<string>, describe: Option<string>, latestBuildTag: Result<string>,
                templateFile: Result<string>, call: Option<string>, feed: seq<Result<seq<string>>>)
    returns (exit: DeployEnd, request: Option<StackRequest>, launchError: Option<string>, polls: nat)
    modifies g
    ensures unchanged(g`oldTag, g`newTag, g`tag, g`containerName)
    ensures session.Some? ==> exit == Exit(3) && request == None && unchanged(g)
    ensures session.None? && describe.Some? && !Contains(describe.value, NotExisting) ==>
      exit == Exit(5) && request == None && unchanged(g)
    ensures session.None? && (describe.None? || Contains(describe.value, NotExisting)) ==>
      g.newStack == (old(g.newStack) || describe.Some?)
      && var found := FindContainer(old(g.container), config.ecrRepo, config.name, latestBuildTag);
        g.container == (if found.Ok? then found.value else "")
        && (found.Err? ==> exit == Exit(5) && request == None)
        && (found.Ok? && config.cfTemplate == "" ==> exit == Exit(3) && request == None)
    ensures request.Some? ==>
      request.value.create == g.newStack
      && request.value.stackName == Utils.TaskStackName(env, config.stack)
      && |request.value.parameters| >= 2
      && request.value.parameters[|request.value.parameters| - 2] == Parameter("ImageID", g.container)
      && request.value.parameters[|request.value.parameters| - 1] == Parameter("TaskName", Utils.TaskStackName(env, config.stack))
      && (IsS3Template(config.cfTemplate) ==> request.value.template == TemplateUrl(config.cfTemplate))
      && (!IsS3Template(config.cfTemplate) ==> templateFile.Ok? && request.value.template == TemplateBody(templateFile.value))
    ensures request.Some? ==> launchError == call
    ensures launchError.Some? && request.None? ==> templateFile.Err? && launchError == Some(templateFile.msg) && !IsS3Template(config.cfTemplate)
    ensures launchError.Some? ==> exit == (if Contains(launchError.value, NoUpdates) then Exit(255) else Exit(6))
    ensures exit == Exit(255) || exit == Exit(6) ==> launchError.Some?
    ensures request.Some? && launchError.None? ==>
      polls == WatchOf(feed).1
      && (WatchOf(feed).0 == Ready <==> exit == Exit(0))
      && (WatchOf(feed).0.StackFailed? <==> exit == Exit(7))
      && (WatchOf(feed).0 == StillPolling <==> exit == StillWaiting)
    ensures exit == Exit(0) || exit == Exit(7) || exit == StillWaiting ==> request.Some? && launchError.None?
    ensures session.None? && (describe.None? || Contains(describe.value, NotExisting))
            && FindContainer(old(g.container), config.ecrRepo, config.name, latestBuildTag).Ok?
            && config.cfTemplate != "" ==>
      var entries := EnvEntries(config.cfParameters, env);
      (!EntriesHaveValues(entries) ==> exit == Exit(2) && request == None && launchError == None)
      && (EntriesHaveValues(entries) && (IsS3Template(config.cfTemplate) || templateFile.Ok?) ==>
            request.Some? && ParametersFor(request.value.parameters, entries, g.container, env, config.stack))
      && (EntriesHaveValues(entries) && !IsS3Template(config.cfTemplate) && templateFile.Err? ==>
            request == None && launchError == Some(templateFile.msg))
      && (exit == Exit(2) <==>
            !EntriesHaveValues(entries) || (request.Some? && launchError.None? && WatchOf(feed).0.Panicked?))
  {
    polls := 0;
    request := None;
    launchError := None;
    if session.Some? {
      return Exit(3), request, launchError, polls;
    }
    var stackName := env + "-" + config.stack;
    if describe.Some? && Contains(describe.value, NotExisting) {
      g.newStack := true;
    } else if describe.Some? {
      return Exit(5), request, launchError, polls;
    }
    var found := FindContainer(g.container, config.ecrRepo, config.name, latestBuildTag);
    g.container := if found.Ok? then found.value else "";
    if found.Err? {
      return Exit(5), request, launchError, polls;
    }
    if config.cfTemplate == "" {
      return Exit(3), request, launchError, polls;
    }
    var parameters := SetupParameters(g.container, config.cfParameters, env, config.stack);
    if parameters.Err? {
      return Exit(2), request, launchError, polls;
    }
    var launched := LaunchStack(g.newStack, stackName, config.cfTemplate, parameters.value, templateFile, call);
    request := launched.1;
    launchError := launched.0;
    if launchError.Some? && Contains(launchError.value, NoUpdates) {
      return Exit(255), request, launchError, polls;
    } else if launchError.Some? {
      return Exit(6), request, launchError, polls;
    }
    var outcome;
    outcome, polls := WatchStack(feed);
    match outcome
    case Ready => exit := Exit(0);
    case StackFailed(_) => exit := Exit(7);
    case Panicked(_) => exit := Exit(2);
    case StillPolling => exit := StillWaiting;
  }
}

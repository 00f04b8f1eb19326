/**
 * cmd/cleanup.go: removing the images a build made, by local name, by
 * image name or by label. The docker lookup and runs and the HEAD SHA are
 * inputs.
 */
module CleanupCmd {
  import opened Strings
  import opened Results
  import Utils
  import Docker
  import ConfigLoader
  import CmdGlobals
  import TagCmd

  /** The characters trimmed from the ends of the printed tag list. */
  const RepoTagsCut: set<char> := {'\'', '[', ']'}

  /** `inspect --format='{{ .RepoTags }}' <container>`: the names of every tag of an image. */
  function RepoTagsArgs(container: string): seq<string>
  {
    ["inspect", "--format='{{ .RepoTags }}'", container]
  }

  /**
   * The image names in the inspect output: white space trimmed, then the
   * quotes and brackets of the printed list, then split on single spaces.
   */
  function ParseRepoTags(output: string): (names: seq<string>)
    ensures |names| >= 1
  {
    Split(Trim(TrimSpace(output), RepoTagsCut), ' ')
  }

  /**
   * The printed list of names (quoted, bracketed, followed by white space)
   * gives back the names, when none of them holds white space, a quote or
   * a bracket.
   */
  lemma ParseRepoTagsOfList(names: seq<string>, trailer: string)
    requires |names| >= 1
    requires forall i :: 0 <= i < |names| ==>
      (names[i] != [] && forall k :: 0 <= k < |names[i]| ==> names[i][k] !in Whitespace && names[i][k] !in RepoTagsCut)
    requires forall i :: 0 <= i < |trailer| ==> trailer[i] in Whitespace
    ensures ParseRepoTags("'[" + Join(names, ' ') + "]'" + trailer) == names
  {
    var line := Join(names, ' ');
    assert ' ' in Whitespace;
    assert forall i :: 0 <= i < |names| ==> ' ' !in names[i] by {
      forall i | 0 <= i < |names| ensures ' ' !in names[i] {
        assert forall k :: 0 <= k < |names[i]| ==> names[i][k] !in Whitespace;
      }
    }
    JoinFirst(names, ' ');
    JoinLast(names, ' ');
    var lastName := names[|names| - 1];
    assert lastName[|lastName| - 1] !in Whitespace && lastName[|lastName| - 1] !in RepoTagsCut;
    var listed := "'[" + line + "]'";
    assert listed[0] == '\'' && listed[|listed| - 1] == '\'';
    assert "" + listed + trailer == listed + trailer;
    TrimWrapped("", listed, trailer, Whitespace);
    assert listed == "'[" + line + "]'";
    TrimWrapped("'[", line, "]'", RepoTagsCut);
    SplitJoin(names, ' ');
  }

  /** An image with no tags prints `'[]'`, which parses to one empty name. */
  lemma ParseRepoTagsEmptyList()
    ensures ParseRepoTags("'[]'\n") == [""]
  {
    var listed := "'[]'";
    assert "'[]'\n" == "" + listed + "\n";
    TrimWrapped("", listed, "\n", Whitespace);
    assert listed + [] == listed;
    TrimLeftPrefix(listed, [], RepoTagsCut);
    SplitSingle("", ' ');
    SplitFirst("", ' ');
  }

  /** One `rmi <name>` command per name, in order. */
  function RmiArgs(names: seq<string>): (commands: seq<seq<string>>)
    ensures |commands| == |names|
    ensures forall i :: 0 <= i < |names| ==> commands[i] == ["rmi", names[i]]
  {
    if names == [] then []
    else RmiArgs(names[..|names| - 1]) + [["rmi", names[|names| - 1]]]
  }

  /** The index of the first name whose removal fails, if any. */
  function FirstFailure(names: seq<string>, rmi: string -> Option<string>): (r: Option<nat>)
    ensures r.Some? ==> r.value < |names| && rmi(names[r.value]).Some?
                        && forall i :: 0 <= i < r.value ==> rmi(names[i]).None?
    ensures r.None? <==> forall i :: 0 <= i < |names| ==> rmi(names[i]).None?
    decreases |names|
  {
    if names == [] then None
    else if rmi(names[0]).Some? then Some(0)
    else
      match FirstFailure(names[1..], rmi)
      case None => None
      case Some(k) => Some(k + 1)
  }

  /** The first name whose removal fails, found by walking the names in order. */
  lemma FirstFailureAt(names: seq<string>, rmi: string -> Option<string>, i: nat)
    requires i < |names| && rmi(names[i]).Some?
    requires forall j :: 0 <= j < i ==> rmi(names[j]).None?
    ensures FirstFailure(names, rmi) == Some(i)
  {
  }

  /** The error of a removal that failed. */
  function RemovalFailed(name: string, err: string): string
  {
    "Error removing container " + name + ": " + err
  }

  /**
   * The removal loop of cleanUpUsingName: `docker rmi <name>` for each name
   * in order, stopping at the first one that fails.
   */
  method RemoveNames(names: seq<string>, rmi: string -> Option<string>)
    returns (r: Result<()>, commands: seq<seq<string>>)
    ensures FirstFailure(names, rmi).None? ==> r == Ok(()) && commands == RmiArgs(names)
    ensures FirstFailure(names, rmi).Some? ==>
      var k := FirstFailure(names, rmi).value;
      r == Err(RemovalFailed(names[k], rmi(names[k]).value)) && commands == RmiArgs(names[..k + 1])
  {
    commands := [];
    var i := 0;
    while i < |names|
      invariant 0 <= i <= |names|
      invariant forall j :: 0 <= j < i ==> rmi(names[j]).None?
      invariant commands == RmiArgs(names[..i])
    {
      assert names[..i + 1][..i] == names[..i];
      commands := commands + [["rmi", names[i]]];
      var failed := rmi(names[i]);
      if failed.Some? {
        FirstFailureAt(names, rmi, i);
        return Err(RemovalFailed(names[i], failed.value)), commands;
      }
      i := i + 1;
    }
    assert names[..i] == names;
    r := Ok(());
  }

  /**
   * The docker commands cleanUpUsingName runs on `container`: none without
   * docker, then the inspect, then `rmi <name>` for each name in order up to
   * and including the first one whose removal fails.
   */
  predicate NameCommands(container: string, lookPath: Result<string>, inspect: Result<string>,
                         rmi: string -> Option<string>, commands: seq<seq<string>>)
  {
    if lookPath.Err? then commands == []
    else if inspect.Err? then commands == [RepoTagsArgs(container)]
    else
      var names := ParseRepoTags(inspect.value);
      match FirstFailure(names, rmi)
      case None => commands == [RepoTagsArgs(container)] + RmiArgs(names)
      case Some(k) => commands == [RepoTagsArgs(container)] + RmiArgs(names[..k + 1])
  }

  /**
   * The answer of cleanUpUsingName: the lookup error, the inspect error, or
   * the first failing removal with its name, each with its message; success
   * when every removal succeeds.
   */
  predicate NameResult(lookPath: Result<string>, inspect: Result<string>, rmi: string -> Option<string>, r: Result<()>)
  {
    if lookPath.Err? then r == Err("Could not find docker command: " + lookPath.msg)
    else if inspect.Err? then r == Err("Error attempting to get all tags for container: " + inspect.msg)
    else
      var names := ParseRepoTags(inspect.value);
      match FirstFailure(names, rmi)
      case None => r == Ok(())
      case Some(k) => r == Err(RemovalFailed(names[k], rmi(names[k]).value))
  }

  /**
   * cleanUpUsingName, with the docker lookup, the inspect run and each
   * removal's error (`rmi`, None when it succeeds) as inputs: the removals
   * run in order and stop at the first failure.
   */
  method CleanUpUsingName(container: string, lookPath: Result<string>, inspect: Result<string>,
                          rmi: string -> Option<string>)
    returns (r: Result<()>, commands: seq<seq<string>>)
    ensures NameCommands(container, lookPath, inspect, rmi, commands)
    ensures NameResult(lookPath, inspect, rmi, r)
    ensures r.Ok? <==> lookPath.Ok? && inspect.Ok? && FirstFailure(ParseRepoTags(inspect.value), rmi).None?
  {
    if lookPath.Err? {
      return Err("Could not find docker command: " + lookPath.msg), [];
    }
    if inspect.Err? {
      return Err("Error attempting to get all tags for container: " + inspect.msg), [RepoTagsArgs(container)];
    }
    var names := ParseRepoTags(inspect.value);
    var removals;
    r, removals := RemoveNames(names, rmi);
    commands := [RepoTagsArgs(container)] + removals;
  }

  /** The label filtered on: the --label value, or the commit label of HEAD when it is empty. */
  function EffectiveLabel(labelFlag: string, sha: Result<string>): (r: Result<string>)
    ensures labelFlag != "" ==> r == Ok(labelFlag)
    ensures labelFlag == "" ==> r == Utils.CommitLabel(sha)
    ensures r.Err? <==> labelFlag == "" && sha.Err?
  {
    if labelFlag != "" then Ok(labelFlag) else Utils.CommitLabel(sha)
  }

  /** The wrapping of CleanUpByLabel's error. */
  function CleanupFailed(err: string): string
  {
    "Failed to clean up built containers: " + err
  }

  /**
   * The docker commands cleanUpUsingLabel runs: none without a label or
   * without docker, then the search for the label's images, then one
   * `rmi -f` of the de-duplicated ids found.
   */
  predicate LabelCommands(labelFlag: string, sha: Result<string>, lookPath: Result<string>, find: Result<string>,
                          commands: seq<seq<string>>)
  {
    if EffectiveLabel(labelFlag, sha).Err? || lookPath.Err? then commands == []
    else
      var filter := "label=" + EffectiveLabel(labelFlag, sha).value;
      if find.Err? then commands == [Docker.FindArgs(filter)]
      else commands == [Docker.FindArgs(filter), ["rmi", "-f"] + Docker.DedupOf(Split(find.value, '\n'))]
  }

  /**
   * cleanUpUsingLabel: the images carrying the label (or the commit label)
   * removed through CleanUpByLabel, whose error is wrapped.
   */
  method CleanUpUsingLabel(labelFlag: string, sha: Result<string>, lookPath: Result<string>, find: Result<string>,
                           rmi: Result<string>)
    returns (r: Result<()>, commands: seq<seq<string>>)
    ensures LabelCommands(labelFlag, sha, lookPath, find, commands)
    ensures labelFlag == "" && sha.Err? ==> r == Err("Unable to build commit label: " + sha.msg)
    ensures EffectiveLabel(labelFlag, sha).Ok? ==>
      var filter := "label=" + EffectiveLabel(labelFlag, sha).value;
      (lookPath.Err? ==> r == Err(CleanupFailed(Docker.NotFoundMessage(lookPath.msg))))
      && (lookPath.Ok? && find.Err? ==>
            r == Err(CleanupFailed("Unable to find images using label '" + filter + "': " + find.msg)))
      && (lookPath.Ok? && find.Ok? && rmi.Err? ==>
            r == Err(CleanupFailed("Unable to delete images: " + rmi.msg)))
    ensures r.Ok? <==> EffectiveLabel(labelFlag, sha).Ok? && lookPath.Ok? && find.Ok? && rmi.Ok?
  {
    commands := [];
    var l := labelFlag;
    if l == "" {
      var commit := Utils.CommitLabel(sha);
      if commit.Err? {
        return Err("Unable to build commit label: " + commit.msg), commands;
      }
      l := commit.value;
    }
    var filterLabel := "label=" + l;
    var cleaned;
    cleaned, commands := Docker.CleanUpByLabel(filterLabel, lookPath, find, rmi);
    if cleaned.Err? {
      return Err(CleanupFailed(cleaned.msg)), commands;
    }
    r := Ok(());
  }

  /**
   * cleanUpLocalBuild: the --container variable is set to the local image
   * of the job tag, which is then removed by name.
   */
  method CleanUpLocalBuild(g: CmdGlobals.Globals, config: ConfigLoader.Config, penv: CmdGlobals.ProcessEnv,
                           lookPath: Result<string>, inspect: Result<string>, rmi: string -> Option<string>)
    returns (r: Result<()>, commands: seq<seq<string>>)
    modifies g
    ensures g.containerName == TagCmd.LocalName(config.name, CmdGlobals.JobTag(penv))
    ensures unchanged(g`container, g`newStack, g`oldTag, g`newTag, g`tag)
    ensures NameCommands(g.containerName, lookPath, inspect, rmi, commands)
    ensures NameResult(lookPath, inspect, rmi, r)
    ensures r.Ok? <==> lookPath.Ok? && inspect.Ok? && FirstFailure(ParseRepoTags(inspect.value), rmi).None?
  {
    var dockerTag := CmdGlobals.JobTag(penv);
    g.containerName := config.name + ":" + dockerTag;
    r, commands := CleanUpUsingName(g.containerName, lookPath, inspect, rmi);
  }

  /**
   * cleanupContainers: exit 2 when the configuration has no name or no
   * repository, then clean up locally (--local), by name (--container) or
   * by label, exiting 3 when that fails and 0 otherwise.
   */
  method CleanupContainers(g: CmdGlobals.Globals, config: ConfigLoader.Config, local: bool, labelFlag: string,
                           penv: CmdGlobals.ProcessEnv, sha: Result<string>, lookPath: Result<string>,
                           inspect: Result<string>, rmiName: string -> Option<string>,
                           find: Result<string>, rmi: Result<string>)
    returns (exit: int, commands: seq<seq<string>>)
    modifies g
    ensures config.name == "" || config.ecrRepo == "" ==> exit == 2 && commands == [] && unchanged(g)
    ensures config.name != "" && config.ecrRepo != "" && local ==>
      g.containerName == TagCmd.LocalName(config.name, CmdGlobals.JobTag(penv))
      && NameCommands(g.containerName, lookPath, inspect, rmiName, commands)
      && exit == (if lookPath.Ok? && inspect.Ok? && FirstFailure(ParseRepoTags(inspect.value), rmiName).None? then 0 else 3)
    ensures config.name != "" && config.ecrRepo != "" && !local && old(g.containerName) != "" ==>
      g.containerName == old(g.containerName)
      && NameCommands(g.containerName, lookPath, inspect, rmiName, commands)
      && exit == (if lookPath.Ok? && inspect.Ok? && FirstFailure(ParseRepoTags(inspect.value), rmiName).None? then 0 else 3)
    ensures config.name != "" && config.ecrRepo != "" && !local && old(g.containerName) == "" ==>
      g.containerName == ""
      && LabelCommands(labelFlag, sha, lookPath, find, commands)
      && exit == (if EffectiveLabel(labelFlag, sha).Ok? && lookPath.Ok? && find.Ok? && rmi.Ok? then 0 else 3)
    ensures unchanged(g`container, g`newStack, g`oldTag, g`newTag, g`tag)
  {
    commands := [];
    if config.name == "" {
      return 2, commands;
    } else if config.ecrRepo == "" {
      return 2, commands;
    }
    var cleaned;
    if local {
      cleaned, commands := CleanUpLocalBuild(g, config, penv, lookPath, inspect, rmiName);
    } else if g.containerName != "" {
      cleaned, commands := CleanUpUsingName(g.containerName, lookPath, inspect, rmiName);
    } else {
      cleaned, commands := CleanUpUsingLabel(labelFlag, sha, lookPath, find, rmi);
    }
    exit := if cleaned.Err? then 3 else 0;
  }
}

/**
 * cmd/build.go: building the service image. The repository top level, the
 * HEAD SHA, the clock, os.Stat and the docker run are inputs.
 */
module BuildCmd {
  import opened Strings
  import opened Results
  import Utils
  import ConfigLoader
  import CmdGlobals

  /** The labels of a build: the commit, the build date, then the configured labels in order. */
  method BuildLabels(sha: string, buildDate: string, configLabels: seq<string>) returns (labels: seq<string>)
    ensures |labels| == |configLabels| + 2
    ensures labels[0] == Utils.CommitLabelKey + "=" + sha
    ensures labels[1] == Utils.BuildDateLabel + "=" + buildDate
    ensures labels[2..] == configLabels
  {
    labels := [];
    labels := labels + [Utils.CommitLabelKey + "=" + sha];
    labels := labels + [Utils.BuildDateLabel + "=" + buildDate];
    var i := 0;
    while i < |configLabels|
      invariant 0 <= i <= |configLabels|
      invariant |labels| == i + 2
      invariant labels[0] == Utils.CommitLabelKey + "=" + sha
      invariant labels[1] == Utils.BuildDateLabel + "=" + buildDate
      invariant labels[2..] == configLabels[..i]
    {
      labels := labels + [configLabels[i]];
      i := i + 1;
    }
  }

  /** `--label <l>` for each label, in order. */
  function LabelArgs(labels: seq<string>): (args: seq<string>)
    ensures |args| == 2 * |labels|
    ensures forall i :: 0 <= i < |labels| ==> args[2 * i] == "--label" && args[2 * i + 1] == labels[i]
  {
    if labels == [] then []
    else
      var init := LabelArgs(labels[..|labels| - 1]);
      init + ["--label", labels[|labels| - 1]]
  }

  /** The extra arguments: the --docker-args string split on single spaces, empty pieces included. */
  function ExtraArgs(dockerBuildArgs: string): seq<string>
  {
    if |dockerBuildArgs| > 0 then Split(dockerBuildArgs, ' ') else []
  }

  /** The extra arguments put back together with spaces give the --docker-args string. */
  lemma ExtraArgsRejoin(dockerBuildArgs: string)
    ensures Join(ExtraArgs(dockerBuildArgs), ' ') == dockerBuildArgs
  {
    if |dockerBuildArgs| > 0 {
      JoinSplit(dockerBuildArgs, ' ');
    }
  }

  /** Two spaces in a row pass an empty argument to docker. */
  lemma ExtraArgsKeepsEmpty(a: string, b: string)
    requires ' ' !in a && ' ' !in b
    ensures ExtraArgs(a + "  " + b) == [a, "", b]
  {
    assert a + "  " + b == a + " " + (" " + b);
    SplitAtSep(a, " " + b, ' ');
    assert " " + b == "" + " " + b;
    SplitAtSep("", b, ' ');
    SplitSingle(b, ' ');
    SplitFirst(b, ' ');
  }

  /**
   * buildContainer's argument list: `build -t <name>`, the labels, the extra
   * arguments, then `-f <dockerfile> .`.
   */
  method BuildContainerArgs(containerName: string, dockerfile: string, dockerBuildArgs: string, labels: seq<string>)
    returns (args: seq<string>)
    ensures args == ["build", "-t", containerName] + LabelArgs(labels) + ExtraArgs(dockerBuildArgs) + ["-f", dockerfile, "."]
  {
    args := ["build", "-t", containerName];
    var i := 0;
    while i < |labels|
      invariant 0 <= i <= |labels|
      invariant args == ["build", "-t", containerName] + LabelArgs(labels[..i])
    {
      assert labels[..i + 1][..i] == labels[..i];
      args := args + ["--label", labels[i]];
      i := i + 1;
    }
    assert labels[..i] == labels;
    if |dockerBuildArgs| > 0 {
      var extra := Split(dockerBuildArgs, ' ');
      var j := 0;
      ghost var base := args;
      while j < |extra|
        invariant 0 <= j <= |extra|
        invariant args == base + extra[..j]
      {
        assert extra[..j + 1] == extra[..j] + [extra[j]];
        args := args + [extra[j]];
        j := j + 1;
      }
      assert extra[..j] == extra;
    }
    args := args + ["-f", dockerfile, "."];
  }

  /** buildContainer with the docker run as input. */
  method BuildContainer(containerName: string, dockerfile: string, dockerBuildArgs: string, labels: seq<string>,
                        docker: ExecResult)
    returns (r: Result<()>, args: seq<string>)
    ensures args == ["build", "-t", containerName] + LabelArgs(labels) + ExtraArgs(dockerBuildArgs) + ["-f", dockerfile, "."]
    ensures docker.NotFound? ==> r == Err("Could not find docker executable")
    ensures docker.Failed? ==> r == Err(docker.err)
    ensures docker.Succeeded? ==> r == Ok(())
  {
    args := BuildContainerArgs(containerName, dockerfile, dockerBuildArgs, labels);
    match docker
    case NotFound(_) => r := Err("Could not find docker executable");
    case Failed(e) => r := Err(e);
    case Succeeded(_) => r := Ok(());
  }

  /** The Dockerfile looked for: the configured one, or the default, under the top level. */
  function DockerfilePath(toplevel: string, configDockerfile: string): (path: string)
    ensures path == toplevel + "/" + (if configDockerfile != "" then configDockerfile else ConfigLoader.DefaultDockerfile)
  {
    var file := if configDockerfile != "" then configDockerfile else ConfigLoader.DefaultDockerfile;
    JoinTwo(toplevel, file, '/');
    Join([toplevel, file], '/')
  }

  /** findDockerfile, with os.Stat as `stat` (None when the path exists). */
  function FindDockerfile(toplevel: string, configDockerfile: string, stat: string -> Option<string>): (r: Result<string>)
    ensures stat(DockerfilePath(toplevel, configDockerfile)).None? ==> r == Ok(DockerfilePath(toplevel, configDockerfile))
    ensures stat(DockerfilePath(toplevel, configDockerfile)).Some? ==>
      r == Err("Could not find Dockerfile at " + DockerfilePath(toplevel, configDockerfile))
  {
    var path := DockerfilePath(toplevel, configDockerfile);
    if stat(path).Some? then Err("Could not find Dockerfile at " + path) else Ok(path)
  }

  /**
   * build: exit 2 when the top level, the Dockerfile or the SHA cannot be
   * found, exit 4 when the build fails, 0 otherwise; `args` is the build
   * command that ran.
   */
  method Build(config: ConfigLoader.Config, penv: CmdGlobals.ProcessEnv, toplevel: Result<string>,
               stat: string -> Option<string>, sha: Result<string>, now: Utils.Clock,
               dockerBuildArgs: string, docker: ExecResult)
    returns (exit: int, args: Option<seq<string>>)
    requires now.Valid()
    ensures toplevel.Err? ==> exit == 2 && args == None
    ensures toplevel.Ok? && FindDockerfile(toplevel.value, config.dockerfile, stat).Err? ==> exit == 2 && args == None
    ensures toplevel.Ok? && FindDockerfile(toplevel.value, config.dockerfile, stat).Ok? && sha.Err? ==> exit == 2 && args == None
    ensures toplevel.Ok? && FindDockerfile(toplevel.value, config.dockerfile, stat).Ok? && sha.Ok? ==>
      (docker.NotFound? ==> args == None)
      && (!docker.NotFound? ==> args == Some(
           ["build", "-t", config.name + ":" + CmdGlobals.JobTag(penv)]
           + LabelArgs([Utils.CommitLabelKey + "=" + sha.value, Utils.BuildDateLabel + "=" + Utils.FormatBuildDate(now)] + config.labels)
           + ExtraArgs(dockerBuildArgs)
           + ["-f", DockerfilePath(toplevel.value, config.dockerfile), "."]))
      && exit == (if docker.Succeeded? then 0 else 4)
  {
    args := None;
    if toplevel.Err? {
      return 2, args;
    }
    var dockerfile := FindDockerfile(toplevel.value, config.dockerfile, stat);
    if dockerfile.Err? {
      return 2, args;
    }
    var dockerTag := CmdGlobals.JobTag(penv);
    var containerName := config.name + ":" + dockerTag;
    if sha.Err? {
      return 2, args;
    }
    var labels := BuildLabels(sha.value, Utils.FormatBuildDate(now), config.labels);
    assert labels == [Utils.CommitLabelKey + "=" + sha.value, Utils.BuildDateLabel + "=" + Utils.FormatBuildDate(now)] + config.labels;
    var built, buildArgs := BuildContainer(containerName, dockerfile.value, dockerBuildArgs, labels, docker);
    if !docker.NotFound? {
      args := Some(buildArgs);
    }
    exit := if built.Err? then 4 else 0;
  }
}

/**
 * cmd/test.go: running the service's tests in its image. The repository
 * top level, the SECRETS_FILE variable, os.Stat and the docker run are
 * inputs.
 */
module TestCmd {
  import opened Results
  import ConfigLoader
  import CmdGlobals

  const SecretsFileKey := "SECRETS_FILE"
  const AppEnvKey := "APP_ENV"

  /** The secrets file used: the flag, or SECRETS_FILE when the flag is empty. */
  function EffectiveSecretsFile(secretsFile: string, penv: CmdGlobals.ProcessEnv): string
  {
    if secretsFile == "" then penv.secretsFile else secretsFile
  }

  /**
   * The secrets arguments for the secrets file `sf`, with os.Stat as `stat`
   * (None when the path exists): none without a file; a volume of the file
   * under the top level if it exists there, else of the path itself if that
   * exists, else the file's name in SECRETS_FILE.
   */
  predicate SecretsArgsFor(cmdArgs: seq<string>, sf: string, env: string, repoTopLevel: string,
                           stat: string -> Option<string>)
  {
    (sf == "" ==> cmdArgs == [])
    && (sf != "" && stat(repoTopLevel + "/" + sf).None? ==>
          cmdArgs == ["-v", repoTopLevel + "/" + sf + ":/tmp/" + env])
    && (sf != "" && stat(repoTopLevel + "/" + sf).Some? && stat(sf).None? ==>
          cmdArgs == ["-v", sf + ":/tmp/" + env])
    && (sf != "" && stat(repoTopLevel + "/" + sf).Some? && stat(sf).Some? ==>
          cmdArgs == ["-e", SecretsFileKey + "=" + sf])
  }

  /**
   * getSecretsFile, with os.Stat as `stat` (None when the path exists): no
   * argument without a secrets file; otherwise a volume of the file under
   * the top level if it exists there, else of the path itself if that
   * exists, else the file's name in SECRETS_FILE.
   */
  method GetSecretsFile(secretsFile: string, env: string, repoTopLevel: string, penv: CmdGlobals.ProcessEnv,
                        stat: string -> Option<string>)
    returns (cmdArgs: seq<string>)
    ensures SecretsArgsFor(cmdArgs, EffectiveSecretsFile(secretsFile, penv), env, repoTopLevel, stat)
    ensures |cmdArgs| == 0 || |cmdArgs| == 2
  {
    cmdArgs := [];
    var sf := secretsFile;
    if sf == "" {
      sf := penv.secretsFile;
    }
    if sf != "" {
      if stat(repoTopLevel + "/" + sf).None? {
        cmdArgs := cmdArgs + ["-v", repoTopLevel + "/" + sf + ":/tmp/" + env];
      } else if stat(sf).None? {
        cmdArgs := cmdArgs + ["-v", sf + ":/tmp/" + env];
      } else {
        cmdArgs := cmdArgs + ["-e", SecretsFileKey + "=" + sf];
      }
    }
  }

  /** `-v <volume>` for each volume, in order. */
  function VolumeArgs(volumes: seq<string>): (args: seq<string>)
    ensures |args| == 2 * |volumes|
    ensures forall i :: 0 <= i < |volumes| ==> args[2 * i] == "-v" && args[2 * i + 1] == volumes[i]
  {
    if volumes == [] then []
    else VolumeArgs(volumes[..|volumes| - 1]) + ["-v", volumes[|volumes| - 1]]
  }

  /** The test script run: the configured one, or the default. */
  function TestScript(testScript: string): string
  {
    if testScript != "" then testScript else ConfigLoader.DefaultTestScript
  }

  /**
   * buildTestCmdArgs: `run --rm -e APP_ENV=<env>`, the secrets arguments,
   * the volumes, the image `name:jobTag` and the test script.
   */
  method BuildTestCmdArgs(env: string, appEnvKey: string, secretsFile: string, repoTopLevel: string, name: string,
                          testScript: string, extraVolumes: seq<string>, penv: CmdGlobals.ProcessEnv,
                          stat: string -> Option<string>)
    returns (args: seq<string>, secretsArgs: seq<string>)
    ensures |secretsArgs| == 0 || |secretsArgs| == 2
    ensures SecretsArgsFor(secretsArgs, EffectiveSecretsFile(secretsFile, penv), env, repoTopLevel, stat)
    ensures args == ["run", "--rm", "-e", appEnvKey + "=" + env] + secretsArgs + VolumeArgs(extraVolumes)
                    + [name + ":" + CmdGlobals.JobTag(penv), TestScript(testScript)]
    ensures |args| == 4 + |secretsArgs| + 2 * |extraVolumes| + 2
  {
    args := ["run", "--rm", "-e", appEnvKey + "=" + env];
    secretsArgs := GetSecretsFile(secretsFile, env, repoTopLevel, penv, stat);
    args := args + secretsArgs;
    ghost var base := args;
    var i := 0;
    while i < |extraVolumes|
      invariant 0 <= i <= |extraVolumes|
      invariant args == base + VolumeArgs(extraVolumes[..i])
    {
      assert extraVolumes[..i + 1][..i] == extraVolumes[..i];
      args := args + ["-v", extraVolumes[i]];
      i := i + 1;
    }
    assert extraVolumes[..i] == extraVolumes;
    var dockerTag := CmdGlobals.JobTag(penv);
    args := args + [name + ":" + dockerTag];
    if testScript != "" {
      args := args + [testScript];
    } else {
      args := args + [ConfigLoader.DefaultTestScript];
    }
  }

  /**
   * testContainer: exit 2 without a top level, 3 when docker is missing or
   * the tests fail, 0 when they pass; `args` is the command line built,
   * whose secrets arguments are the ones the secrets file calls for.
   */
  method TestContainer(env: string, secretsFile: string, config: ConfigLoader.Config, extraVolumes: seq<string>,
                       penv: CmdGlobals.ProcessEnv, toplevel: Result<string>, stat: string -> Option<string>,
                       docker: ExecResult)
    returns (exit: int, args: Option<seq<string>>)
    ensures toplevel.Err? ==> exit == 2 && args == None
    ensures toplevel.Ok? ==>
      (args.Some? && exists secretsArgs ::
         SecretsArgsFor(secretsArgs, EffectiveSecretsFile(secretsFile, penv), env, toplevel.value, stat)
         && args.value == ["run", "--rm", "-e", AppEnvKey + "=" + env] + secretsArgs + VolumeArgs(extraVolumes)
                          + [config.name + ":" + CmdGlobals.JobTag(penv), TestScript(config.testScript)])
    ensures toplevel.Ok? ==> exit == (if docker.Succeeded? then 0 else 3)
  {
    if toplevel.Err? {
      return 2, None;
    }
    var testArgs, secretsArgs := BuildTestCmdArgs(env, AppEnvKey, secretsFile, toplevel.value, config.name, config.testScript,
                                        extraVolumes, penv, stat);
    args := Some(testArgs);
    assert SecretsArgsFor(secretsArgs, EffectiveSecretsFile(secretsFile, penv), env, toplevel.value, stat);
    exit := if docker.Succeeded? then 0 else 3;
  }
}

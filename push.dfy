/**
 * cmd/push.go: pushing the built image to ECR. The ECR login runs and the
 * docker push are inputs.
 */
module PushCmd {
  import opened Results
  import Aws
  import Docker
  import ConfigLoader
  import CmdGlobals
  import TagCmd

  /**
   * pushContainer: exit 2 when the ECR login fails, leaving the variables
   * alone; otherwise the --tag variable defaults to the job tag and the
   * --container variable to the remote image of that tag, that image is
   * pushed, and a failed push exits 4. `pushArgs` is the push command line
   * when docker was found.
   */
  method PushContainer(g: CmdGlobals.Globals, region: string, profile: string, config: ConfigLoader.Config,
                       penv: CmdGlobals.ProcessEnv, aws: ExecResult, dockerLogin: ExecResult, push: ExecResult)
    returns (exit: int, pushArgs: Option<seq<string>>)
    modifies g
    ensures !(aws.Succeeded? && dockerLogin.Succeeded?) ==> exit == 2 && pushArgs == None && unchanged(g)
    ensures aws.Succeeded? && dockerLogin.Succeeded? ==>
      g.tag == (if old(g.tag) == "" then CmdGlobals.JobTag(penv) else old(g.tag))
      && g.containerName == (if old(g.containerName) == "" then TagCmd.RemoteName(config.ecrRepo, config.name, g.tag)
                             else old(g.containerName))
      && pushArgs == (if push.NotFound? then None else Some(["push", g.containerName]))
      && exit == (if push.Succeeded? then 0 else 4)
    ensures unchanged(g`container, g`newStack, g`oldTag, g`newTag)
  {
    pushArgs := None;
    var loggedIn := Aws.EcrLoginSucceeds(region, profile, config.ecrRepo, aws, dockerLogin);
    if !loggedIn {
      return 2, pushArgs;
    }
    if g.tag == "" {
      g.tag := CmdGlobals.JobTag(penv);
    }
    if g.containerName == "" {
      g.containerName := config.ecrRepo + "/" + config.name + ":" + g.tag;
    }
    var pushed, args := Docker.Push(g.containerName, push);
    if !push.NotFound? {
      pushArgs := Some(args);
    }
    exit := if pushed.Err? then 4 else 0;
  }
}

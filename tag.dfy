/**
 * cmd/tag.go: giving an image a new tag. The ECR login runs, the latest
 * deployed tag and the docker runs are inputs.
 */
module TagCmd {
  import opened Results
  import Utils
  import Aws
  import Docker
  import ConfigLoader
  import CmdGlobals

  /** `<repo>/<name>:<tag>`, an image in the registry. */
  function RemoteName(ecrRepo: string, name: string, tag: string): string
  {
    ecrRepo + "/" + name + ":" + tag
  }

  /** `<name>:<tag>`, an image built locally. */
  function LocalName(name: string, tag: string): string
  {
    name + ":" + tag
  }

  /**
   * A remote name gives its tag back to the ':' split that
   * FindLatestDeployTag reads image tags with.
   */
  lemma RemoteNameTag(ecrRepo: string, name: string, tag: string)
    requires ':' !in ecrRepo && ':' !in name && ':' !in tag
    ensures Aws.ImageTag(RemoteName(ecrRepo, name, tag)) == Ok(tag)
  {
    assert RemoteName(ecrRepo, name, tag) == (ecrRepo + "/" + name) + ":" + tag;
    Aws.ImageTagOfReference(ecrRepo + "/" + name, tag);
  }

  /** The same for a local name. */
  lemma LocalNameTag(name: string, tag: string)
    requires ':' !in name && ':' !in tag
    ensures Aws.ImageTag(LocalName(name, tag)) == Ok(tag)
  {
    Aws.ImageTagOfReference(name, tag);
  }

  /**
   * newContainerName: the --new-tag value, or when it is empty a tag made
   * by CreateTag, which is stored back into the variable; the result is the
   * remote image of that tag.
   */
  method NewContainerName(g: CmdGlobals.Globals, env: string, date: string, now: Utils.Clock, ecrRepo: string,
                          name: string, successful: bool, failure: bool, deployTag: bool)
    returns (r: string)
    requires now.Valid()
    modifies g
    ensures g.newTag == (if old(g.newTag) == "" then Utils.CreateTag(env, date, now, successful, failure, deployTag)
                         else old(g.newTag))
    ensures unchanged(g`container, g`newStack, g`oldTag, g`tag, g`containerName)
    ensures r == RemoteName(ecrRepo, name, g.newTag)
  {
    if g.newTag == "" {
      g.newTag := Utils.CreateTag(env, date, now, successful, failure, deployTag);
    }
    r := ecrRepo + "/" + name + ":" + g.newTag;
  }

  /**
   * The old tag oldContainerName settles on, or the lookup's error: the
   * --old-tag value, else with --find-latest-deploy the latest deployed
   * tag, else the job tag.
   */
  function OldTag(oldTag: string, findLatestDeploy: bool, penv: CmdGlobals.ProcessEnv, latestDeploy: Result<string>)
    : (r: Result<string>)
    ensures oldTag != "" ==> r == Ok(oldTag)
    ensures oldTag == "" && findLatestDeploy ==> r == latestDeploy
    ensures oldTag == "" && !findLatestDeploy ==> r == Ok(CmdGlobals.JobTag(penv))
    ensures r.Err? <==> oldTag == "" && findLatestDeploy && latestDeploy.Err?
  {
    if oldTag != "" then Ok(oldTag)
    else if findLatestDeploy then latestDeploy
    else Ok(CmdGlobals.JobTag(penv))
  }

  /**
   * oldContainerName, with `latestDeploy` the answer of FindLatestDeployTag
   * for the environment's task stack. The tag found is stored in the
   * --old-tag variable; a failed lookup stores the empty string there and
   * returns the error.
   */
  method OldContainerName(g: CmdGlobals.Globals, name: string, ecrRepo: string, findLatestDeploy: bool,
                          localContainer: bool, penv: CmdGlobals.ProcessEnv, latestDeploy: Result<string>)
    returns (r: Result<string>)
    modifies g
    ensures var t := OldTag(old(g.oldTag), findLatestDeploy, penv, latestDeploy);
      (t.Err? ==> r == t && g.oldTag == "")
      && (t.Ok? ==> g.oldTag == t.value
                    && r == Ok(if localContainer then LocalName(name, t.value) else RemoteName(ecrRepo, name, t.value)))
    ensures unchanged(g`container, g`newStack, g`newTag, g`tag, g`containerName)
  {
    if g.oldTag == "" {
      if findLatestDeploy {
        g.oldTag := if latestDeploy.Ok? then latestDeploy.value else "";
        if latestDeploy.Err? {
          return Err(latestDeploy.msg);
        }
      } else {
        g.oldTag := CmdGlobals.JobTag(penv);
      }
    }
    if localContainer {
      r := Ok(name + ":" + g.oldTag);
    } else {
      r := Ok(ecrRepo + "/" + name + ":" + g.oldTag);
    }
  }

  /**
   * The tagging step of tagContainer: exit 4 when the old image is neither
   * listed locally nor pulled, or when tagging fails, 0 otherwise, with the
   * new name printed on success under --output-new-name.
   */
  method RetagImage(oldName: string, newName: string, outputNewName: bool,
                    images: ExecResult, pull: ExecResult, tag: ExecResult)
    returns (exit: int, printed: Option<string>, commands: seq<seq<string>>)
    ensures var tagged := ((images.Succeeded? && Docker.Listed(images.stdout, oldName)) || pull.Succeeded?) && tag.Succeeded?;
      exit == (if tagged then 0 else 4)
      && printed == (if tagged && outputNewName then Some(newName) else None)
  {
    printed := None;
    var tagged;
    tagged, commands := Docker.TagContainer(oldName, newName, images, pull, tag);
    if tagged.Err? {
      return 4, printed, commands;
    }
    if outputNewName {
      printed := Some(newName);
    }
    exit := 0;
  }

  /**
   * The part of tagContainer after the ECR login: exit 3 when the old image
   * cannot be named (2 when the lookup panicked), 4 when pulling or tagging
   * fails, 0 otherwise.
   */
  method TagAfterLogin(g: CmdGlobals.Globals, env: string, config: ConfigLoader.Config, date: string, now: Utils.Clock,
                       successful: bool, failure: bool, deployTag: bool, findLatestDeploy: bool,
                       localContainer: bool, outputNewName: bool, penv: CmdGlobals.ProcessEnv,
                       latestDeploy: Result<string>, images: ExecResult, pull: ExecResult, tag: ExecResult)
    returns (exit: int, printed: Option<string>, commands: seq<seq<string>>)
    requires now.Valid()
    modifies g
    ensures var t := OldTag(old(g.oldTag), findLatestDeploy, penv, latestDeploy);
      (t.Err? ==> exit == (if Aws.IsPanic(t.msg) then 2 else 3) && printed == None && commands == []
                  && g.oldTag == "" && g.newTag == old(g.newTag))
      && (t.Ok? ==>
            var oldName := if localContainer then LocalName(config.name, t.value) else RemoteName(config.ecrRepo, config.name, t.value);
            var newTag := if old(g.newTag) == "" then Utils.CreateTag(env, date, now, successful, failure, deployTag) else old(g.newTag);
            g.oldTag == t.value && g.newTag == newTag
            && var tagged := ((images.Succeeded? && Docker.Listed(images.stdout, oldName)) || pull.Succeeded?) && tag.Succeeded?;
               exit == (if tagged then 0 else 4)
               && printed == (if tagged && outputNewName then Some(RemoteName(config.ecrRepo, config.name, newTag)) else None))
    ensures unchanged(g`container, g`newStack, g`tag, g`containerName)
  {
    printed := None;
    commands := [];
    var oldContainer := OldContainerName(g, config.name, config.ecrRepo, findLatestDeploy, localContainer, penv, latestDeploy);
    if oldContainer.Err? {
      exit := if Aws.IsPanic(oldContainer.msg) then 2 else 3;
      return exit, printed, commands;
    }
    var newContainer := NewContainerName(g, env, date, now, config.ecrRepo, config.name, successful, failure, deployTag);
    exit, printed, commands := RetagImage(oldContainer.value, newContainer, outputNewName, images, pull, tag);
  }

  /**
   * tagContainer: exit 2 when the ECR login fails, 3 when the old image
   * cannot be named (2 when the lookup panicked), 4 when pulling or tagging
   * fails, 0 otherwise. `printed` is the new name written to standard output
   * with --output-new-name, and `commands` the docker commands of the
   * tagging step.
   */
  method TagContainerCmd(g: CmdGlobals.Globals, env: string, region: string, profile: string,
                         config: ConfigLoader.Config, date: string, now: Utils.Clock,
                         successful: bool, failure: bool, deployTag: bool, findLatestDeploy: bool,
                         localContainer: bool, outputNewName: bool, penv: CmdGlobals.ProcessEnv,
                         aws: ExecResult, dockerLogin: ExecResult, latestDeploy: Result<string>,
                         images: ExecResult, pull: ExecResult, tag: ExecResult)
    returns (exit: int, printed: Option<string>, commands: seq<seq<string>>)
    requires now.Valid()
    modifies g
    ensures !(aws.Succeeded? && dockerLogin.Succeeded?) ==> exit == 2 && printed == None && commands == [] && unchanged(g)
    ensures aws.Succeeded? && dockerLogin.Succeeded? ==>
      var t := OldTag(old(g.oldTag), findLatestDeploy, penv, latestDeploy);
      (t.Err? ==> exit == (if Aws.IsPanic(t.msg) then 2 else 3) && printed == None && commands == []
                  && g.oldTag == "" && g.newTag == old(g.newTag))
      && (t.Ok? ==>
            var oldName := if localContainer then LocalName(config.name, t.value) else RemoteName(config.ecrRepo, config.name, t.value);
            var newTag := if old(g.newTag) == "" then Utils.CreateTag(env, date, now, successful, failure, deployTag) else old(g.newTag);
            g.oldTag == t.value && g.newTag == newTag
            && var tagged := ((images.Succeeded? && Docker.Listed(images.stdout, oldName)) || pull.Succeeded?) && tag.Succeeded?;
               exit == (if tagged then 0 else 4)
               && printed == (if tagged && outputNewName then Some(RemoteName(config.ecrRepo, config.name, newTag)) else None))
    ensures unchanged(g`container, g`newStack, g`tag, g`containerName)
  {
    var loggedIn := Aws.EcrLoginSucceeds(region, profile, config.ecrRepo, aws, dockerLogin);
    if !loggedIn {
      return 2, None, [];
    }
    exit, printed, commands := TagAfterLogin(g, env, config, date, now, successful, failure, deployTag, findLatestDeploy,
                                             localContainer, outputNewName, penv, latestDeploy, images, pull, tag);
  }
}

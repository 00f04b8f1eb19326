/**
 * The package-level variables of the cmd package that the commands
 * overwrite, and the process environment the commands read.
 */
module CmdGlobals {
  import Utils

  /**
   * The mutable command-line variables shared by the commands: cobra fills
   * them from the flags, and deploy, tag, push and cleanup overwrite some of
   * them while they run.
   */
  class Globals {
    var container: string      // deploy --container
    var newStack: bool         // deploy --new-stack
    var oldTag: string         // tag --old-tag
    var newTag: string         // tag --new-tag
    var tag: string            // push --tag
    var containerName: string  // push --container, cleanup --container

    constructor (container: string, newStack: bool, oldTag: string, newTag: string, tag: string, containerName: string)
      ensures this.container == container && this.newStack == newStack
      ensures this.oldTag == oldTag && this.newTag == newTag
      ensures this.tag == tag && this.containerName == containerName
    {
      this.container := container;
      this.newStack := newStack;
      this.oldTag := oldTag;
      this.newTag := newTag;
      this.tag := tag;
      this.containerName := containerName;
    }
  }

  /** The environment variables the commands read: JOB_NAME, BUILD_NUMBER and SECRETS_FILE. */
  datatype ProcessEnv = ProcessEnv(jobName: string, buildNumber: string, secretsFile: string)

  /** GetDockerJobTag under this environment. */
  function JobTag(penv: ProcessEnv): string
  {
    Utils.DockerJobTag(penv.jobName, penv.buildNumber)
  }
}

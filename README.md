# build-tool, modelled in Dafny

`build-tool` is a command-line program for services deployed on AWS ECS. It has
these commands:

- `build` builds a service's Docker image.
- `test` runs the image's tests.
- `tag` gives the image a new tag.
- `push` pushes it to an ECR registry.
- `deploy` creates or updates the service's CloudFormation stack, then waits for it.
- `cleanup` removes the images a build left behind.

The program mostly drives `docker`, `git`, the AWS CLI and the AWS SDK. Under
those calls sits a layer of deterministic logic, and this project models it:

- how build tags and phase tags are made;
- which tag in a registry counts as the latest build;
- how a deployed image's tag is read from a task definition;
- the argument lists given to docker and to the AWS CLI;
- the parsing of docker's output and of an env-settings file;
- how each command chooses its strategy and its exit code.

Every external call is an input of the model. A command-line run is an
`ExecResult` (not found, failed with an error, or succeeded with its output). An
SDK answer is a `Result` or `Option` value. `os.Stat` is a function from a path
to an optional error. The clock is a `Clock` value, and the process
environment is a `ProcessEnv` value. A Go runtime panic is an `Err` value
carrying the panic's message. The command holding it ends with exit
status 2, the status Go gives an unrecovered panic.

The package-level variables that the commands overwrite are fields of the class
`CmdGlobals.Globals`: `container`, `newStack`, `oldTag`, `newTag`, `tag` and
`containerName`. The methods of `deploy`, `tag`, `push` and `cleanup` take
that object and declare `modifies` on it.

Modules, one per source file, plus two helper modules:

- `Results`: `Option`, `Result` and `ExecResult`.
- `Strings`: the parts of Go's `strings` package the program uses, with their laws.
  These are `Split`, `Join`, `Replace` with no limit, `Trim`/`TrimSpace` over
  `unicode.IsSpace`, and the byte-wise string order used by `sort.Strings`.
- `Utils` models `utils/utils.go`.
- `Aws` models `utils/aws.go`.
- `ConfigLoader` models `utils/config.go`.
- `Docker` models `utils/docker.go`.
- `CmdGlobals` holds the shared flag variables of package `cmd`.
- `DeployCmd`, `BuildCmd`, `TestCmd`, `TagCmd`, `PushCmd` and `CleanupCmd` model the corresponding `cmd/*.go` file.

The model keeps several behaviours of the code as they are written:

- The latest build tag is a string maximum: among `20`, `3` and `100`, it is `3`.
- `CleanUpByLabel` always keeps the first piece of docker's output, even when it is empty. So its "No images found" branch can never be taken, and an empty search still runs `docker rmi -f ""`.
- An image with no tags makes `cleanUpUsingName` remove the empty name.
- When the `aws` executable is missing, `EcrLogin` returns "Could not find aws command: %!s(MISSING)". Its format string lacks the error argument, and this is Go's rendering of that.
- Indexing element 1 of a split on `:` (in `FindLatestDeployTag`) or on `=` (in `setupParameters`) panics when the separator is missing. So does slicing `[0:2]` of a split on `-` (in `FindLatestDeployTag`).

## Model

| member | source | states |
|---|---|---|
| Utils.DockerJobTag | utils/utils.go:93-103 | `latest` unless JOB_NAME and BUILD_NUMBER are both set; the tag never contains `/` or `%2F` |
| Utils.DockerJobTagPlain | utils/utils.go:95-98 | a job name and build number with no `/` and no `%2F` are kept as `JOB_NAME-BUILD_NUMBER` |
| Utils.DockerJobTagSlash | utils/utils.go:97 | a `/` in the job name becomes `_` |
| Utils.DockerJobTagEncodedSlash | utils/utils.go:98 | a `%2F` in the job name becomes `_` |
| Utils.DockerJobTagExample | utils/utils.go:95-101 | `ci/job` with `42` gives `ci_job-42`; a missing job name gives `latest` |
| Utils.FormatBuildDate | utils/utils.go:12 | the `yymmddHHMM` rendering of a clock is ten digits |
| Utils.BuildDateOrder | utils/utils.go:12 | within a century, string order of two build dates is their order in time |
| Utils.EffectiveDate | utils/utils.go:107-109 | an empty date is replaced by the clock's build date; any other date is kept; the result is never empty |
| Utils.CreateTag | utils/utils.go:106-120 | deploy beats successful, which beats failure: `env-deploy-d`, `env-pass-d` or `env-fail-d`; with no flag, the bare date |
| Utils.CreateTagInjective | utils/utils.go:111-117 | for the same flags, equal tags mean equal dates |
| Utils.PhaseNamesDiffer | utils/utils.go:19-21 | a tag of one phase never starts with another phase's `env-phase-` prefix |
| Utils.CreateTagMatchesPattern | utils/utils.go:23-25 | with an all-digit date a phase tag matches its own `^env-phase-[0-9]*$` pattern and no other phase's |
| Utils.CreateTagBareMatchesDefault | utils/utils.go:26 | with an all-digit date and no flag, the tag matches `^[0-9]*$` |
| Utils.TaskStackName | utils/utils.go:123-125 | the stack name is `env-` followed by the stack; its first `-` piece is the env when the env has no `-` |
| Utils.CommitLabel | utils/utils.go:128-135 | the SHA error is passed on; otherwise the label is `com.katch.commit=<sha>`, whose key is the part before `=` |
| Strings.Before | utils/utils.go:82 | the first piece of a split: a separator-free prefix of the input, followed in the input by the separator or by nothing |
| Utils.ParseEnvLine | utils/utils.go:78-85 | a line gives a setting iff it contains `=`; the key is the text before the first `=`; the value is the rest, cut at `#`, with one quote stripped at each end |
| Utils.SettingsKeys | utils/utils.go:77-87 | over parsed lines: a key is in the settings iff some parsed line gives a setting for it |
| Utils.SettingsLastWins | utils/utils.go:85 | over parsed lines: the value of a key is the one the last parsed line setting it gives |
| Utils.EnvSettingsKeys | utils/utils.go:77-87 | a key is in the settings iff some line gives a setting for it |
| Utils.EnvSettingsLastWins | utils/utils.go:85 | the value of a key is the one given by the last line that sets it |
| Utils.ParseEnvSettings | utils/utils.go:77-87 | the loop over the lines fills the map as the fold over the lines does |
| Utils.GetEnvSettings | utils/utils.go:60-90 | the three error messages in order (top level, missing file, unreadable file), otherwise the parsed settings of `deploy/env_setup` |
| Aws.RegistryId | utils/aws.go:107-111 | the registry id is the longest `.`-free prefix of the repository host |
| Aws.RegistryIdOfHost | utils/aws.go:107-111 | `account.domain` gives `account` |
| Aws.LexMax | utils/aws.go:173-179 | the result is one of the matches and is at least every match in string order |
| Aws.LastOfSortedIsLexMax | utils/aws.go:173-179 | the last element of any sorted permutation of the matches is that maximum |
| Aws.LexMaxExample | utils/aws.go:174-179 | `["20","3","100"]` gives `"3"` |
| Aws.MatchingTags | utils/aws.go:151-164 | a tag of a page is kept iff it is non-empty and matches the env's pattern (`stage-pass-<digits>` for prod, digits otherwise) |
| Aws.LastPage | utils/aws.go:166-170 | the pagination ends at the first page that is an error or has no next token |
| Aws.CollectedTagsMembers | utils/aws.go:136-171 | the collected tags are exactly the non-empty matching tags of every page read |
| Aws.PageMatches | utils/aws.go:151-164 | the loop over one page collects that page's matching tags, in order |
| Aws.RequestChainStep | utils/aws.go:137-145 | sending the next request with the token taken from the page before keeps every request on the same repository and registry, the first without a token and each later one with its predecessor page's token |
| Aws.LastPageAt | utils/aws.go:166-170 | the first response that is an error or has no next token is the last page read |
| Aws.FindLatestBuildTag | utils/aws.go:119-181 | one request per page until the last, all with the repository and registry id, each carrying the previous page's token; a page error is returned; with no match, "No matching containers found"; otherwise the string maximum of the matches |
| Aws.LatestBuildTagExample | utils/aws.go:130-179 | outside prod, a page of `20`, `3`, `100` collects all three and picks `3` |
| Aws.ImageTag | utils/aws.go:74 | the tag after the first `:` exists iff the image has a `:`; otherwise the index panics |
| Aws.ImageTagOfReference | utils/aws.go:79-81 | `repo:tag` with no other `:` gives back `tag` |
| Aws.StackContainerName | utils/aws.go:72 | the first two `-` pieces of the stack name exist iff it has a `-`; otherwise the slice panics |
| Aws.StackContainerNameOfTaskStack | utils/aws.go:72 | for a task stack name `env-stack`, the container name is `env-` followed by the stack's first `-` piece |
| Aws.FindTaskDefinitionId | utils/aws.go:55-60 | the physical id of the first `taskdefinition` resource, or empty when there is none |
| Aws.TagFromContainers | utils/aws.go:73-85 | one definition: its image's tag, whatever its name; several: the tag of the first named like the stack's container, or an empty tag when none is |
| Aws.FindLatestDeployTag | utils/aws.go:25-87 | the listing and describe errors are returned; the task id is the physical id of the first `taskdefinition` resource, or empty; a stack name with no `-` panics; one definition gives its image's tag; otherwise the image tag of the first definition named by the first two `-` pieces of the stack name, or the empty tag when none has that name |
| Aws.EcrLoginArgs | utils/aws.go:191-202 | `ecr get-login`, then `--region r` if set, then `--profile p` if set, then `--registry-ids <id>` |
| Aws.DockerLoginArgsOfLine | utils/aws.go:219-220 | the trimmed output's words after the first are the docker arguments |
| Aws.EcrLogin | utils/aws.go:189-236 | the aws arguments; one error message for each failing step, in order; docker runs, with the words after the first of aws's output, only after aws succeeded and docker was found; success iff both runs succeed |
| Aws.EcrLoginSucceeds | cmd/tag.go:50-53 | the login the `tag` and `push` commands check succeeds exactly when the aws run and the docker login both succeed |
| ConfigLoader.GetConfigFile | utils/config.go:29-39 | with no top level the default file, whatever was asked; otherwise `toplevel/` followed by the file, or by `.deploy/config.toml` when none was given |
| ConfigLoader.ConfigFileUnderTopLevel | utils/config.go:33-38 | the resolved path is under the top level, and the part after it is the chosen file |
| ConfigLoader.ReadConfig | utils/config.go:42-55 | a missing resolved file gives "Config file is missing: <path>" without decoding; otherwise the decoder's answer |
| Docker.Push | utils/docker.go:15-34 | arguments `push c`; the not-found and failure messages; success iff the run succeeds |
| Docker.Pull | utils/docker.go:74-94 | arguments `pull c`; the not-found and failure messages; success iff the run succeeds |
| Docker.LocalContainerFound | utils/docker.go:181-206 | true iff the images run succeeds and some output line, trimmed, equals the trimmed name |
| Docker.ListedLine | utils/docker.go:200-204 | every line of a listing is found in it |
| Docker.ListedIgnoresPadding | utils/docker.go:201 | white space around the name looked for does not change the answer |
| Docker.TagContainer | utils/docker.go:43-68 | pull only when the image is not listed locally; a pull failure stops before tagging; then `tag old new`, with its error messages |
| Docker.DedupFirst | utils/docker.go:117-121 | the first piece is always kept, even when empty, so the id list is never empty |
| Docker.DedupMembers | utils/docker.go:116-135 | an id is kept iff it is the first piece or a non-empty piece |
| Docker.DedupDistinct | utils/docker.go:126-134 | the kept ids have no duplicates |
| Docker.DedupExtends | utils/docker.go:116-135 | more output only appends ids: first-occurrence order is kept |
| Docker.SplitExample | utils/docker.go:117 | the output `"a\na\nb\n"` splits into `a`, `a`, `b` and a trailing empty piece |
| Docker.DedupExample | utils/docker.go:117-135 | `"a\na\nb\n"` gives `[a, b]` |
| Docker.DedupIds | utils/docker.go:116-135 | the nested loop with its `exists` flag computes the de-duplication |
| Docker.CleanUpByLabel | utils/docker.go:99-154 | not found, then `images -f <label> --format={{.ID}}` and its error, then `rmi -f` followed by the de-duplicated ids and its error; success iff all three steps succeed |
| Docker.CleanUpEmptySearch | utils/docker.go:117-139 | an empty search still yields one empty id, so "No images found" is never reached |
| Docker.InspectArgs | utils/docker.go:168-170 | `inspect`, the label format, then `name:tag` |
| Docker.GetContainerBuildDate | utils/docker.go:161-179 | the inspect arguments; a lookup or run error is passed on as it is; otherwise the trimmed output |
| Docker.BuildDateOfLine | utils/docker.go:178 | a printed date followed by white space gives back the date |
| DeployCmd.EntryParameter | cmd/deploy.go:88-92 | an entry gives a parameter iff it has `=`: key is piece 0, value is piece 1; otherwise the index panics |
| DeployCmd.EntryParameterOf | cmd/deploy.go:88-92 | `k=v` and `k=v=rest` both give `(k, v)`: anything after a second `=` is dropped |
| DeployCmd.SetupParameters | cmd/deploy.go:84-106 | the env's entries in order, then `ImageID=container`, then `TaskName=env-stack`, n+2 in all; a panic iff some entry lacks `=` |
| DeployCmd.FindContainer | cmd/deploy.go:108-118 | a given container unchanged; otherwise `repo/name:<latest build tag>`, or the lookup error |
| DeployCmd.FoundContainerTag | cmd/deploy.go:114 | the image found carries the latest build tag, read back by the `:` split |
| DeployCmd.LaunchStack | cmd/deploy.go:120-161 | create or update as asked, with the stack name and parameters; an `s3://` template as a URL, otherwise the file's contents as the body, or the read error |
| DeployCmd.Classify | cmd/deploy.go:173-186 | the four failed or rolled-back statuses fail; the two complete statuses succeed; any other status waits |
| DeployCmd.FailureMessagesDistinct | cmd/deploy.go:174-181 | the four failing statuses have four different messages |
| DeployCmd.WatchOf | cmd/deploy.go:163-192 | the number of polls never exceeds the feed |
| DeployCmd.WatchOfStopsAtFirstDecision | cmd/deploy.go:164-189 | polling stops at the first poll that decides, and gives its outcome; it runs on to the end of the feed only when no poll decides |
| DeployCmd.WatchStack | cmd/deploy.go:163-192 | the polling loop gives the outcome and poll count that `DeployCmd.WatchOf` defines |
| DeployCmd.WatchExamplePending | cmd/deploy.go:173-188 | pending, pending, `CREATE_COMPLETE` takes exactly 3 polls |
| DeployCmd.WatchExampleRollbackFailed | cmd/deploy.go:178-179 | `UPDATE_ROLLBACK_FAILED` stops at the first poll with its message |
| DeployCmd.Deploy | cmd/deploy.go:39-106 | session error 3; a describe error without "does not exist" 5, with nothing changed; a missing stack sets create mode; container lookup 5; empty template 3; an entry without `=` panics (exit 2) before any launch; otherwise the stack is launched with the entries' parameters, the image and the task name, unless the template file cannot be read; "No updates are to be performed" 255; other launch errors 6; watch failure 7; an empty status list panics (exit 2); success 0; only the container and new-stack variables can change |
| BuildCmd.BuildLabels | cmd/build.go:73-80 | commit label, then build-date label, then the configured labels in order |
| BuildCmd.LabelArgs | cmd/build.go:91-94 | `--label <l>` for each label, in order |
| BuildCmd.ExtraArgsRejoin | cmd/build.go:96-100 | the extra arguments joined by spaces give back the `--docker-args` string |
| BuildCmd.ExtraArgsKeepsEmpty | cmd/build.go:96-100 | two spaces in a row pass an empty argument |
| BuildCmd.BuildContainerArgs | cmd/build.go:89-102 | `build -t <name>`, the label arguments, the extra arguments, then `-f <dockerfile> .` |
| BuildCmd.BuildContainer | cmd/build.go:89-123 | those arguments; "Could not find docker executable", or the run's error |
| BuildCmd.DockerfilePath | cmd/build.go:128-132 | `toplevel/` followed by the configured Dockerfile, or `.deploy/Dockerfile` |
| BuildCmd.FindDockerfile | cmd/build.go:125-139 | that path when it exists, otherwise an error naming it |
| BuildCmd.Build | cmd/build.go:42-87 | exit 2 for the top level, the Dockerfile or the SHA; the image `name:jobTag` built with the labels in order; 4 when the build fails, 0 otherwise |
| TestCmd.GetSecretsFile | cmd/test.go:59-79 | the flag, else SECRETS_FILE; none: no arguments; the file under the top level, else the path itself, as a volume; else `-e SECRETS_FILE=<file>`; 0 or 2 arguments |
| TestCmd.VolumeArgs | cmd/test.go:87-89 | `-v <volume>` for each volume, in order |
| TestCmd.BuildTestCmdArgs | cmd/test.go:81-102 | `run --rm -e APP_ENV=<env>`, the secrets arguments that the secrets-file decision calls for, the volumes, `name:jobTag`, then the test script or `.deploy/tests.sh` |
| TestCmd.TestContainer | cmd/test.go:36-57 | exit 2 and no command without a top level; otherwise the whole test command (with the secrets arguments of the secrets-file decision) is built, and the exit is 3 unless docker is found and the tests pass |
| TagCmd.RemoteNameTag | cmd/tag.go:84 | a `repo/name:tag` name gives its tag back to the `:` split FindLatestDeployTag uses |
| TagCmd.LocalNameTag | cmd/tag.go:112 | the same for `name:tag` |
| TagCmd.NewContainerName | cmd/tag.go:79-85 | an explicit new tag is kept, otherwise CreateTag's tag is stored; the name is `repo/name:newTag`; no other variable changes |
| TagCmd.OldTag | cmd/tag.go:93-108 | an explicit old tag, else the latest deploy tag with `--find-latest-deploy`, else the job tag; an error only from the lookup |
| TagCmd.OldContainerName | cmd/tag.go:87-118 | the old tag chosen is stored; a failed lookup stores the empty tag and returns the error; `--local` gives `name:tag`, otherwise `repo/name:tag` |
| TagCmd.RetagImage | cmd/tag.go:69-76 | the tagging succeeds (exit 0) exactly when the old image is listed locally or pulled and then tagged, otherwise exit 4; the new name is printed only on success with `--output-new-name` |
| TagCmd.TagAfterLogin | cmd/tag.go:55-76 | old-name failure 3 (2 for a panic) with the empty old tag stored; otherwise the old and new tags stored and the tagging step's exit and output |
| TagCmd.TagContainerCmd | cmd/tag.go:45-77 | login failure 2 with nothing changed; old-name failure 3 (2 for a panic); tagging failure 4; success 0; the new name is printed only with `--output-new-name` |
| PushCmd.PushContainer | cmd/push.go:32-54 | login failure 2 with nothing changed and no push; the tag defaults to the job tag and the container to `repo/name:tag`; an explicit container is pushed as it is; push failure 4 |
| CleanupCmd.ParseRepoTags | cmd/cleanup.go:109 | the parse of the inspect output always gives at least one name |
| CleanupCmd.ParseRepoTagsOfList | cmd/cleanup.go:109 | `'[a b]'` followed by white space parses back to `[a, b]` |
| CleanupCmd.ParseRepoTagsEmptyList | cmd/cleanup.go:109 | `'[]'` parses to one empty name |
| CleanupCmd.RmiArgs | cmd/cleanup.go:112-116 | `rmi <name>` for each name, in order |
| CleanupCmd.FirstFailure | cmd/cleanup.go:112-120 | the first name whose removal fails; none exactly when every removal succeeds |
| CleanupCmd.FirstFailureAt | cmd/cleanup.go:112-120 | the name at which the walk stops (its removal fails, every earlier one succeeded) is the first failure |
| CleanupCmd.RemoveNames | cmd/cleanup.go:112-120 | the removals run in order: with no failure, `rmi <name>` for every name and success; otherwise the commands up to and including the first failing name, and that name and its error in the message |
| CleanupCmd.CleanUpUsingName | cmd/cleanup.go:88-123 | lookup and inspect errors with their messages; removals in order up to and including the first failure, which is named in the error |
| CleanupCmd.EffectiveLabel | cmd/cleanup.go:72-77 | the label given, else the commit label; an error only without a label and a SHA |
| CleanupCmd.CleanUpUsingLabel | cmd/cleanup.go:69-86 | the commit-label error; the filter `label=<label>`; the search and the `rmi -f` of the de-duplicated ids that CleanUpByLabel runs, with its errors wrapped |
| CleanupCmd.CleanUpLocalBuild | cmd/cleanup.go:59-67 | the container variable becomes `name:jobTag`; its inspect and removals and every error message are those of the removal by name |
| CleanupCmd.CleanupContainers | cmd/cleanup.go:35-57 | empty name or empty repository exits 2 with nothing changed; local beats container name, which beats label; each strategy runs all of its docker commands; failure 3, success 0 |

## Left out

- `utils/git.go` is not part of this model. The HEAD SHA and the repository top level are inputs.
- `cmd/root.go` is not part of this model. This covers cobra's flag registration, the logging setup and the `CheckAtToplevel` working-directory check.
- Process execution is not modelled. `exec.LookPath`, running a command and redirecting stdout/stderr are reduced to an `ExecResult` or `Result` per run. Where one lookup serves several runs (`cleanUpUsingName`, `CleanUpByLabel`), the lookup is a separate input.
- AWS SDK sessions and calls are inputs. This covers ListImages pages, ListStackResources, DescribeTaskDefinition, DescribeStacks and the create/update call.
  - FindLatestDeployTag's hard-coded `vmnetops` profile has no effect in the model.
  - Its ignored session error has no effect either.
  - For `tag`, the answer of FindLatestDeployTag is an input of `TagCmd.OldContainerName` and `TagCmd.TagContainerCmd`, rather than a call.
  - For `deploy`, the latest build tag is likewise an input of `DeployCmd.Deploy`.
- Aws.FindLatestBuildTag: requires that some response in the given list ends the pagination. The Go loop has no bound when the service keeps returning tokens.
- `time.Sleep` between polls is not modelled. The unbounded wait of `watchStack` becomes a finite feed of polls.
  - DeployCmd.WatchStack: when the feed runs out before a poll decides, the model returns a StillPolling outcome, and `DeployCmd.Deploy` reports StillWaiting instead of an exit code.
- `time.Now`, `os.Getenv`, `os.Stat` and file reads are parameters.
- CleanupCmd.CleanUpUsingName: each `docker rmi` answer is a function of the image name, so a name listed twice gets the same answer both times. Docker lists an image's RepoTags without repeats, so no real case is lost.
- TOML decoding is a foreign library, so `ReadConfig` takes the decoder as a function.
- The regular-expression engine is not modelled. The three phase patterns and the digits pattern are hand-written predicates.
- `sort.Strings` followed by taking the last element is modelled as the string maximum. `Aws.LastOfSortedIsLexMax` proves that any sorted permutation ends with that maximum.
- `os.Exit` is not modelled; the exit status is a returned value.
- Logging and printing are left out; the new name printed by `tag` is kept as an output.
- The `name` parameter of `setupParameters` is not modelled. The code ignores it and reads the global `container`, which `deploy` has just assigned the same value.
- `launchStack` tests `Config.CFTemplate` for `s3://` but uses its `cfTemplate` parameter otherwise. `deploy` passes the same value for both, so the model uses one.
- TagCmd.TagContainerCmd: does not restate the docker commands of the tagging step; `Docker.TagContainer` states them.
- TagCmd.TagAfterLogin: does not restate the docker commands either.
- TagCmd.RetagImage: does not restate the docker commands either.
- TagCmd.TagContainerCmd: tells a panic of the deploy-tag lookup from a returned error by its message. A message equal to one of the two Go panics FindLatestDeployTag can raise exits 2; any other lookup error exits 3.

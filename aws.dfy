/**
 * utils/aws.go: the registry id, the latest-build-tag lookup over the pages
 * the registry returns, the deployed tag read back from a stack's task
 * definition, and the argument lists of the registry login.
 */
module Aws {
  import opened Strings
  import opened Results
  import Utils

  // ---------------------------------------------------------------------
  // Registry id

  /** getRegistryId: the text before the first '.' of the registry host name. */
  function RegistryId(ecr: string): (r: string)
    ensures '.' !in r && HasPrefix(ecr, r)
    ensures r == ecr || ecr[|r|] == '.'
  {
    Before(ecr, '.')
  }

  /** The account number in front of a registry host is its registry id. */
  lemma RegistryIdOfHost(account: string, domain: string)
    requires '.' !in account
    ensures RegistryId(account + "." + domain) == account
  {
    SplitAtSep(account, domain, '.');
  }

  // ---------------------------------------------------------------------
  // Latest build tag

  /** Go's string maximum: what sort.Strings leaves in the last place. */
  function LexMax(s: seq<string>): (m: string)
    requires |s| > 0
    ensures m in s
    ensures forall x :: x in s ==> LexLe(x, m)
  {
    if |s| == 1 then LexLeRefl(s[0]); s[0]
    else
      var m' := LexMax(s[1..]);
      LexLeTotal(s[0], m');
      if LexLe(s[0], m') then m'
      else
        AboveMax(s[1..], m', s[0]);
        LexLeRefl(s[0]);
        s[0]
  }

  lemma AboveMax(s: seq<string>, m: string, y: string)
    requires forall x :: x in s ==> LexLe(x, m)
    requires LexLe(m, y)
    ensures forall x :: x in s ==> LexLe(x, y)
  {
    forall x | x in s ensures LexLe(x, y) {
      LexLeTrans(x, m, y);
    }
  }

  /** The last element of any sorted arrangement of `s` is LexMax(s). */
  lemma LastOfSortedIsLexMax(s: seq<string>, sorted: seq<string>)
    requires |s| > 0
    requires multiset(sorted) == multiset(s)
    requires forall i, j :: 0 <= i < j < |sorted| ==> LexLe(sorted[i], sorted[j])
    ensures sorted[|sorted| - 1] == LexMax(s)
  {
    var m := LexMax(s);
    assert m in multiset(sorted);
    var k :| 0 <= k < |sorted| && sorted[k] == m;
    var last := sorted[|sorted| - 1];
    assert last in multiset(s);
    if k < |sorted| - 1 {
      assert LexLe(m, last);
    } else {
      LexLeRefl(m);
    }
    LexLeAntisym(m, last);
  }

  /** String order, not numeric order: of 20, 3 and 100 the latest is 3. */
  lemma LexMaxExample()
    ensures LexMax(["20", "3", "100"]) == "3"
  {
    var s := ["20", "3", "100"];
    assert LexLe("20", "3") && LexLe("100", "3");
    assert !LexLe("3", "20") && !LexLe("3", "100");
    var m := LexMax(s);
    assert m == "20" || m == "3" || m == "100";
  }

  /** The tag filter: `^stage-pass-[0-9]*$` for prod, `^[0-9]*$` for every other environment. */
  predicate TagMatches(env: string, tag: string)
  {
    if env == "prod" then Utils.MatchesPhasePattern("stage", Utils.Pass, tag)
    else Utils.MatchesDefaultPattern(tag)
  }

  /** The non-empty tags that match the filter, in order. */
  function MatchingTags(env: string, tags: seq<string>): (r: seq<string>)
    ensures forall t :: t in r <==> t in tags && t != "" && TagMatches(env, t)
  {
    if tags == [] then []
    else
      var t := tags[|tags| - 1];
      var init := tags[..|tags| - 1];
      assert tags == init + [t];
      MatchingTags(env, init) + (if t != "" && TagMatches(env, t) then [t] else [])
  }

  /** One page of ListImages: the image tags on it ("" for an untagged image) and the token of the next page. */
  datatype ImagePage = ImagePage(tags: seq<string>, nextToken: Option<string>)

  /** The parameters of one ListImages request. */
  datatype ListImagesRequest = ListImagesRequest(repositoryName: string, registryId: string, nextToken: Option<string>)

  /** A response after which the loop stops: an error, or a page without a next token. */
  predicate EndsPagination(resp: Result<ImagePage>)
  {
    resp.Err? || resp.value.nextToken.None?
  }

  /** The index of the response that ends the pagination. */
  function LastPage(responses: seq<Result<ImagePage>>): (k: nat)
    requires exists i :: 0 <= i < |responses| && EndsPagination(responses[i])
    ensures k < |responses| && EndsPagination(responses[k])
    ensures forall i :: 0 <= i < k ==> !EndsPagination(responses[i])
  {
    if EndsPagination(responses[0]) then 0
    else
      var i :| 0 <= i < |responses| && EndsPagination(responses[i]);
      assert 0 <= i - 1 < |responses[1..]| && EndsPagination(responses[1..][i - 1]);
      1 + LastPage(responses[1..])
  }

  /** The matching tags of a run of pages, page after page. */
  function CollectedTags(env: string, pages: seq<Result<ImagePage>>): seq<string>
    requires forall i :: 0 <= i < |pages| ==> pages[i].Ok?
  {
    if pages == [] then []
    else CollectedTags(env, pages[..|pages| - 1]) + MatchingTags(env, pages[|pages| - 1].value.tags)
  }

  /** A tag is collected exactly when some page carries it, it is non-empty and it matches. */
  lemma {:induction false} CollectedTagsMembers(env: string, pages: seq<Result<ImagePage>>, t: string)
    requires forall i :: 0 <= i < |pages| ==> pages[i].Ok?
    ensures t in CollectedTags(env, pages) <==>
      t != "" && TagMatches(env, t) && exists i :: 0 <= i < |pages| && t in pages[i].value.tags
  {
    if pages != [] {
      var init := pages[..|pages| - 1];
      var lastTags := pages[|pages| - 1].value.tags;
      CollectedTagsMembers(env, init, t);
      assert CollectedTags(env, pages) == CollectedTags(env, init) + MatchingTags(env, lastTags);
      if t in CollectedTags(env, init) {
        var i :| 0 <= i < |init| && t in init[i].value.tags;
        assert init[i] == pages[i];
      }
      if t != "" && TagMatches(env, t) && exists i :: 0 <= i < |pages| && t in pages[i].value.tags {
        var i :| 0 <= i < |pages| && t in pages[i].value.tags;
        if i < |init| {
          assert init[i] == pages[i];
        } else {
          assert t in MatchingTags(env, lastTags);
        }
      }
    }
  }

  /** The token the next request carries: Go leaves NextToken unset for an empty string. */
  function TokenParam(token: string): Option<string>
  {
    if token != "" then Some(token) else None
  }

  lemma CollectedTagsStep(env: string, responses: seq<Result<ImagePage>>, i: nat)
    requires i < |responses|
    requires forall j :: 0 <= j <= i ==> responses[j].Ok?
    ensures forall j :: 0 <= j < i ==> responses[..i][j].Ok?
    ensures CollectedTags(env, responses[..i + 1]) == CollectedTags(env, responses[..i]) + MatchingTags(env, responses[i].value.tags)
  {
    assert responses[..i + 1][..i] == responses[..i];
  }

  /** The matching tags of one page, in order (the loop over resp.ImageIds). */
  method PageMatches(env: string, tags: seq<string>) returns (pageMatches: seq<string>)
    ensures pageMatches == MatchingTags(env, tags)
  {
    pageMatches := [];
    var j := 0;
    while j < |tags|
      invariant 0 <= j <= |tags|
      invariant pageMatches == MatchingTags(env, tags[..j])
    {
      assert tags[..j + 1][..j] == tags[..j];
      if tags[j] != "" && TagMatches(env, tags[j]) {
        pageMatches := pageMatches + [tags[j]];
      }
      j := j + 1;
    }
    assert tags[..j] == tags;
  }

  /** Request `j` carries the next token of the page answered before it, which did not end the walk. */
  predicate CarriesToken(requests: seq<ListImagesRequest>, responses: seq<Result<ImagePage>>, j: int)
    requires 0 < j < |requests| && j <= |responses|
  {
    !EndsPagination(responses[j - 1]) && requests[j].nextToken == TokenParam(responses[j - 1].value.nextToken.value)
  }

  /**
   * The requests of a page walk: each names the repository and the
   * registry, the first carries no token, and each later one carries the
   * next token of the page answered before it.
   */
  predicate RequestChain(requests: seq<ListImagesRequest>, name: string, registryId: string,
                         responses: seq<Result<ImagePage>>)
  {
    |requests| <= |responses|
    && (forall j :: 0 <= j < |requests| ==> requests[j].repositoryName == name && requests[j].registryId == registryId)
    && (|requests| > 0 ==> requests[0].nextToken == None)
    && (forall j :: 0 < j < |requests| ==> CarriesToken(requests, responses, j))
  }

  /** Sending the next request with the token just read keeps the chain. */
  lemma RequestChainStep(requests: seq<ListImagesRequest>, name: string, registryId: string,
                         responses: seq<Result<ImagePage>>, token: string)
    requires RequestChain(requests, name, registryId, responses)
    requires |requests| < |responses|
    requires |requests| == 0 ==> token == ""
    requires |requests| > 0 ==>
      !EndsPagination(responses[|requests| - 1]) && token == responses[|requests| - 1].value.nextToken.value
    ensures RequestChain(requests + [ListImagesRequest(name, registryId, TokenParam(token))], name, registryId, responses)
  {
    var next := requests + [ListImagesRequest(name, registryId, TokenParam(token))];
    assert forall j :: 0 <= j < |requests| ==> next[j] == requests[j];
    forall j | 0 < j < |next|
      ensures CarriesToken(next, responses, j)
    {
      if j < |requests| {
        assert CarriesToken(requests, responses, j);
      }
    }
  }

  /** The first response that ends the pagination is the last page. */
  lemma LastPageAt(responses: seq<Result<ImagePage>>, i: nat)
    requires i < |responses| && EndsPagination(responses[i])
    requires forall j :: 0 <= j < i ==> !EndsPagination(responses[j])
    ensures LastPage(responses) == i
  {
  }

  /**
   * FindLatestBuildTag over the responses the registry gives, in order.
   * Every page up to the first one without a next token is read (and an
   * error stops the walk); the non-empty matching tags are collected, and
   * the result is the greatest in string order, or an error when there is
   * none.
   */
  method FindLatestBuildTag(ecrRepo: string, name: string, env: string, responses: seq<Result<ImagePage>>)
    returns (r: Result<string>, requests: seq<ListImagesRequest>)
    requires exists i :: 0 <= i < |responses| && EndsPagination(responses[i])
    ensures |requests| == LastPage(responses) + 1
    ensures RequestChain(requests, name, RegistryId(ecrRepo), responses)
    ensures responses[LastPage(responses)].Err? ==> r == Err(responses[LastPage(responses)].msg)
    ensures responses[LastPage(responses)].Ok? ==>
      var matches := CollectedTags(env, responses[..LastPage(responses) + 1]);
      (matches == [] ==> r == Err("No matching containers found")) && (matches != [] ==> r == Ok(LexMax(matches)))
  {
    var registryId := RegistryId(ecrRepo);
    var nextToken := "";
    var matches: seq<string> := [];
    ghost var last := LastPage(responses);
    requests := [];
    var i := 0;
    while true
      invariant 0 <= i <= last
      invariant |requests| == i
      invariant forall j :: 0 <= j < i ==> !EndsPagination(responses[j])
      invariant matches == CollectedTags(env, responses[..i])
      invariant RequestChain(requests, name, registryId, responses)
      invariant i > 0 ==> nextToken == responses[i - 1].value.nextToken.value
      invariant i == 0 ==> nextToken == ""
      decreases last - i
    {
      RequestChainStep(requests, name, registryId, responses, nextToken);
      requests := requests + [ListImagesRequest(name, registryId, TokenParam(nextToken))];
      var resp := responses[i];
      if resp.Err? {
        LastPageAt(responses, i);
        return Err(resp.msg), requests;
      }
      var pageMatches := PageMatches(env, resp.value.tags);
      CollectedTagsStep(env, responses, i);
      matches := matches + pageMatches;
      if resp.value.nextToken.Some? {
        nextToken := resp.value.nextToken.value;
        i := i + 1;
      } else {
        LastPageAt(responses, i);
        break;
      }
    }
    // sort.Strings(matches) and the last element: the string maximum
    if |matches| <= 0 {
      r := Err("No matching containers found");
    } else {
      r := Ok(LexMax(matches));
    }
  }

  /** One page holding 20, 3 and 100 gives 3 outside prod. */
  lemma LatestBuildTagExample()
    ensures CollectedTags("dev", [Ok(ImagePage(["20", "3", "100"], None))]) == ["20", "3", "100"]
    ensures LexMax(CollectedTags("dev", [Ok(ImagePage(["20", "3", "100"], None))])) == "3"
  {
    var pages := [Ok(ImagePage(["20", "3", "100"], None))];
    assert pages[..0] == [];
    var tags := ["20", "3", "100"];
    assert AllDigits("20") && AllDigits("3") && AllDigits("100");
    assert ["20"][..0] == [];
    assert MatchingTags("dev", ["20"]) == ["20"];
    assert ["20", "3"][..1] == ["20"];
    assert MatchingTags("dev", ["20", "3"]) == ["20", "3"];
    assert tags[..2] == ["20", "3"];
    assert MatchingTags("dev", tags) == tags;
    LexMaxExample();
  }

  // ---------------------------------------------------------------------
  // Latest deploy tag

  datatype StackResource = StackResource(logicalId: string, physicalId: string)

  datatype ContainerDefinition = ContainerDefinition(name: string, image: string)

  const IndexPanic := "runtime error: index out of range [1] with length 1"
  const SlicePanic := "runtime error: slice bounds out of range [:2] with capacity 1"

  /** The two Go runtime panics FindLatestDeployTag can raise, as opposed to an error it returns. */
  predicate IsPanic(msg: string)
  {
    msg == IndexPanic || msg == SlicePanic
  }

  /** strings.Split(image, ":")[1]; the index panics when the image has no ':'. */
  function ImageTag(image: string): (r: Result<string>)
    ensures r.Ok? <==> ':' in image
    ensures r.Err? ==> r.msg == IndexPanic
  {
    SplitSingle(image, ':');
    var parts := Split(image, ':');
    if |parts| >= 2 then Ok(parts[1]) else Err(IndexPanic)
  }

  /** The tag of a `<repository>:<tag>` reference is read back (neither part has a ':'). */
  lemma ImageTagOfReference(repository: string, tag: string)
    requires ':' !in repository && ':' !in tag
    ensures ImageTag(repository + ":" + tag) == Ok(tag)
  {
    SplitAtSep(repository, tag, ':');
    SplitSingle(tag, ':');
    SplitFirst(tag, ':');
  }

  /** strings.Join(strings.Split(stackName, "-")[0:2], "-"); the slice panics with fewer than two segments. */
  function StackContainerName(stackName: string): (r: Result<string>)
    ensures r.Ok? <==> '-' in stackName
    ensures r.Err? ==> r.msg == SlicePanic
  {
    SplitSingle(stackName, '-');
    var parts := Split(stackName, '-');
    if |parts| >= 2 then Ok(Join(parts[..2], '-')) else Err(SlicePanic)
  }

  /**
   * For the stack `env-stack` of an environment without '-', the container
   * looked for is the environment joined to the first segment of the stack.
   */
  lemma StackContainerNameOfTaskStack(env: string, stack: string)
    requires '-' !in env
    ensures StackContainerName(Utils.TaskStackName(env, stack)) == Ok(env + "-" + Split(stack, '-')[0])
  {
    var s := Utils.TaskStackName(env, stack);
    var q := Split(stack, '-');
    assert s == env + ['-'] + stack;
    SplitAtSep(env, stack, '-');
    var parts := Split(s, '-');
    assert parts == [env] + q;
    assert parts[..2] == [env, q[0]];
    JoinTwo(env, q[0], '-');
  }

  /** The first resource whose logical id is "taskdefinition" gives the task id; none gives "". */
  method FindTaskDefinitionId(resources: seq<StackResource>) returns (taskId: string)
    ensures (forall i :: 0 <= i < |resources| ==> resources[i].logicalId != "taskdefinition") ==> taskId == ""
    ensures forall k :: (0 <= k < |resources| && resources[k].logicalId == "taskdefinition"
      && (forall i :: 0 <= i < k ==> resources[i].logicalId != "taskdefinition")) ==> taskId == resources[k].physicalId
  {
    taskId := "";
    var i := 0;
    while i < |resources|
      invariant 0 <= i <= |resources|
      invariant forall j :: 0 <= j < i ==> resources[j].logicalId != "taskdefinition"
      invariant taskId == ""
    {
      if resources[i].logicalId == "taskdefinition" {
        taskId := resources[i].physicalId;
        break;
      }
      i := i + 1;
    }
  }

  /**
   * The tag taken from a task definition's containers: with exactly one
   * container, that container's image tag whatever its name; otherwise the
   * image tag of the first container named `containerName`, or "" when
   * there is none.
   */
  method TagFromContainers(containerName: string, defs: seq<ContainerDefinition>) returns (r: Result<string>)
    ensures |defs| == 1 ==> r == ImageTag(defs[0].image)
    ensures |defs| != 1 && (forall i :: 0 <= i < |defs| ==> defs[i].name != containerName) ==> r == Ok("")
    ensures |defs| != 1 ==> forall k :: (0 <= k < |defs| && defs[k].name == containerName
      && (forall i :: 0 <= i < k ==> defs[i].name != containerName)) ==> r == ImageTag(defs[k].image)
  {
    r := Ok("");
    if |defs| == 1 {
      r := ImageTag(defs[0].image);
    } else {
      var i := 0;
      while i < |defs|
        invariant 0 <= i <= |defs|
        invariant forall j :: 0 <= j < i ==> defs[j].name != containerName
        invariant r == Ok("")
      {
        if defs[i].name == containerName {
          r := ImageTag(defs[i].image);
          break;
        }
        i := i + 1;
      }
    }
  }

  /**
   * FindLatestDeployTag with the two service calls passed in: the stack's
   * resource list and the task-definition lookup by id. Either call's error
   * is returned; the container name is cut from the stack name before the
   * containers are looked at.
   */
  method FindLatestDeployTag(stackName: string, resources: Result<seq<StackResource>>,
                             describe: string -> Result<seq<ContainerDefinition>>)
    returns (r: Result<string>, taskId: string)
    ensures resources.Err? ==> r == Err(resources.msg)
    ensures resources.Ok? && describe(taskId).Err? ==> r == Err(describe(taskId).msg)
    ensures resources.Ok? && describe(taskId).Ok? && '-' !in stackName ==> r == Err(SlicePanic)
    ensures resources.Ok? && describe(taskId).Ok? && |describe(taskId).value| == 1 && '-' in stackName ==>
      r == ImageTag(describe(taskId).value[0].image)
    ensures resources.Ok? && (forall i :: 0 <= i < |resources.value| ==> resources.value[i].logicalId != "taskdefinition") ==> taskId == ""
    ensures resources.Ok? ==> forall k :: (0 <= k < |resources.value| && resources.value[k].logicalId == "taskdefinition"
      && (forall i :: 0 <= i < k ==> resources.value[i].logicalId != "taskdefinition")) ==> taskId == resources.value[k].physicalId
    ensures resources.Ok? && describe(taskId).Ok? && '-' in stackName && |describe(taskId).value| != 1 ==>
      var defs := describe(taskId).value;
      var containerName := StackContainerName(stackName).value;
      ((forall i :: 0 <= i < |defs| ==> defs[i].name != containerName) ==> r == Ok(""))
      && (forall k :: (0 <= k < |defs| && defs[k].name == containerName
            && (forall i :: 0 <= i < k ==> defs[i].name != containerName)) ==> r == ImageTag(defs[k].image))
    ensures r.Ok? ==> resources.Ok? && describe(taskId).Ok? && StackContainerName(stackName).Ok?
  {
    taskId := "";
    if resources.Err? {
      return Err(resources.msg), taskId;
    }
    taskId := FindTaskDefinitionId(resources.value);
    var defs := describe(taskId);
    if defs.Err? {
      return Err(defs.msg), taskId;
    }
    var containerName := StackContainerName(stackName);
    if containerName.Err? {
      return Err(containerName.msg), taskId;
    }
    r := TagFromContainers(containerName.value, defs.value);
  }

  // ---------------------------------------------------------------------
  // Registry login

  /** The arguments of `aws ecr get-login`: region and profile only when set, then the registry id. */
  method EcrLoginArgs(region: string, profile: string, ecr: string) returns (args: seq<string>)
    ensures args == ["ecr", "get-login"]
      + (if region != "" then ["--region", region] else [])
      + (if profile != "" then ["--profile", profile] else [])
      + ["--registry-ids", RegistryId(ecr)]
  {
    args := ["ecr", "get-login"];
    if region != "" {
      args := args + ["--region", region];
    }
    if profile != "" {
      args := args + ["--profile", profile];
    }
    var registryId := Split(ecr, '.')[0];
    args := args + ["--registry-ids", registryId];
  }

  /** The `docker login ...` line printed by the AWS CLI, as docker arguments: its words after the first. */
  function DockerLoginArgs(awsOutput: string): seq<string>
  {
    Split(TrimSpace(awsOutput), ' ')[1..]
  }

  /**
   * A printed command line of space-free words, followed by white space,
   * gives back the words after the command.
   */
  lemma DockerLoginArgsOfLine(command: string, words: seq<string>, trailer: string)
    requires command != [] && forall k :: 0 <= k < |command| ==> command[k] !in Whitespace
    requires forall i :: 0 <= i < |words| ==> words[i] != [] && forall k :: 0 <= k < |words[i]| ==> words[i][k] !in Whitespace
    requires forall i :: 0 <= i < |trailer| ==> trailer[i] in Whitespace
    ensures DockerLoginArgs(Join([command] + words, ' ') + trailer) == words
  {
    var parts := [command] + words;
    var line := Join(parts, ' ');
    assert parts[1..] == words;
    assert ' ' in Whitespace;
    assert forall i :: 0 <= i < |parts| ==> ' ' !in parts[i] by {
      forall i | 0 <= i < |parts| ensures ' ' !in parts[i] {
        assert forall k :: 0 <= k < |parts[i]| ==> parts[i][k] !in Whitespace;
      }
    }
    SplitJoin(parts, ' ');
    JoinFirst(parts, ' ');
    JoinLast(parts, ' ');
    var lastPart := parts[|parts| - 1];
    assert lastPart[|lastPart| - 1] !in Whitespace;
    assert "" + line + trailer == line + trailer;
    TrimWrapped("", line, trailer, Whitespace);
  }

  /**
   * EcrLogin with the two runs passed in: `aws ecr get-login`, then docker
   * with the words of its trimmed output after the first. Returns the
   * arguments passed to each command that ran (none for docker when aws
   * fails or docker is not found).
   */
  method EcrLogin(region: string, profile: string, ecr: string, aws: ExecResult, docker: ExecResult)
    returns (r: Result<()>, awsArgs: seq<string>, dockerArgs: Option<seq<string>>)
    ensures awsArgs == ["ecr", "get-login"]
      + (if region != "" then ["--region", region] else [])
      + (if profile != "" then ["--profile", profile] else [])
      + ["--registry-ids", RegistryId(ecr)]
    ensures aws.NotFound? ==> r == Err("Could not find aws command: %!s(MISSING)") && dockerArgs == None
    ensures aws.Failed? ==> r == Err("Error getting login credentials for AWS ECR: " + aws.err) && dockerArgs == None
    ensures aws.Succeeded? && docker.NotFound? ==> dockerArgs == None
    ensures aws.Succeeded? && !docker.NotFound? ==> dockerArgs == Some(DockerLoginArgs(aws.stdout))
    ensures aws.Succeeded? && docker.NotFound? ==> r == Err("Could not find docker command: " + docker.err)
    ensures aws.Succeeded? && docker.Failed? ==> r == Err("Error setting up login credentials with Docker: " + docker.err)
    ensures r.Ok? <==> aws.Succeeded? && docker.Succeeded?
  {
    awsArgs := EcrLoginArgs(region, profile, ecr);
    dockerArgs := None;
    match aws
    case NotFound(_) =>
      // the source formats this message without its argument
      r := Err("Could not find aws command: %!s(MISSING)");
    case Failed(e) =>
      r := Err("Error getting login credentials for AWS ECR: " + e);
    case Succeeded(out) =>
      var loginArgs := DockerLoginArgs(out);
      match docker
      case NotFound(e) =>
        r := Err("Could not find docker command: " + e);
      case Failed(e) =>
        dockerArgs := Some(loginArgs);
        r := Err("Error setting up login credentials with Docker: " + e);
      case Succeeded(_) =>
        dockerArgs := Some(loginArgs);
        r := Ok(());
  }

  /** EcrLogin as the commands use it: they only act on whether it failed. */
  method EcrLoginSucceeds(region: string, profile: string, ecr: string, aws: ExecResult, docker: ExecResult)
    returns (ok: bool)
    ensures ok <==> aws.Succeeded? && docker.Succeeded?
  {
    var r, _, _ := EcrLogin(region, profile, ecr, aws, docker);
    ok := r.Ok?;
  }
}

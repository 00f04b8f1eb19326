/**
 * utils/docker.go: the docker command lines (push, pull, tag, inspect,
 * image clean-up by label) and the parsing of their output. Each run of
 * docker is an input: `ExecResult` when the function looks docker up for
 * that one run, a looked-up path (`Result<string>`) plus the outputs of the
 * runs (`Result<string>`) when one lookup serves several runs.
 */
module Docker {
  import opened Strings
  import opened Results

  /** The error every docker lookup failure gives. */
  function NotFoundMessage(err: string): string
  {
    "Could not find docker command: " + err
  }

  // ---------------------------------------------------------------------
  // push, pull

  /** Push: `docker push <container>`. */
  method Push(container: string, docker: ExecResult) returns (r: Result<()>, args: seq<string>)
    ensures args == ["push", container]
    ensures docker.NotFound? ==> r == Err(NotFoundMessage(docker.err))
    ensures docker.Failed? ==> r == Err("An error occurred pushing the container to ECR: " + docker.err)
    ensures r.Ok? <==> docker.Succeeded?
  {
    args := ["push", container];
    match docker
    case NotFound(e) => r := Err(NotFoundMessage(e));
    case Failed(e) => r := Err("An error occurred pushing the container to ECR: " + e);
    case Succeeded(_) => r := Ok(());
  }

  /** Pull: `docker pull <container>`. */
  method Pull(container: string, docker: ExecResult) returns (r: Result<()>, args: seq<string>)
    ensures args == ["pull", container]
    ensures docker.NotFound? ==> r == Err(NotFoundMessage(docker.err))
    ensures docker.Failed? ==> r == Err("An error occurred pulling the container: " + docker.err)
    ensures r.Ok? <==> docker.Succeeded?
  {
    args := ["pull", container];
    match docker
    case NotFound(e) => r := Err(NotFoundMessage(e));
    case Failed(e) => r := Err("An error occurred pulling the container: " + e);
    case Succeeded(_) => r := Ok(());
  }

  // ---------------------------------------------------------------------
  // local images

  /** The argument list of the local image listing. */
  const ImagesArgs := ["images", "--format={{.Repository}}:{{.Tag}}"]

  /** A listing line names the container once both are trimmed. */
  predicate SameImage(line: string, container: string)
  {
    TrimSpace(line) == TrimSpace(container)
  }

  /** Some line of the listing, trimmed, is the trimmed container name. */
  predicate Listed(listing: string, container: string)
  {
    var lines := Split(listing, '\n');
    exists i :: 0 <= i < |lines| && SameImage(lines[i], container)
  }

  /**
   * localContainerFound, given the run of `docker images`: true exactly when
   * the run succeeded and lists the container; a missing docker or a failed
   * run counts as not found.
   */
  method LocalContainerFound(container: string, images: ExecResult) returns (found: bool)
    ensures found <==> images.Succeeded? && Listed(images.stdout, container)
  {
    if !images.Succeeded? {
      return false;
    }
    var lines := Split(images.stdout, '\n');
    var i := 0;
    while i < |lines|
      invariant 0 <= i <= |lines|
      invariant forall j :: 0 <= j < i ==> !SameImage(lines[j], container)
    {
      if SameImage(lines[i], container) {
        return true;
      }
      i := i + 1;
    }
    assert !Listed(images.stdout, container);
    found := false;
  }

  /** A listing of separate lines lists each of its lines. */
  lemma ListedLine(lines: seq<string>, k: nat)
    requires k < |lines|
    requires forall i :: 0 <= i < |lines| ==> '\n' !in lines[i]
    ensures Listed(Join(lines, '\n'), lines[k])
  {
    SplitJoin(lines, '\n');
    assert SameImage(Split(Join(lines, '\n'), '\n')[k], lines[k]);
  }

  /** Padding around the name on either side does not hide a listed image. */
  lemma ListedIgnoresPadding(listing: string, pre: string, name: string, post: string)
    requires name != [] && name[0] !in Whitespace && name[|name| - 1] !in Whitespace
    requires forall i :: 0 <= i < |pre| ==> pre[i] in Whitespace
    requires forall i :: 0 <= i < |post| ==> post[i] in Whitespace
    ensures Listed(listing, pre + name + post) <==> Listed(listing, name)
  {
    TrimWrapped(pre, name, post, Whitespace);
    TrimUntouched(name, Whitespace);
    assert forall line :: SameImage(line, pre + name + post) <==> SameImage(line, name);
  }

  // ---------------------------------------------------------------------
  // tag

  /**
   * TagContainer with its three docker runs as inputs: the image listing,
   * the pull and the tag. The old image is pulled only when it is not
   * listed locally; a failed pull stops before tagging. `commands` are the
   * pull and tag command lines that ran, in order.
   */
  method TagContainer(oldName: string, newName: string, images: ExecResult, pull: ExecResult, tag: ExecResult)
    returns (r: Result<()>, commands: seq<seq<string>>)
    ensures images.Succeeded? && Listed(images.stdout, oldName) ==>
      commands == (if tag.NotFound? then [] else [["tag", oldName, newName]])
    ensures !(images.Succeeded? && Listed(images.stdout, oldName)) ==>
      commands == (if pull.NotFound? then []
                   else if pull.Failed? then [["pull", oldName]]
                   else if tag.NotFound? then [["pull", oldName]]
                   else [["pull", oldName], ["tag", oldName, newName]])
    ensures !(images.Succeeded? && Listed(images.stdout, oldName)) && pull.NotFound? ==> r == Err(NotFoundMessage(pull.err))
    ensures !(images.Succeeded? && Listed(images.stdout, oldName)) && pull.Failed? ==>
      r == Err("An error occurred pulling the container: " + pull.err)
    ensures ((images.Succeeded? && Listed(images.stdout, oldName)) || pull.Succeeded?) ==>
      (tag.NotFound? ==> r == Err(NotFoundMessage(tag.err)))
      && (tag.Failed? ==> r == Err("Error tagging container with build date and repo: " + tag.err))
      && (tag.Succeeded? ==> r == Ok(()))
    ensures r.Ok? <==> ((images.Succeeded? && Listed(images.stdout, oldName)) || pull.Succeeded?) && tag.Succeeded?
  {
    commands := [];
    var tagArgs := ["tag", oldName, newName];
    var found := LocalContainerFound(oldName, images);
    if !found {
      var pulled, pullArgs := Pull(oldName, pull);
      if !pull.NotFound? {
        commands := commands + [pullArgs];
      }
      if pulled.Err? {
        return pulled, commands;
      }
    }
    match tag
    case NotFound(e) =>
      r := Err(NotFoundMessage(e));
    case Failed(e) =>
      commands := commands + [tagArgs];
      r := Err("Error tagging container with build date and repo: " + e);
    case Succeeded(_) =>
      commands := commands + [tagArgs];
      r := Ok(());
  }

  // ---------------------------------------------------------------------
  // clean-up by label

  /**
   * The ids the de-duplication loop keeps from the pieces seen so far: the
   * first piece always (even an empty one), and then each later non-empty
   * id that is not kept yet.
   */
  function DedupOf(pieces: seq<string>): seq<string>
  {
    if pieces == [] then []
    else
      var ids := DedupOf(pieces[..|pieces| - 1]);
      var id := pieces[|pieces| - 1];
      if |ids| == 0 then [id]
      else if id == "" then ids
      else if id in ids then ids
      else ids + [id]
  }

  /** The kept ids start with the first piece, and nothing is lost from a non-empty input. */
  lemma {:induction false} DedupFirst(pieces: seq<string>)
    requires pieces != []
    ensures DedupOf(pieces) != [] && DedupOf(pieces)[0] == pieces[0]
  {
    var init := pieces[..|pieces| - 1];
    if init != [] {
      DedupFirst(init);
      assert init[0] == pieces[0];
    }
  }

  /** An id is kept exactly when it is the first piece or a later non-empty piece. */
  lemma {:induction false} DedupMembers(pieces: seq<string>, x: string)
    requires pieces != []
    ensures x in DedupOf(pieces) <==> x == pieces[0] || (x != "" && x in pieces)
  {
    var init := pieces[..|pieces| - 1];
    var id := pieces[|pieces| - 1];
    assert pieces == init + [id];
    if init != [] {
      DedupMembers(init, x);
      DedupFirst(init);
      assert init[0] == pieces[0];
    }
  }

  /** No element appears twice. */
  predicate Distinct(ids: seq<string>)
  {
    forall i, j :: 0 <= i < j < |ids| ==> ids[i] != ids[j]
  }

  /** No id is kept twice. */
  lemma {:induction false} DedupDistinct(pieces: seq<string>)
    ensures Distinct(DedupOf(pieces))
  {
    if pieces != [] {
      var init := pieces[..|pieces| - 1];
      DedupDistinct(init);
      var ids := DedupOf(init);
      var id := pieces[|pieces| - 1];
      if |ids| > 0 && id != "" && id !in ids {
        var d := ids + [id];
        assert DedupOf(pieces) == d;
        forall i, j | 0 <= i < j < |d| ensures d[i] != d[j] {
          if j == |ids| {
            assert d[i] == ids[i] && d[j] == id;
            assert ids[i] in ids;
            assert ids[i] != id;
          } else {
            assert d[i] == ids[i] && d[j] == ids[j];
            assert ids[i] != ids[j];
          }
        }
      }
    }
  }

  /** Kept ids appear in the order of their first occurrence: the kept list only grows at its end. */
  lemma {:induction false} DedupExtends(pieces: seq<string>, more: seq<string>)
    ensures DedupOf(pieces) <= DedupOf(pieces + more)
  {
    if more != [] {
      var init := more[..|more| - 1];
      assert (pieces + more)[..|pieces + more| - 1] == pieces + init;
      DedupExtends(pieces, init);
      var ids := DedupOf(pieces + init);
      assert DedupOf(pieces) <= ids;
      DedupExtendsStep(pieces + more, ids);
    } else {
      assert pieces + more == pieces;
    }
  }

  lemma DedupExtendsStep(pieces: seq<string>, ids: seq<string>)
    requires pieces != [] && ids == DedupOf(pieces[..|pieces| - 1])
    ensures ids <= DedupOf(pieces)
  {
    var d := DedupOf(pieces);
    if |ids| > 0 {
      assert d == ids || d == ids + [pieces[|pieces| - 1]];
      assert d[..|ids|] == ids;
    }
  }

  /** The pieces of `a\na\nb\n`. */
  lemma SplitExample()
    ensures Split("a\na\nb\n", '\n') == ["a", "a", "b", ""]
  {
    assert "a\na\nb\n" == "a" + "\n" + "a\nb\n";
    SplitAtSep("a", "a\nb\n", '\n');
    assert "a\nb\n" == "a" + "\n" + "b\n";
    SplitAtSep("a", "b\n", '\n');
    assert "b\n" == "b" + "\n" + "";
    SplitAtSep("b", "", '\n');
  }

  /** The output `a\na\nb\n` keeps a and b. */
  lemma DedupExample()
    ensures DedupOf(Split("a\na\nb\n", '\n')) == ["a", "b"]
  {
    SplitExample();
    var pieces := ["a", "a", "b", ""];
    var three := ["a", "a", "b"];
    var two := ["a", "a"];
    assert two[..1] == ["a"];
    assert DedupOf(two) == ["a"];
    assert three[..2] == two;
    assert DedupOf(three) == ["a", "b"];
    assert pieces[..3] == three;
  }

  /**
   * The de-duplication loop of CleanUpByLabel, with its inner scan for an
   * id already kept.
   */
  method DedupIds(pieces: seq<string>) returns (ids: seq<string>)
    ensures ids == DedupOf(pieces)
  {
    ids := [];
    var i := 0;
    while i < |pieces|
      invariant 0 <= i <= |pieces|
      invariant ids == DedupOf(pieces[..i])
    {
      assert pieces[..i + 1][..i] == pieces[..i];
      var id := pieces[i];
      if |ids| == 0 {
        ids := ids + [id];
      } else if id != "" {
        var seen := false;
        var j := 0;
        while j < |ids|
          invariant 0 <= j <= |ids|
          invariant seen <==> id in ids[..j]
        {
          assert ids[..j + 1] == ids[..j] + [ids[j]];
          if ids[j] == id {
            seen := true;
          }
          j := j + 1;
        }
        assert ids[..j] == ids;
        if !seen {
          ids := ids + [id];
        }
      }
      i := i + 1;
    }
    assert pieces[..i] == pieces;
  }

  /** The argument list of the image search by label. */
  function FindArgs(labelFilter: string): seq<string>
  {
    ["images", "-f", labelFilter, "--format={{.ID}}"]
  }

  /**
   * CleanUpByLabel with the docker lookup and the two runs (search, then
   * removal) as inputs. `commands` are the argument lists that ran.
   */
  method CleanUpByLabel(labelFilter: string, lookPath: Result<string>, find: Result<string>, rmi: Result<string>)
    returns (r: Result<()>, commands: seq<seq<string>>)
    ensures lookPath.Err? ==> r == Err(NotFoundMessage(lookPath.msg)) && commands == []
    ensures lookPath.Ok? && find.Err? ==>
      r == Err("Unable to find images using label '" + labelFilter + "': " + find.msg) && commands == [FindArgs(labelFilter)]
    ensures lookPath.Ok? && find.Ok? ==>
      commands == [FindArgs(labelFilter), ["rmi", "-f"] + DedupOf(Split(find.value, '\n'))]
    ensures lookPath.Ok? && find.Ok? && rmi.Err? ==> r == Err("Unable to delete images: " + rmi.msg)
    ensures r.Ok? <==> lookPath.Ok? && find.Ok? && rmi.Ok?
  {
    commands := [];
    if lookPath.Err? {
      return Err(NotFoundMessage(lookPath.msg)), commands;
    }
    var findArgs := FindArgs(labelFilter);
    commands := commands + [findArgs];
    if find.Err? {
      return Err("Unable to find images using label '" + labelFilter + "': " + find.msg), commands;
    }
    var pieces := Split(find.value, '\n');
    var ids := DedupIds(pieces);
    DedupFirst(pieces);
    if |ids| == 0 {
      // unreachable: the split output always has a first piece, and it is kept
      return Err("No images found"), commands;
    }
    var rmiArgs := ["rmi", "-f"];
    rmiArgs := rmiArgs + ids;
    commands := commands + [rmiArgs];
    if rmi.Err? {
      return Err("Unable to delete images: " + rmi.msg), commands;
    }
    r := Ok(());
  }

  /** For an empty search result the removal still runs, on one empty id. */
  lemma CleanUpEmptySearch()
    ensures DedupOf(Split("", '\n')) == [""]
  {
  }

  // ---------------------------------------------------------------------
  // build date

  /** GetContainerBuildDate's arguments: inspect `name:tag` with a template reading the label. */
  function InspectArgs(name: string, tag: string, labelKey: string): (args: seq<string>)
    ensures |args| == 3 && args[0] == "inspect" && args[2] == name + ":" + tag
  {
    ["inspect", "--format='{{index .ContainerConfig.Labels \"" + labelKey + "\"}}'", name + ":" + tag]
  }

  /** GetContainerBuildDate: the trimmed output of the inspection; errors are passed on unchanged. */
  method GetContainerBuildDate(name: string, tag: string, labelKey: string, docker: ExecResult)
    returns (r: Result<string>, args: seq<string>)
    ensures args == InspectArgs(name, tag, labelKey)
    ensures docker.NotFound? ==> r == Err(docker.err)
    ensures docker.Failed? ==> r == Err(docker.err)
    ensures docker.Succeeded? ==> r == Ok(TrimSpace(docker.stdout))
  {
    args := ["inspect"];
    args := args + ["--format='{{index .ContainerConfig.Labels \"" + labelKey + "\"}}'"];
    args := args + [name + ":" + tag];
    match docker
    case NotFound(e) => r := Err(e);
    case Failed(e) => r := Err(e);
    case Succeeded(out) => r := Ok(TrimSpace(out));
  }

  /** A date printed on a line of its own is read back without the line break. */
  lemma BuildDateOfLine(date: string, trailer: string)
    requires date != [] && date[0] !in Whitespace && date[|date| - 1] !in Whitespace
    requires forall i :: 0 <= i < |trailer| ==> trailer[i] in Whitespace
    ensures TrimSpace(date + trailer) == date
  {
    assert "" + date + trailer == date + trailer;
    TrimWrapped("", date, trailer, Whitespace);
  }
}

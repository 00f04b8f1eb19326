/**
 * The tag engine of utils/utils.go: the CI build tag, phase tags with their
 * patterns, stack and label names, and the env-settings file parser.
 */
module Utils {
  import opened Strings
  import opened Results

  const BuildDateLabel := "com.katch.build_date"
  const CommitLabelKey := "com.katch.commit"
  const DefaultTag := "latest"
  const DefaultEnvSettingsFile := "deploy/env_setup"

  // ---------------------------------------------------------------------
  // CI build tag

  /**
   * GetDockerJobTag with the values of JOB_NAME and BUILD_NUMBER passed in:
   * "latest" unless both are set; otherwise `JOB_NAME-BUILD_NUMBER` with every
   * "/" and then every "%2F" replaced by "_".
   */
  function DockerJobTag(jobName: string, buildNumber: string): (r: string)
    ensures jobName == "" || buildNumber == "" ==> r == DefaultTag
    ensures jobName != "" && buildNumber != "" ==> '/' !in r && !Contains(r, "%2F")
  {
    if jobName != "" && buildNumber != "" then
      var joined := jobName + "-" + buildNumber;
      var noSlash := ReplaceAll(joined, "/", "_");
      ReplaceAllRemoves(joined, "/", "_");
      ContainsChar(noSlash, '/');
      ReplaceKeepsOut(noSlash, "%2F", "_", '/');
      ReplaceAllRemoves(noSlash, "%2F", "_");
      ReplaceAll(noSlash, "%2F", "_")
    else
      DefaultTag
  }

  /** A job name and build number with nothing to normalise are joined unchanged. */
  lemma DockerJobTagPlain(jobName: string, buildNumber: string)
    requires jobName != "" && buildNumber != ""
    requires '/' !in jobName + "-" + buildNumber
    requires !Contains(jobName + "-" + buildNumber, "%2F")
    ensures DockerJobTag(jobName, buildNumber) == jobName + "-" + buildNumber
  {
    var joined := jobName + "-" + buildNumber;
    ContainsChar(joined, '/');
    ReplaceAbsent(joined, "/", "_");
    ReplaceAbsent(joined, "%2F", "_");
  }

  /** A string without '%' contains no "%2F". */
  lemma {:induction false} NoPercent(s: string)
    requires forall i :: 0 <= i < |s| ==> s[i] != '%'
    ensures !Contains(s, "%2F")
  {
    if s != [] {
      NoPercent(s[1..]);
      assert !HasPrefix(s, "%2F") by {
        assert s[0] != '%';
        assert "%2F"[0] == '%';
      }
    }
  }

  /** `ci/job` with build 42 is tagged `ci_job-42`; without a job name the tag is `latest`. */
  lemma DockerJobTagExample()
    ensures DockerJobTag("ci/job", "42") == "ci_job-42"
    ensures DockerJobTag("", "42") == "latest"
  {
    DockerJobTagSlash("ci", "job", "42");
    assert "ci" + "/" + "job" == "ci/job";
    assert "ci" + "_" + "job" + "-" + "42" == "ci_job-42";
  }

  /** Unfolds DockerJobTag for a job name and a build number that are both set. */
  lemma DockerJobTagUnfold(jobName: string, buildNumber: string)
    requires jobName != "" && buildNumber != ""
    ensures DockerJobTag(jobName, buildNumber)
      == ReplaceAll(ReplaceAll(jobName + "-" + buildNumber, "/", "_"), "%2F", "_")
  {
  }

  /** A slash in the job name becomes an underscore. */
  lemma DockerJobTagSlash(a: string, b: string, n: string)
    requires n != ""
    requires '/' !in a && '/' !in b && '/' !in n
    requires '%' !in a && '%' !in b && '%' !in n
    ensures DockerJobTag(a + "/" + b, n) == a + "_" + b + "-" + n
  {
    DockerJobTagUnfold(a + "/" + b, n);
    var tail := b + "-" + n;
    var once := a + "_" + tail;
    assert a + "/" + b + "-" + n == a + "/" + tail;
    ContainsChar(tail, '/');
    ReplaceOnce(a, tail, "/", "_");
    NoPercent(once);
    ReplaceAbsent(once, "%2F", "_");
    assert once == a + "_" + b + "-" + n;
  }

  /** An encoded slash "%2F" in the job name becomes an underscore as well. */
  lemma DockerJobTagEncodedSlash(a: string, b: string, n: string)
    requires n != ""
    requires '/' !in a && '/' !in b && '/' !in n
    requires '%' !in a && '%' !in b && '%' !in n
    ensures DockerJobTag(a + "%2F" + b, n) == a + "_" + b + "-" + n
  {
    DockerJobTagUnfold(a + "%2F" + b, n);
    var tail := b + "-" + n;
    var joined := a + "%2F" + tail;
    assert a + "%2F" + b + "-" + n == joined;
    ContainsChar(joined, '/');
    ReplaceAbsent(joined, "/", "_");
    NoPercent(tail);
    ReplaceOnce(a, tail, "%2F", "_");
    assert a + "_" + tail == a + "_" + b + "-" + n;
  }

  // ---------------------------------------------------------------------
  // Build dates (the layout "0601021504", that is yymmddHHMM)

  /** A wall-clock reading, standing in for time.Now(). */
  datatype Clock = Clock(year: nat, month: nat, day: nat, hour: nat, minute: nat)
  {
    predicate Valid()
    {
      1 <= month <= 12 && 1 <= day <= 31 && hour < 24 && minute < 60
    }
  }

  function Digit(d: nat): (c: char)
    requires d < 10
    ensures '0' <= c <= '9'
  {
    ('0' as int + d) as char
  }

  /** Two zero-padded decimal digits. */
  function Pad2(n: nat): (r: string)
    requires n < 100
    ensures |r| == 2 && AllDigits(r)
  {
    [Digit(n / 10), Digit(n % 10)]
  }

  /** time.Format(BuildDateFormat): two digits each of year, month, day, hour and minute. */
  function FormatBuildDate(c: Clock): (r: string)
    requires c.Valid()
    ensures |r| == 10 && AllDigits(r)
  {
    Pad2(c.year % 100) + Pad2(c.month) + Pad2(c.day) + Pad2(c.hour) + Pad2(c.minute)
  }

  /** `a` is not later than `b`. */
  predicate NotLater(a: Clock, b: Clock)
  {
    a.year < b.year || (a.year == b.year &&
    (a.month < b.month || (a.month == b.month &&
    (a.day < b.day || (a.day == b.day &&
    (a.hour < b.hour || (a.hour == b.hour && a.minute <= b.minute)))))))
  }

  lemma Pad2Order(a: nat, b: nat)
    requires a < 100 && b < 100
    ensures Pad2(a) == Pad2(b) <==> a == b
    ensures LexLe(Pad2(a), Pad2(b)) <==> a <= b
  {
    var pa, pb := Pad2(a), Pad2(b);
    assert pa[1..] == [Digit(a % 10)] && pb[1..] == [Digit(b % 10)];
    assert [Digit(a % 10)][1..] == [] && [Digit(b % 10)][1..] == [];
    assert LexLe(pa[1..], pb[1..]) <==> a % 10 <= b % 10;
    assert LexLe(pa, pb) <==> a / 10 < b / 10 || (a / 10 == b / 10 && a % 10 <= b % 10);
  }

  /**
   * Within one century, comparing two build dates as strings (which is what
   * sorting tags does) is the same as comparing the times they stand for:
   * the format is fixed-width and zero-padded.
   */
  lemma BuildDateOrder(a: Clock, b: Clock)
    requires a.Valid() && b.Valid()
    requires a.year / 100 == b.year / 100
    ensures LexLe(FormatBuildDate(a), FormatBuildDate(b)) <==> NotLater(a, b)
  {
    var ya, yb := Pad2(a.year % 100), Pad2(b.year % 100);
    var mo1, mo2 := Pad2(a.month), Pad2(b.month);
    var d1, d2 := Pad2(a.day), Pad2(b.day);
    var h1, h2 := Pad2(a.hour), Pad2(b.hour);
    var mi1, mi2 := Pad2(a.minute), Pad2(b.minute);
    assert FormatBuildDate(a) == ya + (mo1 + (d1 + (h1 + mi1)));
    assert FormatBuildDate(b) == yb + (mo2 + (d2 + (h2 + mi2)));
    Pad2Order(a.year % 100, b.year % 100);
    Pad2Order(a.month, b.month);
    Pad2Order(a.day, b.day);
    Pad2Order(a.hour, b.hour);
    Pad2Order(a.minute, b.minute);
    LexLeBlocks(ya, mo1 + (d1 + (h1 + mi1)), yb, mo2 + (d2 + (h2 + mi2)));
    LexLeBlocks(mo1, d1 + (h1 + mi1), mo2, d2 + (h2 + mi2));
    LexLeBlocks(d1, h1 + mi1, d2, h2 + mi2);
    LexLeBlocks(h1, mi1, h2, mi2);
    assert a.year % 100 <= b.year % 100 <==> a.year <= b.year;
    assert a.year % 100 == b.year % 100 <==> a.year == b.year;
  }

  // ---------------------------------------------------------------------
  // Phase tags

  datatype Phase = Deploy | Pass | Fail

  function PhaseName(p: Phase): string
  {
    match p
    case Deploy => "deploy"
    case Pass => "pass"
    case Fail => "fail"
  }

  /** The phase the three flags of CreateTag select: deploy, then successful, then failure. */
  function SelectedPhase(successful: bool, failure: bool, deploy: bool): Option<Phase>
  {
    if deploy then Some(Deploy)
    else if successful then Some(Pass)
    else if failure then Some(Fail)
    else None
  }

  /** `env-phase-date`, as the Tag*Fmt formats followed by "-%s" build it. */
  function PhaseTag(env: string, p: Phase, date: string): string
  {
    env + "-" + PhaseName(p) + "-" + date
  }

  /** The date CreateTag uses: the given one, or the clock's when none is given. */
  function EffectiveDate(date: string, now: Clock): (d: string)
    requires now.Valid()
    ensures d != ""
    ensures date != "" ==> d == date
    ensures AllDigits(date) ==> AllDigits(d)
  {
    if date == "" then FormatBuildDate(now) else date
  }

  /**
   * CreateTag with the clock passed in. The deploy flag beats successful,
   * which beats failure; with no flag the result is the bare date.
   */
  function CreateTag(env: string, date: string, now: Clock, successful: bool, failure: bool, deploy: bool): (r: string)
    requires now.Valid()
    ensures deploy ==> r == PhaseTag(env, Deploy, EffectiveDate(date, now))
    ensures !deploy && successful ==> r == PhaseTag(env, Pass, EffectiveDate(date, now))
    ensures !deploy && !successful && failure ==> r == PhaseTag(env, Fail, EffectiveDate(date, now))
    ensures !deploy && !successful && !failure ==> r == EffectiveDate(date, now)
  {
    var d := EffectiveDate(date, now);
    match SelectedPhase(successful, failure, deploy)
    case None => d
    case Some(p) => PhaseTag(env, p, d)
  }

  /** The pattern `^<env>-<phase>-[0-9]*$`, with `env` read literally. */
  predicate MatchesPhasePattern(env: string, p: Phase, tag: string)
  {
    var prefix := env + "-" + PhaseName(p) + "-";
    HasPrefix(tag, prefix) && AllDigits(tag[|prefix|..])
  }

  /** The pattern `^[0-9]*$` (TagDefaultRegex). */
  predicate MatchesDefaultPattern(tag: string)
  {
    AllDigits(tag)
  }

  /** For a fixed environment and flags, CreateTag tells different dates apart. */
  lemma CreateTagInjective(env: string, d1: string, d2: string, now: Clock, successful: bool, failure: bool, deploy: bool)
    requires now.Valid()
    requires d1 != "" && d2 != ""
    requires CreateTag(env, d1, now, successful, failure, deploy) == CreateTag(env, d2, now, successful, failure, deploy)
    ensures d1 == d2
  {
    var sel := SelectedPhase(successful, failure, deploy);
    if sel.Some? {
      var prefix := env + "-" + PhaseName(sel.value) + "-";
      assert PhaseTag(env, sel.value, d1) == prefix + d1;
      assert PhaseTag(env, sel.value, d2) == prefix + d2;
      assert d1 == (prefix + d1)[|prefix|..];
      assert d2 == (prefix + d2)[|prefix|..];
    }
  }

  lemma PhaseNamesDiffer(env: string, p: Phase, q: Phase, rest: string)
    requires p != q
    ensures !HasPrefix(env + "-" + PhaseName(p) + "-" + rest, env + "-" + PhaseName(q) + "-")
  {
    var s := env + "-" + PhaseName(p) + "-" + rest;
    var t := env + "-" + PhaseName(q) + "-";
    assert s[|env| + 1] == PhaseName(p)[0];
    assert t[|env| + 1] == PhaseName(q)[0];
    assert s[|env| + 1] != t[|env| + 1];
    assert |env| + 1 < |t|;
  }

  /**
   * A phase tag made from an all-digit date matches the pattern of its own
   * phase for that environment and the pattern of no other phase: the
   * phase can be read back from the tag.
   */
  lemma CreateTagMatchesPattern(env: string, date: string, now: Clock, successful: bool, failure: bool, deploy: bool, p: Phase)
    requires now.Valid()
    requires AllDigits(date)
    requires SelectedPhase(successful, failure, deploy) == Some(p)
    ensures MatchesPhasePattern(env, p, CreateTag(env, date, now, successful, failure, deploy))
    ensures forall q :: q != p ==> !MatchesPhasePattern(env, q, CreateTag(env, date, now, successful, failure, deploy))
  {
    var d := EffectiveDate(date, now);
    var prefix := env + "-" + PhaseName(p) + "-";
    assert CreateTag(env, date, now, successful, failure, deploy) == prefix + d;
    assert (prefix + d)[|prefix|..] == d;
    forall q | q != p
      ensures !MatchesPhasePattern(env, q, CreateTag(env, date, now, successful, failure, deploy))
    {
      PhaseNamesDiffer(env, p, q, d);
    }
  }

  /** With no phase flag and an all-digit date, the tag matches `^[0-9]*$`. */
  lemma CreateTagBareMatchesDefault(env: string, date: string, now: Clock)
    requires now.Valid()
    requires AllDigits(date)
    ensures MatchesDefaultPattern(CreateTag(env, date, now, false, false, false))
  {
  }

  // ---------------------------------------------------------------------
  // Names and labels

  /** GetTaskStackName: `env-stack`; an environment without '-' is its first '-'-segment. */
  function TaskStackName(env: string, stack: string): (r: string)
    ensures HasPrefix(r, env + "-") && r[|env| + 1..] == stack
    ensures '-' !in env ==> Split(r, '-')[0] == env
  {
    var r := env + "-" + stack;
    if '-' !in env then
      SplitPrefix(env, "-" + stack, '-');
      assert Split("-" + stack, '-')[0] == "";
      assert env + ("-" + stack) == r;
      assert env + "" == env;
      r
    else
      r
  }

  /**
   * GetCommitLabel with the result of the HEAD SHA lookup passed in: the
   * lookup's error, or `com.katch.commit=<sha>`, whose key is everything
   * before the first '=' and whose value is everything after it.
   */
  function CommitLabel(sha: Result<string>): (r: Result<string>)
    ensures sha.Err? ==> r == Err(sha.msg)
    ensures sha.Ok? ==>
      (r.Ok? && Split(r.value, '=')[0] == CommitLabelKey && r.value == CommitLabelKey + "=" + sha.value)
  {
    match sha
    case Err(e) => Err(e)
    case Ok(s) =>
      SplitPrefix(CommitLabelKey, "=" + s, '=');
      assert CommitLabelKey + ("=" + s) == CommitLabelKey + "=" + s;
      assert Split("=" + s, '=')[0] == "";
      assert CommitLabelKey + "" == CommitLabelKey;
      Ok(CommitLabelKey + "=" + s)
  }

  // ---------------------------------------------------------------------
  // The env-settings file

  /** One leading and one trailing double quote removed, when present. */
  function StripQuotes(s: string): string
  {
    TrimSuffix(TrimPrefix(s, "\""), "\"")
  }

  /**
   * One line of the env-settings file. A line with '=' gives the text before
   * the first '=' as key, and the rest of the line after that '=' (rejoined
   * as in the source), cut at the first '#' and unquoted, as value. A line
   * without '=' gives nothing.
   */
  function ParseEnvLine(line: string): (r: Option<(string, string)>)
    ensures r.None? <==> '=' !in line
    ensures r.Some? ==>
      var k := r.value.0;
      '=' !in k && HasPrefix(line, k + "=")
      && r.value.1 == StripQuotes(Before(line[|k| + 1..], '#'))
  {
    var parts := Split(line, '=');
    SplitSingle(line, '=');
    SplitFirst(line, '=');
    if |parts| >= 2 then
      var value := Before(Join(parts[1..], '='), '#');
      assert line[|parts[0]| + 1..] == Join(parts[1..], '=');
      assert line[..|parts[0]| + 1] == parts[0] + "=";
      Some((parts[0], StripQuotes(value)))
    else
      None
  }

  /** Each line parsed, in order. */
  function ParsedLines(lines: seq<string>): (parsed: seq<Option<(string, string)>>)
    ensures |parsed| == |lines|
    ensures forall i :: 0 <= i < |lines| ==> parsed[i] == ParseEnvLine(lines[i])
  {
    seq(|lines|, i requires 0 <= i < |lines| => ParseEnvLine(lines[i]))
  }

  /** The settings a run of parsed lines gives, read first to last (a later key overwrites). */
  function SettingsOf(parsed: seq<Option<(string, string)>>): map<string, string>
  {
    if parsed == [] then map[]
    else
      var m := SettingsOf(parsed[..|parsed| - 1]);
      match parsed[|parsed| - 1]
      case None => m
      case Some(kv) => m[kv.0 := kv.1]
  }

  /** The settings the lines of an env file give. */
  function EnvSettingsOf(lines: seq<string>): map<string, string>
  {
    SettingsOf(ParsedLines(lines))
  }

  /** A key is set exactly when some parsed line gives a setting for it. */
  lemma {:induction false} SettingsKeys(parsed: seq<Option<(string, string)>>, k: string)
    ensures k in SettingsOf(parsed) <==> exists i :: 0 <= i < |parsed| && parsed[i].Some? && parsed[i].value.0 == k
  {
    if parsed != [] {
      var init := parsed[..|parsed| - 1];
      SettingsKeys(init, k);
      forall i | 0 <= i < |init| ensures init[i] == parsed[i] { }
    }
  }

  /** A key is set exactly when some line defines it. */
  lemma EnvSettingsKeys(lines: seq<string>, k: string)
    ensures k in EnvSettingsOf(lines) <==>
      exists i :: 0 <= i < |lines| && ParseEnvLine(lines[i]).Some? && ParseEnvLine(lines[i]).value.0 == k
  {
    SettingsKeys(ParsedLines(lines), k);
  }

  /** The value of a key is the one the last parsed line setting it gives. */
  lemma {:induction false} SettingsLastWins(parsed: seq<Option<(string, string)>>, i: nat, k: string, v: string)
    requires i < |parsed|
    requires parsed[i] == Some((k, v))
    requires forall j :: i < j < |parsed| && parsed[j].Some? ==> parsed[j].value.0 != k
    ensures k in SettingsOf(parsed) && SettingsOf(parsed)[k] == v
  {
    var init := parsed[..|parsed| - 1];
    if i < |parsed| - 1 {
      forall j | i < j < |init| && init[j].Some?
        ensures init[j].value.0 != k
      {
        assert init[j] == parsed[j];
      }
      SettingsLastWins(init, i, k, v);
    }
  }

  /** The value of a key is the one its last defining line gives. */
  lemma EnvSettingsLastWins(lines: seq<string>, i: nat, k: string, v: string)
    requires i < |lines|
    requires ParseEnvLine(lines[i]) == Some((k, v))
    requires forall j :: i < j < |lines| && ParseEnvLine(lines[j]).Some? ==> ParseEnvLine(lines[j]).value.0 != k
    ensures k in EnvSettingsOf(lines) && EnvSettingsOf(lines)[k] == v
  {
    SettingsLastWins(ParsedLines(lines), i, k, v);
  }

  /** The loop of GetEnvSettings over the lines of the file's contents. */
  method ParseEnvSettings(data: string) returns (settings: map<string, string>)
    ensures settings == EnvSettingsOf(Split(data, '\n'))
  {
    var lines := Split(data, '\n');
    ghost var parsed := ParsedLines(lines);
    settings := map[];
    var i := 0;
    while i < |lines|
      invariant 0 <= i <= |lines|
      invariant settings == SettingsOf(parsed[..i])
    {
      assert parsed[..i + 1][..i] == parsed[..i];
      var kv := ParseEnvLine(lines[i]);
      if kv.Some? {
        settings := settings[kv.value.0 := kv.value.1];
      }
      i := i + 1;
    }
    assert parsed[..i] == parsed;
  }

  /**
   * GetEnvSettings with the environment passed in: the repository top level
   * lookup, os.Stat as `stat` (None when the path exists) and the file read.
   * The file is `<top>/deploy/env_setup`.
   */
  method GetEnvSettings(toplevel: Result<string>, stat: string -> Option<string>, contents: Result<string>)
    returns (r: Result<map<string, string>>)
    ensures toplevel.Err? ==> r == Err("Error looking up top level of directory: " + toplevel.msg)
    ensures toplevel.Ok? && stat(toplevel.value + "/" + DefaultEnvSettingsFile).Some? ==>
      r == Err("Error looking up env file: " + stat(toplevel.value + "/" + DefaultEnvSettingsFile).value)
    ensures toplevel.Ok? && stat(toplevel.value + "/" + DefaultEnvSettingsFile).None? && contents.Err? ==>
      r == Err("Error reading env file: " + contents.msg)
    ensures toplevel.Ok? && stat(toplevel.value + "/" + DefaultEnvSettingsFile).None? && contents.Ok? ==>
      r == Ok(EnvSettingsOf(Split(contents.value, '\n')))
  {
    if toplevel.Err? {
      return Err("Error looking up top level of directory: " + toplevel.msg);
    }
    var envFile := Join([toplevel.value, DefaultEnvSettingsFile], '/');
    JoinTwo(toplevel.value, DefaultEnvSettingsFile, '/');
    assert envFile == toplevel.value + "/" + DefaultEnvSettingsFile;
    var statErr := stat(envFile);
    if statErr.Some? {
      return Err("Error looking up env file: " + statErr.value);
    }
    if contents.Err? {
      return Err("Error reading env file: " + contents.msg);
    }
    var settings := ParseEnvSettings(contents.value);
    r := Ok(settings);
  }
}

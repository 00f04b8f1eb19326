/**
 * utils/config.go: where the configuration file is looked for, and reading
 * it. The TOML decoding itself is an input.
 */
module ConfigLoader {
  import opened Strings
  import opened Results

  const DefaultConfigFile := ".deploy/config.toml"
  const DefaultDockerfile := ".deploy/Dockerfile"
  const DefaultTestScript := ".deploy/tests.sh"

  /** The information in the configuration file. */
  datatype Config = Config(
    name: string,                            // service name, also the container name
    ecrRepo: string,                         // the container registry host
    stack: string,                           // stack name without the environment
    cfTemplate: string,                      // stack template; an S3 one starts with s3://
    cfParameters: map<string, seq<string>>,  // stack parameters per environment
    testScript: string,                      // relative to the Dockerfile's WORKDIR
    dockerfile: string,                      // relative to the repository root
    labels: seq<string>)                     // static labels for the container

  /** The configuration a failed read leaves behind: Go's zero value. */
  const EmptyConfig := Config("", "", "", "", map[], "", "", [])

  /**
   * getConfigfile: the file named (or the default one) under the
   * repository's top level; outside a repository, the default path whatever
   * was named.
   */
  function GetConfigFile(configFile: string, toplevel: Result<string>): (path: string)
    ensures toplevel.Err? ==> path == DefaultConfigFile
    ensures toplevel.Ok? && configFile != "" ==> path == toplevel.value + "/" + configFile
    ensures toplevel.Ok? && configFile == "" ==> path == toplevel.value + "/" + DefaultConfigFile
  {
    var file := if configFile == "" then DefaultConfigFile else configFile;
    match toplevel
    case Err(_) => DefaultConfigFile
    case Ok(top) =>
      JoinTwo(top, file, '/');
      Join([top, file], '/')
  }

  /** Inside a repository, the path is the top level, a '/' and the file, which can be cut back off. */
  lemma ConfigFileUnderTopLevel(configFile: string, top: string)
    ensures var path := GetConfigFile(configFile, Ok(top));
      HasPrefix(path, top + "/")
      && TrimPrefix(path, top + "/") == (if configFile == "" then DefaultConfigFile else configFile)
  {
    var file := if configFile == "" then DefaultConfigFile else configFile;
    var path := GetConfigFile(configFile, Ok(top));
    assert path == (top + "/") + file;
    assert path[..|top + "/"|] == top + "/";
  }

  /**
   * ReadConfig with os.Stat as `stat` (None when the path exists) and the
   * TOML decoding of a path as `decode`. A missing file is reported with its
   * path; a decoding error is passed on.
   */
  method ReadConfig(configFile: string, toplevel: Result<string>, stat: string -> Option<string>,
                    decode: string -> Result<Config>)
    returns (r: Result<Config>, path: string)
    ensures path == GetConfigFile(configFile, toplevel)
    ensures stat(path).Some? ==> r == Err("Config file is missing: " + path)
    ensures stat(path).None? ==> r == decode(path)
  {
    path := GetConfigFile(configFile, toplevel);
    if stat(path).Some? {
      return Err("Config file is missing: " + path), path;
    }
    r := decode(path);
  }
}

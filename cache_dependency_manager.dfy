/**
 * The current "load dependencies" procedure of the cache engine
 * (cacheDependencyManagers/cacheDependencyManager.js). One manager is
 * described by a `Config`; its cache entry for a config file with digest
 * `hash` is `cacheDirectory/cliName/cliVersion/<hash>.tar.gz`.
 *
 * Each step is given twice: as a function from the state before to the
 * outcome (the specification, about which the lemmas below speak) and as a
 * method of `Manager` that performs the same shell and file-system calls
 * in order on a `Host`, with early returns, proved equal to it.
 */
module CacheDependencyManager {
  import opened Wrappers
  import opened Text
  import opened Paths
  import opened Environment

  /** The manager's config record (the profile plus run-time options). */
  datatype Config = Config(
    cliName: string,
    cliVersion: string,        // the value getCliVersion() returned
    configPath: string,
    installDirectory: string,
    installCommand: string,
    installOptions: string,
    cacheDirectory: string,
    forceRefresh: bool)

  /** The error a step reports (`null` is `None`) and the state after it. */
  datatype Step = Step(error: Option<string>, state: State)

  /** `getAbsolutePath`: a path relative to the working directory. */
  function AbsolutePath(env: Env, relativePath: string): Path {
    Resolve(env.cwd, relativePath)
  }

  function InstalledDirectory(c: Config, env: Env): Path {
    AbsolutePath(env, c.installDirectory)
  }

  function ConfigFile(c: Config, env: Env): Path {
    AbsolutePath(env, c.configPath)
  }

  /** The install command line: command and options, trimmed. */
  function InstallLine(c: Config): string {
    Trim(c.installCommand + " " + c.installOptions)
  }

  /** `path.resolve(cacheDirectory, cliName, cliVersion)`. */
  function CacheDirectory(c: Config, env: Env): Path {
    Resolve(Resolve(Resolve(env.cwd, c.cacheDirectory), c.cliName), c.cliVersion)
  }

  /** `path.resolve(cacheDirectory, hash + '.tar.gz')`. */
  function CachePath(c: Config, env: Env, hash: string): Path {
    Resolve(CacheDirectory(c, env), hash + ".tar.gz")
  }

  /** `getFileHash(configPath)`: the digest of the config file's bytes. */
  function ConfigHash(c: Config, env: Env, s: State): string
    requires ConfigFile(c, env) in s.files
  {
    env.md5(s.files[ConfigFile(c, env)])
  }

  function LogError(c: Config, s: State, message: string): State {
    Logged(s, c.cliName, message)
  }

  /** `getCliVersion()`: the `<cli> --version` query it runs, which changes
    * no file; its answer is `cliVersion`. */
  function VersionQueried(c: Config, env: Env, s: State): (t: State)
    ensures t.files == s.files && t.errors == s.errors
    ensures t.log == s.log + [QueryVersion(c.cliName)]
  {
    Perform(env, s, QueryVersion(c.cliName))
  }

  // ---------------------------------------------------------------------
  // Specification of each step

  /** `installDependencies` */
  function InstallSpec(c: Config, env: Env, s: State): Step {
    var cmd := Install(InstallLine(c), InstalledDirectory(c, env));
    var s1 := Perform(env, s, cmd);
    if ExitCode(env, cmd) != 0 then
      var e := "error running " + c.installCommand;
      Step(Some(e), LogError(c, s1, e))
    else
      Step(None, s1)
  }

  /** `archiveDependencies(cacheDirectory, cachePath)` */
  function ArchiveSpec(c: Config, env: Env, s: State, cacheDirectory: Path, cachePath: Path): Step {
    var dir := InstalledDirectory(c, env);
    var s1 := Perform(env, s, MakeDirectory(cacheDirectory));
    var tar := ArchiveDirectory(cachePath, dir);
    var s2 := Perform(env, s1, tar);
    if ExitCode(env, tar) != 0 then
      var e := "error tar-ing " + Render(dir);
      Step(Some(e), Perform(env, LogError(c, s2, e), RemoveFile(cachePath)))
    else
      Step(None, s2)
  }

  /** `extractDependencies(cachePath)` */
  function ExtractSpec(c: Config, env: Env, s: State, cachePath: Path): Step {
    var dir := InstalledDirectory(c, env);
    var rm := RemoveTree(dir);
    var s1 := Perform(env, s, rm);
    if ExitCode(env, rm) != 0 then
      var e := "error removing installed dependencies at " + Render(dir);
      Step(Some(e), LogError(c, s1, e))
    else
      var s2 := Perform(env, s1, MakeDirectory(dir));
      var untar := ExtractInto(cachePath, dir);
      var s3 := Perform(env, s2, untar);
      if ExitCode(env, untar) != 0 then
        var e := "error untar-ing " + Render(cachePath);
        Step(Some(e), LogError(c, s3, e))
      else
        Step(None, s3)
  }

  /** `loadDependencies(callback)`: the value passed to the callback and the
    * state after the run. */
  function LoadSpec(c: Config, env: Env, s: State): Step {
    var config := ConfigFile(c, env);
    if config !in s.files then
      Step(None, s)
    else if c.cliName !in env.onPath then
      var e := "Command line tool " + c.cliName + " not installed";
      Step(Some(e), LogError(c, s, e))
    else
      var hash := ConfigHash(c, env, s);
      var t := VersionQueried(c, env, s);
      var cacheDirectory := CacheDirectory(c, env);
      var cachePath := Resolve(cacheDirectory, hash + ".tar.gz");
      if !c.forceRefresh && cachePath in t.files then
        ExtractSpec(c, env, t, cachePath)
      else
        var installed := InstallSpec(c, env, t);
        if installed.error.Some? then installed
        else ArchiveSpec(c, env, installed.state, cacheDirectory, cachePath)
  }

  // ---------------------------------------------------------------------
  // The procedure, step by step

  class Manager {
    const config: Config

    constructor (config: Config)
      ensures this.config == config
    {
      this.config := config;
    }

    method InstallDependencies(host: Host) returns (error: Option<string>)
      modifies host
      ensures error == InstallSpec(config, host.env, old(host.Snapshot())).error
      ensures host.Snapshot() == InstallSpec(config, host.env, old(host.Snapshot())).state
    {
      error := None;
      var installCommand := config.installCommand + " " + config.installOptions;
      installCommand := Trim(installCommand);
      var code := host.Run(Install(installCommand, InstalledDirectory(config, host.env)));
      if code != 0 {
        error := Some("error running " + config.installCommand);
        host.LogError(config.cliName, error.value);
      }
    }

    method ArchiveDependencies(host: Host, cacheDirectory: Path, cachePath: Path) returns (error: Option<string>)
      modifies host
      ensures error == ArchiveSpec(config, host.env, old(host.Snapshot()), cacheDirectory, cachePath).error
      ensures host.Snapshot() == ArchiveSpec(config, host.env, old(host.Snapshot()), cacheDirectory, cachePath).state
    {
      error := None;
      var installedDirectory := InstalledDirectory(config, host.env);
      var _ := host.Run(MakeDirectory(cacheDirectory));
      var code := host.Run(ArchiveDirectory(cachePath, installedDirectory));
      if code != 0 {
        error := Some("error tar-ing " + Render(installedDirectory));
        host.LogError(config.cliName, error.value);
        var _ := host.Run(RemoveFile(cachePath));
      }
    }

    method ExtractDependencies(host: Host, cachePath: Path) returns (error: Option<string>)
      modifies host
      ensures error == ExtractSpec(config, host.env, old(host.Snapshot()), cachePath).error
      ensures host.Snapshot() == ExtractSpec(config, host.env, old(host.Snapshot()), cachePath).state
    {
      error := None;
      var installedDirectory := InstalledDirectory(config, host.env);
      var removeExitCode := host.Run(RemoveTree(installedDirectory));
      if removeExitCode != 0 {
        error := Some("error removing installed dependencies at " + Render(installedDirectory));
        host.LogError(config.cliName, error.value);
      } else {
        var _ := host.Run(MakeDirectory(installedDirectory));
        var tarExtractCode := host.Run(ExtractInto(cachePath, installedDirectory));
        if tarExtractCode != 0 {
          error := Some("error untar-ing " + Render(cachePath));
          host.LogError(config.cliName, error.value);
        }
      }
    }

    method LoadDependencies(host: Host) returns (error: Option<string>)
      modifies host
      ensures error == LoadSpec(config, host.env, old(host.Snapshot())).error
      ensures host.Snapshot() == LoadSpec(config, host.env, old(host.Snapshot())).state
    {
      error := None;
      var configFile := ConfigFile(config, host.env);
      if !host.Exists(configFile) {
        return;
      }
      if !host.Which(config.cliName) {
        error := Some("Command line tool " + config.cliName + " not installed");
        host.LogError(config.cliName, error.value);
        return;
      }
      var hash := host.env.md5(host.files[configFile]);
      var _ := host.Run(QueryVersion(config.cliName));
      var cacheDirectory := CacheDirectory(config, host.env);
      var cachePath := Resolve(cacheDirectory, hash + ".tar.gz");
      if !config.forceRefresh && host.Exists(cachePath) {
        error := ExtractDependencies(host, cachePath);
        if error != None {
          return;
        }
      } else {
        error := InstallDependencies(host);
        if error != None {
          return;
        }
        error := ArchiveDependencies(host, cacheDirectory, cachePath);
        if error != None {
          return;
        }
      }
    }
  }

  // ---------------------------------------------------------------------
  // Properties

  /** Without a config file the callback gets `null` and nothing runs. */
  lemma ConfigAbsentSkips(c: Config, env: Env, s: State)
    requires ConfigFile(c, env) !in s.files
    ensures LoadSpec(c, env, s) == Step(None, s)
  {
  }

  /** With a config file but no CLI on PATH the run fails before any shell
    * command or file change, whether or not a cache entry exists. */
  lemma CliMissingFails(c: Config, env: Env, s: State)
    requires ConfigFile(c, env) in s.files
    requires c.cliName !in env.onPath
    ensures LoadSpec(c, env, s).error == Some("Command line tool " + c.cliName + " not installed")
    ensures LoadSpec(c, env, s).state.files == s.files
    ensures LoadSpec(c, env, s).state.log == s.log
  {
  }

  /** With single-segment names the cache entry sits at
    * `cacheDirectory/cliName/cliVersion/<hash>.tar.gz`. */
  lemma CachePathLayout(c: Config, env: Env, hash: string)
    requires IsSegment(c.cliName) && IsSegment(c.cliVersion) && '/' !in hash
    ensures CacheDirectory(c, env) == Resolve(env.cwd, c.cacheDirectory) + [c.cliName, c.cliVersion]
    ensures CachePath(c, env, hash) == Resolve(env.cwd, c.cacheDirectory) + [c.cliName, c.cliVersion, hash + ".tar.gz"]
  {
    assert IsSegment(hash + ".tar.gz") by {
      assert (hash + ".tar.gz")[|hash| + 1] == 't';
    }
  }

  /** The cache entry depends on the config file's bytes alone: two states
    * that agree on them look up the same archive, whatever else differs. */
  lemma SameConfigSameEntry(c: Config, env: Env, s: State, t: State)
    requires ConfigFile(c, env) in s.files && ConfigFile(c, env) in t.files
    requires s.files[ConfigFile(c, env)] == t.files[ConfigFile(c, env)]
    ensures ConfigHash(c, env, s) == ConfigHash(c, env, t)
    ensures CachePath(c, env, ConfigHash(c, env, s)) == CachePath(c, env, ConfigHash(c, env, t))
  {
  }

  /** Entries of different CLIs, CLI versions or digests never share a path. */
  lemma CachePathsDistinct(c1: Config, c2: Config, env: Env, h1: string, h2: string)
    requires c1.cacheDirectory == c2.cacheDirectory
    requires IsSegment(c1.cliName) && IsSegment(c1.cliVersion) && '/' !in h1
    requires IsSegment(c2.cliName) && IsSegment(c2.cliVersion) && '/' !in h2
    requires CachePath(c1, env, h1) == CachePath(c2, env, h2)
    ensures c1.cliName == c2.cliName && c1.cliVersion == c2.cliVersion && h1 == h2
  {
    CachePathLayout(c1, env, h1);
    CachePathLayout(c2, env, h2);
    var root := Resolve(env.cwd, c1.cacheDirectory);
    var p1 := root + [c1.cliName, c1.cliVersion, h1 + ".tar.gz"];
    var p2 := root + [c2.cliName, c2.cliVersion, h2 + ".tar.gz"];
    assert p1[|root|] == c1.cliName && p2[|root|] == c2.cliName;
    assert p1[|root| + 1] == c1.cliVersion && p2[|root| + 1] == c2.cliVersion;
    assert p1[|root| + 2] == h1 + ".tar.gz" && p2[|root| + 2] == h2 + ".tar.gz";
    assert h1 == (h1 + ".tar.gz")[..|h1|];
    assert h2 == (h2 + ".tar.gz")[..|h2|];
  }

  /** An empty CLI version adds no segment: such entries share the
    * directory of the CLI name itself. */
  lemma EmptyVersionAddsNoSegment(c: Config, env: Env)
    requires c.cliVersion == ""
    ensures CacheDirectory(c, env) == Resolve(Resolve(env.cwd, c.cacheDirectory), c.cliName)
  {
  }

  /** The commands each step appends to the log. */
  lemma InstallLog(c: Config, env: Env, s: State)
    ensures InstallSpec(c, env, s).state.log == s.log + [Install(InstallLine(c), InstalledDirectory(c, env))]
  {
  }

  lemma ArchiveLog(c: Config, env: Env, s: State, cacheDirectory: Path, cachePath: Path)
    ensures var tar := ArchiveDirectory(cachePath, InstalledDirectory(c, env));
      ArchiveSpec(c, env, s, cacheDirectory, cachePath).state.log ==
        s.log + [MakeDirectory(cacheDirectory), tar] + (if ExitCode(env, tar) != 0 then [RemoveFile(cachePath)] else [])
  {
  }

  lemma ExtractLog(c: Config, env: Env, s: State, cachePath: Path)
    ensures var dir := InstalledDirectory(c, env);
      ExtractSpec(c, env, s, cachePath).state.log ==
        s.log + [RemoveTree(dir)]
              + (if ExitCode(env, RemoveTree(dir)) == 0 then [MakeDirectory(dir), ExtractInto(cachePath, dir)] else [])
  {
  }

  /** On a cache hit without forceRefresh the run is the extract step. */
  lemma LoadOnHit(c: Config, env: Env, s: State)
    requires ConfigFile(c, env) in s.files && c.cliName in env.onPath && !c.forceRefresh
    requires CachePath(c, env, ConfigHash(c, env, s)) in s.files
    ensures LoadSpec(c, env, s) == ExtractSpec(c, env, VersionQueried(c, env, s), CachePath(c, env, ConfigHash(c, env, s)))
  {
  }

  /** Otherwise, with config file and CLI present, the run installs and
    * archives unless the install fails. */
  lemma LoadOnMiss(c: Config, env: Env, s: State)
    requires ConfigFile(c, env) in s.files && c.cliName in env.onPath
    requires c.forceRefresh || CachePath(c, env, ConfigHash(c, env, s)) !in s.files
    ensures var installed := InstallSpec(c, env, VersionQueried(c, env, s));
      LoadSpec(c, env, s) ==
        if installed.error.Some? then installed
        else ArchiveSpec(c, env, installed.state, CacheDirectory(c, env), CachePath(c, env, ConfigHash(c, env, s)))
  {
  }

  /** A cache hit without forceRefresh only asks for the CLI version, then
    * clears and extracts; the install command is never run and no archive
    * is written. */
  lemma CacheHitOnlyExtracts(c: Config, env: Env, s: State)
    requires ConfigFile(c, env) in s.files && c.cliName in env.onPath && !c.forceRefresh
    requires CachePath(c, env, ConfigHash(c, env, s)) in s.files
    ensures var dir := InstalledDirectory(c, env);
      var path := CachePath(c, env, ConfigHash(c, env, s));
      LoadSpec(c, env, s).state.log ==
        s.log + [QueryVersion(c.cliName), RemoveTree(dir)]
              + (if ExitCode(env, RemoveTree(dir)) == 0 then [MakeDirectory(dir), ExtractInto(path, dir)] else [])
  {
    var t := VersionQueried(c, env, s);
    LoadOnHit(c, env, s);
    ExtractLog(c, env, t, CachePath(c, env, ConfigHash(c, env, s)));
    assert t.log + [RemoveTree(InstalledDirectory(c, env))] == s.log + [QueryVersion(c.cliName), RemoveTree(InstalledDirectory(c, env))];
  }

  /** On a cache hit without forceRefresh the install command never runs. */
  lemma CacheHitRunsNoInstall(c: Config, env: Env, s: State)
    requires ConfigFile(c, env) in s.files && c.cliName in env.onPath && !c.forceRefresh
    requires CachePath(c, env, ConfigHash(c, env, s)) in s.files
    ensures NoInstall(LoadSpec(c, env, s).state.log[|s.log|..])
  {
    CacheHitOnlyExtracts(c, env, s);
    var dir := InstalledDirectory(c, env);
    HitTailHasNoInstall(s.log, LoadSpec(c, env, s).state.log, c.cliName, dir,
                        CachePath(c, env, ConfigHash(c, env, s)), ExitCode(env, RemoveTree(dir)) == 0);
  }

  lemma HitTailHasNoInstall(before: seq<Command>, log: seq<Command>, cli: string, dir: Path, path: Path, ok: bool)
    requires log == before + [QueryVersion(cli), RemoveTree(dir)] + (if ok then [MakeDirectory(dir), ExtractInto(path, dir)] else [])
    ensures NoInstall(log[|before|..])
  {
    var tail := log[|before|..];
    if ok {
      assert tail == [QueryVersion(cli), RemoveTree(dir), MakeDirectory(dir), ExtractInto(path, dir)];
    } else {
      assert tail == [QueryVersion(cli), RemoveTree(dir)];
    }
  }

  /** With forceRefresh the command after the version query is the
    * install, even when an archive for the digest exists. */
  lemma ForceRefreshInstalls(c: Config, env: Env, s: State)
    requires ConfigFile(c, env) in s.files && c.cliName in env.onPath && c.forceRefresh
    ensures |LoadSpec(c, env, s).state.log| > |s.log| + 1
    ensures LoadSpec(c, env, s).state.log[|s.log|] == QueryVersion(c.cliName)
    ensures LoadSpec(c, env, s).state.log[|s.log| + 1] == Install(InstallLine(c), InstalledDirectory(c, env))
  {
    var t := VersionQueried(c, env, s);
    var installed := InstallSpec(c, env, t);
    InstallLog(c, env, t);
    LoadOnMiss(c, env, s);
    if installed.error == None {
      ArchiveLog(c, env, installed.state, CacheDirectory(c, env), CachePath(c, env, ConfigHash(c, env, s)));
    }
  }

  /** A failing install reports `error running <installCommand>` (without
    * the options) and nothing is archived. */
  lemma InstallFailureStops(c: Config, env: Env, s: State)
    requires ConfigFile(c, env) in s.files && c.cliName in env.onPath
    requires c.forceRefresh || CachePath(c, env, ConfigHash(c, env, s)) !in s.files
    requires ExitCode(env, Install(InstallLine(c), InstalledDirectory(c, env))) != 0
    ensures LoadSpec(c, env, s).error == Some("error running " + c.installCommand)
    ensures LoadSpec(c, env, s).state.log == s.log + [QueryVersion(c.cliName), Install(InstallLine(c), InstalledDirectory(c, env))]
  {
    LoadOnMiss(c, env, s);
    InstallLog(c, env, VersionQueried(c, env, s));
  }

  /** The archive step creates the cache directory, then runs tar; a
    * successful tar stores the install directory's contents relative to it. */
  lemma ArchiveStores(c: Config, env: Env, s: State, cacheDirectory: Path, cachePath: Path)
    requires ExitCode(env, ArchiveDirectory(cachePath, InstalledDirectory(c, env))) == 0
    ensures var r := ArchiveSpec(c, env, s, cacheDirectory, cachePath);
      && r.error == None
      && r.state.log == s.log + [MakeDirectory(cacheDirectory), ArchiveDirectory(cachePath, InstalledDirectory(c, env))]
      && r.state.files == s.files[cachePath := Tarball(Subtree(s.files, InstalledDirectory(c, env)))]
  {
  }

  /** A reported archive failure leaves no file at the cache path, whatever
    * tar left behind and whatever was there before. */
  lemma ArchiveFailureLeavesNoFile(c: Config, env: Env, s: State, cacheDirectory: Path, cachePath: Path)
    requires ExitCode(env, ArchiveDirectory(cachePath, InstalledDirectory(c, env))) != 0
    ensures var r := ArchiveSpec(c, env, s, cacheDirectory, cachePath);
      && r.error == Some("error tar-ing " + Render(InstalledDirectory(c, env)))
      && cachePath !in r.state.files
      && r.state.log[|s.log|..] == [MakeDirectory(cacheDirectory), ArchiveDirectory(cachePath, InstalledDirectory(c, env)), RemoveFile(cachePath)]
  {
    var r := ArchiveSpec(c, env, s, cacheDirectory, cachePath);
    assert r.state.log == s.log + [MakeDirectory(cacheDirectory), ArchiveDirectory(cachePath, InstalledDirectory(c, env)), RemoveFile(cachePath)];
  }

  /** When `rm -rf` fails the step reports it and tar is not run. */
  lemma ExtractStopsWhenRemoveFails(c: Config, env: Env, s: State, cachePath: Path)
    requires ExitCode(env, RemoveTree(InstalledDirectory(c, env))) != 0
    ensures var r := ExtractSpec(c, env, s, cachePath);
      && r.error == Some("error removing installed dependencies at " + Render(InstalledDirectory(c, env)))
      && r.state.log == s.log + [RemoveTree(InstalledDirectory(c, env))]
      && r.state.files == s.files
  {
  }

  /** A successful extraction replaces the install directory's contents
    * with exactly the archive's tree: stale files are gone. */
  lemma ExtractReplacesContents(c: Config, env: Env, s: State, cachePath: Path, tree: Files)
    requires var dir := InstalledDirectory(c, env); !(dir < cachePath) && cachePath != dir
    requires cachePath in s.files && s.files[cachePath] == Tarball(tree) && Relative(tree)
    requires ExitCode(env, RemoveTree(InstalledDirectory(c, env))) == 0
    requires ExitCode(env, ExtractInto(cachePath, InstalledDirectory(c, env))) == 0
    ensures ExtractSpec(c, env, s, cachePath).error == None
    ensures Subtree(ExtractSpec(c, env, s, cachePath).state.files, InstalledDirectory(c, env)) == tree
  {
    var dir := InstalledDirectory(c, env);
    var cleared := Without(s.files, dir) - {dir};
    var s1 := Perform(env, s, RemoveTree(dir));
    assert s1.files == cleared;
    var s2 := Perform(env, s1, MakeDirectory(dir));
    assert s2.files == cleared;
    assert cachePath in cleared && cleared[cachePath] == Tarball(tree);
    assert Unpacked(cleared, cachePath) == tree;
    var s3 := Perform(env, s2, ExtractInto(cachePath, dir));
    assert s3.files == cleared + Rebase(tree, dir);
    SubtreeOfReplaced(cleared, dir, tree);
    assert ExtractSpec(c, env, s, cachePath) == Step(None, s3);
  }

  /** Archiving and then extracting restores the install directory's
    * contents (tar being identity). */
  lemma ArchiveExtractRoundTrip(c: Config, env: Env, s: State, cacheDirectory: Path, cachePath: Path)
    requires var dir := InstalledDirectory(c, env); !(dir < cachePath) && cachePath != dir
    requires ExitCode(env, ArchiveDirectory(cachePath, InstalledDirectory(c, env))) == 0
    requires ExitCode(env, RemoveTree(InstalledDirectory(c, env))) == 0
    requires ExitCode(env, ExtractInto(cachePath, InstalledDirectory(c, env))) == 0
    ensures var archived := ArchiveSpec(c, env, s, cacheDirectory, cachePath).state;
      Subtree(ExtractSpec(c, env, archived, cachePath).state.files, InstalledDirectory(c, env))
        == Subtree(s.files, InstalledDirectory(c, env))
  {
    var dir := InstalledDirectory(c, env);
    var archived := ArchiveSpec(c, env, s, cacheDirectory, cachePath).state;
    ArchiveStores(c, env, s, cacheDirectory, cachePath);
    ExtractReplacesContents(c, env, archived, cachePath, Subtree(s.files, dir));
  }

  /** What the cache is for: after a miss whose install and tar succeed, the
    * config file is intact, so the next run computes the same digest, finds
    * the archive just written and takes the extract path. */
  lemma SecondRunHits(c: Config, env: Env, s: State)
    requires ConfigFile(c, env) in s.files && c.cliName in env.onPath && !c.forceRefresh
    requires CachePath(c, env, ConfigHash(c, env, s)) !in s.files
    requires ExitCode(env, Install(InstallLine(c), InstalledDirectory(c, env))) == 0
    requires ExitCode(env, ArchiveDirectory(CachePath(c, env, ConfigHash(c, env, s)), InstalledDirectory(c, env))) == 0
    requires !(InstalledDirectory(c, env) < ConfigFile(c, env))
    requires CachePath(c, env, ConfigHash(c, env, s)) != ConfigFile(c, env)
    ensures var r := LoadSpec(c, env, s);
      && r.error == None
      && ConfigFile(c, env) in r.state.files
      && ConfigHash(c, env, r.state) == ConfigHash(c, env, s)
      && CachePath(c, env, ConfigHash(c, env, s)) in r.state.files
      && LoadSpec(c, env, r.state) == ExtractSpec(c, env, VersionQueried(c, env, r.state), CachePath(c, env, ConfigHash(c, env, s)))
  {
    var path := CachePath(c, env, ConfigHash(c, env, s));
    var installed := InstallSpec(c, env, VersionQueried(c, env, s));
    LoadOnMiss(c, env, s);
    ArchiveStores(c, env, installed.state, CacheDirectory(c, env), path);
    var r := LoadSpec(c, env, s);
    assert r.state.files == installed.state.files[path := Tarball(Subtree(installed.state.files, InstalledDirectory(c, env)))];
    assert r.state.files[ConfigFile(c, env)] == s.files[ConfigFile(c, env)];
    LoadOnHit(c, env, r.state);
  }

  /** The second run's extraction reproduces the install directory that the
    * first run's installer left. */
  lemma SecondRunRestores(c: Config, env: Env, s: State)
    requires ConfigFile(c, env) in s.files && c.cliName in env.onPath && !c.forceRefresh
    requires CachePath(c, env, ConfigHash(c, env, s)) !in s.files
    requires ExitCode(env, Install(InstallLine(c), InstalledDirectory(c, env))) == 0
    requires ExitCode(env, ArchiveDirectory(CachePath(c, env, ConfigHash(c, env, s)), InstalledDirectory(c, env))) == 0
    requires !(InstalledDirectory(c, env) < ConfigFile(c, env))
    requires CachePath(c, env, ConfigHash(c, env, s)) != ConfigFile(c, env)
    requires var dir, path := InstalledDirectory(c, env), CachePath(c, env, ConfigHash(c, env, s));
      !(dir < path) && path != dir
    requires ExitCode(env, RemoveTree(InstalledDirectory(c, env))) == 0
    requires ExitCode(env, ExtractInto(CachePath(c, env, ConfigHash(c, env, s)), InstalledDirectory(c, env))) == 0
    ensures var first := LoadSpec(c, env, s).state;
      var second := LoadSpec(c, env, first);
      && second.error == None
      && Subtree(second.state.files, InstalledDirectory(c, env)) == Subtree(first.files, InstalledDirectory(c, env))
  {
    var dir, path := InstalledDirectory(c, env), CachePath(c, env, ConfigHash(c, env, s));
    var installed := InstallSpec(c, env, VersionQueried(c, env, s));
    LoadOnMiss(c, env, s);
    ArchiveStores(c, env, installed.state, CacheDirectory(c, env), path);
    SecondRunHits(c, env, s);
    var first := LoadSpec(c, env, s).state;
    var tree := Subtree(installed.state.files, dir);
    assert first.files == installed.state.files[path := Tarball(tree)];
    SubtreeOfUpdate(installed.state.files, dir, path, Tarball(tree));
    ExtractReplacesContents(c, env, VersionQueried(c, env, first), path, tree);
  }
}

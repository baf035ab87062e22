/**
 * The earlier "load dependencies" procedure
 * (cacheDependencyManagers/baseCacheDependencyManager.js). A subclass
 * supplies its name, CLI, config file, install directory and install step;
 * here these are one `Profile` value. The cache entry for a config file with
 * digest `hash` is `cacheDirectory/<hash>.tar.gz`, with no CLI segments.
 *
 * A cache hit extracts without looking for the CLI; a miss needs the CLI,
 * installs, and archives whatever the install left, since
 * `installDependencies` reports nothing to its caller. Nothing is returned
 * to the caller of `loadDependencies`.
 */
module BaseCacheDependencyManager {
  import opened Wrappers
  import opened Paths
  import opened Environment

  /** The overridden getters and install step of a subclass. */
  datatype Profile = Profile(
    name: string,                // getName(), the log prefix
    cliName: string,             // getCliName()
    configPath: Path,            // getConfigPath(), an absolute path
    installedDirectory: string,  // getInstalledDirectory(), as handed to tar
    installLine: string,         // the command installDependencies runs
    installError: string)        // what it logs when that command fails

  /** `path.resolve(this.cacheDirectory, hash + '.tar.gz')`. */
  function CachePath(cacheDirectory: string, env: Env, hash: string): Path {
    Resolve(Resolve(env.cwd, cacheDirectory), hash + ".tar.gz")
  }

  /** Where the installer writes: the install directory under the working
    * directory. */
  function InstallTarget(p: Profile, env: Env): Path {
    Resolve(env.cwd, p.installedDirectory)
  }

  /** The subclass's `installDependencies`: run the install command and log
    * an error when it fails. */
  function InstallSpec(p: Profile, env: Env, s: State): State {
    var cmd := Install(p.installLine, InstallTarget(p, env));
    var s1 := Perform(env, s, cmd);
    if ExitCode(env, cmd) != 0 then Logged(s1, p.name, p.installError) else s1
  }

  /** `archiveDependencies(cachePath)`: `tar -zcf cachePath dir`, status ignored. */
  function ArchiveSpec(p: Profile, env: Env, s: State, cachePath: Path): State {
    Perform(env, s, ArchiveNamed(cachePath, p.installedDirectory))
  }

  /** `extractDependencies(cachePath)`: `tar -zxf cachePath` in the working
    * directory, status ignored. */
  function ExtractSpec(env: Env, s: State, cachePath: Path): State {
    Perform(env, s, ExtractHere(cachePath))
  }

  /** `loadDependencies()`: the state after the run. */
  function LoadSpec(p: Profile, cacheDirectory: string, env: Env, s: State): State {
    if p.configPath !in s.files then s
    else
      var hash := env.md5(s.files[p.configPath]);
      var cachePath := CachePath(cacheDirectory, env, hash);
      if cachePath in s.files then ExtractSpec(env, s, cachePath)
      else if p.cliName !in env.onPath then
        Logged(s, p.name, "Command line tool " + p.cliName + " not installed")
      else
        ArchiveSpec(p, env, InstallSpec(p, env, s), cachePath)
  }

  class BaseManager {
    const cacheDirectory: string
    const profile: Profile

    constructor (cacheDirectory: string, profile: Profile)
      ensures this.cacheDirectory == cacheDirectory && this.profile == profile
    {
      this.cacheDirectory := cacheDirectory;
      this.profile := profile;
    }

    method InstallDependencies(host: Host)
      modifies host
      ensures host.Snapshot() == InstallSpec(profile, host.env, old(host.Snapshot()))
    {
      var code := host.Run(Install(profile.installLine, InstallTarget(profile, host.env)));
      if code != 0 {
        host.LogError(profile.name, profile.installError);
        return;
      }
    }

    method ArchiveDependencies(host: Host, cachePath: Path)
      modifies host
      ensures host.Snapshot() == ArchiveSpec(profile, host.env, old(host.Snapshot()), cachePath)
    {
      var installedDirectory := profile.installedDirectory;
      var _ := host.Run(ArchiveNamed(cachePath, installedDirectory));
    }

    method ExtractDependencies(host: Host, cachePath: Path)
      modifies host
      ensures host.Snapshot() == ExtractSpec(host.env, old(host.Snapshot()), cachePath)
    {
      var _ := host.Run(ExtractHere(cachePath));
    }

    method LoadDependencies(host: Host)
      modifies host
      ensures host.Snapshot() == LoadSpec(profile, cacheDirectory, host.env, old(host.Snapshot()))
    {
      if !host.Exists(profile.configPath) {
        return;
      }
      var hash := host.env.md5(host.files[profile.configPath]);
      var cachePath := Resolve(Resolve(host.env.cwd, cacheDirectory), hash + ".tar.gz");
      if host.Exists(cachePath) {
        ExtractDependencies(host, cachePath);
      } else {
        if !host.Which(profile.cliName) {
          host.LogError(profile.name, "Command line tool " + profile.cliName + " not installed");
          return;
        }
        InstallDependencies(host);
        ArchiveDependencies(host, cachePath);
      }
    }
  }

  // ---------------------------------------------------------------------
  // Properties

  /** Without a config file nothing happens. */
  lemma ConfigAbsentSkips(p: Profile, cacheDirectory: string, env: Env, s: State)
    requires p.configPath !in s.files
    ensures LoadSpec(p, cacheDirectory, env, s) == s
  {
  }

  /** The cache entry sits directly in the cache directory. */
  lemma CachePathLayout(cacheDirectory: string, env: Env, hash: string)
    requires '/' !in hash
    ensures CachePath(cacheDirectory, env, hash) == Resolve(env.cwd, cacheDirectory) + [hash + ".tar.gz"]
  {
    assert IsSegment(hash + ".tar.gz") by {
      assert (hash + ".tar.gz")[|hash| + 1] == 't';
    }
  }

  /** A cache hit runs only `tar -zxf`, whether or not the CLI is on PATH. */
  lemma HitNeedsNoCli(p: Profile, cacheDirectory: string, env: Env, s: State)
    requires p.configPath in s.files
    requires CachePath(cacheDirectory, env, env.md5(s.files[p.configPath])) in s.files
    ensures var path := CachePath(cacheDirectory, env, env.md5(s.files[p.configPath]));
      var r := LoadSpec(p, cacheDirectory, env, s);
      && r.log == s.log + [ExtractHere(path)]
      && r.errors == s.errors
      && NoInstall(r.log[|s.log|..])
  {
    var path := CachePath(cacheDirectory, env, env.md5(s.files[p.configPath]));
    var r := LoadSpec(p, cacheDirectory, env, s);
    assert r == Perform(env, s, ExtractHere(path));
    assert r.log[|s.log|..] == [ExtractHere(path)];
  }

  /** A miss without the CLI logs one error and changes nothing else. */
  lemma MissWithoutCli(p: Profile, cacheDirectory: string, env: Env, s: State)
    requires p.configPath in s.files
    requires CachePath(cacheDirectory, env, env.md5(s.files[p.configPath])) !in s.files
    requires p.cliName !in env.onPath
    ensures var r := LoadSpec(p, cacheDirectory, env, s);
      && r.files == s.files && r.log == s.log
      && r.errors == s.errors + [Prefixed(p.name, "Command line tool " + p.cliName + " not installed")]
  {
  }

  /** A miss with the CLI installs and then archives, even when the install
    * fails; the failure only shows as a logged error. */
  lemma MissInstallsThenArchives(p: Profile, cacheDirectory: string, env: Env, s: State)
    requires p.configPath in s.files
    requires CachePath(cacheDirectory, env, env.md5(s.files[p.configPath])) !in s.files
    requires p.cliName in env.onPath
    ensures var path := CachePath(cacheDirectory, env, env.md5(s.files[p.configPath]));
      var install := Install(p.installLine, InstallTarget(p, env));
      var r := LoadSpec(p, cacheDirectory, env, s);
      && r.log == s.log + [install, ArchiveNamed(path, p.installedDirectory)]
      && r.errors == s.errors + (if ExitCode(env, install) != 0 then [Prefixed(p.name, p.installError)] else [])
  {
  }

  /** What a successful `tar -zcf cachePath dir` leaves. */
  lemma ArchivedFiles(p: Profile, env: Env, s: State, cachePath: Path)
    requires ExitCode(env, ArchiveNamed(cachePath, p.installedDirectory)) == 0
    ensures ArchiveSpec(p, env, s, cachePath).files
      == s.files[cachePath := Tarball(Rebase(Subtree(s.files, InstallTarget(p, env)), SplitPath(p.installedDirectory)))]
  {
    var cmd := ArchiveNamed(cachePath, p.installedDirectory);
    assert ArchiveSpec(p, env, s, cachePath).files == Effect(env, s.files, cmd, ExitCode(env, cmd));
  }

  /** What a successful `tar -zxf cachePath` leaves. */
  lemma ExtractedFiles(env: Env, s: State, cachePath: Path)
    requires ExitCode(env, ExtractHere(cachePath)) == 0
    ensures ExtractSpec(env, s, cachePath).files == s.files + Rebase(Unpacked(s.files, cachePath), env.cwd)
  {
  }

  /** With a relative install directory, archiving it and extracting the
    * archive in the working directory restores the directory's contents. */
  lemma ArchiveExtractRoundTrip(p: Profile, env: Env, s: State, cachePath: Path)
    requires p.installedDirectory == [] || p.installedDirectory[0] != '/'
    requires !(InstallTarget(p, env) < cachePath)
    requires ExitCode(env, ArchiveNamed(cachePath, p.installedDirectory)) == 0
    requires ExitCode(env, ExtractHere(cachePath)) == 0
    ensures var archived := ArchiveSpec(p, env, s, cachePath);
      Subtree(ExtractSpec(env, archived, cachePath).files, InstallTarget(p, env))
        == Subtree(s.files, InstallTarget(p, env))
  {
    var src := InstallTarget(p, env);
    var rel := SplitPath(p.installedDirectory);
    assert src == env.cwd + rel;
    var tree := Subtree(s.files, src);
    var archived := ArchiveSpec(p, env, s, cachePath);
    ArchivedFiles(p, env, s, cachePath);
    var stored := archived.files;
    UnpackedStored(s.files, cachePath, Rebase(tree, rel));
    ExtractedFiles(env, archived, cachePath);
    RebaseTwice(tree, env.cwd, rel);
    assert ExtractSpec(env, archived, cachePath).files == stored + Rebase(tree, src);
    SubtreeOfOverlay(stored, src, tree);
    SubtreeOfUpdate(s.files, src, cachePath, Tarball(Rebase(tree, rel)));
    MapsEqual(tree + tree, tree);
  }

  /** Extraction only adds or overwrites files: nothing is removed, so files
    * the archive does not hold survive in the install directory. */
  lemma ExtractKeepsFiles(env: Env, s: State, cachePath: Path)
    ensures forall q :: q in s.files ==> q in ExtractSpec(env, s, cachePath).files
  {
  }
}

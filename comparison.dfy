/**
 * The earlier and the current "load dependencies" procedures side by side,
 * for one manager described by a current `Config` and the base-class
 * profile with the same name, CLI, config file, install directory and
 * install command.
 */
module Comparison {
  import opened Wrappers
  import opened Paths
  import opened Environment
  import Current = CacheDependencyManager
  import Base = BaseCacheDependencyManager

  /** The base-class profile of the manager that `c` describes. */
  function Counterpart(c: Current.Config, env: Env): (p: Base.Profile)
    ensures Base.InstallTarget(p, env) == Current.InstalledDirectory(c, env)
    ensures p.configPath == Current.ConfigFile(c, env)
  {
    Base.Profile(c.cliName, c.cliName, Current.ConfigFile(c, env), c.installDirectory,
                 Current.InstallLine(c), "error running " + c.installCommand)
  }

  /** The two layouts never share a cache entry: the current one nests the
    * archive two levels deeper, under the CLI name and version. */
  lemma CachePathsDiffer(c: Current.Config, env: Env, hash: string)
    requires IsSegment(c.cliName) && IsSegment(c.cliVersion) && '/' !in hash
    ensures Current.CachePath(c, env, hash) != Base.CachePath(c.cacheDirectory, env, hash)
    ensures |Current.CachePath(c, env, hash)| == |Base.CachePath(c.cacheDirectory, env, hash)| + 2
  {
    Current.CachePathLayout(c, env, hash);
    Base.CachePathLayout(c.cacheDirectory, env, hash);
  }

  /** Without the CLI on PATH, an archive at the base layout's path is
    * extracted by the earlier procedure, while the current one reports the
    * missing tool and runs nothing. */
  lemma HitWithoutCli(c: Current.Config, env: Env, s: State)
    requires Current.ConfigFile(c, env) in s.files
    requires c.cliName !in env.onPath
    requires Base.CachePath(c.cacheDirectory, env, Current.ConfigHash(c, env, s)) in s.files
    ensures var r := Current.LoadSpec(c, env, s);
      r.error.Some? && r.state.log == s.log && r.state.files == s.files
    ensures Base.LoadSpec(Counterpart(c, env), c.cacheDirectory, env, s).log
      == s.log + [ExtractHere(Base.CachePath(c.cacheDirectory, env, Current.ConfigHash(c, env, s)))]
  {
    Current.CliMissingFails(c, env, s);
    Base.HitNeedsNoCli(Counterpart(c, env), c.cacheDirectory, env, s);
  }

  /** On a miss with a failing install, the earlier procedure still archives
    * what the installer left, while the current one stops after the
    * install and reports the failure. */
  lemma InstallFailureDiverges(c: Current.Config, env: Env, s: State)
    requires Current.ConfigFile(c, env) in s.files && c.cliName in env.onPath
    requires c.forceRefresh || Current.CachePath(c, env, Current.ConfigHash(c, env, s)) !in s.files
    requires Base.CachePath(c.cacheDirectory, env, Current.ConfigHash(c, env, s)) !in s.files
    requires ExitCode(env, Install(Current.InstallLine(c), Current.InstalledDirectory(c, env))) != 0
    ensures var install := Install(Current.InstallLine(c), Current.InstalledDirectory(c, env));
      && Current.LoadSpec(c, env, s).state.log == s.log + [QueryVersion(c.cliName), install]
      && Current.LoadSpec(c, env, s).error.Some?
      && Base.LoadSpec(Counterpart(c, env), c.cacheDirectory, env, s).log
           == s.log + [install, ArchiveNamed(Base.CachePath(c.cacheDirectory, env, Current.ConfigHash(c, env, s)), c.installDirectory)]
  {
    Current.InstallFailureStops(c, env, s);
    Base.MissInstallsThenArchives(Counterpart(c, env), c.cacheDirectory, env, s);
  }

  /** A failing tar that leaves a partial file: the earlier procedure keeps
    * it at the cache path, where the next run takes it for a hit; the
    * current one removes it. */
  lemma FailedTarLeftovers(c: Current.Config, env: Env, s: State, cacheDirectory: Path, cachePath: Path)
    requires env.partial.Some?
    requires ExitCode(env, ArchiveDirectory(cachePath, Current.InstalledDirectory(c, env))) != 0
    requires ExitCode(env, ArchiveNamed(cachePath, c.installDirectory)) != 0
    ensures cachePath !in Current.ArchiveSpec(c, env, s, cacheDirectory, cachePath).state.files
    ensures var b := Base.ArchiveSpec(Counterpart(c, env), env, s, cachePath);
      cachePath in b.files && b.files[cachePath] == env.partial.value
  {
    Current.ArchiveFailureLeavesNoFile(c, env, s, cacheDirectory, cachePath);
  }

  /** Extraction: the current procedure empties the install directory
    * first, so files the archive does not hold are gone; the earlier one
    * only overlays the archive, so every file survives. */
  lemma ExtractReplacesOrOverlays(c: Current.Config, env: Env, s: State, cachePath: Path, q: Path)
    requires q in s.files && Current.InstalledDirectory(c, env) < q
    requires var dir := Current.InstalledDirectory(c, env); !(dir < cachePath) && cachePath != dir
    requires ExitCode(env, RemoveTree(Current.InstalledDirectory(c, env))) == 0
    requires ExitCode(env, ExtractInto(cachePath, Current.InstalledDirectory(c, env))) == 0
    requires cachePath in s.files && s.files[cachePath].Tarball? && Relative(s.files[cachePath].entries)
    requires q[|Current.InstalledDirectory(c, env)|..] !in s.files[cachePath].entries
    ensures q !in Current.ExtractSpec(c, env, s, cachePath).state.files
    ensures q in Base.ExtractSpec(env, s, cachePath).files
  {
    var dir := Current.InstalledDirectory(c, env);
    Current.ExtractReplacesContents(c, env, s, cachePath, s.files[cachePath].entries);
    OutsideSubtree(Current.ExtractSpec(c, env, s, cachePath).state.files, dir, q);
    Base.ExtractKeepsFiles(env, s, cachePath);
  }
}

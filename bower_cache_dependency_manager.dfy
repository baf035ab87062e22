/**
 * The earlier bower manager (cacheDependencyManagers/
 * bowerCacheDependencyManager.js): the overridden getters and install step
 * of the base manager, as a `Profile`.
 */
module BowerCacheDependencyManager {
  import opened Wrappers
  import opened Paths
  import opened Environment
  import opened BowerConfig
  import Base = BaseCacheDependencyManager

  /** What `installDependencies` logs when `bower install` fails. */
  const InstallError: string := "error running bower install"

  /** The bower subclass in a working directory with the given `.bowerrc`. */
  function BowerProfile(cwd: Path, bowerRc: Option<BowerRc>): (p: Base.Profile)
    ensures p.name == "bower" && p.cliName == "bower"
    ensures p.configPath == Resolve(cwd, "bower.json")
    ensures p.installedDirectory == InstallDirectory(bowerRc)
  {
    Base.Profile(
      name := "bower",
      cliName := "bower",
      configPath := Resolve(cwd, "bower.json"),
      installedDirectory := InstallDirectory(bowerRc),
      installLine := "bower install",
      installError := InstallError)
  }

  /** A failing `bower install` is only logged: the base procedure goes on
    * and archives the install directory anyway. */
  lemma FailedInstallStillArchives(bowerRc: Option<BowerRc>, cacheDirectory: string, env: Env, s: State)
    requires var p := BowerProfile(env.cwd, bowerRc);
      && p.configPath in s.files
      && Base.CachePath(cacheDirectory, env, env.md5(s.files[p.configPath])) !in s.files
      && p.cliName in env.onPath
      && ExitCode(env, Install("bower install", Base.InstallTarget(p, env))) != 0
    ensures var p := BowerProfile(env.cwd, bowerRc);
      var path := Base.CachePath(cacheDirectory, env, env.md5(s.files[p.configPath]));
      var r := Base.LoadSpec(p, cacheDirectory, env, s);
      && r.log == s.log + [Install("bower install", Base.InstallTarget(p, env)), ArchiveNamed(path, InstallDirectory(bowerRc))]
      && r.errors == s.errors + [Prefixed("bower", InstallError)]
  {
    var p := BowerProfile(env.cwd, bowerRc);
    assert p.installLine == "bower install" && p.installError == InstallError;
    Base.MissInstallsThenArchives(p, cacheDirectory, env, s);
  }
}

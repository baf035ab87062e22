/**
 * The bower profile of the current engine (cacheDependencyManagers/
 * bowerConfig.js) and the `.bowerrc` rule it shares with the earlier bower
 * manager: the install directory is `bower_components` unless `.bowerrc`
 * exists and has a truthy `directory`.
 */
module BowerConfig {
  import opened Wrappers
  import opened Text
  import opened Paths
  import opened Environment
  import CacheDependencyManager

  /** The parsed `.bowerrc`; only its `directory` field matters. */
  datatype BowerRc = BowerRc(directory: Option<string>)

  const DefaultDirectory: string := "bower_components"

  /** A JavaScript string field is truthy when it is present and non-empty. */
  predicate Truthy(field: Option<string>) {
    field.Some? && field.value != ""
  }

  /** `getBowerInstallDirectory()`, given the parsed `.bowerrc` (`None` when
    * the file does not exist). */
  function InstallDirectory(bowerRc: Option<BowerRc>): (d: string)
    ensures d != ""
    ensures d == DefaultDirectory <== bowerRc.None? || !Truthy(bowerRc.value.directory)
    ensures bowerRc.Some? && Truthy(bowerRc.value.directory) ==> d == bowerRc.value.directory.value
  {
    if bowerRc.Some? && Truthy(bowerRc.value.directory) then bowerRc.value.directory.value
    else DefaultDirectory
  }

  /** The exported record, completed with the run options and the CLI
    * version, which the record itself does not provide. */
  function Record(cwd: Path, bowerRc: Option<BowerRc>, cliVersion: string,
                  installOptions: string, cacheDirectory: string, forceRefresh: bool): CacheDependencyManager.Config
  {
    CacheDependencyManager.Config(
      cliName := "bower",
      cliVersion := cliVersion,
      configPath := Render(Resolve(cwd, "bower.json")),
      installDirectory := InstallDirectory(bowerRc),
      installCommand := "bower install",
      installOptions := installOptions,
      cacheDirectory := cacheDirectory,
      forceRefresh := forceRefresh)
  }

  /** The profile's config file is `bower.json` in the working directory,
    * the install directory is the `.bowerrc` rule's, and the install runs
    * `bower install` plus the options. */
  lemma RecordFields(env: Env, bowerRc: Option<BowerRc>, cliVersion: string,
                     installOptions: string, cacheDirectory: string, forceRefresh: bool)
    requires AllSegments(env.cwd)
    ensures var c := Record(env.cwd, bowerRc, cliVersion, installOptions, cacheDirectory, forceRefresh);
      && c.cliName == "bower"
      && c.installCommand == "bower install"
      && CacheDependencyManager.InstallLine(c) == Trim("bower install" + " " + installOptions)
      && CacheDependencyManager.ConfigFile(c, env) == env.cwd + ["bower.json"]
      && CacheDependencyManager.InstalledDirectory(c, env) == Resolve(env.cwd, InstallDirectory(bowerRc))
  {
    assert IsSegment("bower.json");
    ResolveRendered(env.cwd, Resolve(env.cwd, "bower.json"));
  }
}

/**
 * The composer profile of the current engine (cacheDependencyManagers/
 * composerConfig.js): the vendor directory taken from composer.json, the
 * version parsed from `composer --version`, and the fields of composer.json
 * that `getFileHash` digests.
 */
module ComposerConfig {
  import opened Wrappers
  import opened Text
  import opened Paths
  import opened Environment
  import opened Json
  import CacheDependencyManager

  /** The parts of composer.json the profile reads. `config` holds the
    * string settings of the `config` object. */
  datatype ComposerJson = ComposerJson(
    config: Option<map<string, string>>,
    packages: Option<Json>,
    packagesDev: Option<Json>,      // the `packages-dev` field
    rest: map<string, Json>)        // every other field

  const DefaultDirectory: string := "vendor"

  /** `getComposerInstallDirectory()`, given composer.json (`None` when it
    * does not exist). The override is taken whenever the key `vendor-dir`
    * is present, even with an empty value. */
  function InstallDirectory(composerJson: Option<ComposerJson>): (d: string)
    ensures composerJson.None? ==> d == DefaultDirectory
    ensures composerJson.Some? && composerJson.value.config.Some? && "vendor-dir" in composerJson.value.config.value
      ==> d == composerJson.value.config.value["vendor-dir"]
    ensures d != DefaultDirectory ==> VendorDir(composerJson) == Some(d)
  {
    if composerJson.Some? && composerJson.value.config.Some? && "vendor-dir" in composerJson.value.config.value then
      composerJson.value.config.value["vendor-dir"]
    else DefaultDirectory
  }

  /** The `vendor-dir` setting, when composer.json exists and has one. */
  function VendorDir(composerJson: Option<ComposerJson>): Option<string> {
    if composerJson.Some? && composerJson.value.config.Some? && "vendor-dir" in composerJson.value.config.value then
      Some(composerJson.value.config.value["vendor-dir"])
    else None
  }

  const VersionPrefix: string := "Composer version "
  const UnknownVersion: string := "UnknownComposer"

  /** `getCliVersion()`, given the output of `composer --version`: the
    * capture of `^Composer version (\S+)`, or `UnknownComposer`. */
  function CliVersion(output: string): (v: string)
    ensures v == UnknownVersion || (v != "" && NoWhitespace(v) && VersionPrefix + v <= output)
  {
    if VersionPrefix <= output && Token(output[|VersionPrefix|..]) != "" then
      var t := Token(output[|VersionPrefix|..]);
      assert output == VersionPrefix + output[|VersionPrefix|..];
      t
    else UnknownVersion
  }

  /** The token after the prefix, up to white space or the end, is the
    * version. */
  lemma VersionOf(v: string, rest: string)
    requires v != "" && NoWhitespace(v)
    requires rest == [] || IsJsWhitespace(rest[0])
    ensures CliVersion(VersionPrefix + v + rest) == v
  {
    var out := VersionPrefix + v + rest;
    assert out[|VersionPrefix|..] == v + rest;
    TokenOf(v, rest);
  }

  /** The sample output in the comment inside `getCliVersion`,
    * `Composer version 1.0.0-alpha9 2014-12-07 17:15:20`. */
  lemma VersionExample()
    ensures CliVersion(VersionPrefix + "1.0.0-alpha9" + " 2014-12-07 17:15:20") == "1.0.0-alpha9"
  {
    assert NoWhitespace("1.0.0-alpha9");
    VersionOf("1.0.0-alpha9", " 2014-12-07 17:15:20");
  }

  /** Output that does not start with the prefix, or has white space right
    * after it, gives `UnknownComposer`. */
  lemma UnknownWithoutMatch(output: string)
    requires !(VersionPrefix <= output) || (|VersionPrefix| < |output| && IsJsWhitespace(output[|VersionPrefix|]))
             || output == VersionPrefix
    ensures CliVersion(output) == UnknownVersion
  {
  }

  /** What `getFileHash` passes to md5: an object with `packages` and
    * `packagesDev`, each left out when composer.json lacks it (as
    * `JSON.stringify` drops `undefined` members). */
  function Hashed(j: ComposerJson): Json {
    JObject(Member("packages", j.packages) + Member("packagesDev", j.packagesDev))
  }

  function Member(key: string, value: Option<Json>): map<string, Json> {
    if value.Some? then map[key := value.value] else map[]
  }

  /** `getFileHash(filePath)`, with the digest of the serialised object as
    * a parameter. */
  function FileHash(j: ComposerJson, digest: Json -> string): string {
    digest(Hashed(j))
  }

  /** The digested object determines exactly the two fields: two files give
    * the same object if and only if they agree on `packages` and
    * `packages-dev`, whatever else they hold. */
  lemma HashedIff(j1: ComposerJson, j2: ComposerJson)
    ensures Hashed(j1) == Hashed(j2) <==> j1.packages == j2.packages && j1.packagesDev == j2.packagesDev
  {
    if Hashed(j1) == Hashed(j2) {
      var m1 := Member("packages", j1.packages) + Member("packagesDev", j1.packagesDev);
      var m2 := Member("packages", j2.packages) + Member("packagesDev", j2.packagesDev);
      assert m1 == m2;
      assert "packages" != "packagesDev";
      assert ("packages" in m1) == j1.packages.Some?;
      assert ("packages" in m2) == j2.packages.Some?;
      assert ("packagesDev" in m1) == j1.packagesDev.Some?;
      assert ("packagesDev" in m2) == j2.packagesDev.Some?;
      if j1.packages.Some? {
        assert m1["packages"] == j1.packages.value;
        assert m2["packages"] == j2.packages.value;
      }
      if j1.packagesDev.Some? {
        assert m1["packagesDev"] == j1.packagesDev.value;
        assert m2["packagesDev"] == j2.packagesDev.value;
      }
    }
  }

  /** Files that agree on the two fields hash the same. */
  lemma SameFieldsSameHash(j1: ComposerJson, j2: ComposerJson, digest: Json -> string)
    requires j1.packages == j2.packages && j1.packagesDev == j2.packagesDev
    ensures FileHash(j1, digest) == FileHash(j2, digest)
  {
    HashedIff(j1, j2);
  }

  /** The exported record, completed with the run options. */
  function Record(cwd: Path, composerJson: Option<ComposerJson>, versionOutput: string,
                  installOptions: string, cacheDirectory: string, forceRefresh: bool): CacheDependencyManager.Config
  {
    CacheDependencyManager.Config(
      cliName := "composer",
      cliVersion := CliVersion(versionOutput),
      configPath := Render(Resolve(cwd, "composer.json")),
      installDirectory := InstallDirectory(composerJson),
      installCommand := "composer install",
      installOptions := installOptions,
      cacheDirectory := cacheDirectory,
      forceRefresh := forceRefresh)
  }

  /** The config file is always `composer.json` in the working directory;
    * the install runs `composer install` plus the options in the directory
    * that composer.json names, under the version read from the CLI. */
  lemma RecordFields(env: Env, composerJson: Option<ComposerJson>, versionOutput: string,
                     installOptions: string, cacheDirectory: string, forceRefresh: bool)
    requires AllSegments(env.cwd)
    ensures var c := Record(env.cwd, composerJson, versionOutput, installOptions, cacheDirectory, forceRefresh);
      && c.cliName == "composer"
      && c.cliVersion == CliVersion(versionOutput)
      && c.installCommand == "composer install"
      && CacheDependencyManager.InstallLine(c) == Trim("composer install" + " " + installOptions)
      && CacheDependencyManager.ConfigFile(c, env) == env.cwd + ["composer.json"]
      && CacheDependencyManager.InstalledDirectory(c, env) == Resolve(env.cwd, InstallDirectory(composerJson))
  {
    assert IsSegment("composer.json");
    ResolveRendered(env.cwd, Resolve(env.cwd, "composer.json"));
  }
}

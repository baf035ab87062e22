/**
 * The jspm profile of the current engine (cacheDependencyManagers/
 * jspmConfig.js): install directory and config file chosen from the `jspm`
 * section of package.json, the version read from `jspm --version`, and the
 * inputs of the configuration hash.
 */
module JspmConfig {
  import opened Wrappers
  import opened Text
  import opened Paths
  import opened Environment
  import opened Json
  import CacheDependencyManager

  /** `jspm.directories`: the two members the rules read, and every other
    * member (`lib`, `dist`, …) as parsed JSON. */
  datatype Directories = Directories(baseURL: Option<string>, packages: Option<string>,
                                     others: map<string, Json>)

  /** The `jspm` section: the two members the rules read, and every other
    * member (`dependencies`, `devDependencies`, …) as parsed JSON. */
  datatype JspmSection = JspmSection(configFile: Option<string>, directories: Option<Directories>,
                                     others: map<string, Json>)

  /** A section read from JSON keeps each member in exactly one place: the
    * members the rules read are never also among the others, so every parsed
    * section has one model value. */
  predicate Canonical(s: JspmSection) {
    && "configFile" !in s.others && "directories" !in s.others
    && (s.directories.Some? ==> "baseURL" !in s.directories.value.others && "packages" !in s.directories.value.others)
  }

  /** The parsed package.json: its `jspm` section and everything else. */
  datatype PackageJson = PackageJson(jspm: Option<JspmSection>, rest: map<string, Json>)

  const DefaultPackages: string := "jspm_packages"
  const MissingConfig: string := "package.json(namespace:jspm)"

  /** A JavaScript string field is truthy when it is present and non-empty. */
  predicate Truthy(field: Option<string>) {
    field.Some? && field.value != ""
  }

  /** `jspm.directories.<field>` when it is truthy. */
  function PackagesField(pkg: PackageJson): Option<string> {
    if pkg.jspm.Some? && pkg.jspm.value.directories.Some? && Truthy(pkg.jspm.value.directories.value.packages)
    then pkg.jspm.value.directories.value.packages else None
  }

  function BaseUrlField(pkg: PackageJson): Option<string> {
    if pkg.jspm.Some? && pkg.jspm.value.directories.Some? && Truthy(pkg.jspm.value.directories.value.baseURL)
    then pkg.jspm.value.directories.value.baseURL else None
  }

  predicate EndsWith(s: string, suffix: string) {
    |suffix| <= |s| && s[|s| - |suffix|..] == suffix
  }

  /** `path.join(base, name)` ends with `name`. */
  lemma JoinEndsWith(base: string, name: string)
    ensures EndsWith(Join(base, name), name)
  {
    var r := Join(base, name);
    if base == "" {
    } else if base[|base| - 1] == '/' {
      assert r == base + name;
      assert r[|r| - |name|..] == name;
    } else {
      assert r == base + "/" + name;
      assert r[|r| - |name|..] == name;
    }
  }

  /** `getInstallDirectory()`: `packages` wins, then `baseURL` with
    * `jspm_packages` appended, then `jspm_packages`. */
  function InstallDirectory(pkg: PackageJson): (d: string)
    ensures d != ""
    ensures PackagesField(pkg).Some? ==> d == PackagesField(pkg).value
    ensures PackagesField(pkg).None? ==> EndsWith(d, DefaultPackages)
    ensures PackagesField(pkg).None? && BaseUrlField(pkg).None? ==> d == DefaultPackages
  {
    if PackagesField(pkg).Some? then PackagesField(pkg).value
    else if BaseUrlField(pkg).Some? then
      JoinEndsWith(BaseUrlField(pkg).value, DefaultPackages);
      Join(BaseUrlField(pkg).value, DefaultPackages)
    else DefaultPackages
  }

  /** With a `baseURL` and no `packages`, jspm installs into the
    * `jspm_packages` directory right below where `baseURL` resolves. */
  lemma BaseUrlInstallDirectory(pkg: PackageJson, cwd: Path)
    requires PackagesField(pkg).None? && BaseUrlField(pkg).Some?
    ensures Resolve(cwd, InstallDirectory(pkg)) == Resolve(cwd, BaseUrlField(pkg).value) + [DefaultPackages]
  {
    assert IsSegment(DefaultPackages);
    ResolveJoin(cwd, BaseUrlField(pkg).value, DefaultPackages);
  }

  /** The config file of jspm 0.17 and of 0.16 in the directory `base`. */
  function ConfigCandidates(base: string): (string, string) {
    (Join(base, "jspm.config.js"), Join(base, "config.js"))
  }

  /** Both candidates end with `config.js`. */
  lemma CandidatesEndAlike(base: string)
    ensures EndsWith(ConfigCandidates(base).0, "config.js") && EndsWith(ConfigCandidates(base).1, "config.js")
  {
    JoinEndsWith(base, "jspm.config.js");
    JoinEndsWith(base, "config.js");
    NewNameEndsWithOld();
    EndsWithTransitive(ConfigCandidates(base).0, "jspm.config.js", "config.js");
  }

  lemma NewNameEndsWithOld()
    ensures EndsWith("jspm.config.js", "config.js")
  {
    assert "jspm.config.js"[5..] == "config.js";
  }

  lemma EndsWithTransitive(s: string, a: string, b: string)
    requires EndsWith(s, a) && EndsWith(a, b)
    ensures EndsWith(s, b)
  {
    assert s[|s| - |b|..] == s[|s| - |a|..][|a| - |b|..];
  }

  /** `getConfigFile()`, given which paths exist: the sentinel without a
    * `jspm` section, else `jspm.configFile`, else the 0.17 file under
    * `baseURL` when it exists and the 0.16 file otherwise. */
  function ConfigFile(pkg: PackageJson, cwd: Path, present: set<Path>): (f: string)
    ensures pkg.jspm.None? ==> f == MissingConfig
    ensures pkg.jspm.Some? && Truthy(pkg.jspm.value.configFile) ==> f == pkg.jspm.value.configFile.value
    ensures pkg.jspm.Some? && !Truthy(pkg.jspm.value.configFile) ==> EndsWith(f, "config.js")
    ensures pkg.jspm.Some? && !Truthy(pkg.jspm.value.configFile) ==>
      var (v17, v16) := ConfigCandidates(BaseUrlField(pkg).GetOr(""));
      f == (if Resolve(cwd, v17) in present then v17 else v16)
  {
    if pkg.jspm.None? then MissingConfig
    else if Truthy(pkg.jspm.value.configFile) then pkg.jspm.value.configFile.value
    else
      var baseURL := BaseUrlField(pkg).GetOr("");
      var (v17, v16) := ConfigCandidates(baseURL);
      CandidatesEndAlike(baseURL);
      if Resolve(cwd, v17) in present then v17 else v16
  }

  /** `getJspmVersion()`, given the output of `jspm --version`: the trimmed
    * first line, or `UnknownVersion` when that line is empty. */
  function JspmVersion(output: string): (v: string)
    ensures '\n' !in v
    ensures FirstLine(output) == "" ==> v == UnknownVersion
    ensures FirstLine(output) != "" ==> v == Trim(FirstLine(output))
    ensures output == "" ==> v == UnknownVersion
  {
    var first := FirstLine(output);
    var version := if first != "" then first else UnknownVersion;
    UnknownVersionTrimmed();
    TrimKeepsOut(version, '\n');
    Trim(version)
  }

  const UnknownVersion: string := "UnknownVersion"

  lemma UnknownVersionTrimmed()
    ensures Trim(UnknownVersion) == UnknownVersion && '\n' !in UnknownVersion
  {
    UnknownVersionEnds();
    TrimUntouched(UnknownVersion);
    UnknownVersionOneLine();
  }

  lemma UnknownVersionEnds()
    ensures !IsJsWhitespace(UnknownVersion[0]) && !IsJsWhitespace(UnknownVersion[|UnknownVersion| - 1])
  {
  }

  lemma UnknownVersionOneLine()
    ensures '\n' !in UnknownVersion
  {
  }

  /** Trimming adds no character. */
  lemma TrimKeepsOut(s: string, c: char)
    requires c !in s
    ensures c !in Trim(s)
  {
    var v := Trim(s);
    var k :| TrimmedAt(s, k, v);
    assert v == s[k..k + |v|];
  }

  /** A first line without surrounding white space is the version. */
  lemma VersionOfLine(line: string, rest: string)
    requires line != [] && '\n' !in line
    requires !IsJsWhitespace(line[0]) && !IsJsWhitespace(line[|line| - 1])
    ensures JspmVersion(line + "\n" + rest) == line
  {
    FirstLineOf(line, rest);
    TrimUntouched(line);
  }

  /** A first line of white space only is not empty, so it is kept and
    * trimmed to the empty version. */
  lemma BlankFirstLine(output: string)
    requires FirstLine(output) != ""
    requires forall i :: 0 <= i < |FirstLine(output)| ==> IsJsWhitespace(FirstLine(output)[i])
    ensures JspmVersion(output) == ""
  {
    var first := FirstLine(output);
    var v := Trim(first);
    var k :| TrimmedAt(first, k, v);
  }

  /** Output that starts with a line feed, such as `"\n0.16.0"`, has an
    * empty first line and gives `UnknownVersion`. */
  lemma LeadingLineFeedUnknown(rest: string)
    ensures JspmVersion("\n" + rest) == UnknownVersion
  {
    assert ("\n" + rest)[0] == '\n';
  }

  /** What `getConfigurationHash` digests: the `jspm` section and the bytes
    * of the config file. */
  datatype HashInput = HashInput(jspm: Option<JspmSection>, configContents: Content)

  /** `getConfigurationHash()`, with the digest of the serialised input as a
    * parameter; `None` when the config file cannot be read. The config file
    * is the one chosen when the module was loaded, from the paths `present`
    * then; `files` is what exists when the hash is taken. */
  function ConfigurationHash(pkg: PackageJson, cwd: Path, present: set<Path>, files: Files,
                             digest: HashInput -> string): (h: Option<string>)
    ensures var file := Resolve(cwd, ConfigFile(pkg, cwd, present));
      && (h.Some? <==> file in files)
      && (file in files ==> h == Some(digest(HashInput(pkg.jspm, files[file]))))
  {
    var file := Resolve(cwd, ConfigFile(pkg, cwd, present));
    if file in files then Some(digest(HashInput(pkg.jspm, files[file]))) else None
  }

  /** The hash depends on nothing but the whole `jspm` section and the
    * contents of the config file fixed at load: the rest of package.json and
    * all other files do not matter. */
  lemma HashInputs(pkg1: PackageJson, pkg2: PackageJson, cwd: Path, present: set<Path>,
                   files1: Files, files2: Files, digest: HashInput -> string)
    requires pkg1.jspm == pkg2.jspm
    requires var f := Resolve(cwd, ConfigFile(pkg1, cwd, present));
      f in files1 && f in files2 && files1[f] == files2[f]
    ensures ConfigurationHash(pkg1, cwd, present, files1, digest) == ConfigurationHash(pkg2, cwd, present, files2, digest)
  {
    assert ConfigFile(pkg1, cwd, present) == ConfigFile(pkg2, cwd, present);
  }

  /** Two config files with the same bytes digest the same input exactly
    * when the two `jspm` sections are equal in every member, so sections
    * that differ only in `dependencies` give different inputs. */
  lemma HashInputIff(a: JspmSection, b: JspmSection, contents: Content)
    ensures HashInput(Some(a), contents) == HashInput(Some(b), contents) <==>
      && a.configFile == b.configFile && a.others == b.others
      && (a.directories.Some? <==> b.directories.Some?)
      && (a.directories.Some? && b.directories.Some? ==>
            var (da, db) := (a.directories.value, b.directories.value);
            da.baseURL == db.baseURL && da.packages == db.packages && da.others == db.others)
  {
  }

  /** Moving a dependency from `npm:x@1` to `npm:x@2` changes what is digested,
    * even when the config file is unchanged. */
  lemma DependencyChangesInput(contents: Content)
    ensures var dependencies := (v: string) => map["dependencies" := JObject(map["x" := JString(v)])];
      HashInput(Some(JspmSection(None, None, dependencies("npm:x@1"))), contents) !=
      HashInput(Some(JspmSection(None, None, dependencies("npm:x@2"))), contents)
  {
    var d1 := map["dependencies" := JObject(map["x" := JString("npm:x@1")])];
    var d2 := map["dependencies" := JObject(map["x" := JString("npm:x@2")])];
    assert d1["dependencies"] != d2["dependencies"] by {
      assert JString("npm:x@1") != JString("npm:x@2") by {
        assert "npm:x@1"[6] != "npm:x@2"[6];
      }
      assert d1["dependencies"].fields["x"] != d2["dependencies"].fields["x"];
    }
    HashInputIff(JspmSection(None, None, d1), JspmSection(None, None, d2), contents);
  }

  /** Changing `directories.lib` from `src` to `app` changes what is
    * digested, even though no rule reads `lib`. */
  lemma DirectoryMemberChangesInput(contents: Content)
    ensures var section := (lib: string) => JspmSection(None, Some(Directories(Some("www"), None, map["lib" := JString(lib)])), map[]);
      && Canonical(section("src")) && Canonical(section("app"))
      && HashInput(Some(section("src")), contents) != HashInput(Some(section("app")), contents)
  {
    var da := Directories(Some("www"), None, map["lib" := JString("src")]);
    var db := Directories(Some("www"), None, map["lib" := JString("app")]);
    assert da.others["lib"] != db.others["lib"] by {
      assert "src"[0] != "app"[0];
    }
    HashInputIff(JspmSection(None, Some(da), map[]), JspmSection(None, Some(db), map[]), contents);
  }

  /** The file hashed is the record's config file, even when a file created
    * after loading would now be chosen instead: creating `jspm.config.js`
    * later does not redirect the hash. */
  lemma HashReadsRecordConfig(env: Env, pkg: PackageJson, present: set<Path>, files: Files,
                              digest: HashInput -> string, versionOutput: string,
                              installOptions: string, cacheDirectory: string, forceRefresh: bool)
    ensures var c := Record(env.cwd, pkg, present, versionOutput, installOptions, cacheDirectory, forceRefresh);
      var file := CacheDependencyManager.ConfigFile(c, env);
      && (ConfigurationHash(pkg, env.cwd, present, files, digest).Some? <==> file in files)
      && (file in files ==>
            ConfigurationHash(pkg, env.cwd, present, files, digest) == Some(digest(HashInput(pkg.jspm, files[file]))))
  {
  }

  /** The exported record, completed with the run options. */
  function Record(cwd: Path, pkg: PackageJson, present: set<Path>, versionOutput: string,
                  installOptions: string, cacheDirectory: string, forceRefresh: bool): CacheDependencyManager.Config
  {
    CacheDependencyManager.Config(
      cliName := "jspm",
      cliVersion := JspmVersion(versionOutput),
      configPath := ConfigFile(pkg, cwd, present),
      installDirectory := InstallDirectory(pkg),
      installCommand := "jspm install",
      installOptions := installOptions,
      cacheDirectory := cacheDirectory,
      forceRefresh := forceRefresh)
  }

  /** The record names the jspm CLI and its install command; without a
    * `packages` or `baseURL` entry the packages land in `cwd/jspm_packages`. */
  lemma RecordFields(env: Env, pkg: PackageJson, present: set<Path>, versionOutput: string,
                     installOptions: string, cacheDirectory: string, forceRefresh: bool)
    ensures var c := Record(env.cwd, pkg, present, versionOutput, installOptions, cacheDirectory, forceRefresh);
      && c.cliName == "jspm"
      && c.cliVersion == JspmVersion(versionOutput)
      && '\n' !in c.cliVersion
      && c.installCommand == "jspm install"
      && CacheDependencyManager.InstallLine(c) == Trim("jspm install" + " " + installOptions)
      && CacheDependencyManager.ConfigFile(c, env) == Resolve(env.cwd, ConfigFile(pkg, env.cwd, present))
      && (PackagesField(pkg).None? && BaseUrlField(pkg).None? ==>
            CacheDependencyManager.InstalledDirectory(c, env) == env.cwd + [DefaultPackages])
  {
    assert IsSegment(DefaultPackages);
  }

  /** Without a `jspm` section the config path is the sentinel, which names
    * no file, so loading does nothing and reports success. */
  lemma NoSectionSkips(env: Env, pkg: PackageJson, s: State, versionOutput: string,
                       installOptions: string, cacheDirectory: string, forceRefresh: bool)
    requires pkg.jspm.None?
    requires Resolve(env.cwd, MissingConfig) !in s.files
    ensures var c := Record(env.cwd, pkg, s.files.Keys, versionOutput, installOptions, cacheDirectory, forceRefresh);
      CacheDependencyManager.LoadSpec(c, env, s) == CacheDependencyManager.Step(None, s)
  {
    var c := Record(env.cwd, pkg, s.files.Keys, versionOutput, installOptions, cacheDirectory, forceRefresh);
    assert CacheDependencyManager.ConfigFile(c, env) == Resolve(env.cwd, MissingConfig);
    CacheDependencyManager.ConfigAbsentSkips(c, env, s);
  }
}

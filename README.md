# npm-cache: the dependency-cache engine, modelled in Dafny

npm-cache speeds up installs by caching what a package manager (npm, bower,
jspm, composer, …) installs. It hashes the manager's config file
(`package.json`, `bower.json`, `composer.json`, …) and keeps a tarball of
the installed directory per hash. On a cache hit it restores the tarball.
On a miss it runs the manager's install command and archives the result.

The model covers six parts:

- **The current "load dependencies" procedure** (`CacheDependencyManager`).
  It checks for the config file, then the CLI, then the cache entry
  `cacheDirectory/cliName/cliVersion/<hash>.tar.gz`. It then either extracts
  the entry or installs and archives, with a `forceRefresh` override and
  early returns on every error.
- **The earlier procedure of the base class** (`BaseCacheDependencyManager`),
  where a cache hit needs no CLI and a failed install is still archived.
  The module `Comparison` sets the two procedures side by side.
- **The discovery of available managers** (`AvailableManagers`). It applies
  the regular expression `/(\S+)Config\.js/` to the directory listing and
  memoises the result.
- **The command-line splitting** (`ParseUtils`): npm-cache's own arguments,
  and per-manager argument strings.
- **The per-manager rules for jspm, composer and bower**: install
  directory, config file, version string and hashed fields.
- **The environment** (`Environment`, `Paths`, `Text`). The file system is
  a map from paths (lists of segments) to contents. A tarball is the tree it
  was made from. Shell commands have exit codes given as inputs, and md5 is
  a parameter. Every command the engine hands to the shell is recorded in
  a command log. That includes the `<cli> --version` query behind
  `getCliVersion`. Every logged error line goes to an error list. The class `Environment.Host` holds
  this state. The engine's methods run on it and are proved equal to
  specification functions (`LoadSpec`, `ArchiveSpec`, …). The lemmas state
  the engine's promises about those functions.

Two facts about the program shape the model:

- `loadDependencies` tars straight to the cache path, with no temporary
  file.
- The current procedure checks for the CLI before the cache lookup.

The `*Spec` functions (`InstallSpec`, `ArchiveSpec`, `ExtractSpec` and
`LoadSpec` in both procedures) are the reference that each method row
below is proved equal to. They carry no contract of their own.

Several definitions only compute and have no row. The rows of the lemmas
about them state what they do:

- The `Record` functions of bower, composer and jspm: the `RecordFields`
  row of each.
- `CacheDependencyManager.ConfigHash` (`getFileHash`):
  `SameConfigSameEntry` and `SecondRunHits`.
- The two `CachePath` functions: the `CachePathLayout` rows.
- `ComposerConfig.FileHash`: `HashedIff` and `SameFieldsSameHash`.
- `AvailableManagers.ManagerName` (`managerRegex.exec`): `MatchesIff`,
  `NameOfConfigFile` and the `ManagersKeys` rows.

## Model

| member | source | states |
|---|---|---|
| Text.Trim | cacheDependencyManagers/cacheDependencyManager.js:37 | the result neither starts nor ends with white space and is what is left of the input after dropping white space at both ends only |
| Text.TrimIdempotent | cacheDependencyManagers/cacheDependencyManager.js:37 | trimming twice is trimming once |
| Text.TrimUntouched | cacheDependencyManagers/cacheDependencyManager.js:37 | a string without white space at its ends is left unchanged |
| Text.FirstLine | cacheDependencyManagers/jspmConfig.js:96 | `split('\n')[0]` is a prefix without a line feed, ending right before the first line feed |
| Text.FirstLineOf | cacheDependencyManagers/jspmConfig.js:96 | the first line of `a + "\n" + b` is `a` when `a` has no line feed |
| Text.Token | cacheDependencyManagers/composerConfig.js:36 | the greedy `\S+` run is a white-space-free prefix that stops at white space or the end |
| Text.TokenOf | cacheDependencyManagers/composerConfig.js:36 | a white-space-free `t` followed by white space or nothing is read back as exactly `t` |
| Paths.Resolve | cacheDependencyManagers/cacheDependencyManager.js:21-23 | an argument starting with '/' restarts at the root with its own segments, any other argument appends its segments, so a single segment is appended and an empty argument changes nothing; normalised paths stay normalised |
| Paths.SplitPathJoin | cacheDependencyManagers/cacheDependencyManager.js:21-23 | the segments of `a/b` are those of `a` followed by those of `b` |
| Paths.ResolveAppend | cacheDependencyManagers/cacheDependencyManager.js:121-122 | resolving `a/b` for a non-empty `a` is resolving `a` and then appending the segments of `b` |
| Paths.ResolveJoin | cacheDependencyManagers/jspmConfig.js:50-52 | resolving `path.join(base, name)` for a non-empty `base` and a single segment `name` puts `name` right below where `base` resolves |
| Paths.RenderRoundTrip | cacheDependencyManagers/cacheDependencyManager.js:58 | the printed absolute path splits back into the same segments, so distinct paths print differently |
| Paths.Join | cacheDependencyManagers/cacheDependencyManager.js:181 | with an empty first part the result is the second part; otherwise the result starts with the first part and ends with the second, with one `/` between them exactly when the first part does not end in `/` |
| Paths.Subtree | cacheDependencyManagers/cacheDependencyManager.js:58 | the tree taken by `tar -C d .` holds exactly the files strictly below `d`, keyed relative to `d`, with their contents |
| Paths.Rebase | cacheDependencyManagers/cacheDependencyManager.js:83 | a relative tree unpacked below `d` puts each entry `k` at `d + k` and nowhere else |
| Paths.Without | cacheDependencyManagers/cacheDependencyManager.js:72 | after `rm -rf d` no file strictly below `d` is left, and every other file is kept with its contents |
| Paths.SubtreeOfReplaced | cacheDependencyManagers/cacheDependencyManager.js:72-83 | unpacking a tree below an emptied `d` and reading `d` back gives that tree |
| Paths.SubtreeOfRebase | cacheDependencyManagers/cacheDependencyManager.js:83 | reading back a tree unpacked below `d` gives the tree |
| Paths.SubtreeOfOverlay | cacheDependencyManagers/baseCacheDependencyManager.js:54 | unpacking over existing files makes `d`'s tree the old tree overwritten by the archive |
| Paths.SubtreeOfUpdate | cacheDependencyManagers/cacheDependencyManager.js:58 | writing the archive outside `d` leaves `d`'s tree unchanged |
| Paths.RebaseTwice | cacheDependencyManagers/baseCacheDependencyManager.js:48-54 | unpacking below `b` and then below `a` is unpacking below `a + b` |
| Environment.Perform | cacheDependencyManagers/cacheDependencyManager.js:39 | each command handed to the shell is appended to the command log and writes no error line |
| Environment.Logged | cacheDependencyManagers/cacheDependencyManager.js:29-31 | `cacheLogError` adds one `[name] ` prefixed line and touches neither files nor commands |
| Environment.UnpackedStored | cacheDependencyManagers/cacheDependencyManager.js:83 | untar of an archive just written gives back its tree |
| Environment.Host.Run | cacheDependencyManagers/cacheDependencyManager.js:39 | `shell.exec` returns the command's exit status, applies its effect and logs it, leaving the error lines alone |
| Environment.Host.LogError | cacheDependencyManagers/cacheDependencyManager.js:29-31 | the host's state becomes the state with one more prefixed error line |
| CacheDependencyManager.Manager.InstallDependencies | cacheDependencyManagers/cacheDependencyManager.js:34-46 | the method's error and new host state are those of `InstallSpec` |
| CacheDependencyManager.Manager.ArchiveDependencies | cacheDependencyManagers/cacheDependencyManager.js:49-66 | the method's error and new host state are those of `ArchiveSpec` |
| CacheDependencyManager.Manager.ExtractDependencies | cacheDependencyManagers/cacheDependencyManager.js:68-92 | the method's error and new host state are those of `ExtractSpec` |
| CacheDependencyManager.Manager.LoadDependencies | cacheDependencyManagers/cacheDependencyManager.js:95-157 | the value passed to the callback and the new host state are those of `LoadSpec` |
| CacheDependencyManager.ConfigAbsentSkips | cacheDependencyManagers/cacheDependencyManager.js:100-104 | without the config file the callback gets `null` and the state is unchanged: no CLI check, install, archive or extract |
| CacheDependencyManager.CliMissingFails | cacheDependencyManagers/cacheDependencyManager.js:108-113 | with the config file present and the CLI absent, the error is `Command line tool <cli> not installed` and no shell command runs, whether or not a cache entry exists |
| CacheDependencyManager.SameConfigSameEntry | cacheDependencyManagers/cacheDependencyManager.js:14-17 | two states with the same config file bytes give the same hash and so the same cache entry |
| CacheDependencyManager.SecondRunHits | cacheDependencyManagers/cacheDependencyManager.js:121-138 | after a successful first run on a miss, the config is unchanged, the entry for its hash exists, and a second run is the version query followed by extracting that entry |
| CacheDependencyManager.SecondRunRestores | cacheDependencyManagers/cacheDependencyManager.js:72-83 | when the extract commands also succeed, the second run reports no error and leaves the install directory holding exactly what it held after the first run |
| CacheDependencyManager.CachePathLayout | cacheDependencyManagers/cacheDependencyManager.js:121-122 | the cache directory is `cacheDirectory/cliName/cliVersion` and the entry is `<hash>.tar.gz` inside it |
| CacheDependencyManager.CachePathsDistinct | cacheDependencyManagers/cacheDependencyManager.js:121-122 | equal cache paths imply equal CLI name, CLI version and hash, so different CLIs or versions never share an entry |
| CacheDependencyManager.EmptyVersionAddsNoSegment | cacheDependencyManagers/cacheDependencyManager.js:121 | an empty CLI version adds no directory level |
| CacheDependencyManager.InstallLog | cacheDependencyManagers/cacheDependencyManager.js:36-39 | the install runs exactly one command, the trimmed `installCommand + ' ' + installOptions` |
| CacheDependencyManager.ArchiveLog | cacheDependencyManagers/cacheDependencyManager.js:55-61 | archiving runs `mkdir -p` of the cache directory, then tar, then `rm` of the cache path only when tar fails |
| CacheDependencyManager.ExtractLog | cacheDependencyManagers/cacheDependencyManager.js:72-83 | extraction runs `rm -rf`, then `mkdir -p` and untar only when the removal succeeded |
| CacheDependencyManager.VersionQueried | cacheDependencyManagers/cacheDependencyManager.js:121 | `getCliVersion()` runs `<cli> --version`, which is logged and changes no file and no error line |
| CacheDependencyManager.LoadOnHit | cacheDependencyManagers/cacheDependencyManager.js:118-129 | with the CLI present, no forced refresh and an existing entry, loading is the version query followed by extracting that entry |
| CacheDependencyManager.LoadOnMiss | cacheDependencyManagers/cacheDependencyManager.js:118-146 | on a miss or forced refresh, loading is the version query, then installing and, only if the install succeeded, archiving into the cache entry |
| CacheDependencyManager.CacheHitOnlyExtracts | cacheDependencyManagers/cacheDependencyManager.js:121-133 | a hit runs the version query and then only the extract commands on the install directory and the cache entry |
| CacheDependencyManager.CacheHitRunsNoInstall | cacheDependencyManagers/cacheDependencyManager.js:125-136 | on a hit the install command is never executed |
| CacheDependencyManager.ForceRefreshInstalls | cacheDependencyManagers/cacheDependencyManager.js:121-139 | with `forceRefresh` the version query is followed directly by the install, even when the entry exists |
| CacheDependencyManager.InstallFailureStops | cacheDependencyManagers/cacheDependencyManager.js:121-143 | a failing install yields `error running <installCommand>`, without the options; the log holds only the version query and the install, so nothing is archived |
| CacheDependencyManager.ArchiveStores | cacheDependencyManagers/cacheDependencyManager.js:58 | a successful tar stores exactly the install directory's contents, relative to it, at the cache path and reports no error |
| CacheDependencyManager.ArchiveFailureLeavesNoFile | cacheDependencyManagers/cacheDependencyManager.js:58-61 | a failing tar is reported and leaves no file at the cache path, even a partial one |
| CacheDependencyManager.ExtractStopsWhenRemoveFails | cacheDependencyManagers/cacheDependencyManager.js:72-76 | when `rm -rf` fails the error is returned and no untar is attempted |
| CacheDependencyManager.ExtractReplacesContents | cacheDependencyManagers/cacheDependencyManager.js:72-83 | after a successful removal and untar the install directory holds exactly the archive's tree |
| CacheDependencyManager.ArchiveExtractRoundTrip | cacheDependencyManagers/cacheDependencyManager.js:58-83 | archiving the install directory and then extracting the archive restores the directory's contents exactly |
| AvailableManagers.MatchFrom | cacheDependencyManagers/cacheDependencyManager.js:175-178 | a capture is non-empty, free of white space and followed by `Config.js` in the file name |
| AvailableManagers.NameOfConfigFile | cacheDependencyManagers/cacheDependencyManager.js:175-180 | a file `N + "Config.js"`, with `N` non-empty and free of white space, yields the manager name `N` |
| AvailableManagers.MatchesIff | cacheDependencyManagers/cacheDependencyManager.js:175-179 | a file name matches if and only if `Config.js` occurs in it right after a non-white-space character |
| AvailableManagers.ManagersKeys | cacheDependencyManagers/cacheDependencyManager.js:176-184 | the keys are exactly the captured names of the matching files |
| AvailableManagers.ManagersValue | cacheDependencyManagers/cacheDependencyManager.js:181 | each name maps to the joined path of the last file in the listing with that name |
| AvailableManagers.ConfigFileEntry | cacheDependencyManagers/cacheDependencyManager.js:176-184 | an unshadowed `N + "Config.js"` gives the entry `N -> path.join(dirname, file)` |
| AvailableManagers.NonMatchingAddsNothing | cacheDependencyManagers/cacheDependencyManager.js:179 | a file that does not match adds no entry |
| AvailableManagers.Registry.constructor | cacheDependencyManagers/cacheDependencyManager.js:172 | the static map starts out undefined |
| AvailableManagers.Registry.GetAvailableManagers | cacheDependencyManagers/cacheDependencyManager.js:171-187 | the first call computes the map from the listing and keeps it; later calls return the kept map unchanged |
| AvailableManagers.TwoCalls | cacheDependencyManagers/cacheDependencyManager.js:171-187 | two calls return the same map, built from the first listing, whatever the second listing is |
| ParseUtils.Slice | util/parseUtils.js:21 | `argv.slice(n)` is empty when the list has at most `n` arguments; otherwise it has `n` fewer, and its `i`-th element is argument `n + i` |
| ParseUtils.InNames | util/parseUtils.js:24 | the names JavaScript's `in` accepts include every manager and also inherited names such as `toString` and `constructor` |
| ParseUtils.OwnNames | util/parseUtils.js:24 | the intended test accepts a name if and only if it is an available manager |
| ParseUtils.LeadingArgs | util/parseUtils.js:21-30 | the result is a prefix of the arguments without a manager name, followed by a manager name or the end |
| ParseUtils.CacheArgsUnique | util/parseUtils.js:21-30 | exactly one prefix has that property: the longest one without a manager name |
| ParseUtils.NpmCacheArgs | util/parseUtils.js:16-31 | the loop with `break` returns that longest prefix of `argv[2..]` |
| ParseUtils.CacheArgsExample | util/parseUtils.js:11-12 | `--forceRefresh --cacheDirectory /tmp bower --allow-root` gives `[--forceRefresh, --cacheDirectory, /tmp]` |
| ParseUtils.OwnNamesCutAtManager | util/parseUtils.js:22-29 | with the intended test, the npm-cache arguments stop exactly at the first available manager |
| ParseUtils.PrototypeNameCutsArgs | util/parseUtils.js:24 | as written, a cache directory named `constructor` ends the npm-cache arguments early; with the intended test it is kept |
| ParseUtils.Group | util/parseUtils.js:51-61 | after any prefix of the arguments, the current manager, when there is one, has a string |
| ParseUtils.LastIndex | util/parseUtils.js:54-58 | the last occurrence is an index of the list, or -1 |
| ParseUtils.GroupKeys | util/parseUtils.js:54-56 | the keys are exactly the manager names that occur in the arguments |
| ParseUtils.GroupCurrent | util/parseUtils.js:54-57 | `currManager` is the last manager name read, with no manager name after its last occurrence, and is `null` only when no name occurred |
| ParseUtils.GroupValues | util/parseUtils.js:54-58 | each manager's string is the arguments after its last occurrence up to the next manager name, each followed by a space, so a repeated name restarts its string and values never leak between managers |
| ParseUtils.GroupDiscardsPrefix | util/parseUtils.js:57 | arguments before the first manager name are discarded |
| ParseUtils.ManagerArgs | util/parseUtils.js:44-75 | the two loops return the grouping, or the defaults when no manager is named |
| ParseUtils.NamedManagersOnly | util/parseUtils.js:54-56 | once a manager is named, the keys are exactly the named managers |
| ParseUtils.DefaultsWhenNoneNamed | util/parseUtils.js:64-72 | with no manager named, the keys are exactly the default managers, each with `''` |
| ParseUtils.ManagerArgsExample | util/parseUtils.js:39-40 | `install bower --allow-root --save npm --save` gives the keys bower and npm with strings `--allow-root --save ` and `--save ` |
| ParseUtils.GroupExample | util/parseUtils.js:39-40 | the same example on the arguments after `install` |
| ParseUtils.ExampleStrings | util/parseUtils.js:58 | the example's strings keep the trailing space that the comment omits |
| BaseCacheDependencyManager.BaseManager.InstallDependencies | cacheDependencyManagers/bowerCacheDependencyManager.js:40-47 | the subclass install step changes the host as `InstallSpec` says |
| BaseCacheDependencyManager.BaseManager.ArchiveDependencies | cacheDependencyManagers/baseCacheDependencyManager.js:45-50 | the method changes the host as `ArchiveSpec` says |
| BaseCacheDependencyManager.BaseManager.ExtractDependencies | cacheDependencyManagers/baseCacheDependencyManager.js:52-56 | the method changes the host as `ExtractSpec` says |
| BaseCacheDependencyManager.BaseManager.LoadDependencies | cacheDependencyManagers/baseCacheDependencyManager.js:58-88 | the method changes the host as `LoadSpec` says |
| BaseCacheDependencyManager.ConfigAbsentSkips | cacheDependencyManagers/baseCacheDependencyManager.js:62-65 | without the config file nothing happens: no hash, extract, install or archive |
| BaseCacheDependencyManager.CachePathLayout | cacheDependencyManagers/baseCacheDependencyManager.js:72 | the entry is `<hash>.tar.gz` directly in the cache directory, with no CLI name or version level |
| BaseCacheDependencyManager.HitNeedsNoCli | cacheDependencyManagers/baseCacheDependencyManager.js:75-78 | a hit runs exactly `tar -zxf` of the entry, whether or not the CLI is installed, and logs no error |
| BaseCacheDependencyManager.MissWithoutCli | cacheDependencyManagers/baseCacheDependencyManager.js:80-83 | a miss without the CLI logs `Command line tool <cli> not installed` and runs nothing |
| BaseCacheDependencyManager.MissInstallsThenArchives | cacheDependencyManagers/baseCacheDependencyManager.js:84-85 | a miss with the CLI runs the install and then tar, even when the install fails, which only adds an error line |
| BaseCacheDependencyManager.ArchivedFiles | cacheDependencyManagers/baseCacheDependencyManager.js:48 | the archive stores the install directory's files under the directory's own name |
| BaseCacheDependencyManager.ExtractedFiles | cacheDependencyManagers/baseCacheDependencyManager.js:54 | extraction unpacks the archive relative to the working directory over the existing files |
| BaseCacheDependencyManager.ArchiveExtractRoundTrip | cacheDependencyManagers/baseCacheDependencyManager.js:48-54 | for a relative install directory, archiving then extracting restores the directory's contents |
| BaseCacheDependencyManager.ExtractKeepsFiles | cacheDependencyManagers/baseCacheDependencyManager.js:54 | extraction removes no file |
| Comparison.Counterpart | cacheDependencyManagers/baseCacheDependencyManager.js:17-31 | the base profile of a manager installs into the same directory and reads the same config file |
| Comparison.CachePathsDiffer | cacheDependencyManagers/baseCacheDependencyManager.js:72 | the two layouts never share an entry: the current one is two levels deeper |
| Comparison.HitWithoutCli | cacheDependencyManagers/baseCacheDependencyManager.js:75-78 | without the CLI, the earlier procedure extracts an existing entry while the current one fails and runs nothing |
| Comparison.InstallFailureDiverges | cacheDependencyManagers/baseCacheDependencyManager.js:84-85 | after a failed install the earlier procedure still archives, while the current one stops after the version query and the install and reports the error |
| Comparison.FailedTarLeftovers | cacheDependencyManagers/baseCacheDependencyManager.js:48 | a failed tar's partial file stays at the earlier procedure's cache path but is removed by the current one |
| Comparison.ExtractReplacesOrOverlays | cacheDependencyManagers/baseCacheDependencyManager.js:54 | a file in the install directory that the archive lacks is gone after the current extraction and survives the earlier one |
| BowerConfig.InstallDirectory | cacheDependencyManagers/bowerConfig.js:7-19 | the directory is `bower_components` without `.bowerrc` or without a truthy `directory`, and that `directory` otherwise |
| BowerConfig.RecordFields | cacheDependencyManagers/bowerConfig.js:22-27 | the record names the CLI `bower`, the install command `bower install` (so the install line is `bower install` plus the options, trimmed), the config file `cwd/bower.json` and the install directory given by `.bowerrc` |
| BowerCacheDependencyManager.BowerProfile | cacheDependencyManagers/bowerCacheDependencyManager.js:14-38 | name and CLI are both `bower`, the config path is `cwd/bower.json`, and the install directory follows the `.bowerrc` rule |
| BowerCacheDependencyManager.FailedInstallStillArchives | cacheDependencyManagers/bowerCacheDependencyManager.js:40-47 | a failing `bower install` only logs `error running bower install`; the base procedure then still archives |
| JspmConfig.JoinEndsWith | cacheDependencyManagers/jspmConfig.js:51 | `path.join(base, name)` ends with `name` |
| JspmConfig.InstallDirectory | cacheDependencyManagers/jspmConfig.js:40-57 | `directories.packages` wins when truthy, otherwise the result ends with `jspm_packages`, and it is `jspm_packages` without either field |
| JspmConfig.BaseUrlInstallDirectory | cacheDependencyManagers/jspmConfig.js:40-57 | with a truthy `baseURL` and no `packages`, the install directory resolves to `jspm_packages` right below where `baseURL` resolves |
| JspmConfig.CandidatesEndAlike | cacheDependencyManagers/jspmConfig.js:82-85 | both candidate config files end with `config.js` |
| JspmConfig.ConfigFile | cacheDependencyManagers/jspmConfig.js:62-89 | the sentinel without a `jspm` section, `configFile` when truthy, and otherwise the 0.17 file under `baseURL` when it exists and the 0.16 file otherwise |
| JspmConfig.JspmVersion | cacheDependencyManagers/jspmConfig.js:94-98 | the version is one line: the trimmed first line when that line is not empty, and `UnknownVersion` when it is (in particular for empty output) |
| JspmConfig.LeadingLineFeedUnknown | cacheDependencyManagers/jspmConfig.js:96 | output that starts with a line feed, such as `"\n0.16.0"`, gives `UnknownVersion` |
| JspmConfig.VersionOfLine | cacheDependencyManagers/jspmConfig.js:94-98 | a first line without surrounding white space is the version |
| JspmConfig.BlankFirstLine | cacheDependencyManagers/jspmConfig.js:96-97 | a first line of white space only is kept by `\|\|` and trimmed to the empty version |
| JspmConfig.ConfigurationHash | cacheDependencyManagers/jspmConfig.js:103-108 | the file read is the config file chosen at module load (line 10); a hash exists exactly when that file can be read, and it is the digest of the whole `jspm` section with the file's bytes |
| JspmConfig.HashInputs | cacheDependencyManagers/jspmConfig.js:103-108 | the hash depends only on the whole `jspm` section and the contents of the load-time config file |
| JspmConfig.HashInputIff | cacheDependencyManagers/jspmConfig.js:104-105 | with the same config bytes, two sections give the same digested input if and only if they agree on `configFile`, on every other member of the section, on whether `directories` is present, and, inside `directories`, on `baseURL`, `packages` and every other member |
| JspmConfig.DependencyChangesInput | cacheDependencyManagers/jspmConfig.js:104-105 | sections that differ only in a `dependencies` entry (`npm:x@1` against `npm:x@2`) digest different inputs |
| JspmConfig.DirectoryMemberChangesInput | cacheDependencyManagers/jspmConfig.js:104-105 | sections that differ only in `directories.lib` (`src` against `app`), a member no rule reads, digest different inputs; both sections hold each member once |
| JspmConfig.HashReadsRecordConfig | cacheDependencyManagers/jspmConfig.js:106 | the hash reads the record's `configPath` (line 113), fixed at load (line 10), whatever files were created since |
| JspmConfig.RecordFields | cacheDependencyManagers/jspmConfig.js:110-118 | the record names the CLI `jspm`, the one-line version `getJspmVersion` reads, the install command `jspm install` (so the install line is `jspm install` plus the options, trimmed) and the config file `getConfigFile` chooses; without `packages` or `baseURL` the install directory is `cwd/jspm_packages` |
| JspmConfig.NoSectionSkips | cacheDependencyManagers/jspmConfig.js:65-68 | without a `jspm` section the sentinel config path names no file, so loading reports success and changes nothing |
| ComposerConfig.InstallDirectory | cacheDependencyManagers/composerConfig.js:13-28 | `vendor` without composer.json; otherwise the `vendor-dir` value whenever the key is present, even when empty |
| ComposerConfig.CliVersion | cacheDependencyManagers/composerConfig.js:31-44 | the version is `UnknownComposer` or a non-empty, white-space-free token that follows `Composer version ` at the start of the output |
| ComposerConfig.VersionOf | cacheDependencyManagers/composerConfig.js:36-39 | the token after the prefix, up to white space or the end, is the version |
| ComposerConfig.VersionExample | cacheDependencyManagers/composerConfig.js:35 | `Composer version 1.0.0-alpha9 2014-12-07 17:15:20` gives `1.0.0-alpha9` |
| ComposerConfig.UnknownWithoutMatch | cacheDependencyManagers/composerConfig.js:32-42 | output without the prefix, or without a token after it, gives `UnknownComposer` |
| ComposerConfig.HashedIff | cacheDependencyManagers/composerConfig.js:46-52 | two files give the same hashed object if and only if they agree on `packages` and `packages-dev` |
| ComposerConfig.SameFieldsSameHash | cacheDependencyManagers/composerConfig.js:46-52 | files that agree on those two fields hash the same |
| ComposerConfig.RecordFields | cacheDependencyManagers/composerConfig.js:54-61 | the record names the CLI `composer`, the version `getCliVersion` reads, the install command `composer install` (so the install line is `composer install` plus the options, trimmed), the config file `cwd/composer.json` and the install directory composer.json gives |

## Left out

- Directories are not entries of the file system. `mkdir -p` therefore changes no file, and an empty directory is not represented.
- `..` segments are not normalised by `path.resolve`, and `path.join` does no normalisation. Paths are lists of segments.
- tar is modelled as the identity on trees. Compression, file modes and links are not modelled.
- A failing `rm -rf` or untar is modelled as changing nothing. A failing tar leaves at most one partial file. Other partial effects are not modelled.
- Informational log lines (`cacheLogInfo`, `console.log`) and the timestamps of `util/logger.js` are not modelled. Error lines are kept with their `[name] ` prefix.
- md5 is a function parameter. `JSON.stringify` of the hashed objects is folded into the digest parameter.
- JSON files are given already parsed. Parse failures are not modelled. For the fields the rules read, only string values are modelled. Non-string values and a falsy non-object `jspm` section are not modelled. The other members of the `jspm` section and of its `directories` object are kept as parsed JSON, because the jspm hash digests the whole section. `JspmConfig.Canonical` says that a member the rules read is never also among those others.
- JSON objects are maps, and JSON numbers are integers. The member order that `JSON.parse` keeps and `JSON.stringify` writes out is lost, and so are non-integer numbers.
- ComposerConfig.SameFieldsSameHash: does not hold for files whose hashed fields hold the same members in a different order, or that differ only in non-integer numbers. `JSON.stringify` tells those apart, but the model's JSON values cannot.
- ComposerConfig.HashedIff: "agree on the two fields" means equal up to member order and up to the digits of non-integer numbers, for the same reason.
- JspmConfig.HashInputs: equal `jspm` sections are equal up to member order and non-integer numbers. Two sections that differ only in those digest the same input in the model, while `JSON.stringify` tells them apart.
- `index.js`, the constant npm, yarn and composer manager records, `customConfig.js`, `util/md5.js` and the `cacheManagers/` stubs are not part of this model.
- The composer test that expects `composer.lock` to be preferred is not modelled. The code always reads `composer.json`.
- composerConfig.js:48: `md5` is used there without being imported. The model gives `getFileHash` a digest parameter.
- `getCliVersion` does not exist for npm and bower. The CLI version is an input of the bower record. With the bower record, `getCliVersion()` at cacheDependencyManager.js:121 would throw a TypeError. The `bower --version` query that the model logs there comes from the model, not from the program.
- `getFileHash` and `addToArchiveAndRestore` of the profiles are not used by `loadDependencies`, which hashes the raw bytes of the config file. The model does the same.
- `getAvailableDefaultManagers` is not part of this model. Its keys are a parameter of `ParseUtils.ManagerArgs`.
- ParseUtils.ManagerArgs: the name test is a set parameter. `InNames` and `OwnNames` are the two instances. The special behaviour of a `__proto__` argument under JavaScript's `in` is not modelled: assigning to `managers['__proto__']` does not create a key.
- The JavaScript key order of the result objects is not modelled. They are maps.
- The placeholder getters of the base class are not modelled, since a subclass always overrides them. These are `getName`, `getCliName`, `getConfigPath`, `getInstalledDirectory` and `installDependencies`.
- The callback of the current `loadDependencies` is its returned value, and the base procedure returns nothing.
- The process working directory and the PATH lookup are inputs (`Env.cwd`, `Env.onPath`).
- Exit codes are inputs, given per command line.
- Environment.Host.Run: each path in a command line is taken as one shell word. The source builds its `tar` and `rm -rf` lines by unquoted concatenation (cacheDependencyManager.js:58, :72 and :83, baseCacheDependencyManager.js:48 and :54). So a path with a space or a shell metacharacter in a segment would be split or reinterpreted by the shell and act on other files. The model's `Effect` does not capture this, and the load lemmas hold only for paths without such characters.
- The installer's effect is an input (`Env.installed`). It replaces the contents of the install directory whatever its exit code.
- Write-to-temporary-then-rename archiving, symlink and no-archive modes, and concurrent runs are not in this code, so they are not modelled.

## Findings

| source | as written | input that shows it | evidently intended | confidence | as-written member | corrected member |
|---|---|---|---|---|---|---|
| util/parseUtils.js:24 | `currArgument in availableManagers` also holds for names inherited from `Object.prototype` | `npm-cache --cacheDirectory constructor install`: the npm-cache arguments stop before `constructor` | only managers found on disk end the npm-cache arguments | not executed | ParseUtils.PrototypeNameCutsArgs | ParseUtils.OwnNamesCutAtManager |

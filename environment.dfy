/**
 * The world the cache engine acts on: a file system of regular files, the
 * shell (which tools are on PATH, the exit status of each command line, and
 * what each command does to the files), the md5 digest, and the logger.
 * Every command the engine hands to the shell (`shell.exec`, `shell.mkdir`,
 * `shell.rm`), including the CLI's `--version` query, is recorded in a log
 * so that properties can say which commands ran and in what order.
 */
module Environment {
  import opened Wrappers
  import opened Paths

  /** File contents. tar is modelled as identity: an archive holds the
    * relative tree it was made from. */
  datatype Content = Blob(bytes: seq<bv8>) | Tarball(entries: map<Path, Content>)

  type Files = map<Path, Content>

  /** What `tar -x` finds in the archive at `a`: nothing when the file is
    * missing or is not an archive. */
  function Unpacked(files: Files, a: Path): Files
  {
    if a in files && files[a].Tarball? then files[a].entries else map[]
  }

  /** Reading back an archive just written gives its tree. */
  lemma UnpackedStored(files: Files, a: Path, t: Files)
    ensures Unpacked(files[a := Tarball(t)], a) == t
  {
  }

  /** The commands the engine issues. `Install` carries the directory the
    * installer fills, which is not part of its command line. */
  datatype Command =
    | Install(line: string, target: Path)
    | MakeDirectory(dir: Path)
    | ArchiveDirectory(archive: Path, dir: Path)
    | RemoveTree(dir: Path)
    | ExtractInto(archive: Path, dir: Path)
    | RemoveFile(file: Path)
    | ArchiveNamed(archive: Path, name: string)
    | ExtractHere(archive: Path)
    | QueryVersion(cli: string)

  /** The command line passed to the shell. */
  function Line(cmd: Command): string {
    match cmd
    case Install(line, _) => line
    case MakeDirectory(dir) => "mkdir -p " + Render(dir)
    case ArchiveDirectory(a, dir) => "tar -zcf " + Render(a) + " -C " + Render(dir) + " ."
    case RemoveTree(dir) => "rm -rf " + Render(dir)
    case ExtractInto(a, dir) => "tar -zxf " + Render(a) + " -C " + Render(dir)
    case RemoveFile(f) => "rm " + Render(f)
    case ArchiveNamed(a, name) => "tar -zcf " + Render(a) + " " + name
    case ExtractHere(a) => "tar -zxf " + Render(a)
    case QueryVersion(cli) => cli + " --version"
  }

  /** The parts of the environment that are inputs to one run. */
  datatype Env = Env(
    cwd: Path,                       // process.cwd()
    onPath: set<string>,             // the names shell.which finds
    exitCode: string -> int,         // exit status of each command line
    installed: Files,                // what the installer leaves in its target directory
    partial: Option<Content>,        // what a failing `tar -zcf` leaves at its target, if anything
    md5: Content -> string)          // the digest of a file's contents

  /** Exit status the shell reports for `cmd`. */
  function ExitCode(env: Env, cmd: Command): int {
    env.exitCode(Line(cmd))
  }

  /** What running `cmd` with exit status `code` does to the files. The
    * installer's effect does not depend on its status; tar writes its
    * archive only on success and may leave a partial file otherwise. */
  function Effect(env: Env, files: Files, cmd: Command, code: int): Files {
    match cmd
    case Install(_, dir) => Without(files, dir) + Rebase(env.installed, dir)
    case MakeDirectory(_) => files
    case ArchiveDirectory(a, dir) =>
      if code == 0 then files[a := Tarball(Subtree(files, dir))]
      else if env.partial.Some? then files[a := env.partial.value] else files
    case RemoveTree(dir) =>
      if code == 0 then Without(files, dir) - {dir} else files
    case ExtractInto(a, dir) =>
      if code == 0 then files + Rebase(Unpacked(files, a), dir) else files
    case RemoveFile(f) => files - {f}
    case ArchiveNamed(a, name) =>
      // tar stores the entries under the name as given, without a leading '/'
      if code == 0 then files[a := Tarball(Rebase(Subtree(files, Resolve(env.cwd, name)), SplitPath(name)))]
      else if env.partial.Some? then files[a := env.partial.value] else files
    case ExtractHere(a) =>
      if code == 0 then files + Rebase(Unpacked(files, a), env.cwd) else files
    case QueryVersion(_) => files
  }

  /** Files, the commands run so far, and the lines written by logError. */
  datatype State = State(files: Files, log: seq<Command>, errors: seq<string>)

  /** The state after running `cmd`. */
  function Perform(env: Env, s: State, cmd: Command): (t: State)
    ensures t.log == s.log + [cmd] && t.errors == s.errors
  {
    State(Effect(env, s.files, cmd, ExitCode(env, cmd)), s.log + [cmd], s.errors)
  }

  /** A log line with the `[name] ` prefix. */
  function Prefixed(name: string, message: string): string {
    "[" + name + "] " + message
  }

  /** The state after the logger printed an error line. */
  function Logged(s: State, name: string, message: string): (t: State)
    ensures t.files == s.files && t.log == s.log
    ensures t.errors == s.errors + [Prefixed(name, message)]
  {
    s.(errors := s.errors + [Prefixed(name, message)])
  }

  /** `cmd` is an install command. */
  predicate IsInstall(cmd: Command) {
    cmd.Install?
  }

  /** No command of `log` is an install. */
  predicate NoInstall(log: seq<Command>) {
    forall i :: 0 <= i < |log| ==> !IsInstall(log[i])
  }

  /** The host process: its files, the commands it ran, its error output. */
  class Host {
    var files: Files
    var log: seq<Command>
    var errors: seq<string>
    const env: Env

    constructor (env: Env, files: Files)
      ensures this.env == env && this.files == files
      ensures log == [] && errors == []
    {
      this.env := env;
      this.files := files;
      log := [];
      errors := [];
    }

    function Snapshot(): State
      reads this
    {
      State(files, log, errors)
    }

    /** `fs.existsSync(p)`. */
    function Exists(p: Path): bool
      reads this
    {
      p in files
    }

    /** `shell.which(name)`. */
    function Which(name: string): bool {
      name in env.onPath
    }

    /** Runs `cmd` and reports its exit status. */
    method Run(cmd: Command) returns (code: int)
      modifies this
      ensures code == ExitCode(env, cmd)
      ensures Snapshot() == Perform(env, old(Snapshot()), cmd)
    {
      code := ExitCode(env, cmd);
      files := Effect(env, files, cmd, code);
      log := log + [cmd];
    }

    /** `logger.logError('[' + name + '] ' + message)`. */
    method LogError(name: string, message: string)
      modifies this
      ensures Snapshot() == Logged(old(Snapshot()), name, message)
    {
      errors := errors + [Prefixed(name, message)];
    }
  }
}

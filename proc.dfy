/** The process-launching API of envoy: choosing where commands come from,
    collecting a command's environment files, preparing its environment, the
    `Environment` object that builds that environment at most once, and the
    argument checks and command lines of the launchers. Spawning and waiting
    are outside the model: a launch is described by the `Popen` call it makes,
    and a process's exit status is an input. Resolving the executable against
    `PATH` and the registry's `resolve_environment` are parameters. */
module Proc {
  import opened Base
  import opened Json
  import opened FileSystem
  import opened Commands
  import opened Discovery
  import opened Composition = Environment

  const GlobalEnv := "global_env.json"

  // ---------------------------------------------------------------------
  // _is_raw_path
  // ---------------------------------------------------------------------

  predicate IsWinSep(c: char)
  {
    c == '\\' || c == '/'
  }

  /** `Path(s).is_absolute()`: a leading `/` on POSIX; on Windows a drive
      followed by a separator, or a UNC prefix of two separators. */
  predicate IsAbsolute(s: string, isWindows: bool)
  {
    if isWindows then
      (|s| >= 3 && s[1] == ':' && IsWinSep(s[2])) || (|s| >= 2 && IsWinSep(s[0]) && IsWinSep(s[1]))
    else |s| > 0 && s[0] == '/'
  }

  /** `_is_raw_path`: the spec names an executable directly rather than a
      registered command. */
  predicate IsRawPath(s: string, isWindows: bool)
  {
    IsAbsolute(s, isWindows) || OsSep(isWindows) in s || '/' in s
  }

  /** Every absolute spec contains a separator, so a spec is raw exactly when
      it contains `/` or the OS separator; a plain name never is. */
  lemma RawPathBySeparators(s: string, isWindows: bool)
    ensures IsRawPath(s, isWindows) <==> OsSep(isWindows) in s || '/' in s
  {
    if IsAbsolute(s, isWindows) {
      if !isWindows {
        assert s[0] in s;
      } else if |s| >= 3 && s[1] == ':' && IsWinSep(s[2]) {
        assert s[2] in s;
      } else {
        assert s[0] in s;
      }
    }
  }

  // ---------------------------------------------------------------------
  // Command lines
  // ---------------------------------------------------------------------

  /** The final component of a Windows path string: the text after its last
      `\` or `/`. */
  function FinalName(s: string): (r: string)
    ensures |r| <= |s|
    ensures forall i :: 0 <= i < |r| ==> !IsWinSep(r[i])
    decreases |s|
  {
    if s == [] || IsWinSep(s[|s| - 1]) then ""
    else FinalName(s[..|s| - 1]) + [s[|s| - 1]]
  }

  /** `str.rfind('.')`: the index of the last dot, or -1. */
  function LastDot(name: string): (i: int)
    ensures -1 <= i < |name|
    ensures i >= 0 ==> name[i] == '.'
    ensures forall j :: i < j < |name| ==> name[j] != '.'
    decreases |name|
  {
    if name == [] then -1
    else if name[|name| - 1] == '.' then |name| - 1
    else LastDot(name[..|name| - 1])
  }

  /** `PurePath.suffix` of a final component: from its last dot on, unless that
      dot is its first or its last character. */
  function Suffix(name: string): (r: string)
    ensures r != [] ==> 2 <= |r| < |name| && r[0] == '.' && r == name[|name| - |r|..]
    ensures forall j :: 1 <= j < |r| ==> r[j] != '.'
  {
    var i := LastDot(name);
    if 0 < i < |name| - 1 then name[i..] else ""
  }

  function LowerChar(c: char): char
  {
    if 'A' <= c <= 'Z' then (c as int + 32) as char else c
  }

  /** `str.lower()` on ASCII letters. */
  function Lower(s: string): (r: string)
    ensures |r| == |s|
  {
    seq(|s|, i requires 0 <= i < |s| => LowerChar(s[i]))
  }

  /** Windows cannot start a `.bat` or `.cmd` file directly. */
  predicate IsBatch(executable: string)
  {
    var ext := Lower(Suffix(FinalName(executable)));
    ext == ".bat" || ext == ".cmd"
  }

  function Strings(xs: seq<string>): (r: seq<Json>)
    ensures |r| == |xs| && forall i :: 0 <= i < |xs| ==> r[i] == JString(xs[i])
  {
    seq(|xs|, i requires 0 <= i < |xs| => JString(xs[i]))
  }

  /** The argument list handed to `Popen`: the executable, the alias's base
      arguments and the caller's extra arguments, run through `cmd /c` when it
      is a batch file on Windows. A raw path has no base arguments. */
  function FullCommand(executable: string, baseArgs: seq<Json>, extra: seq<string>, isWindows: bool): seq<Json>
  {
    var argv := [JString(executable)] + baseArgs + Strings(extra);
    if isWindows && IsBatch(executable) then [JString("cmd"), JString("/c")] + argv else argv
  }

  /** The spawned command is the alias with its first word replaced by the
      resolved executable, followed by the extra arguments; a command without
      an alias runs the resolved executable with the extra arguments only.
      A batch file on Windows gets `cmd /c` in front of exactly that list. */
  lemma {:induction false} SpawnedAlias(d: CommandDefinition, resolved: string, extra: seq<string>, isWindows: bool)
    ensures var argv := FullCommand(resolved, d.BaseArgs(), extra, isWindows);
            var plain := if d.HasAlias() then [JString(resolved)] + d.alias.value[1..] + Strings(extra)
                         else [JString(resolved)] + Strings(extra);
            argv == (if isWindows && IsBatch(resolved) then [JString("cmd"), JString("/c")] + plain else plain)
  {
    AliasSplit(d);
    if d.HasAlias() {
      assert d.BaseArgs() == d.alias.value[1..];
    }
  }

  // ---------------------------------------------------------------------
  // Keyword arguments of the launchers
  // ---------------------------------------------------------------------

  /** A value passed for `stdout`, `stderr` or `stdin`. */
  datatype Stream = Pipe | MergeStdout | DevNull | NoStream | Handle(fd: int)

  /** The keyword arguments the launchers look at; `None` is an absent key.
      `input` is the data `check_output` hands to `communicate`. */
  datatype Kwargs = Kwargs(
    stdout: Option<Stream>,
    stderr: Option<Stream>,
    stdin: Option<Stream>,
    input: Option<string>,
    creationFlags: Option<int>)

  const CreateNoWindow := 0x0800_0000

  const PipeRefused := "'call' does not support PIPE redirection for stdout/stderr."
  const StdoutRefused := "'stdout' argument not allowed in check_output; it will be overridden."
  const InputWithStdin := "'input' and 'stdin' cannot both be specified"
  const EmptyCmd := "'cmd' must be a non-empty list"

  /** On Windows `creationflags` defaults to CREATE_NO_WINDOW; nothing else
      changes. */
  function PopenKwargs(kw: Kwargs, isWindows: bool): (r: Kwargs)
    ensures r.(creationFlags := kw.creationFlags) == kw
    ensures kw.creationFlags.Some? || !isWindows ==> r == kw
    ensures isWindows ==> r.creationFlags.Some?
  {
    if isWindows && kw.creationFlags.None? then kw.(creationFlags := Some(CreateNoWindow)) else kw
  }

  /** `call` refuses a PIPE for stdout or stderr. */
  function CallCheck(kw: Kwargs): (r: Option<Error>)
    ensures r.Some? <==> kw.stdout == Some(Pipe) || kw.stderr == Some(Pipe)
    ensures r.Some? ==> r.value.ValueError?
  {
    if kw.stdout == Some(Pipe) || kw.stderr == Some(Pipe) then Some(ValueError(PipeRefused)) else None
  }

  /** `check_output` refuses any `stdout` and `input` together with `stdin`;
      otherwise it captures stdout, and feeds stdin from `input` when given. */
  function CheckOutputKwargs(kw: Kwargs): (r: Result<Kwargs>)
    ensures r.Err? <==> kw.stdout.Some? || (kw.input.Some? && kw.stdin.Some?)
    ensures r.Err? ==> r.error.ValueError?
    ensures r.Ok? ==> r.value.stdout == Some(Pipe) && r.value.stderr == kw.stderr
                      && r.value.input == kw.input && r.value.creationFlags == kw.creationFlags
    ensures r.Ok? && kw.input.Some? ==> r.value.stdin == Some(Pipe)
    ensures r.Ok? && kw.input.None? ==> r.value.stdin == kw.stdin
  {
    if kw.stdout.Some? then Err(ValueError(StdoutRefused))
    else if kw.input.Some? && kw.stdin.Some? then Err(ValueError(InputWithStdin))
    else Ok(kw.(stdout := Some(Pipe), stdin := if kw.input.Some? then Some(Pipe) else kw.stdin))
  }

  /** `check_call`: a non-zero exit status raises CalledProcessError naming
      the executable; zero is returned. */
  function CheckReturn(rc: int, executable: string): (r: Result<int>)
    ensures r.Ok? <==> rc == 0
    ensures r.Ok? ==> r.value == 0
    ensures r.Err? ==> r.error == CalledProcessError(rc, executable)
  {
    if rc != 0 then Err(CalledProcessError(rc, executable)) else Ok(rc)
  }

  /** The free functions split `cmd` into the command and its arguments, and
      refuse an empty one. */
  function SplitCmd(cmd: seq<string>): (r: Result<(string, seq<string>)>)
    ensures r.Err? <==> cmd == []
    ensures r.Err? ==> r.error == ValueError(EmptyCmd)
    ensures r.Ok? ==> [r.value.0] + r.value.1 == cmd
  {
    if cmd == [] then Err(ValueError(EmptyCmd)) else Ok((cmd[0], cmd[1..]))
  }

  // ---------------------------------------------------------------------
  // _load_registry
  // ---------------------------------------------------------------------

  const EmptyTable := Table(map[], map[])

  /** What `load_from_bundles` reads of each bundle: its name and `envoy_env`. */
  function BundleSources(bs: seq<BundleInfo>): (r: seq<(string, Path)>)
    ensures |r| == |bs| && forall i :: 0 <= i < |bs| ==> r[i] == (bs[i].name, bs[i].envoyEnv)
  {
    seq(|bs|, i requires 0 <= i < |bs| => (bs[i].name, bs[i].envoyEnv))
  }

  /** The bundles `_load_registry` discovers: below the explicit roots when
      given, otherwise below the roots `ENVOY_BNDL_ROOTS` lists. */
  function Discovered(host: Host, cwd: Path, bundleRoots: Option<seq<string>>): seq<BundleInfo>
  {
    var roots := if bundleRoots.Some? then bundleRoots.value else RootList(RootsValue(host.environ), host.isWindows);
    BundlesFromRoots(host.fs, ResolveAll(roots, cwd, host.isWindows))
  }

  /** The bundles `_load_registry` returns: `None` unless some were found. */
  function FoundBundles(found: seq<BundleInfo>): Option<seq<BundleInfo>>
  {
    if found == [] then None else Some(found)
  }

  /** The commands file of the fallback: the explicit one, else the nearest
      `envoy_env/commands.json` above the working directory. */
  function FallbackFile(host: Host, cwd: Path, commandsFile: Option<Path>): Option<Path>
  {
    if commandsFile.Some? then commandsFile else NearestCommandsFile(host.fs, cwd, EnvoyEnvDir)
  }

  /** The fallback of `_load_registry` on the table the bundles gave: when it
      holds no command, the commands file's entries are loaded into it. */
  function WithFallback(t: Table, host: Host, cwd: Path, commandsFile: Option<Path>): Result<Table>
  {
    if t.commands != map[] then Ok(t)
    else match FallbackFile(host, cwd, commandsFile)
      case None => Ok(t)
      case Some(cf) => LoadFile(t, host.fs, cf, None)
  }

  /** The registry table `_load_registry` ends with: the discovered bundles'
      commands, and only when they define none, the fallback file's. */
  function RegistryAfter(host: Host, cwd: Path, bundleRoots: Option<seq<string>>, commandsFile: Option<Path>): Result<Table>
  {
    WithFallback(LoadBundles(EmptyTable, host.fs, BundleSources(Discovered(host, cwd, bundleRoots))), host, cwd, commandsFile)
  }

  /** The fallback keeps the registry invariant. */
  lemma FallbackWellFormed(t: Table, host: Host, cwd: Path, commandsFile: Option<Path>)
    requires WellFormed(t)
    ensures WithFallback(t, host, cwd, commandsFile).Ok? ==> WellFormed(WithFallback(t, host, cwd, commandsFile).value)
  {
    if t.commands == map[] {
      match FallbackFile(host, cwd, commandsFile)
      case None =>
      case Some(cf) =>
        match ReadCommands(host.fs, cf, None)
        case Ok(defs) => RegisterKeepsWellFormed(t, defs, Label(None));
        case Err(_) =>
    }
  }

  /** Whatever the registry was loaded from, each name maps to a definition of
      that name and has a recorded source. */
  lemma RegistryAfterWellFormed(host: Host, cwd: Path, bundleRoots: Option<seq<string>>, commandsFile: Option<Path>)
    ensures RegistryAfter(host, cwd, bundleRoots, commandsFile).Ok? ==>
              WellFormed(RegistryAfter(host, cwd, bundleRoots, commandsFile).value)
  {
    var sources := BundleSources(Discovered(host, cwd, bundleRoots));
    LoadBundlesKeepsWellFormed(EmptyTable, host.fs, sources);
    FallbackWellFormed(LoadBundles(EmptyTable, host.fs, sources), host, cwd, commandsFile);
  }

  /** The discovery step of `_load_registry`. */
  method Discover(host: Host, cwd: Path, bundleRoots: Option<seq<string>>) returns (found: seq<BundleInfo>)
    ensures found == Discovered(host, cwd, bundleRoots)
  {
    if bundleRoots.Some? {
      found := DiscoverBundlesFromRoots(host.fs, bundleRoots.value, cwd, host.isWindows);
    } else {
      found := DiscoverBundlesAuto(host, cwd);
    }
  }

  /** The fallback step of `_load_registry` on the registry object. */
  method LoadFallback(registry: CommandRegistry, host: Host, cwd: Path, commandsFile: Option<Path>) returns (r: Result<()>)
    requires WellFormed(registry.State())
    modifies registry
    ensures r.Ok? <==> WithFallback(old(registry.State()), host, cwd, commandsFile).Ok?
    ensures r.Ok? ==> registry.State() == WithFallback(old(registry.State()), host, cwd, commandsFile).value
    ensures r.Err? ==> r.error == WithFallback(old(registry.State()), host, cwd, commandsFile).error
    ensures WellFormed(registry.State())
  {
    FallbackWellFormed(registry.State(), host, cwd, commandsFile);
    r := Ok(());
    if registry.Len() == 0 {
      assert registry.commands == map[];
      var cf := commandsFile;
      if cf.None? {
        cf := FindCommandsFile(host.fs, cwd, EnvoyEnvDir);
      }
      if cf.Some? {
        r := registry.LoadFromFile(host.fs, cf.value, None);
      }
    } else {
      var n :| registry.Contains(n);
      assert n in registry.commands;
    }
  }

  /** `_load_registry`: discovery by the explicit roots or by
      `ENVOY_BNDL_ROOTS`, then a plain commands file only when the bundles
      registered nothing. The bundles are returned whenever some were found,
      even when the fallback was used. A failing fallback load raises. */
  method LoadRegistry(host: Host, cwd: Path, bundleRoots: Option<seq<string>>, commandsFile: Option<Path>)
    returns (registry: CommandRegistry, bundles: Option<seq<BundleInfo>>, r: Result<()>)
    ensures fresh(registry)
    ensures bundles == FoundBundles(Discovered(host, cwd, bundleRoots))
    ensures r.Ok? <==> RegistryAfter(host, cwd, bundleRoots, commandsFile).Ok?
    ensures r.Ok? ==> registry.State() == RegistryAfter(host, cwd, bundleRoots, commandsFile).value
    ensures r.Err? ==> r.error == RegistryAfter(host, cwd, bundleRoots, commandsFile).error
    ensures WellFormed(registry.State())
  {
    registry := new CommandRegistry();
    bundles := None;
    var discovered := Discover(host, cwd, bundleRoots);
    ghost var loaded := LoadBundles(EmptyTable, host.fs, BundleSources(discovered));
    if discovered != [] {
      registry.LoadFromBundles(host.fs, BundleSources(discovered));
      bundles := Some(discovered);
    } else {
      assert BundleSources(discovered) == [];
    }
    assert registry.State() == loaded;
    LoadBundlesKeepsWellFormed(EmptyTable, host.fs, BundleSources(discovered));
    assert RegistryAfter(host, cwd, bundleRoots, commandsFile) == WithFallback(loaded, host, cwd, commandsFile);
    r := LoadFallback(registry, host, cwd, commandsFile);
  }

  // ---------------------------------------------------------------------
  // _collect_env_files
  // ---------------------------------------------------------------------

  /** The file called `n` of every bundle that has one, in bundle order. */
  function FilesNamed(bs: seq<BundleInfo>, n: string): (r: seq<Path>)
    ensures |r| <= |bs|
    ensures forall p :: p in r <==> exists i :: 0 <= i < |bs| && n in bs[i].envFiles && bs[i].envFiles[n] == p
    decreases |bs|
  {
    if bs == [] then []
    else
      var init := bs[..|bs| - 1];
      var b := bs[|bs| - 1];
      var r := FilesNamed(init, n) + (if n in b.envFiles then [b.envFiles[n]] else []);
      assert forall i :: 0 <= i < |init| ==> bs[i] == init[i];
      r
  }

  /** For each resolved name in order, that file from every bundle that has it. */
  function ResolvedFiles(bs: seq<BundleInfo>, names: seq<(string, Option<Path>)>): seq<Path>
    decreases |names|
  {
    if names == [] then []
    else ResolvedFiles(bs, names[..|names| - 1]) + FilesNamed(bs, names[|names| - 1].0)
  }

  /** A file is collected for the resolved names exactly when some bundle
      provides it under one of those names. */
  lemma {:induction false} ResolvedFilesMember(bs: seq<BundleInfo>, names: seq<(string, Option<Path>)>, p: Path)
    ensures p in ResolvedFiles(bs, names) <==> exists j :: 0 <= j < |names| && p in FilesNamed(bs, names[j].0)
    decreases |names|
  {
    if names != [] {
      var init := names[..|names| - 1];
      var last := names[|names| - 1];
      ResolvedFilesMember(bs, init, p);
      assert ResolvedFiles(bs, names) == ResolvedFiles(bs, init) + FilesNamed(bs, last.0);
      if p in ResolvedFiles(bs, init) {
        var j :| 0 <= j < |init| && p in FilesNamed(bs, init[j].0);
        assert names[j] == init[j];
      }
      if exists j :: 0 <= j < |names| && p in FilesNamed(bs, names[j].0) {
        var j :| 0 <= j < |names| && p in FilesNamed(bs, names[j].0);
        if j < |init| {
          assert names[j] == init[j];
        }
      }
    }
  }

  /** Bundle mode: every bundle's `global_env.json` in bundle order, then the
      resolved files. */
  function BundleModeFiles(bs: seq<BundleInfo>, names: seq<(string, Option<Path>)>): seq<Path>
  {
    FilesNamed(bs, GlobalEnv) + ResolvedFiles(bs, names)
  }

  /** Each bundle's index is the one discovery builds from its `envoy_env`. */
  predicate Indexed(fs: Node, bs: seq<BundleInfo>)
  {
    forall i :: 0 <= i < |bs| ==> bs[i].envFiles == IndexEnvFiles(fs, bs[i].envoyEnv)
  }

  /** With discovered bundles, every collected file is a `.json` file directly
      inside some bundle's `envoy_env`, named `global_env.json` or after one
      of the resolved names. */
  lemma BundleModeFilesLocated(fs: Node, bs: seq<BundleInfo>, names: seq<(string, Option<Path>)>, p: Path)
    requires Indexed(fs, bs)
    requires p in BundleModeFiles(bs, names)
    ensures exists i :: 0 <= i < |bs| && p != [] && Parent(p) == bs[i].envoyEnv
    ensures EndsWith(Name(p), ".json")
    ensures Name(p) == GlobalEnv || exists j :: 0 <= j < |names| && Name(p) == names[j].0
  {
    var n: string;
    if p in FilesNamed(bs, GlobalEnv) {
      n := GlobalEnv;
    } else {
      ResolvedFilesMember(bs, names, p);
      var j :| 0 <= j < |names| && p in FilesNamed(bs, names[j].0);
      n := names[j].0;
    }
    var i :| 0 <= i < |bs| && n in bs[i].envFiles && bs[i].envFiles[n] == p;
    assert p == bs[i].envoyEnv + [n];
  }

  /** The path of a resolved entry in legacy mode: its own directory, or the
      command's `envoy_env`, joined with its file name. */
  function EntryFile(envDir: Path, entry: (string, Option<Path>), isWindows: bool): Path
  {
    ParsePath(entry.0, if entry.1.Some? then entry.1.value else envDir, isWindows)
  }

  /** Legacy mode: the entries' paths in order, or the first one missing. */
  function LegacyFiles(fs: Node, envDir: Path, names: seq<(string, Option<Path>)>, isWindows: bool): Result<seq<Path>>
    decreases |names|
  {
    if names == [] then Ok([])
    else
      var done :- LegacyFiles(fs, envDir, names[..|names| - 1], isWindows);
      var f := EntryFile(envDir, names[|names| - 1], isWindows);
      if Exists(fs, f) then Ok(done + [f]) else Err(EnvironmentBuildError(MissingEnvFile(f)))
  }

  /** Legacy mode succeeds exactly when every entry's file exists, and then
      lists those files in entry order; otherwise it reports the first entry
      whose file is missing. */
  lemma {:induction false} LegacyFilesMeaning(fs: Node, envDir: Path, names: seq<(string, Option<Path>)>, isWindows: bool)
    ensures var r := LegacyFiles(fs, envDir, names, isWindows);
            && (r.Ok? <==> forall j :: 0 <= j < |names| ==> Exists(fs, EntryFile(envDir, names[j], isWindows)))
            && (r.Ok? ==> |r.value| == |names|
                          && forall j :: 0 <= j < |names| ==> r.value[j] == EntryFile(envDir, names[j], isWindows))
            && (r.Err? ==> exists j :: 0 <= j < |names| && !Exists(fs, EntryFile(envDir, names[j], isWindows))
                            && r.error == EnvironmentBuildError(MissingEnvFile(EntryFile(envDir, names[j], isWindows)))
                            && forall j' :: 0 <= j' < j ==> Exists(fs, EntryFile(envDir, names[j'], isWindows)))
    decreases |names|
  {
    if names != [] {
      var init := names[..|names| - 1];
      assert forall j :: 0 <= j < |init| ==> names[j] == init[j];
      LegacyFilesMeaning(fs, envDir, init, isWindows);
    }
  }

  /** The `envoy_env` directory of legacy mode: the command's own, else the
      directory of the nearest commands file. */
  function LegacyEnvDir(fs: Node, cwd: Path, name: string, d: CommandDefinition): Result<Path>
  {
    match d.envDir
    case Some(dir) => Ok(dir)
    case None =>
      match NearestCommandsFile(fs, cwd, EnvoyEnvDir)
      case Some(cf) => Ok(Parent(cf))
      case None => Err(EnvironmentBuildError(NoEnvoyEnvDir(name)))
  }

  /** Legacy mode: `global_env.json` first when it exists, then the entries. */
  function LegacyModeFiles(fs: Node, envDir: Path, names: seq<(string, Option<Path>)>, isWindows: bool): Result<seq<Path>>
  {
    var g := envDir + [GlobalEnv];
    var rest :- LegacyFiles(fs, envDir, names, isWindows);
    Ok((if Exists(fs, g) then [g] else []) + rest)
  }

  /** Every file legacy mode returns exists. */
  lemma LegacyModeFilesExist(fs: Node, envDir: Path, names: seq<(string, Option<Path>)>, isWindows: bool, p: Path)
    requires LegacyModeFiles(fs, envDir, names, isWindows).Ok?
    requires p in LegacyModeFiles(fs, envDir, names, isWindows).value
    ensures Exists(fs, p)
  {
    var rest := LegacyFiles(fs, envDir, names, isWindows).value;
    LegacyFilesMeaning(fs, envDir, names, isWindows);
    if p in rest {
      var j :| 0 <= j < |rest| && rest[j] == p;
    }
  }

  /** What `resolve_environment` gave, with a WrapperError turned into an
      EnvironmentBuildError; other exceptions pass through. */
  function Resolved(name: string, resolution: Result<seq<(string, Option<Path>)>>): (r: Result<seq<(string, Option<Path>)>>)
  {
    match resolution
    case Ok(v) => Ok(v)
    case Err(e) => Err(if e.WrapperError? then EnvironmentBuildError(ResolutionFailed(name)) else e)
  }

  /** `_collect_env_files` on the registry table `t`: an unregistered name
      raises CommandNotFound; then bundle mode when bundles were found,
      legacy mode otherwise. */
  function EnvFileList(host: Host, cwd: Path, name: string, t: Table, bundles: Option<seq<BundleInfo>>,
                       resolution: Result<seq<(string, Option<Path>)>>): (r: Result<seq<Path>>)
  {
    if name !in t.commands then Err(CommandNotFound(name))
    else
      var resolved :- Resolved(name, resolution);
      if bundles.Some? && bundles.value != [] then Ok(BundleModeFiles(bundles.value, resolved))
      else
        var envDir :- LegacyEnvDir(host.fs, cwd, name, t.commands[name]);
        LegacyModeFiles(host.fs, envDir, resolved, host.isWindows)
  }

  /** The errors of `_collect_env_files`: an unknown command, a failed
      resolution, and in legacy mode a missing directory or file; bundle mode
      raises nothing else. */
  lemma EnvFileListErrors(host: Host, cwd: Path, name: string, t: Table, bundles: Option<seq<BundleInfo>>,
                          resolution: Result<seq<(string, Option<Path>)>>)
    ensures var r := EnvFileList(host, cwd, name, t, bundles, resolution);
            r.Err? <==> name !in t.commands || resolution.Err?
                        || (!(bundles.Some? && bundles.value != []) &&
                            (LegacyEnvDir(host.fs, cwd, name, t.commands[name]).Err?
                             || LegacyFiles(host.fs, LegacyEnvDir(host.fs, cwd, name, t.commands[name]).value,
                                            resolution.value, host.isWindows).Err?))
    ensures name !in t.commands ==> EnvFileList(host, cwd, name, t, bundles, resolution) == Err(CommandNotFound(name))
    ensures name in t.commands && resolution.Err? && resolution.error.WrapperError? ==>
              EnvFileList(host, cwd, name, t, bundles, resolution) == Err(EnvironmentBuildError(ResolutionFailed(name)))
  {
  }

  /** Appends the file called `n` of every bundle that has one. */
  method AppendNamed(bs: seq<BundleInfo>, n: string, files: seq<Path>) returns (r: seq<Path>)
    ensures r == files + FilesNamed(bs, n)
  {
    r := files;
    var i := 0;
    while i < |bs|
      invariant 0 <= i <= |bs|
      invariant r == files + FilesNamed(bs[..i], n)
    {
      assert bs[..i + 1][..i] == bs[..i];
      if n in bs[i].envFiles {
        r := r + [bs[i].envFiles[n]];
      }
      i := i + 1;
    }
    assert bs[..i] == bs;
  }

  /** The bundle-mode loops. */
  method CollectFromBundles(bs: seq<BundleInfo>, resolved: seq<(string, Option<Path>)>) returns (files: seq<Path>)
    ensures files == BundleModeFiles(bs, resolved)
  {
    files := AppendNamed(bs, GlobalEnv, []);
    var j := 0;
    while j < |resolved|
      invariant 0 <= j <= |resolved|
      invariant files == FilesNamed(bs, GlobalEnv) + ResolvedFiles(bs, resolved[..j])
    {
      assert resolved[..j + 1][..j] == resolved[..j];
      files := AppendNamed(bs, resolved[j].0, files);
      j := j + 1;
    }
    assert resolved[..j] == resolved;
  }

  lemma LegacyFilesStep(fs: Node, envDir: Path, names: seq<(string, Option<Path>)>, j: nat, isWindows: bool)
    requires j < |names| && LegacyFiles(fs, envDir, names[..j], isWindows).Ok?
    ensures var f := EntryFile(envDir, names[j], isWindows);
            LegacyFiles(fs, envDir, names[..j + 1], isWindows)
            == if Exists(fs, f) then Ok(LegacyFiles(fs, envDir, names[..j], isWindows).value + [f])
               else Err(EnvironmentBuildError(MissingEnvFile(f)))
  {
    assert names[..j + 1][..j] == names[..j];
  }

  /** Once a prefix of the entries has a missing file, so have all the entries,
      with the same error. */
  lemma {:induction false} LegacyFilesFailEarly(fs: Node, envDir: Path, names: seq<(string, Option<Path>)>, k: nat,
                                                 isWindows: bool)
    requires k <= |names| && LegacyFiles(fs, envDir, names[..k], isWindows).Err?
    ensures LegacyFiles(fs, envDir, names, isWindows) == LegacyFiles(fs, envDir, names[..k], isWindows)
    decreases |names| - k
  {
    if k < |names| {
      assert names[..k + 1][..k] == names[..k];
      LegacyFilesFailEarly(fs, envDir, names, k + 1, isWindows);
    } else {
      assert names[..k] == names;
    }
  }

  /** The legacy-mode loop, which stops at the first missing file. */
  method CollectLegacy(fs: Node, envDir: Path, resolved: seq<(string, Option<Path>)>, isWindows: bool)
    returns (r: Result<seq<Path>>)
    ensures r == LegacyModeFiles(fs, envDir, resolved, isWindows)
  {
    var g := envDir + [GlobalEnv];
    var head: seq<Path> := if Exists(fs, g) then [g] else [];
    var files := [];
    var j := 0;
    while j < |resolved|
      invariant 0 <= j <= |resolved|
      invariant LegacyFiles(fs, envDir, resolved[..j], isWindows) == Ok(files)
    {
      LegacyFilesStep(fs, envDir, resolved, j, isWindows);
      var dir := if resolved[j].1.Some? then resolved[j].1.value else envDir;
      var f := ParsePath(resolved[j].0, dir, isWindows);
      if !Exists(fs, f) {
        LegacyFilesFailEarly(fs, envDir, resolved, j + 1, isWindows);
        return Err(EnvironmentBuildError(MissingEnvFile(f)));
      }
      files := files + [f];
      j := j + 1;
    }
    assert resolved[..j] == resolved;
    return Ok(head + files);
  }

  /** `_collect_env_files(command_name, registry, bundles)`, where `resolution`
      is what `registry.resolve_environment(command_name)` returns. */
  method CollectEnvFiles(host: Host, cwd: Path, name: string, registry: CommandRegistry,
                         bundles: Option<seq<BundleInfo>>, resolution: Result<seq<(string, Option<Path>)>>)
    returns (r: Result<seq<Path>>)
    ensures r == EnvFileList(host, cwd, name, registry.State(), bundles, resolution)
  {
    var cmd := registry.Get(name);
    if cmd.None? {
      return Err(CommandNotFound(name));
    }
    var resolved :- Resolved(name, resolution);
    if bundles.Some? && bundles.value != [] {
      var files := CollectFromBundles(bundles.value, resolved);
      return Ok(files);
    }
    var envDir: Path;
    if cmd.value.envDir.Some? {
      envDir := cmd.value.envDir.value;
    } else {
      var cf := FindCommandsFile(host.fs, cwd, EnvoyEnvDir);
      if cf.None? {
        return Err(EnvironmentBuildError(NoEnvoyEnvDir(name)));
      }
      envDir := Parent(cf.value);
    }
    r := CollectLegacy(host.fs, envDir, resolved, host.isWindows);
  }

  // ---------------------------------------------------------------------
  // _prepare_env
  // ---------------------------------------------------------------------

  /** The manager `_prepare_env` and `build` create: `set(allowlist)` when the
      allowlist is non-empty, none otherwise. */
  function ManagerFor(inheritEnv: bool, allowlist: Option<seq<string>>): (m: Manager)
    ensures m.inheritEnv == inheritEnv
    ensures forall x :: x in m.allowlist <==> allowlist.Some? && x in allowlist.value
  {
    Manager(inheritEnv, if allowlist.Some? then set x | x in allowlist.value else {})
  }

  /** `_prepare_env` on the registry table `t`: the composed environment and
      the command's definition. A WrapperError while composing becomes an
      EnvironmentBuildError. */
  function Prepared(host: Host, cwd: Path, name: string, t: Table, bundles: Option<seq<BundleInfo>>,
                    inheritEnv: bool, allowlist: Option<seq<string>>,
                    resolution: Result<seq<(string, Option<Path>)>>): Result<(Env, CommandDefinition)>
  {
    if name !in t.commands then Err(CommandNotFound(name))
    else
      var files :- EnvFileList(host, cwd, name, t, bundles, resolution);
      var env :- Preparation(name, Compose(host, files, Seed(ManagerFor(inheritEnv, allowlist), host.environ)));
      Ok((env, t.commands[name]))
  }

  /** The outcome of `prepare_environment` as `_prepare_env` passes it on. */
  function Preparation(name: string, composed: Result<Env>): Result<Env>
  {
    match composed
    case Ok(env) => Ok(env)
    case Err(e) => Err(if e.WrapperError? then EnvironmentBuildError(PreparationFailed(name)) else e)
  }

  /** A prepared environment holds every seeded variable, and its definition
      is the one registered under the command's name. */
  lemma PreparedKeepsSeed(host: Host, cwd: Path, name: string, t: Table, bundles: Option<seq<BundleInfo>>,
                          inheritEnv: bool, allowlist: Option<seq<string>>,
                          resolution: Result<seq<(string, Option<Path>)>>)
    requires Prepared(host, cwd, name, t, bundles, inheritEnv, allowlist, resolution).Ok?
    ensures var v := Prepared(host, cwd, name, t, bundles, inheritEnv, allowlist, resolution).value;
            && Seed(ManagerFor(inheritEnv, allowlist), host.environ).Keys <= v.0.Keys
            && name in t.commands && v.1 == t.commands[name]
  {
    var files := EnvFileList(host, cwd, name, t, bundles, resolution).value;
    ComposeKeepsKeys(host, files, Seed(ManagerFor(inheritEnv, allowlist), host.environ));
  }

  /** `_prepare_env(command_name, registry, bundles, inherit_env, allowlist)`. */
  method PrepareEnv(host: Host, cwd: Path, name: string, registry: CommandRegistry, bundles: Option<seq<BundleInfo>>,
                    inheritEnv: bool, allowlist: Option<seq<string>>,
                    resolution: Result<seq<(string, Option<Path>)>>)
    returns (r: Result<(Env, CommandDefinition)>)
    ensures r == Prepared(host, cwd, name, registry.State(), bundles, inheritEnv, allowlist, resolution)
  {
    var cmd := registry.Get(name);
    if cmd.None? {
      return Err(CommandNotFound(name));
    }
    var files :- CollectEnvFiles(host, cwd, name, registry, bundles, resolution);
    var env :- PrepareFiles(host, name, files, inheritEnv, allowlist);
    return Ok((env, cmd.value));
  }

  /** The `prepare_environment` call of `_prepare_env`. */
  method PrepareFiles(host: Host, name: string, files: seq<Path>, inheritEnv: bool, allowlist: Option<seq<string>>)
    returns (r: Result<Env>)
    ensures r == Preparation(name, Compose(host, files, Seed(ManagerFor(inheritEnv, allowlist), host.environ)))
  {
    var names: set<string> := if allowlist.Some? && allowlist.value != [] then set x | x in allowlist.value else {};
    var m := Manager(inheritEnv, names);
    assert m == ManagerFor(inheritEnv, allowlist);
    ghost var composed := Compose(host, files, Seed(m, host.environ));
    var env := PrepareEnvironment(m, host, files, map[]);
    if env.Err? {
      return Err(if env.error.WrapperError? then EnvironmentBuildError(PreparationFailed(name)) else env.error);
    }
    assert composed.value + map[] == composed.value;
    return Ok(env.value);
  }

  // ---------------------------------------------------------------------
  // The Environment object
  // ---------------------------------------------------------------------

  function OrEmpty(xs: Option<seq<string>>): seq<string>
  {
    if xs.Some? then xs.value else []
  }

  /** `list(allowlist or []) + list(whitelist or [])`, or `None` when empty. */
  function Combined(allowlist: Option<seq<string>>, whitelist: Option<seq<string>>): (r: Option<seq<string>>)
    ensures r.None? <==> OrEmpty(allowlist) == [] && OrEmpty(whitelist) == []
    ensures r.Some? ==> r.value == OrEmpty(allowlist) + OrEmpty(whitelist)
  {
    var c := OrEmpty(allowlist) + OrEmpty(whitelist);
    if c == [] then None else Some(c)
  }

  /** The deprecated `whitelist` adds its names to the allowlist: the manager
      carries through exactly the names of either. */
  lemma CombinedAllowlist(inheritEnv: bool, allowlist: Option<seq<string>>, whitelist: Option<seq<string>>, x: string)
    ensures x in ManagerFor(inheritEnv, Combined(allowlist, whitelist)).allowlist
            <==> x in OrEmpty(allowlist) || x in OrEmpty(whitelist)
  {
  }

  /** The definition `build` makes for a raw path: the path is its own alias. */
  function RawDefinition(command: string): (d: CommandDefinition)
    ensures d.name == command && d.environment == []
    ensures d.Executable() == JString(command) && d.BaseArgs() == []
  {
    CommandDefinition(command, [], Some([JString(command)]), None, None)
  }

  /** What `build` computes for an `Environment` that has not built yet: a raw
      path gets the seed environment and its own definition; a command name
      gets the registry, then its prepared environment. `resolve` stands for
      `resolve_environment` on the registry's table. */
  function Built(host: Host, cwd: Path, command: string, inheritEnv: bool, allowlist: Option<seq<string>>,
                 bundleRoots: Option<seq<string>>, commandsFile: Option<Path>,
                 resolve: (Table, string) -> Result<seq<(string, Option<Path>)>>): Result<(Env, CommandDefinition)>
  {
    if IsRawPath(command, host.isWindows) then
      Ok((Seed(ManagerFor(inheritEnv, allowlist), host.environ), RawDefinition(command)))
    else
      var t :- RegistryAfter(host, cwd, bundleRoots, commandsFile);
      Prepared(host, cwd, command, t, FoundBundles(Discovered(host, cwd, bundleRoots)), inheritEnv, allowlist,
               resolve(t, command))
  }

  /** A built environment holds every seeded variable, and the definition it
      runs is named after the command. */
  lemma BuiltForCommand(host: Host, cwd: Path, command: string, inheritEnv: bool, allowlist: Option<seq<string>>,
                        bundleRoots: Option<seq<string>>, commandsFile: Option<Path>,
                        resolve: (Table, string) -> Result<seq<(string, Option<Path>)>>)
    requires Built(host, cwd, command, inheritEnv, allowlist, bundleRoots, commandsFile, resolve).Ok?
    ensures var v := Built(host, cwd, command, inheritEnv, allowlist, bundleRoots, commandsFile, resolve).value;
            Seed(ManagerFor(inheritEnv, allowlist), host.environ).Keys <= v.0.Keys && v.1.name == command
  {
    if !IsRawPath(command, host.isWindows) {
      var t := RegistryAfter(host, cwd, bundleRoots, commandsFile).value;
      RegistryAfterWellFormed(host, cwd, bundleRoots, commandsFile);
      PreparedKeepsSeed(host, cwd, command, t, FoundBundles(Discovered(host, cwd, bundleRoots)), inheritEnv,
                        allowlist, resolve(t, command));
    }
  }

  /** The cache after `build`: kept when already set, otherwise set from the
      build's outcome, or left empty when the build raised. */
  predicate Settled(oldEnv: Option<Env>, oldDef: Option<CommandDefinition>, env: Option<Env>,
                    def: Option<CommandDefinition>, b: Result<(Env, CommandDefinition)>)
  {
    if oldEnv.Some? then env == oldEnv && def == oldDef
    else match b
      case Ok(v) => env == Some(v.0) && def == Some(v.1)
      case Err(_) => env.None? && def.None?
  }

  /** The process a launch starts: its argument list, its environment and the
      keyword arguments given to `Popen`. */
  datatype Launch = Launch(argv: seq<Json>, env: Env, kwargs: Kwargs)

  /** `str(executable)` as CalledProcessError and the error messages show it. */
  function ExecutableName(d: CommandDefinition): string
  {
    Str(d.Executable())
  }

  /** `_raw_popen` for a raw path, `_popen` otherwise, once the environment is
      built. `which` stands for resolving the executable against the
      environment's `PATH`; `None` is the WrapperError it raises. */
  function LaunchOf(command: string, d: CommandDefinition, env: Env, which: (Json, Option<string>) -> Option<string>,
                    args: seq<string>, kw: Kwargs, isWindows: bool): Result<Launch>
  {
    if IsRawPath(command, isWindows) then
      Ok(Launch(FullCommand(command, [], args, isWindows), env, PopenKwargs(kw, isWindows)))
    else
      match which(d.Executable(), if "PATH" in env then Some(env["PATH"]) else None)
      case None => Err(EnvironmentBuildError(ExecutableNotFound(ExecutableName(d))))
      case Some(resolved) => Ok(Launch(FullCommand(resolved, d.BaseArgs(), args, isWindows), env, PopenKwargs(kw, isWindows)))
  }

  /** A raw path runs itself with the extra arguments, unresolved. */
  lemma RawLaunch(command: string, env: Env, which: (Json, Option<string>) -> Option<string>, args: seq<string>,
                  kw: Kwargs, isWindows: bool)
    requires IsRawPath(command, isWindows) && !(isWindows && IsBatch(command))
    ensures LaunchOf(command, RawDefinition(command), env, which, args, kw, isWindows)
            == Ok(Launch([JString(command)] + Strings(args), env, PopenKwargs(kw, isWindows)))
  {
    assert [JString(command)] + [] == [JString(command)];
  }

  /** `Environment(command, inherit_env=..., allowlist=..., whitelist=...,
      bundle_roots=..., commands_file=...)`: the settings, and the cached
      environment and definition that `build` fills in once. */
  class Environment {
    const command: string
    const inheritEnv: bool
    const allowlist: Option<seq<string>>
    const bundleRoots: Option<seq<string>>
    const commandsFile: Option<Path>
    var env: Option<Env>
    var cmdDef: Option<CommandDefinition>

    /** Both caches are set together. */
    predicate Valid()
      reads this
    {
      env.Some? <==> cmdDef.Some?
    }

    constructor (command: string, inheritEnv: bool, allowlist: Option<seq<string>>, whitelist: Option<seq<string>>,
                 bundleRoots: Option<seq<string>>, commandsFile: Option<Path>)
      ensures this.command == command && this.inheritEnv == inheritEnv
      ensures this.allowlist == Combined(allowlist, whitelist)
      ensures this.bundleRoots == bundleRoots && this.commandsFile == commandsFile
      ensures env.None? && cmdDef.None? && Valid()
    {
      this.command := command;
      this.inheritEnv := inheritEnv;
      this.allowlist := Combined(allowlist, whitelist);
      this.bundleRoots := bundleRoots;
      this.commandsFile := commandsFile;
      env := None;
      cmdDef := None;
    }

    /** The `allowlist` (and `whitelist`) property: the stored names, or `[]`. */
    function Allowlist(): (r: seq<string>)
      reads this
      ensures allowlist.Some? ==> r == allowlist.value
      ensures allowlist.None? ==> r == []
    {
      if allowlist.Some? then allowlist.value else []
    }

    function Outcome(host: Host, cwd: Path, resolve: (Table, string) -> Result<seq<(string, Option<Path>)>>)
      : Result<(Env, CommandDefinition)>
    {
      Built(host, cwd, command, inheritEnv, allowlist, bundleRoots, commandsFile, resolve)
    }

    /** `build`: computes the environment on the first call only; later calls
        return the cached one. A build that raises caches nothing. */
    method Build(host: Host, cwd: Path, resolve: (Table, string) -> Result<seq<(string, Option<Path>)>>)
      returns (r: Result<Env>)
      requires Valid()
      modifies this
      ensures Valid()
      ensures Settled(old(env), old(cmdDef), env, cmdDef, Outcome(host, cwd, resolve))
      ensures r == if env.Some? then Ok(env.value) else Err(Outcome(host, cwd, resolve).error)
    {
      if env.Some? {
        return Ok(env.value);
      }
      if IsRawPath(command, host.isWindows) {
        var names: set<string> := if allowlist.Some? then set x | x in allowlist.value else {};
        assert Manager(inheritEnv, names) == ManagerFor(inheritEnv, allowlist);
        ghost var seed := Seed(ManagerFor(inheritEnv, allowlist), host.environ);
        assert Compose(host, [], seed) == Ok(seed);
        var e := PrepareEnvironment(Manager(inheritEnv, names), host, [], map[]);
        assert seed + map[] == seed;
        env := Some(e.value);
        cmdDef := Some(RawDefinition(command));
        return Ok(e.value);
      }
      var registry, bundles, loaded := LoadRegistry(host, cwd, bundleRoots, commandsFile);
      if loaded.Err? {
        return Err(loaded.error);
      }
      var p := PrepareEnv(host, cwd, command, registry, bundles, inheritEnv, allowlist,
                          resolve(registry.State(), command));
      if p.Err? {
        return Err(p.error);
      }
      env := Some(p.value.0);
      cmdDef := Some(p.value.1);
      return Ok(p.value.0);
    }

    /** What the launch of a built environment starts, or why building failed. */
    function Started(host: Host, cwd: Path, resolve: (Table, string) -> Result<seq<(string, Option<Path>)>>,
                     which: (Json, Option<string>) -> Option<string>, args: seq<string>, kw: Kwargs): Result<Launch>
      requires Valid()
      reads this
    {
      if env.Some? then LaunchOf(command, cmdDef.value, env.value, which, args, kw, host.isWindows)
      else match Outcome(host, cwd, resolve)
        case Ok(v) => LaunchOf(command, v.1, v.0, which, args, kw, host.isWindows)
        case Err(e) => Err(e)
    }

    /** `spawn`: builds when not yet built, then starts the process without
        waiting for it. */
    method Spawn(host: Host, cwd: Path, resolve: (Table, string) -> Result<seq<(string, Option<Path>)>>,
                 which: (Json, Option<string>) -> Option<string>, args: seq<string>, kw: Kwargs)
      returns (r: Result<Launch>)
      requires Valid()
      modifies this
      ensures Valid()
      ensures Settled(old(env), old(cmdDef), env, cmdDef, Outcome(host, cwd, resolve))
      ensures r == Started(host, cwd, resolve, which, args, kw)
    {
      var e :- Build(host, cwd, resolve);
      r := LaunchOf(command, cmdDef.value, e, which, args, kw, host.isWindows);
    }

    /** `call`: refuses a PIPE before anything is built, then starts the
        process and waits for it. */
    method Call(host: Host, cwd: Path, resolve: (Table, string) -> Result<seq<(string, Option<Path>)>>,
                which: (Json, Option<string>) -> Option<string>, args: seq<string>, kw: Kwargs)
      returns (r: Result<Launch>)
      requires Valid()
      modifies this
      ensures Valid()
      ensures CallCheck(kw).Some? ==> r == Err(CallCheck(kw).value) && env == old(env) && cmdDef == old(cmdDef)
      ensures CallCheck(kw).None? ==>
                Settled(old(env), old(cmdDef), env, cmdDef, Outcome(host, cwd, resolve))
                && r == Started(host, cwd, resolve, which, args, kw)
    {
      var refused := CallCheck(kw);
      if refused.Some? {
        return Err(refused.value);
      }
      r := Spawn(host, cwd, resolve, which, args, kw);
    }

    /** `check_call`: `call`, then a non-zero exit status raises
        CalledProcessError naming the executable. */
    method CheckCall(host: Host, cwd: Path, resolve: (Table, string) -> Result<seq<(string, Option<Path>)>>,
                     which: (Json, Option<string>) -> Option<string>, args: seq<string>, kw: Kwargs, exitCode: int)
      returns (r: Result<int>)
      requires Valid()
      modifies this
      ensures Valid()
      ensures CallCheck(kw).Some? ==> r == Err(CallCheck(kw).value) && env == old(env) && cmdDef == old(cmdDef)
      ensures CallCheck(kw).None? ==>
                Settled(old(env), old(cmdDef), env, cmdDef, Outcome(host, cwd, resolve))
                && r == match Started(host, cwd, resolve, which, args, kw)
                        case Err(e) => Err(e)
                        case Ok(_) => CheckReturn(exitCode, ExecutableName(cmdDef.value))
    {
      var launched :- Call(host, cwd, resolve, which, args, kw);
      r := CheckReturn(exitCode, ExecutableName(cmdDef.value));
    }

    /** `check_output`: checks and sets the stream arguments before anything
        is built, starts the process capturing its stdout, and raises on a
        non-zero exit status. The captured bytes are outside the model. */
    method CheckOutput(host: Host, cwd: Path, resolve: (Table, string) -> Result<seq<(string, Option<Path>)>>,
                       which: (Json, Option<string>) -> Option<string>, args: seq<string>, kw: Kwargs, exitCode: int)
      returns (r: Result<Launch>)
      requires Valid()
      modifies this
      ensures Valid()
      ensures CheckOutputKwargs(kw).Err? ==>
                r == Err(CheckOutputKwargs(kw).error) && env == old(env) && cmdDef == old(cmdDef)
      ensures CheckOutputKwargs(kw).Ok? ==>
                Settled(old(env), old(cmdDef), env, cmdDef, Outcome(host, cwd, resolve))
                && r == match Started(host, cwd, resolve, which, args, CheckOutputKwargs(kw).value)
                        case Err(e) => Err(e)
                        case Ok(l) => if exitCode == 0 then Ok(l)
                                      else Err(CalledProcessError(exitCode, ExecutableName(cmdDef.value)))
    {
      var captured :- CheckOutputKwargs(kw);
      var launched :- Spawn(host, cwd, resolve, which, args, captured);
      if exitCode != 0 {
        return Err(CalledProcessError(exitCode, ExecutableName(cmdDef.value)));
      }
      return Ok(launched);
    }
  }

  // ---------------------------------------------------------------------
  // The free functions
  // ---------------------------------------------------------------------

  /** What a fresh `Environment` for `command` starts with `args`. */
  function FreshStart(host: Host, cwd: Path, resolve: (Table, string) -> Result<seq<(string, Option<Path>)>>,
                      which: (Json, Option<string>) -> Option<string>, command: string, args: seq<string>,
                      inheritEnv: bool, allowlist: Option<seq<string>>, bundleRoots: Option<seq<string>>,
                      commandsFile: Option<Path>, kw: Kwargs): Result<Launch>
  {
    var v :- Built(host, cwd, command, inheritEnv, allowlist, bundleRoots, commandsFile, resolve);
    LaunchOf(command, v.1, v.0, which, args, kw, host.isWindows)
  }

  /** `spawn(cmd, ...)`: an empty `cmd` is refused; otherwise a fresh
      `Environment` for `cmd[0]` starts with `cmd[1:]`. */
  method SpawnCommand(host: Host, cwd: Path, resolve: (Table, string) -> Result<seq<(string, Option<Path>)>>,
                      which: (Json, Option<string>) -> Option<string>, cmd: seq<string>, inheritEnv: bool,
                      allowlist: Option<seq<string>>, bundleRoots: Option<seq<string>>, commandsFile: Option<Path>,
                      kw: Kwargs)
    returns (r: Result<Launch>)
    ensures cmd == [] ==> r == Err(ValueError(EmptyCmd))
    ensures cmd != [] ==>
              r == FreshStart(host, cwd, resolve, which, cmd[0], cmd[1..], inheritEnv, Combined(allowlist, None),
                              bundleRoots, commandsFile, kw)
  {
    var parts :- SplitCmd(cmd);
    var e := new Environment(parts.0, inheritEnv, allowlist, None, bundleRoots, commandsFile);
    r := e.Spawn(host, cwd, resolve, which, parts.1, kw);
  }

  /** `call(cmd, ...)`: an empty `cmd`, then a PIPE, is refused before
      anything is built. */
  method CallCommand(host: Host, cwd: Path, resolve: (Table, string) -> Result<seq<(string, Option<Path>)>>,
                     which: (Json, Option<string>) -> Option<string>, cmd: seq<string>, inheritEnv: bool,
                     allowlist: Option<seq<string>>, bundleRoots: Option<seq<string>>, commandsFile: Option<Path>,
                     kw: Kwargs)
    returns (r: Result<Launch>)
    ensures cmd == [] ==> r == Err(ValueError(EmptyCmd))
    ensures cmd != [] && CallCheck(kw).Some? ==> r == Err(CallCheck(kw).value)
    ensures cmd != [] && CallCheck(kw).None? ==>
              r == FreshStart(host, cwd, resolve, which, cmd[0], cmd[1..], inheritEnv, Combined(allowlist, None),
                              bundleRoots, commandsFile, kw)
  {
    var parts :- SplitCmd(cmd);
    var refused := CallCheck(kw);
    if refused.Some? {
      return Err(refused.value);
    }
    var e := new Environment(parts.0, inheritEnv, allowlist, None, bundleRoots, commandsFile);
    r := e.Call(host, cwd, resolve, which, parts.1, kw);
  }

  /** `check_call(cmd, ...)`: `call`, then a non-zero exit status raises
      CalledProcessError naming `cmd[0]`. */
  method CheckCallCommand(host: Host, cwd: Path, resolve: (Table, string) -> Result<seq<(string, Option<Path>)>>,
                          which: (Json, Option<string>) -> Option<string>, cmd: seq<string>, inheritEnv: bool,
                          allowlist: Option<seq<string>>, bundleRoots: Option<seq<string>>,
                          commandsFile: Option<Path>, kw: Kwargs, exitCode: int)
    returns (r: Result<int>)
    ensures cmd == [] ==> r == Err(ValueError(EmptyCmd))
    ensures cmd != [] && CallCheck(kw).Some? ==> r == Err(CallCheck(kw).value)
    ensures cmd != [] && CallCheck(kw).None? ==>
              r == match FreshStart(host, cwd, resolve, which, cmd[0], cmd[1..], inheritEnv,
                                    Combined(allowlist, None), bundleRoots, commandsFile, kw)
                   case Err(e) => Err(e)
                   case Ok(_) => CheckReturn(exitCode, cmd[0])
  {
    var launched :- CallCommand(host, cwd, resolve, which, cmd, inheritEnv, allowlist, bundleRoots, commandsFile, kw);
    r := CheckReturn(exitCode, cmd[0]);
  }

  /** `check_output(cmd, ...)`: an empty `cmd` is refused, then the stream
      arguments are checked as by `Environment.check_output`. */
  method CheckOutputCommand(host: Host, cwd: Path, resolve: (Table, string) -> Result<seq<(string, Option<Path>)>>,
                            which: (Json, Option<string>) -> Option<string>, cmd: seq<string>, inheritEnv: bool,
                            allowlist: Option<seq<string>>, bundleRoots: Option<seq<string>>,
                            commandsFile: Option<Path>, kw: Kwargs, exitCode: int)
    returns (r: Result<Launch>)
    ensures cmd == [] ==> r == Err(ValueError(EmptyCmd))
    ensures cmd != [] && CheckOutputKwargs(kw).Err? ==> r == Err(CheckOutputKwargs(kw).error)
    ensures cmd != [] && CheckOutputKwargs(kw).Ok? ==>
              r == match FreshStart(host, cwd, resolve, which, cmd[0], cmd[1..], inheritEnv,
                                    Combined(allowlist, None), bundleRoots, commandsFile,
                                    CheckOutputKwargs(kw).value)
                   case Err(e) => Err(e)
                   case Ok(l) =>
                     if exitCode == 0 then Ok(l)
                     else Err(CalledProcessError(exitCode, ExecutableName(Built(host, cwd, cmd[0], inheritEnv,
                                Combined(allowlist, None), bundleRoots, commandsFile, resolve).value.1)))
  {
    var parts :- SplitCmd(cmd);
    var e := new Environment(parts.0, inheritEnv, allowlist, None, bundleRoots, commandsFile);
    r := e.CheckOutput(host, cwd, resolve, which, parts.1, kw, exitCode);
  }
}

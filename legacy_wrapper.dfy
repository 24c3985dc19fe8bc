/** The legacy application wrapper's environment and command preparation
    (`ApplicationWrapper`): a second, simpler composition in which only the
    `{$NAME}` reference form and the `+=` / `^=` operators exist, lookups fall
    back to the real process environment, and the merged file values are
    layered between the inherited environment and the explicit `env` map. */
module LegacyWrapper {
  import opened Base
  import opened Json
  import opened FileSystem
  import opened Expansion
  import opened Environment
  import Text

  /** The parts of `WrapperConfig` that environment and command preparation
      read. A single `env_files` path is a list of one; `None` is the empty list. */
  datatype WrapperConfig = WrapperConfig(args: seq<string>, envFiles: seq<string>, env: Env, inheritEnv: bool)

  // ---------------------------------------------------------------------
  // _expand_env_value
  // ---------------------------------------------------------------------

  /** The names `_expand_env_value` resolves: the environment built so far
      first, then the real process environment, otherwise "". */
  function LegacyScope(current: Env, environ: Env): (scope: Env)
    ensures forall n :: Resolve(scope, n) ==
                        (if n in current then current[n] else if n in environ then environ[n] else "")
  {
    environ + current
  }

  /** `_expand_env_value(value, current_env)`: one pass over `{$NAME}` only. */
  function ExpandEnvValue(value: string, current: Env, environ: Env): string
  {
    Expand(value, true, LegacyScope(current, environ))
  }

  /** A `{$NAME}` reference becomes the value of `NAME`, looked up in the
      environment being built, then the process environment. */
  lemma {:induction false} LegacyReferenceExpands(name: string, current: Env, environ: Env)
    requires ValidName(name)
    ensures ExpandEnvValue(RefText(name, Legacy), current, environ)
         == if name in current then current[name] else if name in environ then environ[name] else ""
  {
    var scope := LegacyScope(current, environ);
    ExpandRefFirst(name, Legacy, "", true, scope);
    assert RefText(name, Legacy) + "" == RefText(name, Legacy);
  }

  /** The envoy form `${NAME}` is not a reference here: it is kept verbatim. */
  lemma {:induction false} BracedReferenceKept(name: string, current: Env, environ: Env)
    requires ValidName(name)
    ensures ExpandEnvValue(RefText(name, Braced), current, environ) == RefText(name, Braced)
  {
    var scope := LegacyScope(current, environ);
    var s := RefText(name, Braced);
    assert s[0] == '$' && s[1] == '{';
    assert MatchAt(s, true).None?;
    ExpandNoMatch(s, true, scope);
    var t := s[1..];
    assert t == "{" + name + "}";
    assert '$' !in t by {
      forall i | 0 <= i < |t| ensures t[i] != '$' {
        if 1 <= i <= |name| {
          assert t[i] == name[i - 1] && IsNameChar(name[i - 1]);
        }
      }
    }
    ExpandWithoutDollar(t, true, scope);
  }

  // ---------------------------------------------------------------------
  // _normalize_path and _process_env_value
  // ---------------------------------------------------------------------

  /** `_normalize_path`: forward slashes become backslashes on Windows. */
  function NormalizePath(path: string, isWindows: bool): (r: string)
    ensures |r| == |path|
    ensures isWindows ==> '/' !in r
    ensures !isWindows || '/' !in path ==> r == path
    ensures forall i :: 0 <= i < |path| && path[i] != '/' ==> r[i] == path[i]
  {
    if isWindows then Text.ReplaceChar(path, '/', '\\') else path
  }

  function NormalizeEach(parts: seq<string>, isWindows: bool): (r: seq<string>)
    ensures |r| == |parts| && forall i :: 0 <= i < |parts| ==> r[i] == NormalizePath(parts[i], isWindows)
  {
    if parts == [] then [] else [NormalizePath(parts[0], isWindows)] + NormalizeEach(parts[1..], isWindows)
  }

  /** `_process_env_value(value, merged_env)`: each list item, or the value
      itself, goes through `str()` and is normalised; list items are joined
      with the path-list separator; the text is then expanded. */
  function ProcessEnvValue(value: Json, merged: Env, environ: Env, isWindows: bool): string
  {
    var text := if value.JArray? then Text.Join([PathListSep(isWindows)], NormalizeEach(StrAll(value.items), isWindows))
                else NormalizePath(Str(value), isWindows);
    ExpandEnvValue(text, merged, environ)
  }

  lemma NormalizeConcat(a: string, b: string, isWindows: bool)
    ensures NormalizePath(a + b, isWindows) == NormalizePath(a, isWindows) + NormalizePath(b, isWindows)
  {
    var l := NormalizePath(a + b, isWindows);
    var r := NormalizePath(a, isWindows) + NormalizePath(b, isWindows);
    assert forall i :: 0 <= i < |l| ==> l[i] == r[i] by {
      forall i | 0 <= i < |l| ensures l[i] == r[i] {
        if isWindows {
          if i < |a| {
            assert (a + b)[i] == a[i];
          } else {
            assert (a + b)[i] == b[i - |a|];
          }
        }
      }
    }
  }

  /** Normalising each piece and then joining is normalising the joined text,
      since the separator is not a slash. */
  lemma {:induction false} NormalizeJoin(sep: char, parts: seq<string>, isWindows: bool)
    requires sep != '/'
    ensures NormalizePath(Text.Join([sep], parts), isWindows) == Text.Join([sep], NormalizeEach(parts, isWindows))
    decreases |parts|
  {
    if |parts| == 0 {
    } else if |parts| == 1 {
      assert NormalizeEach(parts, isWindows) == [NormalizePath(parts[0], isWindows)];
    } else {
      var rest := parts[1..];
      NormalizeJoin(sep, rest, isWindows);
      NormalizeConcat(parts[0] + [sep], Text.Join([sep], rest), isWindows);
      NormalizeConcat(parts[0], [sep], isWindows);
      assert NormalizePath([sep], isWindows) == [sep];
      var ns := NormalizeEach(parts, isWindows);
      assert ns[1..] == NormalizeEach(rest, isWindows);
    }
  }

  /** A list value is processed exactly like the string its items join to:
      normalisation commutes with joining, and expansion comes last. */
  lemma ListIsJoinedPath(items: seq<Json>, merged: Env, environ: Env, isWindows: bool)
    ensures ProcessEnvValue(JArray(items), merged, environ, isWindows)
         == ProcessEnvValue(JString(Text.Join([PathListSep(isWindows)], StrAll(items))), merged, environ, isWindows)
  {
    NormalizeJoin(PathListSep(isWindows), StrAll(items), isWindows);
  }

  /** Text brought in by expansion is not normalised: a `{$NAME}` value keeps
      its forward slashes even on Windows. */
  lemma ExpandedTextNotNormalized(name: string, merged: Env, environ: Env, isWindows: bool)
    requires ValidName(name)
    ensures ProcessEnvValue(JString(RefText(name, Legacy)), merged, environ, isWindows)
         == if name in merged then merged[name] else if name in environ then environ[name] else ""
  {
    var s := RefText(name, Legacy);
    assert '/' !in s by {
      forall i | 0 <= i < |s| ensures s[i] != '/' {
        if 2 <= i < |name| + 2 {
          assert s[i] == name[i - 2] && IsNameChar(name[i - 2]);
        }
      }
    }
    LegacyReferenceExpands(name, merged, environ);
  }

  // ---------------------------------------------------------------------
  // One entry of a file
  // ---------------------------------------------------------------------

  /** Splits `+=` or `^=` off a key. Every other key, `?=NAME` included,
      names the variable it spells. */
  function SplitLegacyKey(key: string): (r: (Op, string))
    ensures Prefix(r.0) + r.1 == key
    ensures r.0 != Default
    ensures r.0 == Assign <==> |key| < 2 || key[..2] !in {"+=", "^="}
  {
    if |key| >= 2 && key[..2] == "+=" then (Append, key[2..])
    else if |key| >= 2 && key[..2] == "^=" then (Prepend, key[2..])
    else (Assign, key)
  }

  /** The value `+=` and `^=` extend: `merged_env.get(name) or
      os.environ.get(name, '')`, so an empty merged value falls through to the
      process environment. */
  function CurrentValue(merged: Env, environ: Env, name: string): (cur: string)
    ensures name in merged && merged[name] != "" ==> cur == merged[name]
    ensures (name !in merged || merged[name] == "") ==> cur == if name in environ then environ[name] else ""
  {
    if name in merged && merged[name] != "" then merged[name]
    else if name in environ then environ[name]
    else ""
  }

  /** One processed entry applied to the merged map. */
  function ApplyLegacyEntry(merged: Env, environ: Env, op: Op, name: string, value: string, sep: char): (r: Env)
    requires op != Default
    ensures r.Keys == merged.Keys + {name}
    ensures forall k :: k in merged && k != name ==> r[k] == merged[k]
    ensures op == Assign ==> r[name] == value
    ensures op != Assign && CurrentValue(merged, environ, name) == "" ==> r[name] == value
    ensures op == Append && CurrentValue(merged, environ, name) != "" ==>
              r[name] == CurrentValue(merged, environ, name) + [sep] + value
    ensures op == Prepend && CurrentValue(merged, environ, name) != "" ==>
              r[name] == value + [sep] + CurrentValue(merged, environ, name)
  {
    var cur := CurrentValue(merged, environ, name);
    match op
    case Assign => merged[name := value]
    case Append => merged[name := if cur != "" then cur + [sep] + value else value]
    case Prepend => merged[name := if cur != "" then value + [sep] + cur else value]
  }

  /** Unlike envoy's, the wrapper's `+=` extends the process environment's
      value when the files have not set the variable. */
  lemma AppendExtendsProcessValue(merged: Env, environ: Env, name: string, value: string, sep: char)
    requires name !in merged && name in environ && environ[name] != ""
    ensures ApplyLegacyEntry(merged, environ, Append, name, value, sep)[name] == environ[name] + [sep] + value
    ensures ApplyLegacyEntry(merged, environ, Prepend, name, value, sep)[name] == value + [sep] + environ[name]
  {
  }

  /** `?=` is no operator in the wrapper: `?=NAME` is assigned as is. */
  lemma DefaultIsPlainKey(name: string)
    ensures SplitLegacyKey("?=" + name) == (Assign, "?=" + name)
  {
    assert ("?=" + name)[..2] == "?=";
  }

  /** The entries of one file, in order, folded into the merged map. */
  function ApplyEntries(merged: Env, environ: Env, items: seq<(string, Json)>, isWindows: bool): Env
    decreases |items|
  {
    if items == [] then merged
    else
      var (op, name) := SplitLegacyKey(items[0].0);
      var processed := ProcessEnvValue(items[0].1, merged, environ, isWindows);
      ApplyEntries(ApplyLegacyEntry(merged, environ, op, name, processed, PathListSep(isWindows)), environ, items[1..], isWindows)
  }

  /** The variable an entry writes. */
  function Target(item: (string, Json)): string
  {
    SplitLegacyKey(item.0).1
  }

  /** Some entry writes the variable `n`. */
  predicate Writes(items: seq<(string, Json)>, n: string)
  {
    exists k :: 0 <= k < |items| && Target(items[k]) == n
  }

  lemma WritesCons(items: seq<(string, Json)>, n: string)
    requires items != []
    ensures Writes(items, n) <==> Target(items[0]) == n || Writes(items[1..], n)
  {
    if Writes(items, n) {
      var k :| 0 <= k < |items| && Target(items[k]) == n;
      if k > 0 {
        assert items[1..][k - 1] == items[k];
      }
    }
    if Writes(items[1..], n) {
      var k :| 0 <= k < |items[1..]| && Target(items[1..][k]) == n;
      assert items[k + 1] == items[1..][k];
    }
  }

  /** A file's entries define exactly the names they write, on top of what was
      there; every other variable keeps its value. */
  lemma {:induction false} ApplyEntriesKeys(merged: Env, environ: Env, items: seq<(string, Json)>, isWindows: bool,
                                            n: string)
    ensures n in ApplyEntries(merged, environ, items, isWindows) <==> n in merged || Writes(items, n)
    ensures n in merged && !Writes(items, n) ==> ApplyEntries(merged, environ, items, isWindows)[n] == merged[n]
    decreases |items|
  {
    if items != [] {
      var (op, name) := SplitLegacyKey(items[0].0);
      var processed := ProcessEnvValue(items[0].1, merged, environ, isWindows);
      var next := ApplyLegacyEntry(merged, environ, op, name, processed, PathListSep(isWindows));
      ApplyEntriesKeys(next, environ, items[1..], isWindows, n);
      WritesCons(items, n);
    }
  }

  // ---------------------------------------------------------------------
  // _load_env_from_files
  // ---------------------------------------------------------------------

  /** The items of one environment file, or the `WrapperError` it raises.
      The "must contain a JSON object" error is raised inside the `try` and so
      re-raised by its `except Exception` as a read failure. */
  function FileEntries(fs: Node, path: Path): (r: Result<seq<(string, Json)>>)
    ensures r.Err? ==> r.error.WrapperError?
    ensures r == Err(WrapperError(FileNotFound(path))) <==> !Exists(fs, path)
    ensures r.Ok? <==> Read(fs, path).Doc? && Read(fs, path).doc.JObject?
  {
    match Read(fs, path)
    case Missing => Err(WrapperError(FileNotFound(path)))
    case Directory => Err(WrapperError(ReadFailure(path)))
    case Invalid => Err(WrapperError(InvalidJson(path)))
    case Doc(doc) =>
      if doc.JObject? then Ok(DictItems(doc.entries)) else Err(WrapperError(ReadFailure(path)))
  }

  /** The files in order, each folded into the map the previous ones left. */
  function MergeFiles(fs: Node, environ: Env, merged: Env, paths: seq<Path>, isWindows: bool): Result<Env>
    decreases |paths|
  {
    if paths == [] then Ok(merged)
    else
      var entries :- FileEntries(fs, paths[0]);
      MergeFiles(fs, environ, ApplyEntries(merged, environ, entries, isWindows), paths[1..], isWindows)
  }

  /** `Path(file_path)` for each configured file. */
  function Paths(files: seq<string>, cwd: Path, isWindows: bool): (r: seq<Path>)
    ensures |r| == |files| && forall i :: 0 <= i < |files| ==> r[i] == ParsePath(files[i], cwd, isWindows)
  {
    seq(|files|, i requires 0 <= i < |files| => ParsePath(files[i], cwd, isWindows))
  }

  /** What `_load_env_from_files` returns: the merge starts from an empty map. */
  function EnvFromFiles(host: Host, cwd: Path, files: seq<string>): Result<Env>
  {
    MergeFiles(host.fs, host.environ, map[], Paths(files, cwd, host.isWindows), host.isWindows)
  }

  /** Loading fails exactly when some file fails, and then with the error of
      the first such file. */
  lemma {:induction false} MergeFilesErrors(fs: Node, environ: Env, merged: Env, paths: seq<Path>, isWindows: bool)
    ensures MergeFiles(fs, environ, merged, paths, isWindows).Err? <==>
            exists i :: 0 <= i < |paths| && FileEntries(fs, paths[i]).Err?
    ensures MergeFiles(fs, environ, merged, paths, isWindows).Err? ==>
            exists i :: 0 <= i < |paths| && FileEntries(fs, paths[i]).Err?
                        && MergeFiles(fs, environ, merged, paths, isWindows).error == FileEntries(fs, paths[i]).error
                        && forall j :: 0 <= j < i ==> FileEntries(fs, paths[j]).Ok?
    decreases |paths|
  {
    if paths != [] {
      var got := FileEntries(fs, paths[0]);
      if got.Ok? {
        var rest := paths[1..];
        MergeFilesErrors(fs, environ, ApplyEntries(merged, environ, got.value, isWindows), rest, isWindows);
        if exists i :: 0 <= i < |paths| && FileEntries(fs, paths[i]).Err? {
          var i :| 0 <= i < |paths| && FileEntries(fs, paths[i]).Err?;
          assert rest[i - 1] == paths[i];
        }
        if MergeFiles(fs, environ, merged, paths, isWindows).Err? {
          var i :| 0 <= i < |rest| && FileEntries(fs, rest[i]).Err?
                   && MergeFiles(fs, environ, merged, paths, isWindows).error == FileEntries(fs, rest[i]).error
                   && forall j :: 0 <= j < i ==> FileEntries(fs, rest[j]).Ok?;
          assert paths[i + 1] == rest[i];
          assert forall j :: 0 <= j < i + 1 ==> FileEntries(fs, paths[j]).Ok? by {
            forall j | 0 <= j < i + 1 ensures FileEntries(fs, paths[j]).Ok? {
              if j > 0 {
                assert paths[j] == rest[j - 1];
              }
            }
          }
        }
      }
    }
  }

  /** Later files are applied to what earlier files produced: loading a
      concatenation is loading the second list on top of the first. */
  lemma {:induction false} MergeFilesAppend(fs: Node, environ: Env, merged: Env, a: seq<Path>, b: seq<Path>,
                                            isWindows: bool)
    ensures MergeFiles(fs, environ, merged, a + b, isWindows) ==
            match MergeFiles(fs, environ, merged, a, isWindows)
            case Ok(m) => MergeFiles(fs, environ, m, b, isWindows)
            case Err(e) => Err(e)
    decreases |a|
  {
    if a == [] {
      assert a + b == b;
    } else {
      assert (a + b)[0] == a[0] && (a + b)[1..] == a[1..] + b;
      var got := FileEntries(fs, a[0]);
      if got.Ok? {
        MergeFilesAppend(fs, environ, ApplyEntries(merged, environ, got.value, isWindows), a[1..], b, isWindows);
      }
    }
  }

  /** The entry loop of one file. */
  method ProcessEntries(merged: Env, environ: Env, items: seq<(string, Json)>, isWindows: bool) returns (r: Env)
    ensures r == ApplyEntries(merged, environ, items, isWindows)
  {
    r := merged;
    var k := 0;
    while k < |items|
      invariant 0 <= k <= |items|
      invariant ApplyEntries(merged, environ, items, isWindows) == ApplyEntries(r, environ, items[k..], isWindows)
    {
      assert items[k..][0] == items[k] && items[k..][1..] == items[k + 1..];
      var (key, value) := items[k];
      var (op, name) := SplitLegacyKey(key);
      var processed := ProcessEnvValue(value, r, environ, isWindows);
      r := ApplyLegacyEntry(r, environ, op, name, processed, PathListSep(isWindows));
      k := k + 1;
    }
    assert items[k..] == [];
  }

  /** The file loop of `_load_env_from_files`. */
  method MergeLoop(fs: Node, environ: Env, paths: seq<Path>, isWindows: bool) returns (r: Result<Env>)
    ensures r == MergeFiles(fs, environ, map[], paths, isWindows)
  {
    var merged: Env := map[];
    var j := 0;
    while j < |paths|
      invariant 0 <= j <= |paths|
      invariant MergeFiles(fs, environ, map[], paths, isWindows) == MergeFiles(fs, environ, merged, paths[j..], isWindows)
    {
      assert paths[j..][0] == paths[j] && paths[j..][1..] == paths[j + 1..];
      var entries := FileEntries(fs, paths[j]);
      if entries.Err? {
        return Err(entries.error);
      }
      merged := ProcessEntries(merged, environ, entries.value, isWindows);
      j := j + 1;
    }
    assert paths[j..] == [];
    return Ok(merged);
  }

  /** `_load_env_from_files`: no files give `{}`; otherwise every file in
      order, the first failing one raising its `WrapperError`. */
  method LoadEnvFromFiles(host: Host, cwd: Path, files: seq<string>) returns (r: Result<Env>)
    ensures files == [] ==> r == Ok(map[])
    ensures r == EnvFromFiles(host, cwd, files)
  {
    if files == [] {
      return Ok(map[]);
    }
    r := MergeLoop(host.fs, host.environ, Paths(files, cwd, host.isWindows), host.isWindows);
  }

  // ---------------------------------------------------------------------
  // _prepare_environment and _prepare_command
  // ---------------------------------------------------------------------

  /** The three layers, later overriding earlier: the inherited environment,
      the file values, the explicit map. */
  function Layered(inherited: Env, fromFiles: Env, explicit: Env): (r: Env)
    ensures forall k :: k in r <==> k in explicit || k in fromFiles || k in inherited
    ensures forall k :: k in r ==>
              r[k] == if k in explicit then explicit[k] else if k in fromFiles then fromFiles[k] else inherited[k]
  {
    inherited + fromFiles + explicit
  }

  /** What `_prepare_environment` returns, or the error loading the files raises. */
  function Prepared(host: Host, cwd: Path, config: WrapperConfig): (r: Result<Env>)
    ensures r.Err? <==> EnvFromFiles(host, cwd, config.envFiles).Err?
  {
    var fromFiles :- EnvFromFiles(host, cwd, config.envFiles);
    Ok(Layered(if config.inheritEnv then host.environ else map[], fromFiles, config.env))
  }

  /** Without inheritance the child sees only what the files and the explicit
      map define; with it, every process variable is kept unless overridden. */
  lemma PreparedScope(host: Host, cwd: Path, config: WrapperConfig)
    requires Prepared(host, cwd, config).Ok?
    ensures var env := Prepared(host, cwd, config).value;
            var files := EnvFromFiles(host, cwd, config.envFiles).value;
            (forall k :: k in env <==> k in config.env || k in files || (config.inheritEnv && k in host.environ))
            && (forall k :: k in config.env ==> env[k] == config.env[k])
            && (forall k :: k in files && k !in config.env ==> env[k] == files[k])
            && (config.inheritEnv ==> forall k :: k in host.environ && k !in files && k !in config.env ==>
                                                env[k] == host.environ[k])
  {
  }

  /** `_prepare_environment`. */
  method PrepareEnvironment(host: Host, cwd: Path, config: WrapperConfig) returns (r: Result<Env>)
    ensures r == Prepared(host, cwd, config)
  {
    var env: Env := if config.inheritEnv then host.environ else map[];
    var fromFiles :- LoadEnvFromFiles(host, cwd, config.envFiles);
    env := env + fromFiles;
    if config.env != map[] {
      env := env + config.env;
    }
    assert env == Layered(if config.inheritEnv then host.environ else map[], fromFiles, config.env);
    return Ok(env);
  }

  /** `_prepare_command`: the resolved executable, then the configured
      arguments. Resolving the executable is an input here. */
  function PrepareCommand(resolved: Result<string>, config: WrapperConfig): (r: Result<seq<string>>)
    ensures r.Err? <==> resolved.Err?
    ensures r.Err? ==> r.error == resolved.error
    ensures r.Ok? ==> |r.value| == |config.args| + 1 && r.value[0] == resolved.value && r.value[1..] == config.args
  {
    var exe :- resolved;
    Ok([exe] + config.args)
  }
}

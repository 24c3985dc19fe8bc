/** The environment composition engine (`EnvironmentManager`): per-file special
    variables, value processing, the operator-prefixed entries folded over the
    ordered environment files, the `environment_allowlist` pre-pass and the
    closed/inherit seed of `prepare_environment`. */
module Environment {
  import opened Base
  import opened Json
  import opened FileSystem
  import opened Expansion
  import Text

  type Env = map<string, string>

  /** Variables always carried into the child in closed mode. */
  const CoreEnvVars: set<string> := {
    "USERNAME", "USERPROFILE", "USERDOMAIN", "USERDOMAIN_ROAMINGPROFILE",
    "HOMEDRIVE", "HOMEPATH",
    "APPDATA", "LOCALAPPDATA", "PUBLIC",
    "TEMP", "TMP", "TMPDIR",
    "SystemRoot", "SystemDrive", "windir", "ProgramFiles", "ProgramFiles(x86)",
    "ProgramW6432", "CommonProgramFiles", "CommonProgramFiles(x86)", "CommonProgramW6432",
    "COMPUTERNAME", "OS", "PROCESSOR_ARCHITECTURE", "PROCESSOR_IDENTIFIER",
    "PROCESSOR_LEVEL", "PROCESSOR_REVISION", "NUMBER_OF_PROCESSORS",
    "COMSPEC", "TERM", "TERM_PROGRAM", "COLORTERM",
    "HOME", "USER", "LOGNAME", "SHELL",
    "LANG", "LC_ALL", "LC_CTYPE", "LC_MESSAGES",
    "XDG_RUNTIME_DIR", "XDG_CONFIG_HOME", "XDG_DATA_HOME", "XDG_CACHE_HOME"
  }

  /** Envoy's own discovery variables, also always carried through. */
  const EnvoyEnvVars: set<string> := {"ENVOY_BNDL_ROOTS", "ENVOY_ALLOWLIST", "ENVOY_BUNDLES_CONFIG"}

  /** An `EnvironmentManager`: its mode and its user allowlist (`allowlist or set()`). */
  datatype Manager = Manager(inheritEnv: bool, allowlist: set<string>)

  // ---------------------------------------------------------------------
  // Expansion scope and value processing
  // ---------------------------------------------------------------------

  /** The names `expand_env_value` can resolve: special variables take priority
      over the environment built so far; anything else resolves to "". */
  function Scope(current: Env, special: Env): (scope: Env)
    ensures forall n :: Resolve(scope, n) ==
                        (if n in special then special[n] else if n in current then current[n] else "")
  {
    current + special
  }

  /** `expand_env_value(value, current_env, special_vars)`. */
  function ExpandValue(value: string, current: Env, special: Env): string
  {
    Expand(value, false, Scope(current, special))
  }

  function StrAll(items: seq<Json>): (r: seq<string>)
    ensures |r| == |items| && forall i :: 0 <= i < |items| ==> r[i] == Str(items[i])
  {
    if items == [] then [] else [Str(items[0])] + StrAll(items[1..])
  }

  /** `process_env_value`: a list is joined with the path-list separator, any
      other value goes through `str()`; the text is then expanded. */
  function ProcessValue(value: Json, current: Env, special: Env, isWindows: bool): string
  {
    var text := if value.JArray? then Text.Join([PathListSep(isWindows)], StrAll(value.items))
                else Str(value);
    ExpandValue(text, current, special)
  }

  /** A list value is processed exactly like the joined string: joining comes
      before expansion, so a reference may even span two items. */
  lemma ListIsJoinedString(items: seq<Json>, current: Env, special: Env, isWindows: bool)
    ensures ProcessValue(JArray(items), current, special, isWindows)
         == ProcessValue(JString(Text.Join([PathListSep(isWindows)], StrAll(items))), current, special, isWindows)
  {
  }

  // ---------------------------------------------------------------------
  // Special variables
  // ---------------------------------------------------------------------

  /** The nearest directory among `dir` and its ancestors whose name is `name`. */
  function NearestNamed(dir: Path, name: string): (r: Option<Path>)
    ensures r.Some? ==> 1 <= |r.value| <= |dir| && r.value == dir[..|r.value|]
                        && Name(r.value) == name
                        && forall k :: |r.value| <= k < |dir| ==> dir[k] != name
    ensures r.None? ==> forall k :: 0 <= k < |dir| ==> dir[k] != name
  {
    if dir == [] then None
    else if dir[|dir| - 1] == name then Some(dir)
    else
      var up := NearestNamed(dir[..|dir| - 1], name);
      if up.Some? then
        assert dir[..|dir| - 1][..|up.value|] == dir[..|up.value|];
        up
      else up
  }

  /** `str(path).replace('\\', '/')`. */
  function Slashed(p: Path, isWindows: bool): (r: string)
    ensures '\\' !in r
  {
    Text.ReplaceChar(PathStr(p, isWindows), '\\', '/')
  }

  /** `get_special_variables(file)` for a resolved file path. */
  function SpecialVariables(file: Path, isWindows: bool): (sv: Env)
    ensures sv.Keys == {"__FILE__", "__BUNDLE__", "__BUNDLE_ENV__", "__BUNDLE_NAME__"}
    ensures '\\' !in sv["__FILE__"] && '\\' !in sv["__BUNDLE__"] && '\\' !in sv["__BUNDLE_ENV__"]
  {
    var current := Parent(file);
    var envDir := match NearestNamed(current, "envoy_env") case Some(d) => d case None => current;
    var root := if NearestNamed(current, "envoy_env").Some? then Parent(envDir) else current;
    map["__FILE__" := Slashed(file, isWindows),
        "__BUNDLE__" := Slashed(root, isWindows),
        "__BUNDLE_ENV__" := Slashed(envDir, isWindows),
        "__BUNDLE_NAME__" := Name(root)]
  }

  /** When the file lies below a directory named `envoy_env`, the nearest such
      directory is `__BUNDLE_ENV__` and its parent is the bundle. */
  lemma SpecialVariablesInBundle(file: Path, isWindows: bool, k: nat)
    requires 1 <= k <= |Parent(file)| && Parent(file)[k - 1] == "envoy_env"
    requires forall j :: k <= j < |Parent(file)| ==> Parent(file)[j] != "envoy_env"
    ensures var sv := SpecialVariables(file, isWindows);
            sv["__BUNDLE_ENV__"] == Slashed(file[..k], isWindows)
            && sv["__BUNDLE__"] == Slashed(file[..k - 1], isWindows)
            && sv["__BUNDLE_NAME__"] == Name(file[..k - 1])
            && sv["__FILE__"] == Slashed(file, isWindows)
  {
    var current := Parent(file);
    var d := NearestNamed(current, "envoy_env");
    assert d.Some?;
    assert |d.value| == k;
    assert current[..k] == file[..k];
    assert Parent(d.value) == file[..k - 1];
  }

  /** Without an `envoy_env` ancestor the file's own directory is both the bundle
      and its environment directory. */
  lemma SpecialVariablesOutsideBundle(file: Path, isWindows: bool)
    requires "envoy_env" !in Parent(file)
    ensures var sv := SpecialVariables(file, isWindows);
            sv["__BUNDLE_ENV__"] == sv["__BUNDLE__"] == Slashed(Parent(file), isWindows)
            && sv["__BUNDLE_NAME__"] == Name(Parent(file))
  {
    assert NearestNamed(Parent(file), "envoy_env").None?;
  }

  // ---------------------------------------------------------------------
  // Operators
  // ---------------------------------------------------------------------

  /** `?=` default, `+=` append, `^=` prepend, or a bare key (assign). */
  datatype Op = Assign | Default | Append | Prepend

  function Prefix(op: Op): string
  {
    match op
    case Assign => ""
    case Default => "?="
    case Append => "+="
    case Prepend => "^="
  }

  /** Splits one operator prefix off a key, checking `?=`, `+=` and `^=` in turn. */
  function SplitKey(key: string): (r: (Op, string))
    ensures Prefix(r.0) + r.1 == key
    ensures r.0 == Assign ==> |key| < 2 || key[..2] !in {"?=", "+=", "^="}
  {
    if |key| >= 2 && key[..2] == "?=" then (Default, key[2..])
    else if |key| >= 2 && key[..2] == "+=" then (Append, key[2..])
    else if |key| >= 2 && key[..2] == "^=" then (Prepend, key[2..])
    else (Assign, key)
  }

  /** Writing an operator in front of a name is undone by `SplitKey`; only that one
      prefix is removed, so `+=+=X` appends to the variable `+=X`. */
  lemma SplitKeyPrefix(op: Op, name: string)
    requires op != Assign
    ensures SplitKey(Prefix(op) + name) == (op, name)
  {
    var key := Prefix(op) + name;
    assert key[..2] == Prefix(op) && key[2..] == name;
  }

  /** One entry applied to the environment built so far. */
  function ApplyEntry(env: Env, op: Op, name: string, value: string, sep: char): (r: Env)
    ensures r.Keys == env.Keys + {name}
    ensures forall k :: k in env && k != name ==> r[k] == env[k]
    ensures op == Default ==> r[name] == if name in env then env[name] else value
    ensures op == Assign ==> r[name] == value
    ensures op == Append && name in env && env[name] != "" ==> r[name] == env[name] + [sep] + value
    ensures op == Prepend && name in env && env[name] != "" ==> r[name] == value + [sep] + env[name]
    ensures (op == Append || op == Prepend) && (name !in env || env[name] == "") ==> r[name] == value
  {
    match op
    case Assign => env[name := value]
    case Default => if name in env then env else env[name := value]
    case Append =>
      var cur := if name in env then env[name] else "";
      env[name := if cur != "" then cur + [sep] + value else value]
    case Prepend =>
      var cur := if name in env then env[name] else "";
      env[name := if cur != "" then value + [sep] + cur else value]
  }

  /** `+=` and `^=` on an absent or empty variable simply set it. */
  lemma AppendToEmptyAssigns(env: Env, name: string, value: string, sep: char)
    requires name !in env || env[name] == ""
    ensures ApplyEntry(env, Append, name, value, sep) == ApplyEntry(env, Assign, name, value, sep)
    ensures ApplyEntry(env, Prepend, name, value, sep) == ApplyEntry(env, Assign, name, value, sep)
  {
  }

  /** On a non-empty value, `^=` puts the new text before and `+=` after. */
  lemma PrependThenAppend(env: Env, name: string, x: string, y: string, sep: char)
    requires name in env && env[name] != ""
    ensures ApplyEntry(ApplyEntry(env, Prepend, name, x, sep), Append, name, y, sep)[name]
            == x + [sep] + env[name] + [sep] + y
  {
  }

  /** Once any entry has set a name, a later `?=` for it changes nothing. */
  lemma DefaultNeverOverrides(env: Env, op: Op, name: string, v: string, w: string, sep: char)
    ensures var e := ApplyEntry(env, op, name, v, sep);
            ApplyEntry(e, Default, name, w, sep) == e
  {
  }

  /** A bare key overwrites whatever earlier entries left. */
  lemma AssignOverrides(env: Env, op: Op, name: string, v: string, w: string, sep: char)
    ensures ApplyEntry(ApplyEntry(env, op, name, v, sep), Assign, name, w, sep) == env[name := w]
  {
  }

  // ---------------------------------------------------------------------
  // The entries of one file
  // ---------------------------------------------------------------------

  predicate IsPair(j: Json)
  {
    j.JArray? && |j.items| == 2
  }

  /** The index of the first entry that is not a `[key, value]` pair. */
  function FirstNonPair(es: seq<Json>): (r: Option<nat>)
    ensures r.Some? ==> r.value < |es| && !IsPair(es[r.value])
                        && forall i :: 0 <= i < r.value ==> IsPair(es[i])
    ensures r.None? ==> forall i :: 0 <= i < |es| ==> IsPair(es[i])
  {
    if es == [] then None
    else if !IsPair(es[0]) then Some(0)
    else match FirstNonPair(es[1..])
      case None => None
      case Some(i) => Some(i + 1)
  }

  /** The `(key, value)` items of a list of pairs, or the error for the first
      entry that is not a pair. */
  function PairItems(path: Path, es: seq<Json>): (r: Result<seq<(Json, Json)>>)
    ensures r.Ok? <==> forall i :: 0 <= i < |es| ==> IsPair(es[i])
    ensures r.Ok? ==> |r.value| == |es|
                      && forall i :: 0 <= i < |es| ==> r.value[i] == (es[i].items[0], es[i].items[1])
  {
    match FirstNonPair(es)
    case Some(i) => Err(WrapperError(BadPair(path, i)))
    case None => Ok(seq(|es|, i requires 0 <= i < |es| => (es[i].items[0], es[i].items[1])))
  }

  /** The `(key, value)` items of an object, as `dict.items()` lists them. */
  function ObjectItems(entries: seq<(string, Json)>): (r: seq<(Json, Json)>)
  {
    var d := DictItems(entries);
    seq(|d|, i requires 0 <= i < |d| => (JString(d[i].0), d[i].1))
  }

  /** The items a file contributes, in declaration order: a top-level list of
      pairs, an object's `environment` (an object or a list of pairs), or the
      flat object itself. */
  function FileItems(path: Path, data: Json): (r: Result<seq<(Json, Json)>>)
    ensures r.Err? ==> r.error.WrapperError?
    ensures !data.JArray? && !data.JObject? ==> r == Err(WrapperError(NotObjectOrArray(path)))
    ensures data.JArray? ==> r == PairItems(path, data.items)
    ensures data.JObject? && Get(data.entries, "environment").None? ==> r == Ok(ObjectItems(data.entries))
    ensures data.JObject? && Get(data.entries, "environment").Some? ==>
              var e := Get(data.entries, "environment").value;
              r == if e.JObject? then Ok(ObjectItems(e.entries))
                   else if e.JArray? then PairItems(path, e.items)
                   else Err(WrapperError(BadEnvironmentField(path)))
  {
    match data
    case JArray(es) => PairItems(path, es)
    case JObject(entries) =>
      (match Get(entries, "environment")
       case None => Ok(ObjectItems(entries))
       case Some(JObject(e)) => Ok(ObjectItems(e))
       case Some(JArray(es)) => PairItems(path, es)
       case Some(_) => Err(WrapperError(BadEnvironmentField(path))))
    case _ => Err(WrapperError(NotObjectOrArray(path)))
  }

  /** The items folded into `env` in order, each value expanded against the map
      as it stands when the item is reached. A key that is not a string raises
      AttributeError, which the file's handler re-raises as WrapperError. */
  function ApplyItems(env: Env, items: seq<(Json, Json)>, special: Env, path: Path, isWindows: bool): (r: Result<Env>)
    ensures r.Err? ==> r.error == WrapperError(ReadFailure(path))
    decreases |items|
  {
    if items == [] then Ok(env)
    else match items[0].0
      case JString(key) =>
        var (op, name) := SplitKey(key);
        var value := ProcessValue(items[0].1, env, special, isWindows);
        ApplyItems(ApplyEntry(env, op, name, value, PathListSep(isWindows)), items[1..], special, path, isWindows)
      case _ => Err(WrapperError(ReadFailure(path)))
  }

  /** Entries only ever add or update variables. */
  lemma {:induction false} ApplyItemsKeepsKeys(env: Env, items: seq<(Json, Json)>, special: Env, path: Path, isWindows: bool)
    requires ApplyItems(env, items, special, path, isWindows).Ok?
    ensures env.Keys <= ApplyItems(env, items, special, path, isWindows).value.Keys
    decreases |items|
  {
    if items != [] {
      var (op, n) := SplitKey(items[0].0.s);
      var value := ProcessValue(items[0].1, env, special, isWindows);
      ApplyItemsKeepsKeys(ApplyEntry(env, op, n, value, PathListSep(isWindows)), items[1..], special, path, isWindows);
    }
  }

  /** The name an item writes, if its key is a string. */
  predicate Writes(item: (Json, Json), name: string)
  {
    item.0.JString? && SplitKey(item.0.s).1 == name
  }

  /** An item whose key does not name a variable leaves that variable alone. */
  lemma {:induction false} ApplyItemsUntouched(env: Env, items: seq<(Json, Json)>, special: Env, path: Path,
                                               isWindows: bool, name: string)
    requires forall i :: 0 <= i < |items| ==> !Writes(items[i], name)
    requires ApplyItems(env, items, special, path, isWindows).Ok?
    ensures var m := ApplyItems(env, items, special, path, isWindows).value;
            (name in m <==> name in env) && (name in env ==> m[name] == env[name])
    decreases |items|
  {
    if items != [] {
      var (op, n) := SplitKey(items[0].0.s);
      var value := ProcessValue(items[0].1, env, special, isWindows);
      assert !Writes(items[0], name);
      ApplyItemsUntouched(ApplyEntry(env, op, n, value, PathListSep(isWindows)), items[1..], special, path, isWindows, name);
    }
  }

  /** The items of one file applied to `env`, with that file's special variables. */
  function ApplyFile(env: Env, file: (Path, Json), isWindows: bool): (r: Result<Env>)
    ensures r.Err? ==> r.error.WrapperError?
  {
    var items :- FileItems(file.0, file.1);
    ApplyItems(env, items, SpecialVariables(file.0, isWindows), file.0, isWindows)
  }

  /** The main pass: the files folded in order. */
  function ApplyFiles(env: Env, files: seq<(Path, Json)>, isWindows: bool): (r: Result<Env>)
    ensures r.Err? ==> r.error.WrapperError?
    decreases |files|
  {
    if files == [] then Ok(env)
    else
      var e :- ApplyFile(env, files[0], isWindows);
      ApplyFiles(e, files[1..], isWindows)
  }

  /** No file removes a variable. */
  lemma {:induction false} ApplyFilesKeepsKeys(env: Env, files: seq<(Path, Json)>, isWindows: bool)
    requires ApplyFiles(env, files, isWindows).Ok?
    ensures env.Keys <= ApplyFiles(env, files, isWindows).value.Keys
    decreases |files|
  {
    if files != [] {
      var items := FileItems(files[0].0, files[0].1).value;
      ApplyItemsKeepsKeys(env, items, SpecialVariables(files[0].0, isWindows), files[0].0, isWindows);
      ApplyFilesKeepsKeys(ApplyFile(env, files[0], isWindows).value, files[1..], isWindows);
    }
  }

  /** Processing a list of files is processing its first part, then the rest
      from where the first part left the map. */
  lemma {:induction false} ApplyFilesAppend(env: Env, a: seq<(Path, Json)>, b: seq<(Path, Json)>, isWindows: bool)
    ensures ApplyFiles(env, a + b, isWindows) ==
            match ApplyFiles(env, a, isWindows)
            case Ok(m) => ApplyFiles(m, b, isWindows)
            case Err(e) => Err(e)
    decreases |a|
  {
    if a == [] {
      assert a + b == b;
    } else {
      assert (a + b)[0] == a[0];
      assert (a + b)[1..] == a[1..] + b;
      match ApplyFile(env, a[0], isWindows)
      case Ok(e) => ApplyFilesAppend(e, a[1..], b, isWindows);
      case Err(_) =>
    }
  }

  /** Whether some file's items write `name`. */
  predicate FilesWrite(files: seq<(Path, Json)>, name: string)
  {
    exists j, i :: 0 <= j < |files| && FileItems(files[j].0, files[j].1).Ok?
                   && 0 <= i < |FileItems(files[j].0, files[j].1).value|
                   && Writes(FileItems(files[j].0, files[j].1).value[i], name)
  }

  /** A variable no file writes keeps its seeded value, or stays absent. */
  lemma {:induction false} ApplyFilesUntouched(env: Env, files: seq<(Path, Json)>, isWindows: bool, name: string)
    requires !FilesWrite(files, name)
    requires ApplyFiles(env, files, isWindows).Ok?
    ensures var m := ApplyFiles(env, files, isWindows).value;
            (name in m <==> name in env) && (name in env ==> m[name] == env[name])
    decreases |files|
  {
    if files != [] {
      var items := FileItems(files[0].0, files[0].1).value;
      assert forall i :: 0 <= i < |items| ==> !Writes(items[i], name);
      var sv := SpecialVariables(files[0].0, isWindows);
      ApplyItemsUntouched(env, items, sv, files[0].0, isWindows, name);
      var e := ApplyFile(env, files[0], isWindows).value;
      assert !FilesWrite(files[1..], name);
      ApplyFilesUntouched(e, files[1..], isWindows, name);
    }
  }

  // ---------------------------------------------------------------------
  // The pre-pass
  // ---------------------------------------------------------------------

  /** Reading every file before any entry is processed: the first missing,
      unreadable or malformed file stops the load. */
  function ParseAll(fs: Node, files: seq<Path>): (r: Result<seq<(Path, Json)>>)
    ensures r.Ok? ==> |r.value| == |files| && forall i :: 0 <= i < |files| ==>
                        r.value[i].0 == files[i] && Read(fs, files[i]) == Doc(r.value[i].1)
    decreases |files|
  {
    if files == [] then Ok([])
    else
      var head :- ReadOne(fs, files[0]);
      var rest :- ParseAll(fs, files[1..]);
      Ok([head] + rest)
  }

  /** Reading one file: a missing file and invalid JSON raise WrapperError, a
      directory raises an uncaught OSError. */
  function ReadOne(fs: Node, p: Path): (r: Result<(Path, Json)>)
    ensures r.Ok? <==> Read(fs, p).Doc?
    ensures r.Ok? ==> r.value == (p, Read(fs, p).doc)
    ensures Read(fs, p).Missing? ==> r == Err(WrapperError(FileNotFound(p)))
    ensures Read(fs, p).Invalid? ==> r == Err(WrapperError(InvalidJson(p)))
    ensures Read(fs, p).Directory? ==> r == Err(Uncaught(Some(p)))
  {
    match Read(fs, p)
    case Missing => Err(WrapperError(FileNotFound(p)))
    case Directory => Err(Uncaught(Some(p)))
    case Invalid => Err(WrapperError(InvalidJson(p)))
    case Doc(d) => Ok((p, d))
  }

  /** The `environment_allowlist` of a parsed file, iterated as Python does
      (`data.get('environment_allowlist', [])`); files that are not objects
      contribute nothing. */
  function AllowlistOf(data: Json): Result<seq<Json>>
  {
    if !data.JObject? then Ok([])
    else match Get(data.entries, "environment_allowlist")
      case None => Ok([])
      case Some(v) => Iterate(v)
  }

  /** Seeds each listed name from the real environment when it is not already in
      scope. A listed value that is not a string raises TypeError. */
  function SeedNames(env: Env, names: seq<Json>, environ: Env): (r: Result<Env>)
    ensures r.Ok? <==> forall i :: 0 <= i < |names| ==> names[i].JString?
    ensures r.Err? ==> r.error == Uncaught(None)
    ensures r.Ok? ==> forall k :: k in env ==> k in r.value && r.value[k] == env[k]
    ensures r.Ok? ==> forall k :: k in r.value && k !in env ==>
                        JString(k) in names && k in environ && r.value[k] == environ[k]
    ensures r.Ok? ==> forall k :: JString(k) in names && k in environ ==> k in r.value
    decreases |names|
  {
    if names == [] then Ok(env)
    else match names[0]
      case JString(v) =>
        var e := if v !in env && v in environ then env[v := environ[v]] else env;
        var r := SeedNames(e, names[1..], environ);
        assert forall k :: JString(k) in names[1..] ==> JString(k) in names;
        assert r.Ok? ==> forall i :: 1 <= i < |names| ==> names[i].JString? by {
          if r.Ok? {
            forall i | 1 <= i < |names| ensures names[i].JString? {
              assert names[i] == names[1..][i - 1];
            }
          }
        }
        r
      case _ => Err(Uncaught(None))
  }

  /** Whether some object file lists `name` in its `environment_allowlist`. */
  predicate Listed(files: seq<(Path, Json)>, name: string)
  {
    exists j :: 0 <= j < |files| && AllowlistOf(files[j].1).Ok? && JString(name) in AllowlistOf(files[j].1).value
  }

  lemma ListedCons(files: seq<(Path, Json)>)
    requires files != []
    ensures forall k :: Listed(files, k) <==>
              (AllowlistOf(files[0].1).Ok? && JString(k) in AllowlistOf(files[0].1).value) || Listed(files[1..], k)
  {
    forall k ensures Listed(files, k) <==>
              (AllowlistOf(files[0].1).Ok? && JString(k) in AllowlistOf(files[0].1).value) || Listed(files[1..], k)
    {
      if Listed(files[1..], k) {
        var j :| 0 <= j < |files[1..]| && AllowlistOf(files[1..][j].1).Ok?
                 && JString(k) in AllowlistOf(files[1..][j].1).value;
        assert files[1..][j] == files[j + 1];
      }
      if Listed(files, k) {
        var j :| 0 <= j < |files| && AllowlistOf(files[j].1).Ok? && JString(k) in AllowlistOf(files[j].1).value;
        if j > 0 { assert files[j] == files[1..][j - 1]; }
      }
    }
  }

  /** The pre-pass over every parsed file, in order. Names already in scope keep
      their value; the others come from the real environment, and only when
      some file lists them. */
  function SeedAllowlist(env: Env, files: seq<(Path, Json)>, environ: Env): (r: Result<Env>)
    ensures r.Err? ==> r.error == Uncaught(None)
    decreases |files|
  {
    if files == [] then Ok(env)
    else
      var names :- AllowlistOf(files[0].1);
      var e :- SeedNames(env, names, environ);
      SeedAllowlist(e, files[1..], environ)
  }

  /** What the pre-pass adds: names in scope keep their value, and a name is
      added, with its real value, exactly when some file lists it and the real
      environment has it. */
  lemma {:induction false} SeedAllowlistMeaning(env: Env, files: seq<(Path, Json)>, environ: Env)
    requires SeedAllowlist(env, files, environ).Ok?
    ensures var r := SeedAllowlist(env, files, environ).value;
            (forall k :: k in env ==> k in r && r[k] == env[k])
            && (forall k :: k in r && k !in env ==> Listed(files, k) && k in environ && r[k] == environ[k])
            && (forall k :: Listed(files, k) && k in environ ==> k in r)
    decreases |files|
  {
    if files != [] {
      var names := AllowlistOf(files[0].1).value;
      var e := SeedNames(env, names, environ).value;
      SeedAllowlistMeaning(e, files[1..], environ);
      ListedCons(files);
    }
  }

  /** `load_env_from_files(files, base_env=base)`. */
  function Compose(host: Host, files: seq<Path>, base: Env): Result<Env>
  {
    if files == [] then Ok(base)
    else
      var parsed :- ParseAll(host.fs, files);
      var seeded :- SeedAllowlist(base, parsed, host.environ);
      ApplyFiles(seeded, parsed, host.isWindows)
  }

  /** Loading never drops a variable that was in scope. */
  lemma ComposeKeepsKeys(host: Host, files: seq<Path>, base: Env)
    requires Compose(host, files, base).Ok?
    ensures base.Keys <= Compose(host, files, base).value.Keys
  {
    if files != [] {
      var parsed := ParseAll(host.fs, files).value;
      SeedAllowlistMeaning(base, parsed, host.environ);
      ApplyFilesKeepsKeys(SeedAllowlist(base, parsed, host.environ).value, parsed, host.isWindows);
    }
  }

  /** A variable that was in scope and that no file writes keeps its value; one
      that was not, that no file lists and that no file writes stays absent: in
      closed mode nothing leaks from the real environment by accident. */
  lemma ComposeUntouched(host: Host, files: seq<Path>, base: Env, name: string)
    requires Compose(host, files, base).Ok? && ParseAll(host.fs, files).Ok?
    requires !FilesWrite(ParseAll(host.fs, files).value, name)
    ensures var m := Compose(host, files, base).value;
            (name in base ==> name in m && m[name] == base[name])
            && (name !in base && !Listed(ParseAll(host.fs, files).value, name) ==> name !in m)
  {
    if files != [] {
      var parsed := ParseAll(host.fs, files).value;
      var seeded := SeedAllowlist(base, parsed, host.environ).value;
      SeedAllowlistMeaning(base, parsed, host.environ);
      ApplyFilesUntouched(seeded, parsed, host.isWindows, name);
    }
  }

  // ---------------------------------------------------------------------
  // The loading loops
  // ---------------------------------------------------------------------

  /** `ParseAll` of the unread files, after the files already read. */
  function Preceded(done: seq<(Path, Json)>, rest: Result<seq<(Path, Json)>>): Result<seq<(Path, Json)>>
  {
    match rest
    case Ok(ps) => Ok(done + ps)
    case Err(e) => Err(e)
  }

  /** The pair-collecting loop for a list of entries. */
  method CollectPairs(path: Path, es: seq<Json>) returns (r: Result<seq<(Json, Json)>>)
    ensures r == PairItems(path, es)
  {
    var items: seq<(Json, Json)> := [];
    var idx := 0;
    while idx < |es|
      invariant 0 <= idx <= |es|
      invariant forall i :: 0 <= i < idx ==> IsPair(es[i])
      invariant items == seq(idx, i requires 0 <= i < idx => (es[i].items[0], es[i].items[1]))
    {
      var entry := es[idx];
      if !(entry.JArray? && |entry.items| == 2) {
        return Err(WrapperError(BadPair(path, idx)));
      }
      items := items + [(entry.items[0], entry.items[1])];
      idx := idx + 1;
    }
    return Ok(items);
  }

  lemma ParseAllStep(fs: Node, files: seq<Path>)
    requires files != []
    ensures ParseAll(fs, files) ==
            match ReadOne(fs, files[0])
            case Ok(head) => Preceded([head], ParseAll(fs, files[1..]))
            case Err(e) => Err(e)
  {
  }

  lemma PrecededStep(done: seq<(Path, Json)>, x: (Path, Json), rest: Result<seq<(Path, Json)>>)
    ensures Preceded(done, Preceded([x], rest)) == Preceded(done + [x], rest)
  {
    if rest.Ok? {
      assert done + ([x] + rest.value) == (done + [x]) + rest.value;
    }
  }

  /** The pre-pass reading loop: every file read before any entry runs. */
  method ReadFiles(fs: Node, files: seq<Path>) returns (r: Result<seq<(Path, Json)>>)
    ensures r == ParseAll(fs, files)
  {
    var parsed: seq<(Path, Json)> := [];
    var i := 0;
    assert files[i..] == files;
    if ParseAll(fs, files).Ok? {
      assert parsed + ParseAll(fs, files).value == ParseAll(fs, files).value;
    }
    while i < |files|
      invariant 0 <= i <= |files|
      invariant ParseAll(fs, files) == Preceded(parsed, ParseAll(fs, files[i..]))
    {
      var p := files[i];
      assert files[i..][0] == p && files[i..][1..] == files[i + 1..];
      ParseAllStep(fs, files[i..]);
      match Read(fs, p) {
        case Missing => return Err(WrapperError(FileNotFound(p)));
        case Directory => return Err(Uncaught(Some(p)));
        case Invalid => return Err(WrapperError(InvalidJson(p)));
        case Doc(d) =>
          PrecededStep(parsed, (p, d), ParseAll(fs, files[i + 1..]));
          parsed := parsed + [(p, d)];
      }
      i := i + 1;
    }
    assert files[i..] == [];
    assert parsed + [] == parsed;
    return Ok(parsed);
  }

  /** The seeding loop over one file's allowlist. */
  method SeedListed(env: Env, names: seq<Json>, environ: Env) returns (r: Result<Env>)
    ensures r == SeedNames(env, names, environ)
  {
    var merged := env;
    var k := 0;
    while k < |names|
      invariant 0 <= k <= |names|
      invariant SeedNames(env, names, environ) == SeedNames(merged, names[k..], environ)
    {
      assert names[k..][1..] == names[k + 1..];
      match names[k] {
        case JString(v) =>
          if v !in merged && v in environ {
            merged := merged[v := environ[v]];
          }
        case _ =>
          return Err(Uncaught(None));
      }
      k := k + 1;
    }
    assert names[k..] == [];
    return Ok(merged);
  }

  /** The allowlist seeding loop over every parsed file. */
  method SeedFromAllowlists(env: Env, parsed: seq<(Path, Json)>, environ: Env) returns (r: Result<Env>)
    ensures r == SeedAllowlist(env, parsed, environ)
  {
    var merged := env;
    var j := 0;
    while j < |parsed|
      invariant 0 <= j <= |parsed|
      invariant SeedAllowlist(env, parsed, environ) == SeedAllowlist(merged, parsed[j..], environ)
    {
      assert parsed[j..][0] == parsed[j] && parsed[j..][1..] == parsed[j + 1..];
      var names := AllowlistOf(parsed[j].1);
      if names.Err? {
        return Err(names.error);
      }
      var seeded := SeedListed(merged, names.value, environ);
      if seeded.Err? {
        return Err(seeded.error);
      }
      merged := seeded.value;
      j := j + 1;
    }
    assert parsed[j..] == [];
    return Ok(merged);
  }

  /** The item-extraction step for one parsed file. */
  method ExtractItems(path: Path, data: Json) returns (r: Result<seq<(Json, Json)>>)
    ensures r == FileItems(path, data)
  {
    match data {
      case JArray(es) =>
        r := CollectPairs(path, es);
      case JObject(entries) =>
        match Get(entries, "environment") {
          case None => r := Ok(ObjectItems(entries));
          case Some(JObject(e)) => r := Ok(ObjectItems(e));
          case Some(JArray(es)) => r := CollectPairs(path, es);
          case Some(_) => r := Err(WrapperError(BadEnvironmentField(path)));
        }
      case _ => r := Err(WrapperError(NotObjectOrArray(path)));
    }
  }

  /** The remaining files applied after a partial result. */
  function ThenFiles(r: Result<Env>, files: seq<(Path, Json)>, isWindows: bool): Result<Env>
  {
    match r
    case Ok(m) => ApplyFiles(m, files, isWindows)
    case Err(e) => Err(e)
  }

  /** One file of the main pass, in the three ways it can end. */
  lemma ApplyFilesStep(env: Env, files: seq<(Path, Json)>, j: nat, isWindows: bool)
    requires j < |files|
    ensures var got := FileItems(files[j].0, files[j].1);
            got.Err? ==> ApplyFiles(env, files[j..], isWindows) == Err(got.error)
    ensures var got := FileItems(files[j].0, files[j].1);
            var applied := if got.Ok? then ApplyItems(env, got.value, SpecialVariables(files[j].0, isWindows), files[j].0, isWindows)
                           else Ok(env);
            got.Ok? && applied.Err? ==> ApplyFiles(env, files[j..], isWindows) == Err(applied.error)
    ensures var got := FileItems(files[j].0, files[j].1);
            var applied := if got.Ok? then ApplyItems(env, got.value, SpecialVariables(files[j].0, isWindows), files[j].0, isWindows)
                           else Ok(env);
            got.Ok? && applied.Ok? ==> ApplyFiles(env, files[j..], isWindows) == ApplyFiles(applied.value, files[j + 1..], isWindows)
  {
    assert files[j..][0] == files[j] && files[j..][1..] == files[j + 1..];
  }

  lemma ApplyItemsStep(env: Env, items: seq<(Json, Json)>, special: Env, path: Path, isWindows: bool)
    requires items != [] && items[0].0.JString?
    ensures var (op, name) := SplitKey(items[0].0.s);
            ApplyItems(env, items, special, path, isWindows) ==
            ApplyItems(ApplyEntry(env, op, name, ProcessValue(items[0].1, env, special, isWindows), PathListSep(isWindows)),
                       items[1..], special, path, isWindows)
  {
  }

  /** The entry loop of one file: each `(key, value)` in declaration order. */
  method ProcessItems(env: Env, items: seq<(Json, Json)>, special: Env, path: Path, isWindows: bool)
    returns (r: Result<Env>)
    ensures r == ApplyItems(env, items, special, path, isWindows)
  {
    var merged := env;
    var k := 0;
    while k < |items|
      invariant 0 <= k <= |items|
      invariant ApplyItems(env, items, special, path, isWindows) == ApplyItems(merged, items[k..], special, path, isWindows)
    {
      assert items[k..][1..] == items[k + 1..];
      var (key, value) := items[k];
      if !key.JString? {
        return Err(WrapperError(ReadFailure(path)));
      }
      var (op, name) := SplitKey(key.s);
      var processed := ProcessValue(value, merged, special, isWindows);
      ApplyItemsStep(merged, items[k..], special, path, isWindows);
      merged := ApplyEntry(merged, op, name, processed, PathListSep(isWindows));
      k := k + 1;
    }
    assert items[k..] == [];
    return Ok(merged);
  }

  /** The main loop: every file's entries in order, folded into the map. */
  method ProcessFiles(seeded: Env, parsed: seq<(Path, Json)>, isWindows: bool) returns (r: Result<Env>)
    ensures r == ApplyFiles(seeded, parsed, isWindows)
  {
    var merged := seeded;
    var j := 0;
    while j < |parsed|
      invariant 0 <= j <= |parsed|
      invariant ApplyFiles(seeded, parsed, isWindows) == ApplyFiles(merged, parsed[j..], isWindows)
    {
      var path := parsed[j].0;
      var special := SpecialVariables(path, isWindows);
      var items := ExtractItems(path, parsed[j].1);
      ApplyFilesStep(merged, parsed, j, isWindows);
      if items.Err? {
        return Err(items.error);
      }
      var applied := ProcessItems(merged, items.value, special, path, isWindows);
      if applied.Err? {
        return Err(applied.error);
      }
      merged := applied.value;
      j := j + 1;
    }
    assert parsed[j..] == [];
    return Ok(merged);
  }

  /** `load_env_from_files(files, base_env=base)`: the result starts from a copy
      of `base`, which itself is never changed. */
  method LoadEnvFromFiles(host: Host, files: seq<Path>, base: Env) returns (r: Result<Env>)
    ensures r == Compose(host, files, base)
  {
    if files == [] {
      return Ok(base);
    }
    var parsed := ReadFiles(host.fs, files);
    if parsed.Err? {
      return Err(parsed.error);
    }
    var seeded := SeedFromAllowlists(base, parsed.value, host.environ);
    if seeded.Err? {
      return Err(seeded.error);
    }
    r := ProcessFiles(seeded.value, parsed.value, host.isWindows);
  }

  // ---------------------------------------------------------------------
  // prepare_environment
  // ---------------------------------------------------------------------

  /** The environment before any file: the whole real environment when
      inheriting, otherwise exactly the core, envoy and allowlisted names that
      the real environment defines, with its values. */
  function Seed(m: Manager, environ: Env): (r: Env)
    ensures m.inheritEnv ==> r == environ
    ensures !m.inheritEnv ==> r.Keys == (CoreEnvVars + EnvoyEnvVars + m.allowlist) * environ.Keys
    ensures forall k :: k in r ==> k in environ && r[k] == environ[k]
  {
    if m.inheritEnv then environ
    else map v | v in CoreEnvVars + EnvoyEnvVars + m.allowlist && v in environ :: environ[v]
  }

  /** The closed-mode seeding loop: each name the real environment defines is
      copied, whatever order the set is walked in. */
  method SeedFrom(names: set<string>, environ: Env) returns (result: Env)
    ensures result.Keys == names * environ.Keys
    ensures forall v :: v in result ==> result[v] == environ[v]
  {
    result := map[];
    var pending := names;
    while pending != {}
      invariant pending <= names
      invariant result.Keys == (names - pending) * environ.Keys
      invariant forall v :: v in result ==> result[v] == environ[v]
      decreases pending
    {
      var v :| v in pending;
      if v in environ {
        result := result[v := environ[v]];
      }
      pending := pending - {v};
    }
  }

  /** `prepare_environment(env_files, env)`: the seed, overridden by the files,
      overridden by the explicit `env`. */
  method PrepareEnvironment(m: Manager, host: Host, files: seq<Path>, env: Env) returns (r: Result<Env>)
    ensures r == (match Compose(host, files, Seed(m, host.environ))
                  case Ok(f) => Ok(f + env)
                  case Err(e) => Err(e))
  {
    var result: Env;
    if m.inheritEnv {
      result := host.environ;
    } else {
      result := SeedFrom(CoreEnvVars + EnvoyEnvVars + m.allowlist, host.environ);
    }
    assert result == Seed(m, host.environ);
    var fileEnv := LoadEnvFromFiles(host, files, result);
    if fileEnv.Err? {
      return Err(fileEnv.error);
    }
    ComposeKeepsKeys(host, files, result);
    assert result + fileEnv.value == fileEnv.value;
    result := fileEnv.value;
    if env != map[] {
      result := result + env;
    } else {
      assert result + env == result;
    }
    return Ok(result);
  }
}

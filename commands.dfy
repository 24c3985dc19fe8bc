/** The command registry: `commands.json` files map command names to the
    environment files they need and an optional alias. The registry keeps a
    name → definition table that successive loads overwrite, so the last load
    of a name wins. The envoy registry and the wrapper registry are the same
    class under two namings (bundles and `envoy_env`, packages and
    `wrapper_env`); both are modelled by this module. */
module Commands {
  import opened Base
  import opened Json
  import opened FileSystem
  import Text

  const EnvoyEnvDir := "envoy_env"
  const WrapperEnvDir := "wrapper_env"
  const CommandsJson := "commands.json"

  /** One entry of a commands file. `alias` is `None` when the entry has no
      alias or an explicit `null` one. */
  datatype CommandDefinition = CommandDefinition(
    name: string,
    environment: seq<Json>,
    alias: Option<seq<Json>>,
    bundle: Option<string>,
    envDir: Option<Path>)
  {
    /** Python truthiness of the alias: present and non-empty. */
    predicate HasAlias()
    {
      alias.Some? && alias.value != []
    }

    /** `executable`: the first alias word, or the command name. */
    function Executable(): Json
    {
      if HasAlias() then alias.value[0] else JString(name)
    }

    /** `base_args`: the alias words after the first. */
    function BaseArgs(): seq<Json>
    {
      if HasAlias() && |alias.value| > 1 then alias.value[1..] else []
    }
  }

  /** The executable and the base arguments split the alias: together they give
      it back, and without an alias the command runs under its own name with no
      base arguments. */
  lemma AliasSplit(d: CommandDefinition)
    ensures d.HasAlias() ==> [d.Executable()] + d.BaseArgs() == d.alias.value
    ensures !d.HasAlias() ==> d.Executable() == JString(d.name) && d.BaseArgs() == []
  {
    if d.HasAlias() {
      assert d.alias.value == [d.alias.value[0]] + d.alias.value[1..];
    }
  }

  // ---------------------------------------------------------------------
  // Reading a commands file
  // ---------------------------------------------------------------------

  /** An entry is kept when its config is an object with a list `environment`
      and an `alias` that is absent, `null` or a list. */
  predicate ValidConfig(c: Json)
  {
    c.JObject?
    && Get(c.entries, "environment").Some? && Get(c.entries, "environment").value.JArray?
    && (var a := Get(c.entries, "alias"); a.None? || a.value.JNull? || a.value.JArray?)
  }

  function Definition(name: string, c: Json, bundle: Option<string>, dir: Path): CommandDefinition
    requires ValidConfig(c)
  {
    var a := Get(c.entries, "alias");
    CommandDefinition(
      name,
      Get(c.entries, "environment").value.items,
      if a.Some? && a.value.JArray? then Some(a.value.items) else None,
      bundle,
      Some(dir))
  }

  /** The definitions of the valid entries, in file order. */
  function Definitions(items: seq<(string, Json)>, bundle: Option<string>, dir: Path): (defs: seq<CommandDefinition>)
    ensures forall d :: d in defs ==> d.bundle == bundle && d.envDir == Some(dir)
    ensures |defs| <= |items|
  {
    if items == [] then []
    else
      var rest := Definitions(items[1..], bundle, dir);
      if ValidConfig(items[0].1) then [Definition(items[0].0, items[0].1, bundle, dir)] + rest else rest
  }

  /** The definitions a file contributes, or the `WrapperError` that loading it
      raises before anything is registered. */
  function ReadCommands(fs: Node, file: Path, bundle: Option<string>): (r: Result<seq<CommandDefinition>>)
    ensures !Exists(fs, file) ==> r == Err(WrapperError(FileNotFound(file)))
    ensures r.Ok? <==> Read(fs, file).Doc? && Read(fs, file).doc.JObject?
    ensures r.Err? ==> r.error.WrapperError?
  {
    match Read(fs, file)
    case Missing => Err(WrapperError(FileNotFound(file)))
    case Directory => Err(WrapperError(ReadFailure(file)))
    case Invalid => Err(WrapperError(InvalidJson(file)))
    case Doc(d) =>
      if d.JObject? then Ok(Definitions(DictItems(d.entries), bundle, Parent(file)))
      else Err(WrapperError(NotObject(file)))
  }

  // ---------------------------------------------------------------------
  // The registry's table and how loads change it
  // ---------------------------------------------------------------------

  /** The two dicts of a registry: definitions and where each came from. */
  datatype Table = Table(commands: map<string, CommandDefinition>, sources: map<string, string>)

  /** The registry invariant: every name has a source, and is the name of its
      own definition. */
  predicate WellFormed(t: Table)
  {
    t.commands.Keys == t.sources.Keys
    && forall n :: n in t.commands ==> t.commands[n].name == n
  }

  /** `bundle_name or 'local'`: an absent or empty bundle name reads as local. */
  function Label(bundle: Option<string>): (r: string)
    ensures r != []
    ensures bundle.Some? && bundle.value != [] ==> r == bundle.value
  {
    if bundle.Some? && bundle.value != [] then bundle.value else "local"
  }

  /** Registers definitions in order, each replacing any earlier one wholesale. */
  function Register(t: Table, defs: seq<CommandDefinition>, tag: string): (r: Table)
    decreases |defs|
  {
    if defs == [] then t
    else
      var d := defs[0];
      Register(Table(t.commands[d.name := d], t.sources[d.name := tag]), defs[1..], tag)
  }

  /** `load_from_file` on a table: the new table, or the error with the table
      left as it was. */
  function LoadFile(t: Table, fs: Node, file: Path, bundle: Option<string>): Result<Table>
  {
    var defs :- ReadCommands(fs, file, bundle);
    Ok(Register(t, defs, Label(bundle)))
  }

  /** One bundle of `load_from_bundles`: its `commands.json` if it exists, with
      a load error swallowed. A bundle is its name and its environment directory. */
  function LoadBundle(t: Table, fs: Node, b: (string, Path)): Table
  {
    var file := b.1 + [CommandsJson];
    if !Exists(fs, file) then t
    else match LoadFile(t, fs, file, Some(b.0))
      case Ok(t') => t'
      case Err(_) => t
  }

  function LoadBundles(t: Table, fs: Node, bundles: seq<(string, Path)>): Table
    decreases |bundles|
  {
    if bundles == [] then t
    else LoadBundle(LoadBundles(t, fs, bundles[..|bundles| - 1]), fs, bundles[|bundles| - 1])
  }

  /** Two tables say the same about name `n`. */
  predicate Agree(a: Table, b: Table, n: string)
  {
    (n in a.commands <==> n in b.commands)
    && (n in a.commands ==> a.commands[n] == b.commands[n])
    && (n in a.sources <==> n in b.sources)
    && (n in a.sources ==> a.sources[n] == b.sources[n])
  }

  lemma {:induction false} RegisterUntouched(t: Table, defs: seq<CommandDefinition>, tag: string, n: string)
    requires forall i :: 0 <= i < |defs| ==> defs[i].name != n
    ensures Agree(Register(t, defs, tag), t, n)
    decreases |defs|
  {
    if defs != [] {
      var d := defs[0];
      RegisterUntouched(Table(t.commands[d.name := d], t.sources[d.name := tag]), defs[1..], tag, n);
    }
  }

  lemma {:induction false} RegisterKeepsWellFormed(t: Table, defs: seq<CommandDefinition>, tag: string)
    requires WellFormed(t)
    ensures WellFormed(Register(t, defs, tag))
    decreases |defs|
  {
    if defs != [] {
      var d := defs[0];
      RegisterKeepsWellFormed(Table(t.commands[d.name := d], t.sources[d.name := tag]), defs[1..], tag);
    }
  }

  /** `dict.get` of a key that no entry carries gives `None`. */
  lemma FindAbsent(items: seq<(string, Json)>, n: string)
    requires forall i :: 0 <= i < |items| ==> items[i].0 != n
    ensures Find(items, n) == None
  {
  }

  /** Registering the entries of one object: a name with a valid entry gets
      that entry's definition and the tag; a name without one (no entry, or
      an entry that is skipped) is left exactly as it was. */
  lemma {:induction false} RegisterEntries(t: Table, items: seq<(string, Json)>, bundle: Option<string>, dir: Path, n: string)
    requires forall i, j :: 0 <= i < j < |items| ==> items[i].0 != items[j].0
    ensures var r := Register(t, Definitions(items, bundle, dir), Label(bundle));
      var c := Find(items, n);
      if c.Some? && ValidConfig(c.value) then
        n in r.commands && r.commands[n] == Definition(n, c.value, bundle, dir)
        && n in r.sources && r.sources[n] == Label(bundle)
      else Agree(r, t, n)
    decreases |items|
  {
    if items != [] {
      var rest := items[1..];
      assert forall i, j :: 0 <= i < j < |rest| ==> rest[i].0 != rest[j].0 by {
        forall i, j | 0 <= i < j < |rest| ensures rest[i].0 != rest[j].0 {
          assert rest[i] == items[i + 1] && rest[j] == items[j + 1];
        }
      }
      var k := items[0].0;
      var t' := t;
      if ValidConfig(items[0].1) {
        var d := Definition(k, items[0].1, bundle, dir);
        t' := Table(t.commands[k := d], t.sources[k := Label(bundle)]);
        assert Definitions(items, bundle, dir) == [d] + Definitions(rest, bundle, dir);
        assert ([d] + Definitions(rest, bundle, dir))[1..] == Definitions(rest, bundle, dir);
      }
      if k == n {
        assert forall i :: 0 <= i < |rest| ==> rest[i].0 != n by {
          forall i | 0 <= i < |rest| ensures rest[i].0 != n {
            assert rest[i] == items[i + 1];
          }
        }
        FindAbsent(rest, n);
        RegisterEntries(t', rest, bundle, dir, n);
      } else {
        RegisterEntries(t', rest, bundle, dir, n);
      }
    }
  }

  /** What loading one file does to the entry of a name: a valid entry in the
      file replaces the old definition wholesale and records the tag; a skipped
      or absent entry leaves the name as it was; and a file that cannot be loaded
      changes nothing at all. */
  lemma LoadFileEntry(t: Table, fs: Node, file: Path, bundle: Option<string>, n: string)
    ensures var r := LoadFile(t, fs, file, bundle);
      r.Err? <==> ReadCommands(fs, file, bundle).Err?
    ensures var r := LoadFile(t, fs, file, bundle);
      r.Ok? ==>
        var c := Get(Read(fs, file).doc.entries, n);
        if c.Some? && ValidConfig(c.value) then
          n in r.value.commands && r.value.commands[n] == Definition(n, c.value, bundle, Parent(file))
          && n in r.value.sources && r.value.sources[n] == Label(bundle)
        else Agree(r.value, t, n)
  {
    if ReadCommands(fs, file, bundle).Ok? {
      RegisterEntries(t, DictItems(Read(fs, file).doc.entries), bundle, Parent(file), n);
    }
  }

  /** `load_from_bundles` goes in bundle order, so what the last bundle defines
      wins; a bundle without a commands file, or whose file fails to load,
      changes nothing and does not stop the bundles after it. */
  lemma LoadBundlesLast(t: Table, fs: Node, bundles: seq<(string, Path)>, b: (string, Path), n: string)
    ensures var before := LoadBundles(t, fs, bundles);
      var after := LoadBundles(t, fs, bundles + [b]);
      var file := b.1 + [CommandsJson];
      var loaded := Exists(fs, file) && ReadCommands(fs, file, Some(b.0)).Ok?;
      if loaded && Get(Read(fs, file).doc.entries, n).Some? && ValidConfig(Get(Read(fs, file).doc.entries, n).value) then
        n in after.commands
        && after.commands[n] == Definition(n, Get(Read(fs, file).doc.entries, n).value, Some(b.0), b.1)
        && n in after.sources && after.sources[n] == Label(Some(b.0))
      else Agree(after, before, n)
  {
    var bs := bundles + [b];
    assert bs[..|bs| - 1] == bundles;
    var file := b.1 + [CommandsJson];
    assert Parent(file) == b.1;
    LoadFileEntry(LoadBundles(t, fs, bundles), fs, file, Some(b.0), n);
  }

  lemma {:induction false} LoadBundlesKeepsWellFormed(t: Table, fs: Node, bundles: seq<(string, Path)>)
    requires WellFormed(t)
    ensures WellFormed(LoadBundles(t, fs, bundles))
  {
    if bundles != [] {
      var init := LoadBundles(t, fs, bundles[..|bundles| - 1]);
      LoadBundlesKeepsWellFormed(t, fs, bundles[..|bundles| - 1]);
      var b := bundles[|bundles| - 1];
      var file := b.1 + [CommandsJson];
      match ReadCommands(fs, file, Some(b.0))
      case Ok(defs) => RegisterKeepsWellFormed(init, defs, Label(Some(b.0)));
      case Err(_) =>
    }
  }

  // ---------------------------------------------------------------------
  // The registry object
  // ---------------------------------------------------------------------

  class CommandRegistry {
    var commands: map<string, CommandDefinition>
    var sources: map<string, string>

    function State(): Table
      reads this
    {
      Table(commands, sources)
    }

    /** `CommandRegistry()`: both dicts empty. */
    constructor ()
      ensures State() == Table(map[], map[])
      ensures WellFormed(State())
    {
      commands := map[];
      sources := map[];
    }

    /** `get`: the definition registered under `name`, which in a well-formed
        registry carries that name. */
    function Get(name: string): (r: Option<CommandDefinition>)
      reads this
      ensures r.Some? <==> name in State().commands
      ensures r.Some? && WellFormed(State()) ==> r.value.name == name
    {
      if name in commands then Some(commands[name]) else None
    }

    /** `name in registry`: exactly when `get` finds a definition. */
    predicate Contains(name: string)
      reads this
      ensures Contains(name) <==> Get(name).Some?
    {
      name in commands
    }

    /** `len(registry)`: the number of distinct registered names. */
    function Len(): (r: nat)
      reads this
      ensures r == 0 <==> forall n :: !Contains(n)
    {
      if commands.Keys == {} then 0
      else
        var n :| n in commands.Keys;
        assert Contains(n);
        |commands.Keys|
    }

    /** `list_commands`: every registered name once, in sorted order. */
    method ListCommands() returns (r: seq<string>)
      ensures Text.StrictlySorted(r)
      ensures forall n :: n in r <==> Contains(n)
      ensures |r| == Len()
    {
      r := Text.SortedNames(commands.Keys);
    }

    /** `load_from_file`: registers the file's valid entries in order under the
        tag `bundle_name or 'local'`, or raises, leaving the registry as it was. */
    method LoadFromFile(fs: Node, file: Path, bundle: Option<string>) returns (r: Result<()>)
      modifies this
      ensures r.Err? <==> ReadCommands(fs, file, bundle).Err?
      ensures r.Err? ==> r.error == ReadCommands(fs, file, bundle).error && State() == old(State())
      ensures r.Ok? ==> Ok(State()) == LoadFile(old(State()), fs, file, bundle)
    {
      if !Exists(fs, file) {
        return Err(WrapperError(FileNotFound(file)));
      }
      var data: Json;
      match Read(fs, file) {
        case Directory => return Err(WrapperError(ReadFailure(file)));
        case Invalid => return Err(WrapperError(InvalidJson(file)));
        case Doc(d) => data := d;
      }
      if !data.JObject? {
        return Err(WrapperError(NotObject(file)));
      }
      var items := DictItems(data.entries);
      var dir := Parent(file);
      var tag := Label(bundle);
      ghost var target := Register(State(), Definitions(items, bundle, dir), tag);
      var i := 0;
      while i < |items|
        invariant 0 <= i <= |items|
        invariant Register(State(), Definitions(items[i..], bundle, dir), tag) == target
      {
        var (name, config) := items[i];
        assert items[i..][1..] == items[i + 1..];
        if ValidConfig(config) {
          var d := Definition(name, config, bundle, dir);
          commands := commands[name := d];
          sources := sources[name := tag];
        }
        i := i + 1;
      }
      return Ok(());
    }

    /** `load_from_bundles`: each bundle's `commands.json` in order, a bundle's
        load error swallowed. */
    method LoadFromBundles(fs: Node, bundles: seq<(string, Path)>)
      modifies this
      ensures State() == LoadBundles(old(State()), fs, bundles)
    {
      var i := 0;
      while i < |bundles|
        invariant 0 <= i <= |bundles|
        invariant State() == LoadBundles(old(State()), fs, bundles[..i])
      {
        assert bundles[..i + 1][..i] == bundles[..i];
        var file := bundles[i].1 + [CommandsJson];
        if Exists(fs, file) {
          var _ := LoadFromFile(fs, file, Some(bundles[i].0));
        }
        i := i + 1;
      }
      assert bundles[..i] == bundles;
    }
  }

  // ---------------------------------------------------------------------
  // Finding a commands file
  // ---------------------------------------------------------------------

  /** Directory `d` holds `<envDirName>/commands.json`. */
  predicate HasCommandsFile(fs: Node, d: Path, envDirName: string)
  {
    IsDir(fs, d + [envDirName]) && Exists(fs, d + [envDirName, CommandsJson])
  }

  /** The nearest of `start[..k]`, `start[..k - 1]`, ..., `[]` that holds
      `<envDirName>/commands.json`, as that file's path. */
  function NearestFrom(fs: Node, start: Path, envDirName: string, k: nat): Option<Path>
    requires k <= |start|
    decreases k
  {
    if HasCommandsFile(fs, start[..k], envDirName) then Some(start[..k] + [envDirName, CommandsJson])
    else if k == 0 then None
    else NearestFrom(fs, start, envDirName, k - 1)
  }

  function NearestCommandsFile(fs: Node, start: Path, envDirName: string): Option<Path>
  {
    NearestFrom(fs, start, envDirName, |start|)
  }

  /** `find_commands_file`: searches `start` and then its ancestors, nearest
      first, for `<envDirName>/commands.json` (`envoy_env` in the envoy
      registry, `wrapper_env` in the wrapper one). `start` is already resolved. */
  method FindCommandsFile(fs: Node, start: Path, envDirName: string) returns (r: Option<Path>)
    ensures r.Some? ==>
      exists k :: 0 <= k <= |start| && HasCommandsFile(fs, start[..k], envDirName)
                  && r.value == start[..k] + [envDirName, CommandsJson]
                  && forall k' :: k < k' <= |start| ==> !HasCommandsFile(fs, start[..k'], envDirName)
    ensures r.None? ==> forall k :: 0 <= k <= |start| ==> !HasCommandsFile(fs, start[..k], envDirName)
    ensures r == NearestCommandsFile(fs, start, envDirName)
  {
    var k := |start|;
    while true
      invariant 0 <= k <= |start|
      invariant forall k' :: k < k' <= |start| ==> !HasCommandsFile(fs, start[..k'], envDirName)
      invariant NearestCommandsFile(fs, start, envDirName) == NearestFrom(fs, start, envDirName, k)
      decreases k
    {
      var d := start[..k];
      if IsDir(fs, d + [envDirName]) && Exists(fs, d + [envDirName, CommandsJson]) {
        return Some(d + [envDirName, CommandsJson]);
      }
      if k == 0 {
        return None;
      }
      k := k - 1;
    }
  }
}

# envoy environment composition — a Dafny model

This project models the environment composition engine of envoy, the
launcher in `gt-app-wrapper`. It also models the parts that feed the engine.

- **Composition** (`py/envoy/_environment.py`). Each value is expanded in
  one left-to-right pass over `${NAME}` and `{$NAME}`. A list value is
  joined with the path-list separator. Entries carry the `?=`, `+=` and `^=`
  operators, and are folded over the ordered environment files into a map.
  An `environment_allowlist` pre-pass runs first. The seed is either closed
  or inherited.
- **Launching** (`py/envoy/proc.py`).
  - Raw-path detection.
  - The registry and its commands-file fallback.
  - The ordered env-file list, in bundle mode and in legacy mode.
  - `_prepare_env`.
  - The command line spawned.
  - The `Environment` class with its build-once cache and the argument
    checks of `spawn`/`call`/`check_call`/`check_output`, plus the four free
    functions.
- **Command registry** (`py/gt/envoy/_commands.py`, and
  `py/gt/app/wrapper/_commands.py`, which is the same class under package
  naming). Both are modelled by one module whose env-directory name is a
  parameter (`envoy_env` or `wrapper_env`). The table below cites the envoy
  file. The same members model the wrapper file's `executable`/`base_args`
  (51-72), `load_from_file` (96-166), `load_from_packages` (168-181),
  `get`/`list_commands`/`__contains__`/`__len__` (183-218) and
  `find_commands_file` (221-244).
- **Bundle discovery** (`py/gt/envoy/_discovery.py`).
  - The depth-bounded repository search.
  - Root lists.
  - Config files.
  - The per-bundle env-file index.
  - `Bundle` and `BundleConfig`.
- **Legacy wrapper** (`py/gt/app/wrapper/_wrapper.py`). This is the second,
  simpler composition: `{$NAME}` only, slash normalisation on Windows,
  `+=`/`^=` falling back to the process environment, and three-layer
  `_prepare_environment`.
- **`get_allowlist`** (`py/gt/envoy/__init__.py`).

Modules, one per source file, plus shared ones:

- `Base`: `Option`, `Result`, and the error taxonomy. Each exception the
  source raises is an `Err`.
- `Text`: join, split, strip, code-point order and `sorted`.
- `Json`: parsed JSON, dict semantics and `str()`.
- `FileSystem`: an abstract directory tree. A node has a name, a directory
  flag, ordered children and parsed content. The module also holds the
  `Host` (tree, `os.environ`, `os.name == 'nt'`) and lexical path parsing.
- `Expansion`: the regular-expression scan.
- `Environment`, `Commands`, `Discovery`, `Proc`, `LegacyWrapper` and
  `EnvoyApi`.

Imperative code is modelled as methods with loops, each proved equal to a
specification function. The loops include the entry and file loops, the
registry updates, the searches, the list building and the `Environment`
cache. Properties are then proved about those functions.

Where the source's own docstrings and comments disagree with its code (for
example py/envoy/proc.py:129-130), the model follows the code:

- `?=` exists.
- `+=`/`^=` treat an empty current value like an absent one.
- Non-list values go through `str()`.
- Discovery is recursive to depth 5.
- `_load_registry` returns the discovered bundles whenever discovery found
  any, even when the registry was then filled from a commands file
  (py/envoy/proc.py:135-154). `bundles` is `None` only when no bundle was
  found.

## Model

| member | source | states |
|---|---|---|
| Expansion.MatchAt | py/envoy/_environment.py:158-162 | a match at the start of the text has a name of the form `[A-Za-z_][A-Za-z0-9_]*`, spans exactly the reference text, and is `{$NAME}` when only the legacy form is recognised |
| Expansion.Tokenize | py/envoy/_environment.py:158-175 | every reference the scan finds has a valid name, and only legacy references are found in legacy-only mode |
| Expansion.TokenizeRoundTrip | py/envoy/_environment.py:158-175 | the pieces the scan sees cover the input exactly, so text outside references is kept character for character |
| Expansion.ExpandIsEval | py/envoy/_environment.py:160-175 | expansion replaces each matched reference by its value and nothing else; inserted values are never rescanned |
| Expansion.ExpandWithoutDollar | py/envoy/_environment.py:158-175 | text without `$` is unchanged by expansion |
| Expansion.MatchAtRef | py/envoy/_environment.py:158 | `${NAME}` and `{$NAME}` are both recognised where they stand (only `{$NAME}` in legacy-only mode) |
| Expansion.ExpandRefFirst | py/envoy/_environment.py:160-175 | a leading reference becomes its value and the scan resumes right after it |
| Expansion.ExpandKeepsPrefix | py/envoy/_environment.py:158-175 | a `$`-free prefix before a reference is copied unchanged |
| Expansion.ExpandPrefixThenRef | py/envoy/_environment.py:158-175 | prefix kept, reference replaced by its value whatever it contains, rest expanded on its own |
| Environment.Scope | py/envoy/_environment.py:160-173 | a name resolves to its special-variable value, else to its value in the environment built so far, else to "" |
| Environment.StrAll | py/envoy/_environment.py:226 | every list item goes through `str()`, in order |
| Environment.ListIsJoinedString | py/envoy/_environment.py:221-232 | a list value is processed exactly as the string its items join to with `;`/`:`; joining precedes expansion |
| Environment.NearestNamed | py/envoy/_environment.py:258-262 | the result is the nearest ancestor named `envoy_env` (no deeper component has that name), or none exists |
| Environment.Slashed | py/envoy/_environment.py:273-275 | a rendered path contains no backslash |
| Environment.SpecialVariables | py/envoy/_environment.py:272-277 | exactly the four special names are defined and the three path values contain no backslash |
| Environment.SpecialVariablesInBundle | py/envoy/_environment.py:258-276 | inside an `envoy_env` tree, `__BUNDLE_ENV__` is the nearest `envoy_env` ancestor, `__BUNDLE__` its parent, `__BUNDLE_NAME__` that parent's name |
| Environment.SpecialVariablesOutsideBundle | py/envoy/_environment.py:265-277 | with no `envoy_env` ancestor, `__BUNDLE__` and `__BUNDLE_ENV__` are both the file's directory |
| Environment.SplitKey | py/envoy/_environment.py:457-471 | operator prefix plus name spell the key; a key is a plain assignment only when it starts with none of `?=`, `+=`, `^=` |
| Environment.SplitKeyPrefix | py/envoy/_environment.py:463-471 | exactly one operator prefix is stripped |
| Environment.ApplyEntry | py/envoy/_environment.py:476-492 | one entry defines its name and changes no other; `?=` keeps an existing value; a bare key overwrites; on a non-empty current value `+=` gives `cur sep new` and `^=` gives `new sep cur`, otherwise both just set the value |
| Environment.AppendToEmptyAssigns | py/envoy/_environment.py:479-490 | `+=`/`^=` on an absent or empty value just set it |
| Environment.PrependThenAppend | py/envoy/_environment.py:481-490 | on a non-empty value `^=` puts text before and `+=` after, separated by `;`/`:` |
| Environment.DefaultNeverOverrides | py/envoy/_environment.py:476-478 | after any entry set a name, a later `?=` changes nothing |
| Environment.AssignOverrides | py/envoy/_environment.py:491-492 | a bare key overwrites whatever earlier entries left |
| Environment.FirstNonPair | py/envoy/_environment.py:404-413 | the first list entry that is not a 2-element pair, or all entries are pairs |
| Environment.PairItems | py/envoy/_environment.py:404-413 | succeeds iff every entry is a pair, and then yields the pairs in order |
| Environment.FileItems | py/envoy/_environment.py:403-441 | a top-level list is read as pairs; an object without `environment` gives its own items; an `environment` object gives its items, an `environment` list is read as pairs, any other `environment` value is rejected; a top level neither object nor array is rejected; every failure is a WrapperError |
| Environment.ApplyItems | py/envoy/_environment.py:457-499 | folding the entries fails only as a read failure of that file (a non-string key) |
| Environment.ApplyItemsKeepsKeys | py/envoy/_environment.py:457-492 | no entry removes a variable |
| Environment.ApplyItemsUntouched | py/envoy/_environment.py:457-492 | a variable no entry writes keeps its presence and value |
| Environment.ApplyFile | py/envoy/_environment.py:399-499 | a file fails only with a WrapperError |
| Environment.ApplyFiles | py/envoy/_environment.py:399-499 | the fold over files fails only with a WrapperError |
| Environment.ApplyFilesKeepsKeys | py/envoy/_environment.py:399-492 | no file removes a variable |
| Environment.ApplyFilesAppend | py/envoy/_environment.py:399-492 | files are applied in list order: a concatenation is the second list applied to the first's result |
| Environment.ApplyFilesUntouched | py/envoy/_environment.py:399-492 | a variable no file writes keeps its presence and value |
| Environment.ParseAll | py/envoy/_environment.py:378-388 | on success every file is read, in order, with its parsed content |
| Environment.ReadOne | py/envoy/_environment.py:380-388 | a file reads successfully iff it parses, giving its content; a missing file raises FileNotFound, malformed JSON raises InvalidJson, a directory raises an uncaught error |
| Environment.SeedNames | py/envoy/_environment.py:394-396 | allowlisted names present in `os.environ` are added with their values, existing names are kept, nothing else is added |
| Environment.SeedAllowlist | py/envoy/_environment.py:392-396 | the pre-pass fails only with the TypeError of a listed name that is not a string |
| Environment.SeedAllowlistMeaning | py/envoy/_environment.py:392-396 | the pre-pass over every file's allowlist adds exactly the listed names present in `os.environ`, with their values, never overriding a name in scope |
| Environment.ComposeKeepsKeys | py/envoy/_environment.py:358-501 | the base map's variables all survive composition |
| Environment.ComposeUntouched | py/envoy/_environment.py:358-501 | a base variable no file writes keeps its value; a name neither in the base, written, nor allowlisted stays absent |
| Environment.CollectPairs | py/envoy/_environment.py:404-413 | the pair-collecting loop computes PairItems |
| Environment.ReadFiles | py/envoy/_environment.py:378-388 | the reading loop computes ParseAll, stopping at the first missing or malformed file |
| Environment.SeedListed | py/envoy/_environment.py:394-396 | the seeding loop for one allowlist computes SeedNames |
| Environment.SeedFromAllowlists | py/envoy/_environment.py:392-396 | the pre-pass loop computes SeedAllowlist |
| Environment.ExtractItems | py/envoy/_environment.py:403-452 | the shape dispatch computes FileItems |
| Environment.ProcessItems | py/envoy/_environment.py:457-492 | the entry loop computes ApplyItems |
| Environment.ProcessFiles | py/envoy/_environment.py:399-499 | the file loop computes ApplyFiles |
| Environment.LoadEnvFromFiles | py/envoy/_environment.py:358-501 | `load_env_from_files` computes Compose: base copy for no files, else pre-pass then fold |
| Environment.Seed | py/envoy/_environment.py:523-535 | inherit mode copies `os.environ`; closed mode keeps exactly the core, envoy and allowlisted names `os.environ` defines, with its values |
| Environment.SeedFrom | py/envoy/_environment.py:532-535 | the seeding loop keeps exactly the listed names present, with their values |
| Environment.PrepareEnvironment | py/envoy/_environment.py:523-546 | the seed composed with the files, then the explicit map laid over it |
| Commands.AliasSplit | py/gt/envoy/_commands.py:50-71 | with an alias, `[executable] + base_args` is the alias; without, the executable is the name and there are no base args |
| Commands.Definitions | py/gt/envoy/_commands.py:120-157 | every stored definition records the bundle and the commands file's directory; invalid entries are dropped |
| Commands.ReadCommands | py/gt/envoy/_commands.py:95-118 | a missing file raises WrapperError; reading succeeds iff the top level is an object |
| Commands.Label | py/gt/envoy/_commands.py:149-157 | the source label is the bundle name when given, otherwise the non-empty default |
| Commands.RegisterUntouched | py/gt/envoy/_commands.py:120-157 | names not defined by a load keep their definition and source |
| Commands.RegisterKeepsWellFormed | py/gt/envoy/_commands.py:149-157 | every stored definition stays under its own name, with a source |
| Commands.RegisterEntries | py/gt/envoy/_commands.py:120-157 | a valid entry replaces its name's definition wholesale and records its source; invalid or absent entries leave the name unchanged |
| Commands.LoadFileEntry | py/gt/envoy/_commands.py:95-165 | loading fails iff reading fails; on success each name is replaced by the file's valid entry or left unchanged |
| Commands.LoadBundlesLast | py/gt/envoy/_commands.py:167-180 | bundles load in order, so the last bundle defining a name wins; a failing bundle changes nothing |
| Commands.LoadBundlesKeepsWellFormed | py/gt/envoy/_commands.py:167-180 | loading bundles keeps the registry well formed |
| Commands.CommandRegistry.constructor | py/gt/envoy/_commands.py:83-93 | a new registry is empty |
| Commands.CommandRegistry.Get | py/gt/envoy/_commands.py:182-192 | a definition is returned iff the name is registered, and it carries that name |
| Commands.CommandRegistry.Contains | py/gt/envoy/_commands.py:203-213 | `name in registry` iff `get(name)` is not None |
| Commands.CommandRegistry.Len | py/gt/envoy/_commands.py:215-217 | the length is zero iff no name is registered |
| Commands.CommandRegistry.ListCommands | py/gt/envoy/_commands.py:194-201 | the list is strictly sorted, holds exactly the registered names, and its length is `len` |
| Commands.CommandRegistry.LoadFromFile | py/gt/envoy/_commands.py:95-165 | an unreadable file raises before any change; otherwise the new state is LoadFile of the old |
| Commands.CommandRegistry.LoadFromBundles | py/gt/envoy/_commands.py:167-180 | the new state is the old one with every bundle loaded in order |
| Commands.FindCommandsFile | py/gt/envoy/_commands.py:220-243 | the nearest self-or-ancestor with `envoy_env/commands.json`, else none |
| Discovery.IndexEnvFiles | py/gt/envoy/_discovery.py:47-56 | the index holds exactly the `*.json` entries of `envoy_env`, each under its own name; no directory gives an empty index |
| Discovery.MakeBundleInfo | py/gt/envoy/_discovery.py:31-45 | a bundle's name is its root's name and its `envoy_env` is under the root |
| Discovery.ValidateBundle | py/gt/envoy/_discovery.py:321-341 | a path is a bundle iff it is a directory with an `envoy_env` directory |
| Discovery.GitNodeIsGitRepo | py/gt/envoy/_discovery.py:295-305 | a node is a git repository iff it has a `.git` directory |
| Discovery.SearchAllMember | py/gt/envoy/_discovery.py:376-378 | the search of a directory is the searches of its non-dot subdirectories, in order |
| Discovery.SearchSound | py/gt/envoy/_discovery.py:361-378 | every result is reached through the search rule |
| Discovery.SearchComplete | py/gt/envoy/_discovery.py:361-378 | everything the search rule reaches is found |
| Discovery.ReachedShape | py/gt/envoy/_discovery.py:365-378 | a reached path is within the depth bound, has no dot component and is a git repository |
| Discovery.ReachedNotNested | py/gt/envoy/_discovery.py:370-373 | no reached repository lies inside another |
| Discovery.GitReposExactly | py/gt/envoy/_discovery.py:344-385 | the results are exactly the reachable repositories under a directory root |
| Discovery.GitReposAreRepos | py/gt/envoy/_discovery.py:344-385 | each result is a git repository at most `max_depth` below the root, through non-dot directories |
| Discovery.GitReposNotNested | py/gt/envoy/_discovery.py:370-373 | no result lies strictly inside another |
| Discovery.SearchDir | py/gt/envoy/_discovery.py:361-382 | the recursive search appends exactly Search's results |
| Discovery.FindGitRepos | py/gt/envoy/_discovery.py:344-385 | `find_git_repos` computes GitRepos, and a non-directory root gives `[]` |
| Discovery.ValidBundlesAppend | py/gt/envoy/_discovery.py:411-417 | filtering distributes over concatenation, keeping order |
| Discovery.ValidBundlesMember | py/gt/envoy/_discovery.py:411-417 | a bundle is kept iff its path is listed and valid |
| Discovery.BundlesFromRootsAppend | py/gt/envoy/_discovery.py:402-421 | roots contribute in order |
| Discovery.KeepValid | py/gt/envoy/_discovery.py:411-417 | the filtering loop computes ValidBundles |
| Discovery.ResolveAll | py/gt/envoy/_discovery.py:402-410 | each root string is resolved in order |
| Discovery.DiscoverBundlesFromRoots | py/gt/envoy/_discovery.py:388-422 | roots in order, each contributing its valid found repositories in found order |
| Discovery.StrippedParts | py/gt/envoy/_discovery.py:443 | every kept part is non-empty, has no surrounding whitespace and no separator |
| Discovery.StrippedBlank | py/gt/envoy/_discovery.py:443 | parts that are all blank are all dropped |
| Discovery.RootList | py/gt/envoy/_discovery.py:435-445 | every root is stripped, non-empty and free of the separator |
| Discovery.BlankRootList | py/gt/envoy/_discovery.py:437-447 | an unset or blank variable gives no roots |
| Discovery.DiscoverBundlesAuto | py/gt/envoy/_discovery.py:425-450 | discovery from the split `ENVOY_BNDL_ROOTS`, empty when it is blank |
| Discovery.ConfigEntries | py/gt/envoy/_discovery.py:480-498 | a missing config raises; malformed JSON raises; a list is the entry list; a dict gives its `bundles` member (default `[]`); any other top level raises |
| Discovery.EntryPaths | py/gt/envoy/_discovery.py:500-502 | paths are built in order iff every entry is a string |
| Discovery.LoadBundlesFromConfig | py/gt/envoy/_discovery.py:453-514 | the loop computes ConfigBundles: valid paths kept in order, invalid ones skipped |
| Discovery.GetBundles | py/gt/envoy/_discovery.py:517-535 | a config file takes priority over auto-discovery |
| Discovery.EnvFilesOf | py/gt/envoy/_discovery.py:552-561 | a bundle's env files are its `*.json` entries except `commands.json` |
| Discovery.Without | py/gt/envoy/_discovery.py:560-561 | exactly the paths not named `commands.json` remain |
| Discovery.Collect | py/gt/envoy/_discovery.py:563-564 | only bundles with files get an entry |
| Discovery.CollectKeys | py/gt/envoy/_discovery.py:552-564 | a name is a key iff some bundle of that name has files |
| Discovery.EnvFilesMapShape | py/gt/envoy/_discovery.py:552-564 | entries are non-empty, never include `commands.json`, and exist iff the bundle has files |
| Discovery.DropNamed | py/gt/envoy/_discovery.py:560-561 | the filtering loop computes Without: the paths not named `commands.json`, in order |
| Discovery.BundleEnvFiles | py/gt/envoy/_discovery.py:556-561 | the per-bundle loop computes EnvFilesOf |
| Discovery.GetBundleEnvFiles | py/gt/envoy/_discovery.py:538-567 | the loop computes EnvFilesMap |
| Discovery.NewBundle | py/gt/envoy/_discovery.py:118-124 | a `Bundle` is constructed iff the path has an `envoy_env` directory, and is the bundle discovery would list |
| Discovery.IsCheckout | py/gt/envoy/_discovery.py:165-172 | `is_checkout` holds iff the version is `checkout` |
| Discovery.BundleCommands | py/gt/envoy/_discovery.py:189-203 | a bundle's command list is sorted and holds exactly its commands file's keys |
| Discovery.UnionOfCommands | py/gt/envoy/_discovery.py:282-285 | the union of every bundle's commands |
| Discovery.BundleConfig.constructor | py/gt/envoy/_discovery.py:257-262 | a new config has nothing cached |
| Discovery.BundleConfig.Bundles | py/gt/envoy/_discovery.py:269-278 | computed on first access and cached; later accesses return the cache |
| Discovery.BundleConfig.CommandList | py/gt/envoy/_discovery.py:280-286 | the sorted, duplicate-free union of the bundles' commands, or the loading error |
| Discovery.OpenBundleConfig | py/gt/envoy/_discovery.py:257-262 | construction succeeds iff the path is a file |
| Proc.RawPathBySeparators | py/envoy/proc.py:78-88 | a command is a raw path iff it contains `os.sep` or `/` |
| Proc.FinalName | py/envoy/proc.py:108 | the final path component holds no separator |
| Proc.LastDot | py/envoy/proc.py:108 | the position of the last `.` or -1 |
| Proc.Suffix | py/envoy/proc.py:108 | a suffix is a final `.xxx` of at least two characters, not the whole name, with no other dot |
| Proc.Lower | py/envoy/proc.py:108 | lower-casing keeps the length |
| Proc.Strings | py/envoy/proc.py:103 | the extra arguments are passed in order |
| Proc.SpawnedAlias | py/envoy/proc.py:278-287 | the command is `[resolved] + alias[1:] + extra` (or `[resolved] + extra` without alias), behind `cmd /c` for a Windows batch file |
| Proc.PopenKwargs | py/envoy/proc.py:280-282 | on Windows `creationflags` defaults to CREATE_NO_WINDOW; nothing else changes |
| Proc.CallCheck | py/envoy/proc.py:459-464 | `call` rejects PIPE for stdout or stderr, and only that |
| Proc.CheckOutputKwargs | py/envoy/proc.py:513-523 | rejects a `stdout` argument, and `input` with `stdin`; otherwise stdout is PIPE and stdin is PIPE when input is given |
| Proc.CheckReturn | py/envoy/proc.py:482-486 | succeeds iff the exit status is 0, otherwise CalledProcessError with it |
| Proc.SplitCmd | py/envoy/proc.py:574-575 | an empty `cmd` is rejected; otherwise head and tail rebuild it |
| Proc.BundleSources | py/envoy/proc.py:139 | each bundle is loaded under its name from its `envoy_env` |
| Proc.FallbackWellFormed | py/envoy/proc.py:148-152 | the fallback load keeps the registry well formed |
| Proc.RegistryAfterWellFormed | py/envoy/proc.py:132-154 | the loaded registry is well formed |
| Proc.Discover | py/envoy/proc.py:135-146 | explicit roots take priority over `ENVOY_BNDL_ROOTS` |
| Proc.LoadFallback | py/envoy/proc.py:148-152 | a commands file is loaded only when the registry is empty |
| Proc.LoadRegistry | py/envoy/proc.py:114-154 | the registry is bundles first, then the commands-file fallback; `bundles` is None iff nothing was discovered |
| Proc.FilesNamed | py/envoy/proc.py:188-194 | exactly the files of that name in the bundles, at most one per bundle |
| Proc.ResolvedFilesMember | py/envoy/proc.py:191-194 | a file is collected iff some bundle has some resolved name |
| Proc.BundleModeFilesLocated | py/envoy/proc.py:186-194 | each file is a `.json` in some bundle's `envoy_env`, named `global_env.json` or after a resolved name |
| Proc.LegacyFilesMeaning | py/envoy/proc.py:210-217 | succeeds iff every referenced file exists, listing them in order; otherwise fails on the first missing one |
| Proc.LegacyModeFilesExist | py/envoy/proc.py:206-217 | every file listed in legacy mode exists |
| Proc.EnvFileListErrors | py/envoy/proc.py:170-182 | an unregistered name raises CommandNotFoundError; a resolution WrapperError raises EnvironmentBuildError |
| Proc.AppendNamed | py/envoy/proc.py:192-194 | the inner loop appends FilesNamed |
| Proc.CollectFromBundles | py/envoy/proc.py:186-194 | global files first in bundle order, then each resolved name across bundles |
| Proc.CollectLegacy | py/envoy/proc.py:206-217 | the legacy loop computes LegacyModeFiles |
| Proc.CollectEnvFiles | py/envoy/proc.py:157-219 | `_collect_env_files` computes EnvFileList |
| Proc.ManagerFor | py/envoy/proc.py:246-247 | the manager allowlist is the set of the given names |
| Proc.PreparedKeepsSeed | py/envoy/proc.py:222-256 | the prepared environment holds every seeded variable and runs the registered definition |
| Proc.PrepareEnv | py/envoy/proc.py:222-256 | `_prepare_env` computes Prepared |
| Proc.PrepareFiles | py/envoy/proc.py:246-254 | preparation failures become EnvironmentBuildError |
| Proc.Combined | py/envoy/proc.py:341-344 | the allowlist is `allowlist ++ whitelist`, or None when both are empty |
| Proc.CombinedAllowlist | py/envoy/proc.py:341-344 | a name is allowlisted iff it is in either list |
| Proc.RawDefinition | py/envoy/proc.py:408-412 | a raw path runs itself with no base args and an empty environment list |
| Proc.BuiltForCommand | py/envoy/proc.py:397-422 | a build holds every seeded variable and a definition named after the command |
| Proc.RawLaunch | py/envoy/proc.py:103-111 | a raw path runs itself with the extra arguments, unresolved |
| Proc.Environment.constructor | py/envoy/proc.py:329-348 | the settings are stored, the allowlist combined, nothing is built |
| Proc.Environment.Allowlist | py/envoy/proc.py:360-362 | the allowlist property is the list, or `[]` |
| Proc.Environment.Build | py/envoy/proc.py:379-422 | builds at most once; later calls return the cached environment |
| Proc.Environment.Spawn | py/envoy/proc.py:424-442 | builds if needed, then launches with the cached environment |
| Proc.Environment.Call | py/envoy/proc.py:444-467 | PIPE is rejected before anything is built |
| Proc.Environment.CheckCall | py/envoy/proc.py:469-486 | a non-zero status raises CalledProcessError naming the executable |
| Proc.Environment.CheckOutput | py/envoy/proc.py:488-533 | argument errors come before the build; a non-zero status raises |
| Proc.SpawnCommand | py/envoy/proc.py:616-624 | an empty `cmd` is rejected; otherwise a fresh Environment for `cmd[0]` spawns `cmd[1:]` |
| Proc.CallCommand | py/envoy/proc.py:574-588 | an empty `cmd`, then PIPE, are rejected before any build |
| Proc.CheckCallCommand | py/envoy/proc.py:655-665 | a non-zero status raises CalledProcessError naming `cmd[0]` |
| Proc.CheckOutputCommand | py/envoy/proc.py:704-712 | an empty `cmd` is rejected, then the stream arguments are checked |
| LegacyWrapper.LegacyScope | py/gt/app/wrapper/_wrapper.py:110-115 | a name resolves to the value being built, then `os.environ`, else "" |
| LegacyWrapper.LegacyReferenceExpands | py/gt/app/wrapper/_wrapper.py:108-117 | `{$NAME}` becomes the value, looked up in the same order |
| LegacyWrapper.BracedReferenceKept | py/gt/app/wrapper/_wrapper.py:108 | `${NAME}` is not a reference here and is kept verbatim |
| LegacyWrapper.NormalizePath | py/gt/app/wrapper/_wrapper.py:132-135 | on Windows no `/` remains and other characters are kept; elsewhere the identity |
| LegacyWrapper.NormalizeEach | py/gt/app/wrapper/_wrapper.py:161 | every list item is normalised, in order |
| LegacyWrapper.NormalizeConcat | py/gt/app/wrapper/_wrapper.py:132-135 | normalisation works character by character |
| LegacyWrapper.NormalizeJoin | py/gt/app/wrapper/_wrapper.py:159-162 | normalising items then joining equals normalising the joined text |
| LegacyWrapper.ListIsJoinedPath | py/gt/app/wrapper/_wrapper.py:159-168 | a list value is processed like the string its items join to |
| LegacyWrapper.ExpandedTextNotNormalized | py/gt/app/wrapper/_wrapper.py:159-168 | expansion comes after normalisation, so a substituted value keeps its slashes |
| LegacyWrapper.SplitLegacyKey | py/gt/app/wrapper/_wrapper.py:229-234 | only `+=` and `^=` are operators; any other key, `?=` included, names itself |
| LegacyWrapper.DefaultIsPlainKey | py/gt/app/wrapper/_wrapper.py:229-234 | `?=NAME` assigns the variable named `?=NAME` |
| LegacyWrapper.CurrentValue | py/gt/app/wrapper/_wrapper.py:242 | the merged value if non-empty, else the `os.environ` value, else "" |
| LegacyWrapper.ApplyLegacyEntry | py/gt/app/wrapper/_wrapper.py:240-258 | one entry defines its name only; a bare key overwrites; with a non-empty current value (merged, else process) `+=` gives `cur sep new` and `^=` gives `new sep cur`; with an empty one both set the value |
| LegacyWrapper.AppendExtendsProcessValue | py/gt/app/wrapper/_wrapper.py:240-255 | `+=`/`^=` on a variable the files have not set extend the `os.environ` value |
| LegacyWrapper.WritesCons | py/gt/app/wrapper/_wrapper.py:223 | entries are visited in order |
| LegacyWrapper.ApplyEntriesKeys | py/gt/app/wrapper/_wrapper.py:223-258 | a file defines exactly the names it writes; other variables keep their value |
| LegacyWrapper.FileEntries | py/gt/app/wrapper/_wrapper.py:207-220 | a missing file raises FileNotFound; loading succeeds iff the file is a JSON object |
| LegacyWrapper.Paths | py/gt/app/wrapper/_wrapper.py:207-208 | each configured file is resolved, in order |
| LegacyWrapper.MergeFilesErrors | py/gt/app/wrapper/_wrapper.py:207-265 | loading fails iff some file fails, with the first failing file's error |
| LegacyWrapper.MergeFilesAppend | py/gt/app/wrapper/_wrapper.py:207-258 | later files apply on top of earlier files' result |
| LegacyWrapper.ProcessEntries | py/gt/app/wrapper/_wrapper.py:223-258 | the entry loop computes ApplyEntries |
| LegacyWrapper.MergeLoop | py/gt/app/wrapper/_wrapper.py:205-265 | the file loop computes MergeFiles from an empty map, stopping at the first failing file |
| LegacyWrapper.LoadEnvFromFiles | py/gt/app/wrapper/_wrapper.py:194-267 | no files give `{}`; otherwise the files merge, from empty, as EnvFromFiles |
| LegacyWrapper.Layered | py/gt/app/wrapper/_wrapper.py:281-294 | explicit values override file values, which override inherited ones |
| LegacyWrapper.Prepared | py/gt/app/wrapper/_wrapper.py:281-294 | preparation fails iff loading the files fails |
| LegacyWrapper.PreparedScope | py/gt/app/wrapper/_wrapper.py:281-294 | closed preparation holds only file and explicit names; inherit mode keeps every process variable not overridden |
| LegacyWrapper.PrepareEnvironment | py/gt/app/wrapper/_wrapper.py:269-294 | `_prepare_environment` computes Prepared |
| LegacyWrapper.PrepareCommand | py/gt/app/wrapper/_wrapper.py:303-304 | the resolved executable followed by the configured arguments; a resolution failure propagates |
| EnvoyApi.GetAllowlist | py/gt/envoy/__init__.py:213-216 | always contains the core and envoy names; exactly those plus `extra` |
| EnvoyApi.DefaultAllowlist | py/gt/envoy/__init__.py:213-216 | no extra or an empty list gives exactly the core and envoy names |
| EnvoyApi.AllowlistMonotone | py/gt/envoy/__init__.py:213-216 | more extra names never remove a name |
| EnvoyApi.AllowlistIsClosedSeed | py/gt/envoy/__init__.py:213-216 | the allowlist names exactly what a closed-mode seed with those extras copies |

## Left out

- Process execution: `Popen`, `wait`, `communicate`, timeouts, signals and the wrapper's `run()` lifecycle. The exit status is an input; `Launch` records the argument list, environment and keyword arguments that would be passed to `Popen`.
- Executable lookup (`ProcessExecutor.resolve_executable`, `shutil.which`, `_resolve_executable`): a `which` function parameter, or an already-resolved `Result` for the legacy wrapper.
- `CommandRegistry.resolve_environment` is not part of this model: its result is an input (a `resolve` function parameter).
- py/envoy/_commands.py, py/envoy/_discovery.py and py/envoy/_executor.py are not part of this model; proc.py is modelled against the gt/envoy registry and discovery.
- `_models.py` (WrapperConfig) is not part of this model; only the fields read are modelled, and a single `env_files` path is given as a list of one.
- JSON decoding: file content is given already parsed or marked malformed. JSON floats are not modelled (numbers are integers).
- Json.Repr: `repr` of strings inside lists and dicts does not escape characters.
- Paths: `Path.resolve` is lexical (`.` and `..`); symbolic links and drive letters are not modelled.
- FileSystem: directory children are assumed to have distinct names where discovery results are characterised (`UniqueNames`).
- Discovery.SearchDir: `PermissionError` and other exceptions swallowed by the search are not modelled (the tree is always readable).
- Windows case-insensitive environment names and case-insensitive globbing are not modelled.
- Proc.Lower: ASCII-only lower-casing of the suffix.
- `UnicodeDecodeError` and other I/O failures on reading a file are not modelled beyond a directory or malformed content.
- The `CommandRegistry(commands_file)` constructor argument is not modelled (proc.py never passes it).
- Commands.ReadCommands: a non-object commands file is reported as `NotObject`; the message text is not modelled.
- `get_bundle_commands_files` is not part of the named core.
- `EnvironmentManager.normalize_path` is never called on the composition path and is not modelled.
- Proc.Environment.CheckOutput: the captured stdout bytes are not modelled; the launch is returned instead.
- `Environment.__str__`, `__repr__` and the `command`/`whitelist` properties are not modelled.
- Logging calls are not modelled.
- LegacyWrapper.FileEntries: the "must contain a JSON object" error, raised inside the `try` and re-raised by its `except Exception`, is reported as a read failure, as are directories.
- In legacy mode, env file locations are resolved with the lexical `ParsePath` (py/envoy/proc.py:211-212).

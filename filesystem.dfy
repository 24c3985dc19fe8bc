/** The filesystem as the core sees it: a tree of named nodes, each either a
    directory with an ordered list of children (the order `iterdir` and `glob`
    report) or a file whose content is a parsed JSON document or malformed
    text. Paths are absolute and already resolved. */
module FileSystem {
  import opened Base
  import opened Json
  import Text

  datatype Content = NoContent | Parsed(doc: Json) | Malformed

  datatype Node = Node(name: string, isDir: bool, children: seq<Node>, content: Content)

  /** The first child with the given name. */
  function ChildNamed(children: seq<Node>, name: string): (r: Option<Node>)
    ensures r.Some? ==> r.value in children && r.value.name == name
    ensures r.None? ==> forall c :: c in children ==> c.name != name
  {
    if children == [] then None
    else if children[0].name == name then Some(children[0])
    else ChildNamed(children[1..], name)
  }

  /** The node at path `p` below `root` (the node of `[]`). */
  function Lookup(root: Node, p: Path): Option<Node>
    decreases |p|
  {
    if p == [] then Some(root)
    else if !root.isDir then None
    else match ChildNamed(root.children, p[0])
      case None => None
      case Some(c) => Lookup(c, p[1..])
  }

  /** Looking up one more component is looking it up among the children of the
      directory found so far. */
  lemma {:induction false} LookupChild(root: Node, p: Path, name: string)
    ensures Lookup(root, p + [name]) ==
      match Lookup(root, p)
      case Some(n) => if n.isDir then ChildNamed(n.children, name) else None
      case None => None
  {
    if p == [] {
      assert ([] + [name])[1..] == [];
    } else {
      assert (p + [name])[0] == p[0];
      assert (p + [name])[1..] == p[1..] + [name];
      if root.isDir {
        match ChildNamed(root.children, p[0])
        case None =>
        case Some(c) => LookupChild(c, p[1..], name);
      }
    }
  }

  /** Looking up `p + q` is looking up `q` below the node found at `p`. */
  lemma {:induction false} LookupAppend(root: Node, p: Path, q: Path)
    ensures Lookup(root, p + q) ==
      if Lookup(root, p).Some? then Lookup(Lookup(root, p).value, q) else None
    decreases |p|
  {
    if p != [] {
      assert (p + q)[0] == p[0];
      assert (p + q)[1..] == p[1..] + q;
      if root.isDir {
        match ChildNamed(root.children, p[0])
        case None =>
        case Some(c) => LookupAppend(c, p[1..], q);
      }
    } else {
      assert p + q == q;
    }
  }

  /** What every real directory tree satisfies: no directory holds two entries
      with the same name. */
  predicate UniqueNames(n: Node)
    decreases n
  {
    (forall i, j :: 0 <= i < j < |n.children| ==> n.children[i].name != n.children[j].name)
    && forall c :: c in n.children ==> UniqueNames(c)
  }

  /** With unique names, looking up a child's name finds that very child. */
  lemma {:induction false} ChildNamedUnique(children: seq<Node>, i: nat)
    requires i < |children|
    requires forall a, b :: 0 <= a < b < |children| ==> children[a].name != children[b].name
    ensures ChildNamed(children, children[i].name) == Some(children[i])
  {
    if i > 0 {
      var rest := children[1..];
      assert children[0].name != children[i].name;
      assert rest[i - 1] == children[i];
      ChildNamedUnique(rest, i - 1);
    }
  }

  lemma {:induction false} UniqueSubtree(root: Node, p: Path)
    requires UniqueNames(root) && Lookup(root, p).Some?
    ensures UniqueNames(Lookup(root, p).value)
    decreases |p|
  {
    if p != [] {
      var c := ChildNamed(root.children, p[0]).value;
      UniqueSubtree(c, p[1..]);
    }
  }

  predicate Exists(fs: Node, p: Path) { Lookup(fs, p).Some? }
  predicate IsDir(fs: Node, p: Path) { Lookup(fs, p).Some? && Lookup(fs, p).value.isDir }
  predicate IsFile(fs: Node, p: Path) { Lookup(fs, p).Some? && !Lookup(fs, p).value.isDir }

  /** What opening and `json.load`-ing a path gives. */
  datatype ReadOutcome = Missing | Directory | Invalid | Doc(doc: Json)

  function Read(fs: Node, p: Path): (r: ReadOutcome)
    ensures r.Missing? <==> !Exists(fs, p)
    ensures r.Directory? <==> IsDir(fs, p)
  {
    match Lookup(fs, p)
    case None => Missing
    case Some(n) =>
      if n.isDir then Directory
      else match n.content
        case Parsed(doc) => Doc(doc)
        case _ => Invalid
  }

  /** `path.name`: the last component, empty for the root. */
  function Name(p: Path): string
  {
    if p == [] then "" else p[|p| - 1]
  }

  /** `path.parent`: the root is its own parent. */
  function Parent(p: Path): (r: Path)
    ensures p != [] ==> p == r + [Name(p)]
  {
    if p == [] then [] else p[..|p| - 1]
  }

  /** The machine the core runs on: its filesystem, its process environment
      (`os.environ`) and whether `os.name == 'nt'`. */
  datatype Host = Host(fs: Node, environ: map<string, string>, isWindows: bool)

  /** The OS path separator (`os.sep`). */
  function OsSep(isWindows: bool): char
  {
    if isWindows then '\\' else '/'
  }

  /** The OS path-list separator (`os.pathsep`), as the core spells it. */
  function PathListSep(isWindows: bool): char
  {
    if isWindows then ';' else ':'
  }

  /** `str(path)`: components joined with the OS separator below a root separator.
      Drive letters are not modelled. */
  function PathStr(p: Path, isWindows: bool): string
  {
    [OsSep(isWindows)] + Text.Join([OsSep(isWindows)], p)
  }

  /** `Path(s).resolve()` done lexically from the working directory `cwd`:
      `/` (and `\` on Windows) separate components, empty and `.` components
      vanish and `..` climbs one level. Symbolic links are not modelled. */
  function ParsePath(s: string, cwd: Path, isWindows: bool): Path
  {
    var t := if isWindows then Text.ReplaceChar(s, '\\', '/') else s;
    var start := if t != [] && t[0] == '/' then [] else cwd;
    Walk(start, Text.Split(t, '/'))
  }

  function Walk(at: Path, parts: seq<string>): Path
    decreases |parts|
  {
    if parts == [] then at
    else if parts[0] == "" || parts[0] == "." then Walk(at, parts[1..])
    else if parts[0] == ".." then Walk(Parent(at), parts[1..])
    else Walk(at + [parts[0]], parts[1..])
  }

  predicate EndsWith(s: string, suffix: string)
  {
    |suffix| <= |s| && s[|s| - |suffix|..] == suffix
  }

  /** `d.glob('*.json')`: every entry of directory `d` whose name ends in `.json`,
      in directory order (case-sensitively). */
  function GlobJson(fs: Node, d: Path): (r: seq<Path>)
    ensures forall q :: q in r ==> q != [] && Parent(q) == d && EndsWith(Name(q), ".json")
  {
    match Lookup(fs, d)
    case Some(n) => if n.isDir then JsonChildren(d, n.children) else []
    case None => []
  }

  function JsonChildren(d: Path, children: seq<Node>): (r: seq<Path>)
    ensures forall q :: q in r ==> q != [] && Parent(q) == d && EndsWith(Name(q), ".json")
  {
    if children == [] then []
    else
      var rest := JsonChildren(d, children[1..]);
      if EndsWith(children[0].name, ".json") then [d + [children[0].name]] + rest else rest
  }
}

/** Bundle discovery: a bundle is a git checkout holding an `envoy_env`
    directory. Bundles are found by a depth-bounded search below the roots
    listed in `ENVOY_BNDL_ROOTS`, or listed explicitly in a config file. */
module Discovery {
  import opened Base
  import opened Json
  import opened FileSystem
  import Text
  import Commands

  /** `BUNDLE_CHECKOUT`: the version of every bundle built from a path. */
  const BundleCheckout := "checkout"
  /** The default `max_depth` of the repository search. */
  const MaxDepth := 5
  const RootsVar := "ENVOY_BNDL_ROOTS"
  const GitDir := ".git"

  /** `BundleInfo`: a bundle root, its name, its `envoy_env` directory and the
      index of the JSON files in it. */
  datatype BundleInfo = BundleInfo(root: Path, name: string, envoyEnv: Path, envFiles: map<string, Path>)

  /** The name → path index of the files in `ps`; for a repeated name the last
      path wins. */
  function IndexOf(ps: seq<Path>): (r: map<string, Path>)
    ensures forall n :: n in r ==> r[n] in ps && Name(r[n]) == n
    ensures forall q :: q in ps ==> Name(q) in r
    decreases |ps|
  {
    if ps == [] then map[]
    else IndexOf(ps[..|ps| - 1])[Name(ps[|ps| - 1]) := ps[|ps| - 1]]
  }

  /** `BundleInfo._index_env_files`: every `*.json` entry of `envoy_env`,
      keyed by its file name; empty when `envoy_env` is not a directory. */
  function IndexEnvFiles(fs: Node, envoyEnv: Path): (r: map<string, Path>)
    ensures forall n :: n in r ==> r[n] == envoyEnv + [n] && EndsWith(n, ".json")
    ensures forall n :: n in r ==> r[n] in GlobJson(fs, envoyEnv)
    ensures forall q :: q in GlobJson(fs, envoyEnv) ==> Name(q) in r
    ensures !IsDir(fs, envoyEnv) ==> r == map[]
  {
    if !IsDir(fs, envoyEnv) then map[]
    else
      var r := IndexOf(GlobJson(fs, envoyEnv));
      assert forall n :: n in r ==> r[n] == envoyEnv + [n] by {
        forall n | n in r ensures r[n] == envoyEnv + [n] {
          assert r[n] != [] && Parent(r[n]) == envoyEnv;
        }
      }
      r
  }

  /** `BundleInfo(root, root.name)`. */
  function MakeBundleInfo(fs: Node, root: Path): (b: BundleInfo)
    ensures b.root == root && b.name == Name(root) && b.envoyEnv == root + [Commands.EnvoyEnvDir]
  {
    var env := root + [Commands.EnvoyEnvDir];
    BundleInfo(root, Name(root), env, IndexEnvFiles(fs, env))
  }

  // ---------------------------------------------------------------------
  // Predicates on directories
  // ---------------------------------------------------------------------

  /** `is_git_repo`: `path/.git` is a directory. */
  predicate IsGitRepo(fs: Node, p: Path)
  {
    IsDir(fs, p + [GitDir])
  }

  /** `has_envoy_env`: `path/envoy_env` is a directory. */
  predicate HasEnvoyEnv(fs: Node, p: Path)
  {
    IsDir(fs, p + [Commands.EnvoyEnvDir])
  }

  /** `validate_bundle`: a directory with an `envoy_env` subdirectory. Having
      the subdirectory already makes the path a directory. */
  function ValidateBundle(fs: Node, p: Path): (r: bool)
    ensures r <==> HasEnvoyEnv(fs, p)
  {
    LookupChild(fs, p, Commands.EnvoyEnvDir);
    IsDir(fs, p) && HasEnvoyEnv(fs, p)
  }

  // ---------------------------------------------------------------------
  // find_git_repos
  // ---------------------------------------------------------------------

  /** Dot-directories are never entered. */
  predicate IsHidden(name: string)
  {
    name != [] && name[0] == '.'
  }

  /** `is_git_repo` on the node of a directory. */
  predicate IsGitNode(n: Node)
  {
    n.isDir && ChildNamed(n.children, GitDir).Some? && ChildNamed(n.children, GitDir).value.isDir
  }

  lemma GitNodeIsGitRepo(fs: Node, p: Path)
    requires Lookup(fs, p).Some?
    ensures IsGitNode(Lookup(fs, p).value) <==> IsGitRepo(fs, p)
  {
    LookupChild(fs, p, GitDir);
  }

  /** What `search_dir(path, depth)` appends: nothing below the depth limit, the
      directory itself if it is a repository, else what the search of each
      non-hidden subdirectory appends, in directory order. */
  function Search(n: Node, path: Path, depth: int, maxDepth: int): seq<Path>
    decreases n, 1
  {
    if depth > maxDepth then []
    else if IsGitNode(n) then [path]
    else SearchAll(n, n.children, path, depth, maxDepth)
  }

  function SearchAll(ghost parent: Node, cs: seq<Node>, path: Path, depth: int, maxDepth: int): seq<Path>
    requires forall i :: 0 <= i < |cs| ==> cs[i] < parent
    decreases parent, 0, |cs|
  {
    if cs == [] then []
    else
      var c := cs[|cs| - 1];
      SearchAll(parent, cs[..|cs| - 1], path, depth, maxDepth)
      + (if c.isDir && !IsHidden(c.name) then Search(c, path + [c.name], depth + 1, maxDepth) else [])
  }

  /** `find_git_repos(root, max_depth)`. */
  function GitRepos(fs: Node, root: Path, maxDepth: int): seq<Path>
  {
    if IsDir(fs, root) then Search(Lookup(fs, root).value, root, 0, maxDepth) else []
  }

  /** Path `s` leads from directory `n` (searched at `depth`) to a repository
      the search reports: every step is within the depth limit, enters a
      non-hidden subdirectory, and leaves a directory that is not itself a
      repository; the end is a repository. */
  predicate Reached(n: Node, s: Path, depth: int, maxDepth: int)
    decreases |s|
  {
    depth <= maxDepth
    && if s == [] then IsGitNode(n)
       else
         n.isDir && !IsGitNode(n) && !IsHidden(s[0])
         && ChildNamed(n.children, s[0]).Some?
         && ChildNamed(n.children, s[0]).value.isDir
         && Reached(ChildNamed(n.children, s[0]).value, s[1..], depth + 1, maxDepth)
  }

  lemma {:induction false} SearchAllMember(parent: Node, cs: seq<Node>, path: Path, depth: int, maxDepth: int, r: Path)
    requires forall i :: 0 <= i < |cs| ==> cs[i] < parent
    ensures r in SearchAll(parent, cs, path, depth, maxDepth) <==>
      exists i :: 0 <= i < |cs| && cs[i].isDir && !IsHidden(cs[i].name)
                  && r in Search(cs[i], path + [cs[i].name], depth + 1, maxDepth)
    decreases |cs|
  {
    if cs != [] {
      var init := cs[..|cs| - 1];
      var c := cs[|cs| - 1];
      var tail := if c.isDir && !IsHidden(c.name) then Search(c, path + [c.name], depth + 1, maxDepth) else [];
      SearchAllMember(parent, init, path, depth, maxDepth, r);
      assert SearchAll(parent, cs, path, depth, maxDepth) == SearchAll(parent, init, path, depth, maxDepth) + tail;
      if r in SearchAll(parent, init, path, depth, maxDepth) {
        var i :| 0 <= i < |init| && init[i].isDir && !IsHidden(init[i].name)
                 && r in Search(init[i], path + [init[i].name], depth + 1, maxDepth);
        assert cs[i] == init[i];
      }
      if exists i :: 0 <= i < |cs| && cs[i].isDir && !IsHidden(cs[i].name)
                     && r in Search(cs[i], path + [cs[i].name], depth + 1, maxDepth) {
        var i :| 0 <= i < |cs| && cs[i].isDir && !IsHidden(cs[i].name)
                 && r in Search(cs[i], path + [cs[i].name], depth + 1, maxDepth);
        if i < |init| {
          assert cs[i] == init[i];
        }
      }
    }
  }

  /** Every result of the search is reached from the searched directory. */
  lemma {:induction false} SearchSound(n: Node, path: Path, depth: int, maxDepth: int, r: Path) returns (s: Path)
    requires n.isDir && UniqueNames(n)
    requires r in Search(n, path, depth, maxDepth)
    ensures r == path + s && Reached(n, s, depth, maxDepth)
    decreases n
  {
    if IsGitNode(n) {
      s := [];
      assert r == path + s;
    } else {
      SearchAllMember(n, n.children, path, depth, maxDepth, r);
      var i :| 0 <= i < |n.children| && n.children[i].isDir && !IsHidden(n.children[i].name)
               && r in Search(n.children[i], path + [n.children[i].name], depth + 1, maxDepth);
      var c := n.children[i];
      var s' := SearchSound(c, path + [c.name], depth + 1, maxDepth, r);
      ChildNamedUnique(n.children, i);
      s := [c.name] + s';
      SoundStep(n, c, s', depth, maxDepth);
      AppendAssoc(path, [c.name], s');
    }
  }

  /** Sequence concatenation regroups: kept as its own step so that the
      soundness proof stays within the solver's budget. */
  lemma AppendAssoc(a: Path, b: Path, c: Path)
    ensures a + b + c == a + (b + c)
  {
  }

  lemma SoundStep(n: Node, c: Node, s': Path, depth: int, maxDepth: int)
    requires n.isDir && !IsGitNode(n) && depth <= maxDepth
    requires c.isDir && !IsHidden(c.name) && ChildNamed(n.children, c.name) == Some(c)
    requires Reached(c, s', depth + 1, maxDepth)
    ensures Reached(n, [c.name] + s', depth, maxDepth)
  {
    var s := [c.name] + s';
    assert s[0] == c.name && s[1..] == s';
  }

  /** Every reached repository is among the results. */
  lemma {:induction false} SearchComplete(n: Node, path: Path, depth: int, maxDepth: int, s: Path)
    requires Reached(n, s, depth, maxDepth)
    ensures path + s in Search(n, path, depth, maxDepth)
    decreases |s|
  {
    if s == [] {
      assert path + s == path;
    } else {
      var c := ChildNamed(n.children, s[0]).value;
      var i :| 0 <= i < |n.children| && n.children[i] == c;
      SearchComplete(c, path + [c.name], depth + 1, maxDepth, s[1..]);
      assert path + [c.name] + s[1..] == path + s;
      SearchAllMember(n, n.children, path, depth, maxDepth, path + s);
    }
  }

  /** A reached repository lies within the depth limit, below non-hidden names
      only, and is a repository. */
  lemma {:induction false} ReachedShape(n: Node, s: Path, depth: int, maxDepth: int)
    requires Reached(n, s, depth, maxDepth)
    ensures |s| <= maxDepth - depth
    ensures forall k :: 0 <= k < |s| ==> !IsHidden(s[k])
    ensures Lookup(n, s).Some? && IsGitNode(Lookup(n, s).value)
    decreases |s|
  {
    if s != [] {
      var c := ChildNamed(n.children, s[0]).value;
      ReachedShape(c, s[1..], depth + 1, maxDepth);
      assert forall k :: 1 <= k < |s| ==> s[k] == s[1..][k - 1];
    }
  }

  /** The search stops at a repository: no reached repository lies strictly
      inside another. */
  lemma {:induction false} ReachedNotNested(n: Node, s1: Path, s2: Path, depth: int, maxDepth: int)
    requires Reached(n, s1, depth, maxDepth) && Reached(n, s2, depth, maxDepth)
    requires |s1| < |s2|
    ensures s2[..|s1|] != s1
    decreases |s1|
  {
    if s1 != [] && s2[0] == s1[0] {
      var c := ChildNamed(n.children, s1[0]).value;
      ReachedNotNested(c, s1[1..], s2[1..], depth + 1, maxDepth);
      assert s2[..|s1|][1..] == s2[1..][..|s1| - 1];
    }
  }

  /** `find_git_repos` reports exactly the repositories reached from the root:
      each is a repository, at most `max_depth` levels down, below non-hidden
      directories only; and a root that is not a directory gives nothing. */
  lemma GitReposExactly(fs: Node, root: Path, maxDepth: int, r: Path)
    requires UniqueNames(fs)
    ensures r in GitRepos(fs, root, maxDepth) <==>
      IsDir(fs, root) && exists s :: r == root + s && Reached(Lookup(fs, root).value, s, 0, maxDepth)
  {
    if IsDir(fs, root) {
      var n := Lookup(fs, root).value;
      if r in GitRepos(fs, root, maxDepth) {
        UniqueSubtree(fs, root);
        var s := SearchSound(n, root, 0, maxDepth, r);
      }
      if exists s :: r == root + s && Reached(n, s, 0, maxDepth) {
        var s :| r == root + s && Reached(n, s, 0, maxDepth);
        SearchComplete(n, root, 0, maxDepth, s);
      }
    }
  }

  /** Every result is a git repository at most `max_depth` levels below the
      root, reached through non-hidden directories only. */
  lemma GitReposAreRepos(fs: Node, root: Path, maxDepth: int, r: Path) returns (s: Path)
    requires UniqueNames(fs)
    requires r in GitRepos(fs, root, maxDepth)
    ensures r == root + s && |s| <= maxDepth
    ensures forall k :: 0 <= k < |s| ==> !IsHidden(s[k])
    ensures IsGitRepo(fs, r)
  {
    var n := Lookup(fs, root).value;
    UniqueSubtree(fs, root);
    s := SearchSound(n, root, 0, maxDepth, r);
    ReachedShape(n, s, 0, maxDepth);
    LookupAppend(fs, root, s);
    GitNodeIsGitRepo(fs, r);
  }

  /** No result lies strictly inside another result. */
  lemma GitReposNotNested(fs: Node, root: Path, maxDepth: int, r1: Path, r2: Path)
    requires UniqueNames(fs)
    requires r1 in GitRepos(fs, root, maxDepth) && r2 in GitRepos(fs, root, maxDepth)
    requires |r1| < |r2|
    ensures r2[..|r1|] != r1
  {
    var n := Lookup(fs, root).value;
    UniqueSubtree(fs, root);
    var s1 := SearchSound(n, root, 0, maxDepth, r1);
    var s2 := SearchSound(n, root, 0, maxDepth, r2);
    ReachedNotNested(n, s1, s2, 0, maxDepth);
    assert r2[..|r1|][|root|..] == s2[..|s1|];
    assert r1[|root|..] == s1;
  }

  /** The nested `search_dir` of `find_git_repos`. */
  method SearchDir(n: Node, path: Path, depth: int, maxDepth: int) returns (found: seq<Path>)
    ensures found == Search(n, path, depth, maxDepth)
    decreases n
  {
    if depth > maxDepth {
      return [];
    }
    if IsGitNode(n) {
      return [path];
    }
    found := [];
    var i := 0;
    while i < |n.children|
      invariant 0 <= i <= |n.children|
      invariant found == SearchAll(n, n.children[..i], path, depth, maxDepth)
    {
      var c := n.children[i];
      assert n.children[..i + 1][..i] == n.children[..i];
      if c.isDir && !IsHidden(c.name) {
        var sub := SearchDir(c, path + [c.name], depth + 1, maxDepth);
        found := found + sub;
      }
      i := i + 1;
    }
    assert n.children[..i] == n.children;
  }

  /** `find_git_repos`. */
  method FindGitRepos(fs: Node, root: Path, maxDepth: int) returns (repos: seq<Path>)
    ensures repos == GitRepos(fs, root, maxDepth)
    ensures !IsDir(fs, root) ==> repos == []
  {
    if !IsDir(fs, root) {
      return [];
    }
    repos := SearchDir(Lookup(fs, root).value, root, 0, maxDepth);
  }

  // ---------------------------------------------------------------------
  // From paths to bundles
  // ---------------------------------------------------------------------

  /** The valid bundles among `paths`, in order. */
  function ValidBundles(fs: Node, paths: seq<Path>): seq<BundleInfo>
    decreases |paths|
  {
    if paths == [] then []
    else
      var p := paths[|paths| - 1];
      ValidBundles(fs, paths[..|paths| - 1]) + (if ValidateBundle(fs, p) then [MakeBundleInfo(fs, p)] else [])
  }

  /** Filtering is order-preserving: it distributes over concatenation. */
  lemma {:induction false} ValidBundlesAppend(fs: Node, a: seq<Path>, b: seq<Path>)
    ensures ValidBundles(fs, a + b) == ValidBundles(fs, a) + ValidBundles(fs, b)
    decreases |b|
  {
    if b == [] {
      assert a + b == a;
    } else {
      var ab := a + b;
      assert ab[..|ab| - 1] == a + b[..|b| - 1];
      ValidBundlesAppend(fs, a, b[..|b| - 1]);
    }
  }

  /** Exactly the valid paths become bundles. */
  lemma {:induction false} ValidBundlesMember(fs: Node, paths: seq<Path>, b: BundleInfo)
    ensures b in ValidBundles(fs, paths) <==>
      exists p :: p in paths && ValidateBundle(fs, p) && b == MakeBundleInfo(fs, p)
    decreases |paths|
  {
    if paths != [] {
      var init := paths[..|paths| - 1];
      ValidBundlesMember(fs, init, b);
      assert paths == init + [paths[|paths| - 1]];
    }
  }

  /** `discover_bundles_from_roots` on the roots' resolved paths. */
  function BundlesFromRoots(fs: Node, roots: seq<Path>): seq<BundleInfo>
    decreases |roots|
  {
    if roots == [] then []
    else
      BundlesFromRoots(fs, roots[..|roots| - 1])
      + ValidBundles(fs, GitRepos(fs, roots[|roots| - 1], MaxDepth))
  }

  /** The roots keep their order: the bundles of `a + b` are those of `a`
      followed by those of `b`. */
  lemma {:induction false} BundlesFromRootsAppend(fs: Node, a: seq<Path>, b: seq<Path>)
    ensures BundlesFromRoots(fs, a + b) == BundlesFromRoots(fs, a) + BundlesFromRoots(fs, b)
    decreases |b|
  {
    if b == [] {
      assert a + b == a;
    } else {
      var init := b[..|b| - 1];
      var tail := ValidBundles(fs, GitRepos(fs, b[|b| - 1], MaxDepth));
      assert (a + b)[..|a + b| - 1] == a + init;
      assert (a + b)[|a + b| - 1] == b[|b| - 1];
      assert BundlesFromRoots(fs, a + b) == BundlesFromRoots(fs, a + init) + tail;
      BundlesFromRootsAppend(fs, a, init);
      assert BundlesFromRoots(fs, b) == BundlesFromRoots(fs, init) + tail;
    }
  }

  /** The inner loop of `discover_bundles_from_roots` and of
      `load_bundles_from_config`: keep the paths that `validate_bundle` accepts. */
  method KeepValid(fs: Node, paths: seq<Path>) returns (bundles: seq<BundleInfo>)
    ensures bundles == ValidBundles(fs, paths)
  {
    bundles := [];
    var i := 0;
    while i < |paths|
      invariant 0 <= i <= |paths|
      invariant bundles == ValidBundles(fs, paths[..i])
    {
      assert paths[..i + 1][..i] == paths[..i];
      if ValidateBundle(fs, paths[i]) {
        bundles := bundles + [MakeBundleInfo(fs, paths[i])];
      }
      i := i + 1;
    }
    assert paths[..i] == paths;
  }

  /** The resolved paths of the root strings. */
  function ResolveAll(roots: seq<string>, cwd: Path, isWindows: bool): (r: seq<Path>)
    ensures |r| == |roots|
    ensures forall i :: 0 <= i < |r| ==> r[i] == ParsePath(roots[i], cwd, isWindows)
  {
    seq(|roots|, i requires 0 <= i < |roots| => ParsePath(roots[i], cwd, isWindows))
  }

  /** `discover_bundles_from_roots`: roots in order, each root's repositories
      in search order, keeping the valid bundles. */
  method DiscoverBundlesFromRoots(fs: Node, roots: seq<string>, cwd: Path, isWindows: bool)
    returns (bundles: seq<BundleInfo>)
    ensures bundles == BundlesFromRoots(fs, ResolveAll(roots, cwd, isWindows))
  {
    ghost var all := ResolveAll(roots, cwd, isWindows);
    bundles := [];
    var i := 0;
    while i < |roots|
      invariant 0 <= i <= |roots|
      invariant bundles == BundlesFromRoots(fs, all[..i])
    {
      assert all[..i + 1][..i] == all[..i] && all[..i + 1][i] == all[i];
      var root := ParsePath(roots[i], cwd, isWindows);
      assert root == all[i];
      var repos := FindGitRepos(fs, root, MaxDepth);
      var found := KeepValid(fs, repos);
      assert BundlesFromRoots(fs, all[..i + 1]) == BundlesFromRoots(fs, all[..i]) + found;
      bundles := bundles + found;
      i := i + 1;
    }
    assert all[..i] == all;
  }

  // ---------------------------------------------------------------------
  // discover_bundles_auto
  // ---------------------------------------------------------------------

  /** Non-empty, and neither starting nor ending with whitespace. */
  predicate Trimmed(x: string)
  {
    x != [] && !Text.IsSpace(x[0]) && !Text.IsSpace(x[|x| - 1])
  }

  /** The stripped non-blank parts of `parts`. */
  function StrippedParts(parts: seq<string>, sep: char): (r: seq<string>)
    requires forall j :: 0 <= j < |parts| ==> sep !in parts[j]
    ensures forall x :: x in r ==> Trimmed(x) && sep !in x
    decreases |parts|
  {
    if parts == [] then []
    else
      var rest := StrippedParts(parts[1..], sep);
      var s := Text.Strip(parts[0]);
      StrippedPart(parts[0], sep);
      if s != [] then [s] + rest else rest
  }

  /** Parts that are all blank leave nothing. */
  lemma {:induction false} StrippedBlank(parts: seq<string>, sep: char)
    requires forall j :: 0 <= j < |parts| ==> sep !in parts[j]
    requires forall j :: 0 <= j < |parts| ==> Text.Strip(parts[j]) == []
    ensures StrippedParts(parts, sep) == []
    decreases |parts|
  {
    if parts != [] {
      assert Text.Strip(parts[0]) == [];
      StrippedBlank(parts[1..], sep);
    }
  }

  /** A non-blank stripped part is trimmed and still free of the separator. */
  lemma StrippedPart(p: string, sep: char)
    requires sep !in p
    ensures Text.Strip(p) != [] ==> Trimmed(Text.Strip(p)) && sep !in Text.Strip(p)
  {
    StripChars(p);
  }

  /** Stripping only removes characters. */
  lemma StripChars(p: string)
    ensures forall c :: c in Text.Strip(p) ==> c in p
  {
    var s := Text.Strip(p);
    var a, b :| 0 <= a <= b <= |p| && s == p[a..b];
    forall c | c in s ensures c in p {
      var k :| 0 <= k < |s| && s[k] == c;
      assert p[a + k] == c;
    }
  }

  /** The root list of `ENVOY_BNDL_ROOTS`: split on the OS path-list separator,
      each part stripped, blank parts dropped. */
  function RootList(value: string, isWindows: bool): (r: seq<string>)
    ensures forall x :: x in r ==> Trimmed(x) && PathListSep(isWindows) !in x
  {
    StrippedParts(Text.Split(value, PathListSep(isWindows)), PathListSep(isWindows))
  }

  /** Every character of a part of `s.split(sep)` is a character of `s`. */
  lemma {:induction false} SplitChars(s: string, sep: char)
    ensures forall j, c :: 0 <= j < |Text.Split(s, sep)| && c in Text.Split(s, sep)[j] ==> c in s
  {
    if s != [] {
      SplitChars(s[1..], sep);
      var rest := Text.Split(s[1..], sep);
      var parts := Text.Split(s, sep);
      assert forall c :: c in s[1..] ==> c in s;
      forall j, c | 0 <= j < |parts| && c in parts[j] ensures c in s {
        if s[0] == sep {
          assert parts == [""] + rest;
          assert j > 0 && parts[j] == rest[j - 1];
          assert c in s[1..];
        } else {
          assert parts == [[s[0]] + rest[0]] + rest[1..];
          if j == 0 {
            assert c == s[0] || c in rest[0];
          } else {
            assert parts[j] == rest[j];
            assert c in s[1..];
          }
        }
      }
    }
  }

  /** An unset or blank variable gives no roots. */
  lemma BlankRootList(value: string, isWindows: bool)
    requires Text.AllSpace(value)
    ensures RootList(value, isWindows) == []
  {
    var parts := Text.Split(value, PathListSep(isWindows));
    SplitChars(value, PathListSep(isWindows));
    forall j | 0 <= j < |parts| ensures Text.Strip(parts[j]) == [] {
      assert Text.AllSpace(parts[j]) by {
        forall k | 0 <= k < |parts[j]| ensures Text.IsSpace(parts[j][k]) {
          assert parts[j][k] in parts[j];
          assert parts[j][k] in value;
        }
      }
      AllSpaceStrip(parts[j]);
    }
    StrippedBlank(parts, PathListSep(isWindows));
  }

  lemma AllSpaceStrip(p: string)
    requires Text.AllSpace(p)
    ensures Text.Strip(p) == []
  {
    var s := Text.Strip(p);
    var a, b :| 0 <= a <= b <= |p| && s == p[a..b] && Text.AllSpace(p[..a]) && Text.AllSpace(p[b..]);
  }

  /** The value of `ENVOY_BNDL_ROOTS`, or `''`. */
  function RootsValue(environ: map<string, string>): string
  {
    if RootsVar in environ then environ[RootsVar] else ""
  }

  /** `discover_bundles_auto`: the bundles below the listed roots. */
  method DiscoverBundlesAuto(host: Host, cwd: Path) returns (bundles: seq<BundleInfo>)
    ensures bundles == BundlesFromRoots(host.fs,
      ResolveAll(RootList(RootsValue(host.environ), host.isWindows), cwd, host.isWindows))
    ensures Text.AllSpace(RootsValue(host.environ)) ==> bundles == []
  {
    var value := RootsValue(host.environ);
    if Text.AllSpace(value) {
      BlankRootList(value, host.isWindows);
    }
    if value == [] {
      return [];
    }
    var roots := RootList(value, host.isWindows);
    if roots == [] {
      return [];
    }
    bundles := DiscoverBundlesFromRoots(host.fs, roots, cwd, host.isWindows);
  }

  // ---------------------------------------------------------------------
  // load_bundles_from_config and get_bundles
  // ---------------------------------------------------------------------

  /** The entries of a bundle config: the `bundles` member of an object
      (default `[]`), or the array itself; iterating them may fail. */
  function ConfigEntries(fs: Node, file: Path): (r: Result<seq<Json>>)
    ensures !IsFile(fs, file) ==> r == Err(WrapperError(ConfigNotFound(file)))
    ensures IsFile(fs, file) && Read(fs, file).Doc? && !Read(fs, file).doc.JObject? && !Read(fs, file).doc.JArray?
            ==> r == Err(WrapperError(BadConfigShape))
    ensures IsFile(fs, file) && !Read(fs, file).Doc? ==> r == Err(WrapperError(InvalidJson(file)))
    ensures IsFile(fs, file) && Read(fs, file).Doc? && Read(fs, file).doc.JArray? ==> r == Ok(Read(fs, file).doc.items)
    ensures IsFile(fs, file) && Read(fs, file).Doc? && Read(fs, file).doc.JObject? ==>
              r == match Get(Read(fs, file).doc.entries, "bundles")
                   case None => Ok([])
                   case Some(v) => Iterate(v)
  {
    if !IsFile(fs, file) then Err(WrapperError(ConfigNotFound(file)))
    else match Read(fs, file)
      case Doc(d) =>
        if d.JObject? then
          match Get(d.entries, "bundles")
          case None => Ok([])
          case Some(v) => Iterate(v)
        else if d.JArray? then Ok(d.items)
        else Err(WrapperError(BadConfigShape))
      case _ => Err(WrapperError(InvalidJson(file)))
  }

  /** The resolved path of every entry; an entry that is not a string makes
      `Path()` raise TypeError. */
  function EntryPaths(entries: seq<Json>, cwd: Path, isWindows: bool): (r: Result<seq<Path>>)
    ensures r.Ok? <==> forall i :: 0 <= i < |entries| ==> entries[i].JString?
    ensures r.Ok? ==> |r.value| == |entries|
  {
    if forall i :: 0 <= i < |entries| ==> entries[i].JString? then
      Ok(seq(|entries|, i requires 0 <= i < |entries| => ParsePath(entries[i].s, cwd, isWindows)))
    else Err(Uncaught(None))
  }

  /** `load_bundles_from_config` as a function of the filesystem. */
  function ConfigBundles(fs: Node, file: Path, cwd: Path, isWindows: bool): Result<seq<BundleInfo>>
  {
    var entries :- ConfigEntries(fs, file);
    var paths :- EntryPaths(entries, cwd, isWindows);
    Ok(ValidBundles(fs, paths))
  }

  /** `load_bundles_from_config`: a missing file, bad JSON and a shape that is
      neither object nor array raise WrapperError; invalid bundle paths are
      skipped and the valid ones keep their order. */
  method LoadBundlesFromConfig(fs: Node, file: Path, cwd: Path, isWindows: bool)
    returns (r: Result<seq<BundleInfo>>)
    ensures r == ConfigBundles(fs, file, cwd, isWindows)
  {
    var entries :- ConfigEntries(fs, file);
    var bundles: seq<BundleInfo> := [];
    ghost var paths: seq<Path> := [];
    var i := 0;
    while i < |entries|
      invariant 0 <= i <= |entries|
      invariant forall k :: 0 <= k < i ==> entries[k].JString?
      invariant |paths| == i
      invariant forall k :: 0 <= k < i ==> paths[k] == ParsePath(entries[k].s, cwd, isWindows)
      invariant bundles == ValidBundles(fs, paths)
    {
      if !entries[i].JString? {
        return Err(Uncaught(None));
      }
      var path := ParsePath(entries[i].s, cwd, isWindows);
      assert (paths + [path])[..i] == paths;
      paths := paths + [path];
      if ValidateBundle(fs, path) {
        bundles := bundles + [MakeBundleInfo(fs, path)];
      }
      i := i + 1;
    }
    assert EntryPaths(entries, cwd, isWindows).value == paths;
    return Ok(bundles);
  }

  /** `get_bundles`: the config file when one is given, else auto-discovery. */
  method GetBundles(host: Host, configFile: Option<Path>, cwd: Path) returns (r: Result<seq<BundleInfo>>)
    ensures configFile.Some? ==> r == ConfigBundles(host.fs, configFile.value, cwd, host.isWindows)
    ensures configFile.None? ==> r == Ok(BundlesFromRoots(host.fs,
      ResolveAll(RootList(RootsValue(host.environ), host.isWindows), cwd, host.isWindows)))
  {
    if configFile.Some? {
      r := LoadBundlesFromConfig(host.fs, configFile.value, cwd, host.isWindows);
    } else {
      var bundles := DiscoverBundlesAuto(host, cwd);
      r := Ok(bundles);
    }
  }

  // ---------------------------------------------------------------------
  // get_bundle_env_files
  // ---------------------------------------------------------------------

  /** The environment files of one bundle: its `*.json` entries except
      `commands.json`, in directory order. */
  function EnvFilesOf(fs: Node, b: BundleInfo): (r: seq<Path>)
    ensures forall q :: q in r ==> q in GlobJson(fs, b.envoyEnv) && Name(q) != Commands.CommandsJson
    ensures forall q :: q in GlobJson(fs, b.envoyEnv) && Name(q) != Commands.CommandsJson ==> q in r
  {
    Without(GlobJson(fs, b.envoyEnv), Commands.CommandsJson)
  }

  function Without(ps: seq<Path>, name: string): (r: seq<Path>)
    ensures forall q :: q in r <==> q in ps && Name(q) != name
    decreases |ps|
  {
    if ps == [] then []
    else
      var init := Without(ps[..|ps| - 1], name);
      var q := ps[|ps| - 1];
      assert ps == ps[..|ps| - 1] + [q];
      if Name(q) != name then init + [q] else init
  }

  /** A dict built by assigning `d[name] = files` for each pair in order,
      skipping empty file lists; a later pair of the same name replaces an
      earlier one. */
  function Collect(pairs: seq<(string, seq<Path>)>): (r: map<string, seq<Path>>)
    ensures forall n :: n in r ==> r[n] != [] && (n, r[n]) in pairs
    decreases |pairs|
  {
    if pairs == [] then map[]
    else
      var init := pairs[..|pairs| - 1];
      var last := pairs[|pairs| - 1];
      assert forall x :: x in init ==> x in pairs;
      if last.1 != [] then Collect(init)[last.0 := last.1] else Collect(init)
  }

  /** A name is a key exactly when some pair of that name has files. */
  lemma {:induction false} CollectKeys(pairs: seq<(string, seq<Path>)>, n: string)
    ensures n in Collect(pairs) <==> exists i :: 0 <= i < |pairs| && pairs[i].0 == n && pairs[i].1 != []
    decreases |pairs|
  {
    if pairs != [] {
      var init := pairs[..|pairs| - 1];
      CollectKeys(init, n);
      assert forall i :: 0 <= i < |init| ==> init[i] == pairs[i];
    }
  }

  lemma CollectStep(pairs: seq<(string, seq<Path>)>, i: nat)
    requires i < |pairs|
    ensures Collect(pairs[..i + 1]) ==
      if pairs[i].1 != [] then Collect(pairs[..i])[pairs[i].0 := pairs[i].1] else Collect(pairs[..i])
  {
    assert pairs[..i + 1][..i] == pairs[..i];
  }

  /** Each bundle's name with its environment files. */
  function BundleFiles(fs: Node, bundles: seq<BundleInfo>): (r: seq<(string, seq<Path>)>)
    ensures |r| == |bundles|
    ensures forall i :: 0 <= i < |r| ==> r[i] == (bundles[i].name, EnvFilesOf(fs, bundles[i]))
  {
    seq(|bundles|, i requires 0 <= i < |bundles| => (bundles[i].name, EnvFilesOf(fs, bundles[i])))
  }

  /** `get_bundle_env_files` as a function: bundle name → its environment
      files, for the bundles that have some. */
  function EnvFilesMap(fs: Node, bundles: seq<BundleInfo>): map<string, seq<Path>>
  {
    Collect(BundleFiles(fs, bundles))
  }

  /** Every listed file list is non-empty and never holds `commands.json`; a
      bundle name is a key exactly when some bundle of that name has
      environment files, so bundles without any are omitted. */
  lemma EnvFilesMapShape(fs: Node, bundles: seq<BundleInfo>, n: string)
    ensures n in EnvFilesMap(fs, bundles) ==>
      EnvFilesMap(fs, bundles)[n] != []
      && forall q :: q in EnvFilesMap(fs, bundles)[n] ==> Name(q) != Commands.CommandsJson
    ensures n in EnvFilesMap(fs, bundles) <==>
      exists i :: 0 <= i < |bundles| && bundles[i].name == n && EnvFilesOf(fs, bundles[i]) != []
  {
    var pairs := BundleFiles(fs, bundles);
    CollectKeys(pairs, n);
    if n in EnvFilesMap(fs, bundles) {
      var i :| 0 <= i < |pairs| && pairs[i] == (n, EnvFilesMap(fs, bundles)[n]);
    }
  }

  /** The filtering loop: the paths not named `name`, in order. */
  method DropNamed(ps: seq<Path>, name: string) returns (kept: seq<Path>)
    ensures kept == Without(ps, name)
  {
    kept := [];
    var i := 0;
    while i < |ps|
      invariant 0 <= i <= |ps|
      invariant kept == Without(ps[..i], name)
    {
      assert ps[..i + 1][..i] == ps[..i] && ps[..i + 1][i] == ps[i];
      if Name(ps[i]) != name {
        kept := kept + [ps[i]];
      }
      i := i + 1;
    }
    assert ps[..i] == ps;
  }

  /** The file loop for one bundle. */
  method BundleEnvFiles(fs: Node, b: BundleInfo) returns (files: seq<Path>)
    ensures files == EnvFilesOf(fs, b)
  {
    files := [];
    if IsDir(fs, b.envoyEnv) {
      files := DropNamed(GlobJson(fs, b.envoyEnv), Commands.CommandsJson);
    }
  }

  /** `get_bundle_env_files`. */
  method GetBundleEnvFiles(fs: Node, bundles: seq<BundleInfo>) returns (r: map<string, seq<Path>>)
    ensures r == EnvFilesMap(fs, bundles)
  {
    ghost var pairs := BundleFiles(fs, bundles);
    r := map[];
    var i := 0;
    while i < |bundles|
      invariant 0 <= i <= |bundles|
      invariant r == Collect(pairs[..i])
    {
      CollectStep(pairs, i);
      var files := BundleEnvFiles(fs, bundles[i]);
      if files != [] {
        r := r[bundles[i].name := files];
      }
      i := i + 1;
    }
    assert pairs[..i] == pairs;
  }

  // ---------------------------------------------------------------------
  // Bundle and BundleConfig
  // ---------------------------------------------------------------------

  /** `Bundle(path)`: the resolved path must be a valid bundle, else ValueError. */
  function NewBundle(fs: Node, path: string, cwd: Path, isWindows: bool): (r: Result<BundleInfo>)
    ensures r.Ok? <==> HasEnvoyEnv(fs, ParsePath(path, cwd, isWindows))
    ensures r.Ok? ==> r.value in ValidBundles(fs, [ParsePath(path, cwd, isWindows)])
  {
    var root := ParsePath(path, cwd, isWindows);
    LookupChild(fs, root, Commands.EnvoyEnvDir);
    if !IsDir(fs, root) then Err(ValueError("Bundle path does not exist"))
    else if !HasEnvoyEnv(fs, root) then Err(ValueError("Not a valid bundle (no envoy_env/)"))
    else
      assert ValidateBundle(fs, root);
      assert [root][..0] == [];
      Ok(MakeBundleInfo(fs, root))
  }

  /** `Bundle.version`. */
  function Version(b: BundleInfo): string
  {
    BundleCheckout
  }

  /** `Bundle.is_production`: no bundle is a production build yet. */
  predicate IsProduction(b: BundleInfo)
  {
    false
  }

  /** `Bundle.is_checkout`: the opposite of `is_production`, which makes it
      exactly the bundles whose version is the checkout sentinel. */
  function IsCheckout(b: BundleInfo): (r: bool)
    ensures r <==> Version(b) == BundleCheckout
  {
    !IsProduction(b)
  }

  /** The command names of a bundle's `commands.json`: the keys of its object,
      none when the file is missing, unreadable, malformed or not an object. */
  function CommandNames(fs: Node, b: BundleInfo): set<string>
  {
    match Read(fs, b.envoyEnv + [Commands.CommandsJson])
    case Doc(JObject(entries)) => set i | 0 <= i < |entries| :: entries[i].0
    case _ => {}
  }

  /** `Bundle.commands`: the command names, sorted and each once. */
  method BundleCommands(fs: Node, b: BundleInfo) returns (r: seq<string>)
    ensures Text.StrictlySorted(r)
    ensures forall x :: x in r <==> x in CommandNames(fs, b)
  {
    var file := b.envoyEnv + [Commands.CommandsJson];
    if !Exists(fs, file) {
      return [];
    }
    match Read(fs, file) {
      case Doc(JObject(entries)) =>
        r := Text.SortedNames(set i | 0 <= i < |entries| :: entries[i].0);
      case _ =>
        r := [];
    }
  }

  /** The loop of `BundleConfig.commands`: the union of the bundles' names. */
  method UnionOfCommands(fs: Node, bundles: seq<BundleInfo>) returns (seen: set<string>)
    ensures forall x :: x in seen <==> exists b :: b in bundles && x in CommandNames(fs, b)
  {
    seen := {};
    var i := 0;
    while i < |bundles|
      invariant 0 <= i <= |bundles|
      invariant forall x :: x in seen <==> exists k :: 0 <= k < i && x in CommandNames(fs, bundles[k])
    {
      var names := BundleCommands(fs, bundles[i]);
      seen := seen + set x | x in names;
      i := i + 1;
    }
    assert forall x :: (exists b :: b in bundles && x in CommandNames(fs, b)) ==> x in seen by {
      forall x | exists b :: b in bundles && x in CommandNames(fs, b) ensures x in seen {
        var b :| b in bundles && x in CommandNames(fs, b);
        var k :| 0 <= k < |bundles| && bundles[k] == b;
      }
    }
  }

  /** `BundleConfig`: a config file and the bundles read from it, read at most
      once. */
  class BundleConfig {
    const path: Path
    var cache: Option<seq<BundleInfo>>

    constructor (p: Path)
      ensures path == p && cache == None
    {
      path := p;
      cache := None;
    }

    /** `bundles`: loaded on the first call and cached; later calls return the
        cached list whatever the filesystem now holds. */
    method Bundles(fs: Node, cwd: Path, isWindows: bool) returns (r: Result<seq<BundleInfo>>)
      modifies this
      ensures old(cache).Some? ==> r == Ok(old(cache).value) && cache == old(cache)
      ensures r.Ok? ==> cache == Some(r.value)
      ensures old(cache).None? ==>
                r == ConfigBundles(fs, path, cwd, isWindows)
                && cache == (if r.Ok? then Some(r.value) else None)
    {
      if cache.Some? {
        return Ok(cache.value);
      }
      r := LoadBundlesFromConfig(fs, path, cwd, isWindows);
      if r.Ok? {
        cache := Some(r.value);
      }
    }

    /** `commands`: the union of the bundles' command names, sorted, each once. */
    method CommandList(fs: Node, cwd: Path, isWindows: bool) returns (r: Result<seq<string>>)
      modifies this
      ensures r.Ok? ==>
                cache.Some? && Text.StrictlySorted(r.value)
                && forall x :: x in r.value <==> exists b :: b in cache.value && x in CommandNames(fs, b)
      ensures r.Err? ==>
                old(cache).None? && ConfigBundles(fs, path, cwd, isWindows).Err?
                && r.error == ConfigBundles(fs, path, cwd, isWindows).error
    {
      var bundles :- Bundles(fs, cwd, isWindows);
      var seen := UnionOfCommands(fs, bundles);
      var sorted := Text.SortedNames(seen);
      return Ok(sorted);
    }
  }

  /** `BundleConfig(path)`: the resolved path must be a file, else ValueError. */
  method OpenBundleConfig(fs: Node, path: string, cwd: Path, isWindows: bool) returns (r: Result<BundleConfig>)
    ensures r.Ok? <==> IsFile(fs, ParsePath(path, cwd, isWindows))
    ensures r.Ok? ==> fresh(r.value) && r.value.path == ParsePath(path, cwd, isWindows) && r.value.cache == None
  {
    var p := ParsePath(path, cwd, isWindows);
    if !IsFile(fs, p) {
      return Err(ValueError("BundleConfig path does not exist"));
    }
    var c := new BundleConfig(p);
    return Ok(c);
  }
}

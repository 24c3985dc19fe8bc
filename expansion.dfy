/** Variable-reference expansion: the single left-to-right substitution pass
    that `re.sub` performs with the pattern
    `\$\{([A-Za-z_][A-Za-z0-9_]*)\}|\{\$([A-Za-z_][A-Za-z0-9_]*)\}`
    (envoy) or with its second alternative alone (the legacy wrapper).
    Each reference is replaced by the value a scope gives its name, or by the
    empty string; replacement text is never scanned again. */
module Expansion {
  import opened Base

  predicate IsNameStart(c: char)
  {
    ('A' <= c <= 'Z') || ('a' <= c <= 'z') || c == '_'
  }

  predicate IsNameChar(c: char)
  {
    IsNameStart(c) || ('0' <= c <= '9')
  }

  /** A name the pattern's group accepts: `[A-Za-z_][A-Za-z0-9_]*`. */
  predicate ValidName(name: string)
  {
    |name| >= 1 && IsNameStart(name[0]) && forall i :: 0 <= i < |name| ==> IsNameChar(name[i])
  }

  /** `${NAME}` is `Braced`, the legacy `{$NAME}` is `Legacy`. */
  datatype Style = Braced | Legacy

  /** The two characters that open a reference. */
  function Opener(style: Style): (r: (char, char))
  {
    if style == Braced then ('$', '{') else ('{', '$')
  }

  function RefText(name: string, style: Style): (r: string)
    ensures |r| == |name| + 3 && r[0] == Opener(style).0 && r[1] == Opener(style).1
            && r[2..|name| + 2] == name && r[|name| + 2] == '}'
  {
    [Opener(style).0, Opener(style).1] + name + "}"
  }

  /** Length of the longest prefix of `s` made of name characters. */
  function NameRun(s: string): (n: nat)
    ensures n <= |s|
    ensures forall i :: 0 <= i < n ==> IsNameChar(s[i])
    ensures n < |s| ==> !IsNameChar(s[n])
  {
    if s != [] && IsNameChar(s[0]) then 1 + NameRun(s[1..]) else 0
  }

  /** The name of a reference written in `style` at the very start of `s`, if any.
      A name is followed directly by `}`, so only the longest run of name
      characters can match. */
  function RefAt(s: string, style: Style): (r: Option<string>)
    ensures r.Some? ==> ValidName(r.value) && |RefText(r.value, style)| <= |s|
                        && s[..|RefText(r.value, style)|] == RefText(r.value, style)
  {
    if |s| >= 3 && s[0] == Opener(style).0 && s[1] == Opener(style).1 && IsNameStart(s[2]) then
      var n := NameRun(s[2..]);
      if 2 + n < |s| && s[2 + n] == '}' then
        var name := s[2..2 + n];
        assert name == s[2..][..n];
        assert name[0] == s[2];
        assert ValidName(name);
        assert s[..|name| + 3] == [s[0], s[1]] + name + "}";
        Some(name)
      else None
    else None
  }

  /** The match `re.sub` finds at the start of `s`: the first alternative wins. */
  function MatchAt(s: string, legacyOnly: bool): (r: Option<(string, Style)>)
    ensures r.Some? ==> ValidName(r.value.0) && (legacyOnly ==> r.value.1 == Legacy)
    ensures r.Some? ==> |s| >= 3 && s[0] == Opener(r.value.1).0 && s[1] == Opener(r.value.1).1
    ensures r.Some? ==> |RefText(r.value.0, r.value.1)| <= |s|
                        && s[..|RefText(r.value.0, r.value.1)|] == RefText(r.value.0, r.value.1)
  {
    if !legacyOnly && RefAt(s, Braced).Some? then Some((RefAt(s, Braced).value, Braced))
    else if RefAt(s, Legacy).Some? then Some((RefAt(s, Legacy).value, Legacy))
    else None
  }

  /** The value a scope gives a name: unresolved names expand to "". */
  function Resolve(scope: map<string, string>, name: string): string
  {
    if name in scope then scope[name] else ""
  }

  /** `pattern.sub(replacer, s)`. */
  function Expand(s: string, legacyOnly: bool, scope: map<string, string>): string
    decreases |s|
  {
    if s == [] then []
    else match MatchAt(s, legacyOnly)
      case Some((name, style)) =>
        Resolve(scope, name) + Expand(s[|RefText(name, style)|..], legacyOnly, scope)
      case None => [s[0]] + Expand(s[1..], legacyOnly, scope)
  }

  // ---------------------------------------------------------------------
  // Reference decomposition: the positions of the matches depend on the text
  // alone, never on the values substituted.
  // ---------------------------------------------------------------------

  datatype Piece = Lit(c: char) | Ref(name: string, style: Style)

  function PieceText(p: Piece): string
  {
    match p
    case Lit(c) => [c]
    case Ref(name, style) => RefText(name, style)
  }

  function Unparse(ps: seq<Piece>): string
  {
    if ps == [] then [] else PieceText(ps[0]) + Unparse(ps[1..])
  }

  function Eval(ps: seq<Piece>, scope: map<string, string>): string
  {
    if ps == [] then []
    else
      (match ps[0]
       case Lit(c) => [c]
       case Ref(name, _) => Resolve(scope, name))
      + Eval(ps[1..], scope)
  }

  /** The pieces `re.sub` sees in `s`: every reference it matches, and each other
      character on its own. */
  function Tokenize(s: string, legacyOnly: bool): (ps: seq<Piece>)
    ensures forall i :: 0 <= i < |ps| && ps[i].Ref? ==>
              ValidName(ps[i].name) && (legacyOnly ==> ps[i].style == Legacy)
    decreases |s|
  {
    if s == [] then []
    else match MatchAt(s, legacyOnly)
      case Some((name, style)) => [Ref(name, style)] + Tokenize(s[|RefText(name, style)|..], legacyOnly)
      case None => [Lit(s[0])] + Tokenize(s[1..], legacyOnly)
  }

  /** The decomposition covers the input exactly: text outside references is
      kept character for character. */
  lemma {:induction false} TokenizeRoundTrip(s: string, legacyOnly: bool)
    ensures Unparse(Tokenize(s, legacyOnly)) == s
    decreases |s|
  {
    if s != [] {
      match MatchAt(s, legacyOnly)
      case Some((name, style)) =>
        var k := |RefText(name, style)|;
        TokenizeRoundTrip(s[k..], legacyOnly);
        var ps := Tokenize(s, legacyOnly);
        assert ps[1..] == Tokenize(s[k..], legacyOnly);
        assert s == s[..k] + s[k..];
      case None =>
        TokenizeRoundTrip(s[1..], legacyOnly);
        var ps := Tokenize(s, legacyOnly);
        assert ps[1..] == Tokenize(s[1..], legacyOnly);
        assert s == [s[0]] + s[1..];
    }
  }

  /** Expansion substitutes each reference piece by its value and nothing else:
      values are inserted verbatim and never rescanned. */
  lemma {:induction false} ExpandIsEval(s: string, legacyOnly: bool, scope: map<string, string>)
    ensures Expand(s, legacyOnly, scope) == Eval(Tokenize(s, legacyOnly), scope)
    decreases |s|
  {
    if s != [] {
      var ps := Tokenize(s, legacyOnly);
      match MatchAt(s, legacyOnly)
      case Some((name, style)) =>
        ExpandIsEval(s[|RefText(name, style)|..], legacyOnly, scope);
        assert ps[1..] == Tokenize(s[|RefText(name, style)|..], legacyOnly);
      case None =>
        ExpandIsEval(s[1..], legacyOnly, scope);
        assert ps[1..] == Tokenize(s[1..], legacyOnly);
    }
  }

  /** Text without `$` contains no reference and expands to itself. */
  lemma {:induction false} ExpandWithoutDollar(s: string, legacyOnly: bool, scope: map<string, string>)
    requires '$' !in s
    ensures Expand(s, legacyOnly, scope) == s
    decreases |s|
  {
    if s != [] {
      assert s[0] != '$' && (|s| >= 2 ==> s[1] != '$');
      NoMatchWithoutDollar(s, legacyOnly);
      ExpandWithoutDollar(s[1..], legacyOnly, scope);
      assert s == [s[0]] + s[1..];
    }
  }

  lemma NoMatchWithoutDollar(s: string, legacyOnly: bool)
    requires s != [] && s[0] != '$'
    requires |s| >= 3 && s[..2] == "{$" ==> !IsNameStart(s[2])
    ensures MatchAt(s, legacyOnly).None?
  {
  }

  lemma NameRunOfRef(name: string, rest: string)
    requires ValidName(name)
    ensures NameRun(name + "}" + rest) == |name|
    decreases |name|
  {
    if |name| > 1 {
      var t := name[1..];
      assert ValidName(t) || !IsNameStart(t[0]);
      NameRunTail(t, rest);
      assert (name + "}" + rest)[1..] == t + "}" + rest;
    } else {
      assert (name + "}" + rest)[1..] == "}" + rest;
    }
  }

  lemma {:induction false} NameRunTail(t: string, rest: string)
    requires forall i :: 0 <= i < |t| ==> IsNameChar(t[i])
    ensures NameRun(t + "}" + rest) == |t|
    decreases |t|
  {
    if t == [] {
      assert (t + "}" + rest)[0] == '}';
    } else {
      NameRunTail(t[1..], rest);
      assert (t + "}" + rest)[1..] == t[1..] + "}" + rest;
    }
  }

  /** A reference the pass recognises is matched where it stands, replaced by its
      value, and the scan resumes right after it. */
  lemma MatchAtRef(name: string, style: Style, rest: string, legacyOnly: bool)
    requires ValidName(name) && (legacyOnly ==> style == Legacy)
    ensures MatchAt(RefText(name, style) + rest, legacyOnly) == Some((name, style))
  {
    var s := RefText(name, style) + rest;
    NameRunOfRef(name, rest);
    assert s[2..] == name + "}" + rest;
    assert s[2 + |name|] == '}';
    assert s[2..2 + |name|] == name;
    if style == Legacy {
      assert s[0] == '{';
      assert RefAt(s, Braced).None?;
    }
  }

  /** No reference starts at a character of a `$`-free prefix, not even one that
      the following reference completes. */
  lemma NoMatchInPrefix(pre: string, ref: string, legacyOnly: bool)
    requires pre != [] && '$' !in pre
    requires |ref| >= 3 && (ref[..2] == "${" || ref[..2] == "{$")
    ensures MatchAt(pre + ref, legacyOnly).None?
  {
    var s := pre + ref;
    assert s[0] == pre[0];
    if |pre| >= 2 {
      assert s[1] == pre[1];
    } else {
      assert s[1..3] == ref[..2];
    }
    NoMatchWithoutDollar(s, legacyOnly);
  }

  lemma ExpandNoMatch(s: string, legacyOnly: bool, scope: map<string, string>)
    requires s != [] && MatchAt(s, legacyOnly).None?
    ensures Expand(s, legacyOnly, scope) == [s[0]] + Expand(s[1..], legacyOnly, scope)
  {
  }

  lemma ExpandRefFirst(name: string, style: Style, post: string, legacyOnly: bool, scope: map<string, string>)
    requires ValidName(name) && (legacyOnly ==> style == Legacy)
    ensures Expand(RefText(name, style) + post, legacyOnly, scope) == Resolve(scope, name) + Expand(post, legacyOnly, scope)
  {
    var s := RefText(name, style) + post;
    MatchAtRef(name, style, post, legacyOnly);
    assert s[|RefText(name, style)|..] == post;
  }

  /** A `$`-free text in front of a reference is copied unchanged. */
  lemma {:induction false} ExpandKeepsPrefix(pre: string, rest: string, legacyOnly: bool, scope: map<string, string>)
    requires '$' !in pre
    requires |rest| >= 3 && (rest[..2] == "${" || rest[..2] == "{$")
    ensures Expand(pre + rest, legacyOnly, scope) == pre + Expand(rest, legacyOnly, scope)
    decreases |pre|
  {
    if pre != [] {
      var s := pre + rest;
      NoMatchInPrefix(pre, rest, legacyOnly);
      ExpandNoMatch(s, legacyOnly, scope);
      assert s[1..] == pre[1..] + rest;
      ExpandKeepsPrefix(pre[1..], rest, legacyOnly, scope);
      assert pre == [pre[0]] + pre[1..];
    } else {
      assert pre + rest == rest;
    }
  }

  /** A text without `$` followed by one recognised reference: the prefix is kept,
      the reference becomes its value whatever that value contains, and the rest
      is expanded on its own. */
  lemma {:induction false} ExpandPrefixThenRef(pre: string, name: string, style: Style, post: string,
                                               legacyOnly: bool, scope: map<string, string>)
    requires '$' !in pre
    requires ValidName(name) && (legacyOnly ==> style == Legacy)
    ensures Expand(pre + RefText(name, style) + post, legacyOnly, scope)
            == pre + Resolve(scope, name) + Expand(post, legacyOnly, scope)
  {
    var rest := RefText(name, style) + post;
    assert pre + RefText(name, style) + post == pre + rest;
    ExpandKeepsPrefix(pre, rest, legacyOnly, scope);
    ExpandRefFirst(name, style, post, legacyOnly, scope);
  }
}

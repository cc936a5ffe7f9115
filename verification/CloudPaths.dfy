/**
 Cloud paths are strings that start with '/'. This file models the string operations on them and proves
 what they mean for the list of components of a well-formed path.
 */
module CloudPaths {
  import opened CloudTypes

  // ---------- String operations ----------

  function TrimEndSlashes(s: string): string {
    if s != [] && s[|s| - 1] == '/' then TrimEndSlashes(s[..|s| - 1]) else s
  }

  function TrimStartSlashes(s: string): string {
    if s != [] && s[0] == '/' then TrimStartSlashes(s[1..]) else s
  }

  /** Index of the last '/', or -1. */
  function LastSlash(s: string): int
    ensures -1 <= LastSlash(s) < |s|
    ensures LastSlash(s) >= 0 ==> s[LastSlash(s)] == '/'
    ensures forall i :: LastSlash(s) < i < |s| ==> s[i] != '/'
  {
    if s == [] then -1
    else if s[|s| - 1] == '/' then |s| - 1
    else LastSlash(s[..|s| - 1])
  }

  function ReplaceBackslashes(s: string): string {
    seq(|s|, i requires 0 <= i < |s| => if s[i] == '\\' then '/' else s[i])
  }

  // ---------- CloudPath ----------

  function New(path: string): string {
    ReplaceBackslashes(if path != [] && path[0] == '/' then path else "/" + path)
  }

  function Parent(path: string): Option<string> {
    if path == "/" then None
    else
      var trimmed := TrimEndSlashes(path);
      var i := LastSlash(trimmed);
      if i > 0 then Some(trimmed[..i]) else Some("/")
  }

  function FileName(path: string): Option<string> {
    if path == "/" then None
    else
      var trimmed := TrimEndSlashes(path);
      Some(trimmed[LastSlash(trimmed) + 1..])
  }

  function JoinPath(path: string, component: string): string {
    TrimEndSlashes(path) + "/" + TrimStartSlashes(component)
  }

  /** The filter of `get_children`: below the directory, with no further '/' after its prefix. */
  predicate IsChild(dir: string, path: string) {
    var prefix := if dir == "/" then "/" else TrimEndSlashes(dir) + "/";
    prefix <= path && '/' !in path[|prefix|..]
  }

  // ---------- Well-formed paths ----------

  predicate Component(c: string) {
    c != [] && '/' !in c && '\\' !in c
  }

  predicate Components(cs: seq<string>) {
    forall i :: 0 <= i < |cs| ==> Component(cs[i])
  }

  /** "" for no components, "/a/b" for [a, b]. */
  function Joined(cs: seq<string>): string {
    if cs == [] then "" else Joined(cs[..|cs| - 1]) + "/" + cs[|cs| - 1]
  }

  function Render(cs: seq<string>): string {
    if cs == [] then "/" else Joined(cs)
  }

  lemma JoinedSnoc(cs: seq<string>, c: string)
    ensures Joined(cs + [c]) == Joined(cs) + "/" + c
  {
    assert (cs + [c])[..|cs + [c]| - 1] == cs;
  }

  lemma SnocSplit(cs: seq<string>)
    requires cs != []
    ensures cs == cs[..|cs| - 1] + [cs[|cs| - 1]]
    ensures Render(cs) == Joined(cs[..|cs| - 1]) + "/" + cs[|cs| - 1]
  {
  }

  lemma {:induction false} JoinedShape(cs: seq<string>)
    requires Components(cs)
    ensures cs != [] ==> Joined(cs) != [] && Joined(cs)[0] == '/' && Joined(cs)[|Joined(cs)| - 1] != '/'
    ensures cs != [] ==> |Joined(cs)| > 1
    ensures '\\' !in Joined(cs)
    ensures TrimEndSlashes(Joined(cs)) == Joined(cs)
  {
    if cs != [] {
      var init, c := cs[..|cs| - 1], cs[|cs| - 1];
      JoinedShape(init);
      assert Component(c);
      var s := Joined(init) + "/" + c;
      assert s[|s| - 1] == c[|c| - 1] && c[|c| - 1] in c;
      assert s[0] == '/';
    }
  }

  lemma {:induction false} LastSlashIs(s: string, k: nat)
    requires k < |s| && s[k] == '/' && (forall i :: k < i < |s| ==> s[i] != '/')
    ensures LastSlash(s) == k
  {
  }

  lemma {:induction false} LastSlashAt(p: string, c: string)
    requires '/' !in c
    ensures LastSlash(p + "/" + c) == |p|
  {
    var s := p + "/" + c;
    forall i | |p| < i < |s| ensures s[i] != '/' {
      assert s[i] == c[i - |p| - 1];
    }
    LastSlashIs(s, |p|);
  }

  /** `parent`, `file_name` and `join` on a rendered path drop, return and add the last component. */
  lemma {:induction false} ParentFileNameJoin(cs: seq<string>, c: string)
    requires Components(cs) && Component(c)
    ensures Parent(Render(cs + [c])) == Some(Render(cs))
    ensures FileName(Render(cs + [c])) == Some(c)
    ensures JoinPath(Render(cs), c) == Render(cs + [c])
  {
    var path := Render(cs + [c]);
    JoinedSnoc(cs, c);
    JoinedShape(cs + [c]);
    JoinedShape(cs);
    LastSlashAt(Joined(cs), c);
    assert path == Joined(cs) + "/" + c;
    assert path != "/" by { assert |path| > 1; }
    assert path[..|Joined(cs)|] == Joined(cs);
    assert path[|Joined(cs)| + 1..] == c;
    assert TrimStartSlashes(c) == c by { assert c[0] in c; }
    assert TrimEndSlashes("/") == "" by { assert "/"[..0] == ""; }
    assert Joined([]) == "";
  }

  function Slashes(k: nat): string {
    if k == 0 then "" else Slashes(k - 1) + "/"
  }

  lemma {:induction false} TrimEndDropsSlashes(s: string, k: nat)
    ensures TrimEndSlashes(s + Slashes(k)) == TrimEndSlashes(s)
  {
    if k == 0 {
      assert s + Slashes(k) == s;
    } else {
      var longer := s + Slashes(k);
      assert longer[|longer| - 1] == '/' && longer[..|longer| - 1] == s + Slashes(k - 1);
      TrimEndDropsSlashes(s, k - 1);
    }
  }

  lemma {:induction false} TrimStartDropsSlashes(s: string, k: nat)
    ensures TrimStartSlashes(Slashes(k) + s) == TrimStartSlashes(s)
  {
    if k == 0 {
      assert Slashes(k) + s == s;
    } else {
      SlashesStart(k);
      var longer := Slashes(k) + s;
      assert longer[0] == '/' && longer[1..] == Slashes(k - 1) + s;
      TrimStartDropsSlashes(s, k - 1);
    }
  }

  lemma {:induction false} SlashesStart(k: nat)
    requires k > 0
    ensures Slashes(k)[0] == '/' && Slashes(k)[1..] == Slashes(k - 1)
  {
    if k > 1 {
      SlashesStart(k - 1);
      assert Slashes(k)[1..] == Slashes(k - 1)[1..] + "/";
    }
  }

  /** Slashes at the end of a path, and at the beginning of a joined component, make no difference. */
  lemma {:induction false} ExtraSlashesDoNotMatter(cs: seq<string>, c: string, k: nat)
    requires Components(cs) && Component(c)
    ensures Parent(Render(cs + [c]) + Slashes(k)) == Some(Render(cs))
    ensures FileName(Render(cs + [c]) + Slashes(k)) == Some(c)
    ensures JoinPath(Render(cs) + Slashes(k), Slashes(k) + c) == Render(cs + [c])
  {
    ParentFileNameJoin(cs, c);
    JoinedShape(cs + [c]);
    TrimEndDropsSlashes(Render(cs + [c]), k);
    TrimEndDropsSlashes(Render(cs), k);
    TrimStartDropsSlashes(c, k);
    assert Render(cs + [c]) + Slashes(k) != "/" by { assert |Render(cs + [c])| > 1; }
  }

  /** Distinct component lists render to distinct paths. */
  lemma {:induction false} RenderInjective(cs: seq<string>, ds: seq<string>)
    requires Components(cs) && Components(ds)
    requires Render(cs) == Render(ds)
    ensures cs == ds
    decreases |cs|
  {
    JoinedShape(cs);
    JoinedShape(ds);
    if cs != [] && ds != [] {
      SnocSplit(cs);
      SnocSplit(ds);
      ParentFileNameJoin(cs[..|cs| - 1], cs[|cs| - 1]);
      ParentFileNameJoin(ds[..|ds| - 1], ds[|ds| - 1]);
      RenderInjective(cs[..|cs| - 1], ds[..|ds| - 1]);
    }
  }

  /** Normalising an already rendered path changes nothing. */
  lemma NewKeepsRendered(cs: seq<string>)
    requires Components(cs)
    ensures New(Render(cs)) == Render(cs)
  {
    JoinedShape(cs);
  }

  /** Character by character the same, except that a '/' may be written as a backslash. */
  predicate Spells(text: string, path: string) {
    && |text| == |path|
    && (forall i :: 0 <= i < |text| ==> text[i] == path[i] || (path[i] == '/' && text[i] == '\\'))
  }

  /** Whatever it is given, normalising returns a path that starts with '/' and holds no backslash. */
  lemma NewIsNormal(text: string)
    ensures |New(text)| > 0 && New(text)[0] == '/'
    ensures forall i :: 0 <= i < |New(text)| ==> New(text)[i] != '\\'
  {
  }

  /**
   A path spelt with or without the leading '/', and with backslashes for any later '/', is normalised to its
   components. A leading backslash is not taken for the leading '/': it becomes a second one.
   */
  lemma {:induction false} NewOfSpelling(text: string, cs: seq<string>)
    requires Components(cs) && cs != []
    ensures Spells(text, Render(cs)[1..]) ==> New(text) == Render(cs)
    ensures Spells(text, Render(cs)) ==> New(text) == if text[0] == '/' then Render(cs) else "/" + Render(cs)
  {
    var path := Render(cs);
    JoinedShape(cs);
    JoinedSecond(cs);
    ReplacePrefixed(text);
    assert path == "/" + path[1..];
    if Spells(text, path[1..]) {
      ReplaceSpelling(text, path[1..]);
      assert text[0] == path[1];
    }
    if Spells(text, path) {
      ReplaceSpelling(text, path);
    }
  }

  lemma ReplaceSpelling(text: string, path: string)
    requires Spells(text, path) && '\\' !in path
    ensures ReplaceBackslashes(text) == path
  {
  }

  lemma ReplacePrefixed(text: string)
    ensures ReplaceBackslashes("/" + text) == "/" + ReplaceBackslashes(text)
  {
  }

  lemma {:induction false} JoinedSecond(cs: seq<string>)
    requires Components(cs) && cs != []
    ensures |Joined(cs)| > 1 && Joined(cs)[1] != '/'
  {
    var init, c := cs[..|cs| - 1], cs[|cs| - 1];
    if init == [] {
      assert Joined(cs) == "/" + c && c[0] in c;
    } else {
      JoinedSecond(init);
    }
  }

  // ---------- Children agree with parents ----------

  lemma ChildrenAreOneLonger(ds: seq<string>, cs: seq<string>)
    requires Components(ds) && Components(cs) && cs != []
    ensures IsChild(Render(ds), Render(cs)) <==> ds == cs[..|cs| - 1]
  {
    var init, c := cs[..|cs| - 1], cs[|cs| - 1];
    var dir, path := Joined(ds), Joined(cs);
    var prefix := dir + "/";
    JoinedShape(ds);
    JoinedShape(init);
    LastSlashAt(Joined(init), c);
    assert Component(c);
    assert path == Joined(init) + "/" + c;
    assert (if Render(ds) == "/" then "/" else TrimEndSlashes(Render(ds)) + "/") == prefix by {
      assert Joined([]) + "/" == "/";
    }
    if IsChild(Render(ds), path) {
      assert path[|dir|] == '/';
      assert forall i :: |dir| < i < |path| ==> path[i] == path[|prefix|..][i - |prefix|];
      assert |dir| == LastSlash(path);
      assert path[..|dir|] == dir && path[..|Joined(init)|] == Joined(init);
      JoinedInjective(ds, init);
    }
    if ds == init {
      assert path[|prefix|..] == c;
    }
  }

  lemma JoinedInjective(cs: seq<string>, ds: seq<string>)
    requires Components(cs) && Components(ds) && Joined(cs) == Joined(ds)
    ensures cs == ds
  {
    JoinedShape(cs);
    JoinedShape(ds);
    RenderInjective(cs, ds);
  }

  /** A file is listed in a directory exactly when that directory is its parent path. */
  lemma {:induction false} ChildIffParent(ds: seq<string>, cs: seq<string>)
    requires Components(ds) && Components(cs) && cs != []
    ensures IsChild(Render(ds), Render(cs)) <==> Parent(Render(cs)) == Some(Render(ds))
  {
    ChildrenAreOneLonger(ds, cs);
    SnocSplit(cs);
    ParentFileNameJoin(cs[..|cs| - 1], cs[|cs| - 1]);
    if Parent(Render(cs)) == Some(Render(ds)) {
      RenderInjective(ds, cs[..|cs| - 1]);
    }
  }

  /** Every file lies in exactly one directory's listing. */
  lemma ExactlyOneDirectory(cs: seq<string>, ds: seq<string>, es: seq<string>)
    requires Components(cs) && cs != [] && Components(ds) && Components(es)
    ensures IsChild(Render(cs[..|cs| - 1]), Render(cs))
    ensures IsChild(Render(ds), Render(cs)) && IsChild(Render(es), Render(cs)) ==> ds == es
  {
    ChildrenAreOneLonger(cs[..|cs| - 1], cs);
    ChildrenAreOneLonger(ds, cs);
    ChildrenAreOneLonger(es, cs);
  }

  /** `parent` applied n times; None once it has been asked for the root's parent. */
  function Ancestor(path: string, n: nat): Option<string> {
    if n == 0 then Some(path)
    else
      var p := Ancestor(path, n - 1);
      if p.Some? then Parent(p.value) else None
  }

  /** Repeated `parent` walks up one component at a time and reaches the root after exactly |cs| steps. */
  lemma {:induction false} AncestorsReachRoot(cs: seq<string>, n: nat)
    requires Components(cs)
    ensures n <= |cs| ==> Ancestor(Render(cs), n) == Some(Render(cs[..|cs| - n]))
    ensures n < |cs| ==> Ancestor(Render(cs), n) != Some("/")
    ensures n == |cs| ==> Ancestor(Render(cs), n) == Some("/")
    ensures n > |cs| ==> Ancestor(Render(cs), n).None?
  {
    if n == 0 {
      assert cs[..|cs|] == cs;
    } else {
      AncestorsReachRoot(cs, n - 1);
      if n <= |cs| {
        var up := cs[..|cs| - (n - 1)];
        SnocSplit(up);
        assert up[..|up| - 1] == cs[..|cs| - n];
        ParentFileNameJoin(up[..|up| - 1], up[|up| - 1]);
      }
    }
    if n <= |cs| {
      JoinedShape(cs[..|cs| - n]);
    }
  }
}

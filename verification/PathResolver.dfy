/**
 Local paths under the sync root, `{root}/{provider}/{cloud path}`, and their cloud paths.

 A local path is its list of components, which is how the standard library compares paths. The first
 component of an absolute path is "/", and only a first component can be ".".
 */
module PathResolver {
  import opened CloudTypes
  import opened CloudPaths

  type LocalPath = seq<string>

  datatype Resolved = Resolved(provider: string, cloudPath: string)

  /** Joining text onto a path drops empty and "." components. */
  function Piece(s: string): seq<string> {
    if s == "" || s == "." then [] else [s]
  }

  function Split(s: string): seq<string> {
    var i := LastSlash(s);
    if i < 0 then Piece(s) else Split(s[..i]) + Piece(s[i + 1..])
  }

  function ResolveLocal(root: LocalPath, local: LocalPath): Option<Resolved> {
    if !(root <= local) then None
    else
      var relative := local[|root|..];
      if relative == [] then None
      else
        var remainder := relative[1..];
        Some(Resolved(relative[0], if remainder == [] then "/" else New(Render(remainder))))
  }

  predicate StartsWithDot(s: string) {
    s == "." || (|s| > 1 && s[0] == '.' && s[1] == '/')
  }

  /** `Path::join`: an absolute text replaces the base; a leading "." is kept only with nothing before it. */
  function Join(base: LocalPath, text: string): LocalPath {
    if text != "" && text[0] == '/' then ["/"] + Split(text)
    else (if base == [] && StartsWithDot(text) then ["."] else base) + Split(text)
  }

  function ToLocal(root: LocalPath, provider: string, cloudPath: string): LocalPath {
    var text := TrimStartSlashes(cloudPath);
    var path := Join(root, provider);
    if text == "" then path else Join(path, text)
  }

  // ---------- Splitting undoes rendering ----------

  /** Components as the standard library yields them: not empty, not ".", without '/'. */
  predicate LocalComponents(cs: seq<string>) {
    forall i :: 0 <= i < |cs| ==> cs[i] != "" && cs[i] != "." && '/' !in cs[i]
  }

  predicate NoBackslash(cs: seq<string>) {
    forall i :: 0 <= i < |cs| ==> '\\' !in cs[i]
  }

  lemma {:induction false} SplitAt(s: string, i: nat)
    requires i < |s| && s[i] == '/' && (forall j :: i < j < |s| ==> s[j] != '/')
    ensures Split(s) == Split(s[..i]) + Piece(s[i + 1..])
  {
    LastSlashIs(s, i);
  }

  lemma {:induction false} SplitJoined(cs: seq<string>)
    requires LocalComponents(cs)
    ensures Split(Joined(cs)) == cs
  {
    if cs != [] {
      var init, c := cs[..|cs| - 1], cs[|cs| - 1];
      SplitJoined(init);
      SplitOneMore(Joined(init), c);
      assert Piece(c) == [c] && cs == init + [c];
    }
  }

  lemma {:induction false} SplitOneMore(p: string, c: string)
    requires '/' !in c
    ensures Split(p + "/" + c) == Split(p) + Piece(c)
  {
    var s := p + "/" + c;
    forall j | |p| < j < |s| ensures s[j] != '/' {
      assert s[j] == c[j - |p| - 1];
    }
    SplitAt(s, |p|);
    assert s[..|p|] == p && s[|p| + 1..] == c;
  }

  lemma {:induction false} SplitIgnoresLeadingSlash(s: string)
    requires s != "" && s[0] == '/'
    ensures Split(s[1..]) == Split(s)
    decreases |s|
  {
    var i := LastSlash(s);
    var t := s[1..];
    forall j | i <= j < |t| ensures t[j] != '/' {
      assert t[j] == s[j + 1];
    }
    SplitAt(s, i);
    if i == 0 {
      assert s[..0] == "" && Split("") == [];
    } else {
      SplitAt(t, i - 1);
      assert t[..i - 1] == s[..i][1..];
      assert t[i..] == s[i + 1..];
      SplitIgnoresLeadingSlash(s[..i]);
    }
  }

  lemma {:induction false} JoinedStarts(cs: seq<string>)
    requires LocalComponents(cs) && cs != []
    ensures |Joined(cs)| > 1 && Joined(cs)[0] == '/' && Joined(cs)[1] != '/'
    ensures !StartsWithDot(Joined(cs)[1..])
  {
    var init, c := cs[..|cs| - 1], cs[|cs| - 1];
    if init == [] {
      assert Joined(cs) == "/" + c && c[0] in c;
      assert Joined(cs)[1..] == c;
    } else {
      JoinedStarts(init);
      assert Joined(cs)[1..] == Joined(init)[1..] + "/" + c;
    }
  }

  lemma TrimmedJoined(cs: seq<string>)
    requires LocalComponents(cs) && cs != []
    ensures TrimStartSlashes(Joined(cs)) == Joined(cs)[1..] && Joined(cs)[1..] != ""
    ensures Split(Joined(cs)[1..]) == cs
  {
    JoinedStarts(cs);
    var t := Joined(cs)[1..];
    assert t[0] == Joined(cs)[1];
    assert TrimStartSlashes(t) == t;
    SplitIgnoresLeadingSlash(Joined(cs));
    SplitJoined(cs);
  }

  lemma ToLocalOfRendered(root: LocalPath, provider: string, cs: seq<string>)
    requires LocalComponents(cs)
    ensures ToLocal(root, provider, Render(cs)) == Join(root, provider) + cs
  {
    if cs == [] {
      assert TrimStartSlashes("/") == "" by { assert "/"[1..] == ""; }
      assert Join(root, provider) + [] == Join(root, provider);
    } else {
      TrimmedJoined(cs);
      JoinedStarts(cs);
    }
  }

  lemma {:induction false} SplitComponents(s: string)
    ensures LocalComponents(Split(s))
    decreases |s|
  {
    var i := LastSlash(s);
    if i >= 0 {
      SplitComponents(s[..i]);
    }
  }

  // ---------- Provider slugs ----------

  predicate IsComponent(s: string) {
    s != "" && s != "." && '/' !in s
  }

  /** The slug is one component of a path below `root`; only an empty root can be followed by "/" or ".". */
  predicate IsSlug(root: LocalPath, provider: string) {
    IsComponent(provider) || (root == [] && (provider == "/" || provider == "."))
  }

  lemma JoinSlug(root: LocalPath, provider: string)
    requires IsSlug(root, provider)
    ensures Join(root, provider) == root + [provider]
  {
    if IsComponent(provider) {
      assert provider[0] in provider;
      if |provider| > 1 {
        assert provider[1] in provider;
      }
      assert Split(provider) == [provider];
    } else if provider == "/" {
      LastSlashIs("/", 0);
      assert Split("/") == Split("") + Piece("");
      assert Split("") == [];
    } else {
      assert Split(".") == Piece(".");
    }
  }

  /** Whatever was joined, what then stands right below the root is a slug. */
  lemma BelowRootIsSlug(root: LocalPath, provider: string, cs: seq<string>)
    requires LocalComponents(cs) && |Join(root, provider) + cs| > |root|
    ensures IsSlug(root, (Join(root, provider) + cs)[|root|])
  {
    SplitComponents(provider);
    var tail := Split(provider) + cs;
    var k := if provider != "" && provider[0] == '/' then |root| - 1 else 0;
    if k >= 0 && !(root == [] && StartsWithDot(provider)) {
      assert (Join(root, provider) + cs)[|root|] == tail[k];
      assert LocalComponents(tail);
    }
  }

  lemma {:induction false} JoinedNoBackslash(cs: seq<string>)
    requires NoBackslash(cs)
    ensures '\\' !in Joined(cs)
  {
    if cs != [] {
      JoinedNoBackslash(cs[..|cs| - 1]);
    }
  }

  lemma NewOfRendered(cs: seq<string>)
    requires LocalComponents(cs) && NoBackslash(cs) && cs != []
    ensures New(Render(cs)) == Render(cs)
  {
    JoinedStarts(cs);
    JoinedNoBackslash(cs);
  }

  // ---------- Round trips ----------

  lemma ResolveBelow(root: LocalPath, provider: string, cs: seq<string>)
    ensures ResolveLocal(root, root + [provider] + cs) ==
      Some(Resolved(provider, if cs == [] then "/" else New(Render(cs))))
  {
    var local := root + [provider] + cs;
    assert root <= local && local[|root|..] == [provider] + cs;
    assert ([provider] + cs)[1..] == cs;
  }

  /** From the cloud and back: the pair that went in comes out exactly when the slug is one component. */
  lemma {:induction false} CloudRoundTripIff(root: LocalPath, provider: string, cs: seq<string>)
    requires LocalComponents(cs) && NoBackslash(cs)
    ensures ResolveLocal(root, ToLocal(root, provider, Render(cs))) == Some(Resolved(provider, Render(cs))) <==>
      IsSlug(root, provider)
  {
    ToLocalOfRendered(root, provider, cs);
    if IsSlug(root, provider) {
      JoinSlug(root, provider);
      ResolveBelow(root, provider, cs);
      if cs != [] {
        NewOfRendered(cs);
      }
    } else {
      var local := Join(root, provider) + cs;
      if |local| > |root| {
        BelowRootIsSlug(root, provider, cs);
      }
    }
  }

  /** Different slugs or different cloud paths never share a local path. */
  lemma NoSharedLocalPaths(root: LocalPath, p: string, cs: seq<string>, q: string, ds: seq<string>)
    requires IsSlug(root, p) && IsSlug(root, q)
    requires LocalComponents(cs) && NoBackslash(cs) && LocalComponents(ds) && NoBackslash(ds)
    requires ToLocal(root, p, Render(cs)) == ToLocal(root, q, Render(ds))
    ensures p == q && Render(cs) == Render(ds)
  {
    CloudRoundTripIff(root, p, cs);
    CloudRoundTripIff(root, q, ds);
  }

  /** A slug that is not one component can: "a/b" with the cloud root and "a" with "/b". */
  lemma SlashedSlugShares(root: LocalPath)
    ensures ToLocal(root, "a/b", Render([])) == ToLocal(root, "a", Render(["b"]))
  {
    ToLocalOfRendered(root, "a/b", []);
    ToLocalOfRendered(root, "a", ["b"]);
    JoinSlug(root, "a");
    assert "a/b" == "a" + "/" + "b";
    SplitOneMore("a", "b");
    assert Split("a") == ["a"];
  }

  lemma {:induction false} SplitNoBackslash(s: string)
    requires '\\' !in s
    ensures NoBackslash(Split(s))
    decreases |s|
  {
    var i := LastSlash(s);
    if i >= 0 {
      SplitNoBackslash(s[..i]);
    }
  }

  lemma NewHasNoBackslash(s: string)
    ensures '\\' !in New(s)
  {
  }

  lemma {:induction false} TrimStartSuffix(s: string)
    ensures forall c :: c in TrimStartSlashes(s) ==> c in s
  {
    if s != [] && s[0] == '/' {
      TrimStartSuffix(s[1..]);
    }
  }

  /**
   From a local path and back: any path below a provider directory comes back unchanged exactly when no
   component below that directory contains a backslash, which `CloudPath::new` would turn into '/'.
   */
  lemma {:induction false} LocalRoundTripIff(root: LocalPath, provider: string, cs: seq<string>)
    requires IsSlug(root, provider) && LocalComponents(cs)
    ensures var local := root + [provider] + cs;
      var r := ResolveLocal(root, local);
      && r.Some? && r.value.provider == provider
      && (ToLocal(root, r.value.provider, r.value.cloudPath) == local <==> NoBackslash(cs))
  {
    var local := root + [provider] + cs;
    ResolveBelow(root, provider, cs);
    JoinSlug(root, provider);
    if NoBackslash(cs) {
      ToLocalOfRendered(root, provider, cs);
      if cs != [] {
        NewOfRendered(cs);
      }
    }
    var cloudPath := ResolveLocal(root, local).value.cloudPath;
    if ToLocal(root, provider, cloudPath) == local && cs != [] {
      var text := TrimStartSlashes(cloudPath);
      NewHasNoBackslash(Render(cs));
      TrimStartSuffix(cloudPath);
      SplitNoBackslash(text);
      TrimStartStarts(cloudPath);
      assert ToLocal(root, provider, cloudPath)[|root| + 1..] == (if text == "" then [] else Split(text));
      assert local[|root| + 1..] == cs;
    }
  }

  lemma {:induction false} TrimStartStarts(s: string)
    ensures TrimStartSlashes(s) != "" ==> TrimStartSlashes(s)[0] != '/'
  {
    if s != [] && s[0] == '/' {
      TrimStartStarts(s[1..]);
    }
  }

  /** Paths outside the root, and the root itself, do not resolve; everything else below it does. */
  lemma ResolvesIff(root: LocalPath, local: LocalPath)
    ensures ResolveLocal(root, local).Some? <==> exists rest :: rest != [] && local == root + rest
  {
    if root <= local {
      assert local == root + local[|root|..];
    }
  }
}

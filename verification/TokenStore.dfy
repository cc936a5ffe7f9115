/**
 OAuth token storage: an in-memory vector of tokens with their scopes, matched by subset, persisted as a
 whole to the keyring or a file. Tokens and the persisted text are values; serialisation is not modelled.
 */
module TokenStore {
  import opened CloudTypes

  datatype StoredToken = StoredToken(scopes: seq<string>, token: string)

  type Cache = seq<StoredToken>

  datatype Backend = KeyringOnly | FileOnly | KeyringWithFallback

  /** A file that was truncated and not written to its end holds no list of tokens any more. */
  datatype FileText = Missing | Torn | Tokens(value: Cache)

  /** The storage instance's cache and what the two places outside it hold. */
  datatype World = World(cache: Cache, keyring: Option<Cache>, file: FileText)

  /** Which of the two places can be read during one call. */
  datatype Up = Up(keyring: bool, file: bool)

  /** How a write to the file ends: it truncates first, so it may also break off after that. */
  datatype Write = Written | Refused | BrokenOff

  /** How the two places answer one store. */
  datatype Ends = Ends(keyring: bool, file: Write)

  // ---------- Scopes ----------

  /** Every required scope is among the available ones. */
  predicate Covers(available: seq<string>, required: seq<string>) {
    forall r :: r in required ==> r in available
  }

  /** Removes the entries that already cover `scopes`. */
  function Retain(cache: Cache, scopes: seq<string>): Cache {
    if cache == [] then []
    else
      var last := cache[|cache| - 1];
      Retain(cache[..|cache| - 1], scopes) + (if Covers(last.scopes, scopes) then [] else [last])
  }

  function SetIn(cache: Cache, scopes: seq<string>, token: string): Cache {
    Retain(cache, scopes) + [StoredToken(scopes, token)]
  }

  function Find(cache: Cache, scopes: seq<string>): Option<string> {
    if cache == [] then None
    else if Covers(cache[0].scopes, scopes) then Some(cache[0].token)
    else Find(cache[1..], scopes)
  }

  // ---------- Storage ----------

  function WriteFile(w: World, end: Write, value: Cache): (World, bool) {
    match end
    case Written => (w.(file := Tokens(value)), true)
    case Refused => (w, false)
    case BrokenOff => (w.(file := Torn), false)
  }

  function Store(w: World, b: Backend, ends: Ends, value: Cache): (World, bool) {
    if b.FileOnly? then WriteFile(w, ends.file, value)
    else if ends.keyring then (w.(keyring := Some(value)), true)
    else if b.KeyringOnly? then (w, false)
    else WriteFile(w, ends.file, value)
  }

  /** The persisted tokens, if they can be read and parsed. */
  function Retrieve(w: World, b: Backend, up: Up): Option<Cache> {
    var file := if up.file && w.file.Tokens? then Some(w.file.value) else None;
    match b
    case KeyringOnly => if up.keyring then w.keyring else None
    case FileOnly => file
    case KeyringWithFallback => if up.keyring && w.keyring.Some? then w.keyring else file
  }

  /** `set`: the cache changes even when storing fails. */
  function Set(w: World, b: Backend, ends: Ends, scopes: seq<string>, token: string): (World, bool) {
    var cache := SetIn(w.cache, scopes, token);
    Store(w.(cache := cache), b, ends, cache)
  }

  /**
   The three accesses of `get`, each of which may see another state: a search of the cache, which ends it
   when it succeeds; a read of the backend; and, when that gave tokens, their storing in the cache.
   */
  function Accesses(search: World, read: World, store: World, b: Backend, up: Up, asked: seq<string>): World {
    if Find(search.cache, asked).Some? then store
    else
      match Retrieve(read, b, up)
      case None => store
      case Some(tokens) => store.(cache := tokens)
  }

  /** `get` with nothing in between: the answer is found in the cache first and then in what was read. */
  function Get(w: World, b: Backend, up: Up, scopes: seq<string>): (World, Option<string>) {
    var after := Accesses(w, w, w, b, up, scopes);
    (after, Find(after.cache, scopes))
  }

  /** A new instance over the same keyring and file. */
  function Reopen(w: World): World {
    w.(cache := [])
  }

  // ---------- No entry hides a later one ----------

  ghost predicate NoShadow(cache: Cache) {
    forall i, j :: 0 <= i < j < |cache| ==> !Covers(cache[i].scopes, cache[j].scopes)
  }

  lemma {:induction false} RetainIs(cache: Cache, scopes: seq<string>)
    ensures forall i :: 0 <= i < |Retain(cache, scopes)| ==>
      Retain(cache, scopes)[i] in cache && !Covers(Retain(cache, scopes)[i].scopes, scopes)
    ensures NoShadow(cache) ==> NoShadow(Retain(cache, scopes))
  {
    if cache != [] {
      var n := |cache| - 1;
      var init, last := cache[..n], cache[n];
      RetainIs(init, scopes);
      var kept := Retain(init, scopes);
      if NoShadow(cache) && !Covers(last.scopes, scopes) {
        forall i | 0 <= i < |kept| ensures !Covers(kept[i].scopes, last.scopes) {
          var k :| 0 <= k < n && init[k] == kept[i];
          assert cache[k] == init[k];
        }
      }
    }
  }

  lemma SetKeepsNoShadow(cache: Cache, scopes: seq<string>, token: string)
    requires NoShadow(cache)
    ensures NoShadow(SetIn(cache, scopes, token))
  {
    RetainIs(cache, scopes);
  }

  datatype Event =
    | SetToken(ends: Ends, scopes: seq<string>, token: string)
    | GetToken(up: Up, scopes: seq<string>)
    | Restart

  function Next(w: World, b: Backend, e: Event): World {
    match e
    case SetToken(ends, scopes, token) => Set(w, b, ends, scopes, token).0
    case GetToken(up, scopes) => Get(w, b, up, scopes).0
    case Restart => Reopen(w)
  }

  function Exec(w: World, b: Backend, es: seq<Event>): World {
    if es == [] then w else Next(Exec(w, b, es[..|es| - 1]), b, es[|es| - 1])
  }

  ghost predicate Inv(w: World) {
    && NoShadow(w.cache)
    && (w.keyring.Some? ==> NoShadow(w.keyring.value))
    && (w.file.Tokens? ==> NoShadow(w.file.value))
  }

  lemma {:induction false} FindOwn(cache: Cache, i: nat)
    requires NoShadow(cache) && i < |cache|
    ensures Find(cache, cache[i].scopes) == Some(cache[i].token)
  {
    if i > 0 {
      var tail := cache[1..];
      assert forall j :: 0 <= j < |tail| ==> tail[j] == cache[j + 1];
      FindOwn(tail, i - 1);
    }
  }

  lemma StepKeepsInv(w: World, b: Backend, e: Event)
    requires Inv(w)
    ensures Inv(Next(w, b, e))
  {
    if e.SetToken? {
      SetKeepsNoShadow(w.cache, e.scopes, e.token);
    }
  }

  lemma {:induction false} RunKeepsInv(w: World, b: Backend, es: seq<Event>)
    requires Inv(w)
    ensures Inv(Exec(w, b, es))
  {
    if es != [] {
      RunKeepsInv(w, b, es[..|es| - 1]);
      StepKeepsInv(Exec(w, b, es[..|es| - 1]), b, es[|es| - 1]);
    }
  }

  /**
   After any run of sets, gets and restarts, with the keyring and the file failing at any calls, no cached
   entry hides a later one; so asking with a cached entry's own scopes returns its token.
   */
  lemma {:induction false} EveryEntryIsReachable(w: World, b: Backend, es: seq<Event>, i: nat)
    requires Inv(w) && i < |Exec(w, b, es).cache|
    ensures NoShadow(Exec(w, b, es).cache)
    ensures var c := Exec(w, b, es).cache; Find(c, c[i].scopes) == Some(c[i].token)
  {
    RunKeepsInv(w, b, es);
    FindOwn(Exec(w, b, es).cache, i);
  }

  /** `get` right after `set` returns the token just set, whether or not storing it worked. */
  lemma GetAfterSet(w: World, b: Backend, ends: Ends, later: Up, scopes: seq<string>, token: string)
    requires Inv(w)
    ensures Get(Set(w, b, ends, scopes, token).0, b, later, scopes).1 == Some(token)
  {
    var cache := SetIn(w.cache, scopes, token);
    SetKeepsNoShadow(w.cache, scopes, token);
    FindOwn(cache, |cache| - 1);
  }

  // ---------- Scope by scope ----------

  /** Every asked scope is one of the entry's. */
  ghost predicate HasAll(e: StoredToken, asked: seq<string>) {
    forall r :: r in asked ==> exists i :: 0 <= i < |e.scopes| && e.scopes[i] == r
  }

  /** Entry `i` is the first of the list that has every asked scope. */
  ghost predicate IsFirstWith(tokens: Cache, asked: seq<string>, i: int) {
    && 0 <= i < |tokens|
    && HasAll(tokens[i], asked)
    && (forall j :: 0 <= j < i ==> !HasAll(tokens[j], asked))
  }

  lemma {:induction false} FindIsFirst(tokens: Cache, asked: seq<string>)
    ensures Find(tokens, asked).Some? ==> exists i :: IsFirstWith(tokens, asked, i) && tokens[i].token == Find(tokens, asked).value
    ensures Find(tokens, asked).None? ==> forall i :: 0 <= i < |tokens| ==> !HasAll(tokens[i], asked)
  {
    if tokens != [] {
      var tail := tokens[1..];
      FindIsFirst(tail, asked);
      CoversIsHasAll(tokens[0], asked);
      assert forall i :: 0 <= i < |tail| ==> tail[i] == tokens[i + 1];
      if Covers(tokens[0].scopes, asked) {
        assert IsFirstWith(tokens, asked, 0);
      } else if Find(tail, asked).Some? {
        var i :| IsFirstWith(tail, asked, i) && tail[i].token == Find(tail, asked).value;
        assert IsFirstWith(tokens, asked, i + 1);
      }
    }
  }

  lemma CoversIsHasAll(e: StoredToken, asked: seq<string>)
    ensures Covers(e.scopes, asked) <==> HasAll(e, asked)
  {
  }

  /**
   What `get` returns, scope by scope: the token of the first cached entry that has every asked scope; if
   there is none, that of the first such entry read from the backend; and nothing exactly when no entry of
   either has them all.
   */
  lemma {:induction false} GetByScopes(w: World, b: Backend, up: Up, asked: seq<string>)
    ensures
      var found := Get(w, b, up, asked).1;
      var read := Retrieve(w, b, up);
      if exists i :: IsFirstWith(w.cache, asked, i)
      then exists i :: IsFirstWith(w.cache, asked, i) && found == Some(w.cache[i].token)
      else if read.Some? && exists i :: IsFirstWith(read.value, asked, i)
      then exists i :: IsFirstWith(read.value, asked, i) && found == Some(read.value[i].token)
      else found == None
  {
    FindIsFirst(w.cache, asked);
    if Retrieve(w, b, up).Some? {
      FindIsFirst(Retrieve(w, b, up).value, asked);
    }
  }

  /**
   What `set` does to the cache, scope by scope: an earlier entry stays exactly when it lacks one of the new
   scopes, the new token stands at the end, and nothing else is there.
   */
  lemma {:induction false} SetByScopes(w: World, b: Backend, ends: Ends, scopes: seq<string>, token: string)
    ensures
      var cache := Set(w, b, ends, scopes, token).0.cache; var last := |cache| - 1;
      && cache != [] && cache[last] == StoredToken(scopes, token)
      && (forall e :: e in w.cache && !HasAll(e, scopes) ==> e in cache[..last])
      && (forall e :: e in cache[..last] ==> e in w.cache && !HasAll(e, scopes))
  {
    var cache := SetIn(w.cache, scopes, token);
    var last := |cache| - 1;
    assert cache[..last] == Retain(w.cache, scopes);
    RetainIs(w.cache, scopes);
    forall e | e in w.cache && !HasAll(e, scopes) ensures e in Retain(w.cache, scopes) {
      CoversIsHasAll(e, scopes);
      var i :| 0 <= i < |w.cache| && w.cache[i] == e;
      var k := RetainKeeps(w.cache, scopes, i);
    }
    forall e | e in Retain(w.cache, scopes) ensures e in w.cache && !HasAll(e, scopes) {
      CoversIsHasAll(e, scopes);
    }
  }

  // ---------- After reopening ----------

  /** Where a successful store went is where the next retrieve looks first. */
  predicate ReadsBack(w: World, b: Backend, ends: Ends, later: Up) {
    match b
    case KeyringOnly => later.keyring
    case FileOnly => later.file
    case KeyringWithFallback =>
      if ends.keyring then later.keyring else later.file && !(later.keyring && w.keyring.Some?)
  }

  /** The store truncates the file and breaks off. */
  predicate Tears(b: Backend, ends: Ends) {
    ends.file.BrokenOff? && (b.FileOnly? || (b.KeyringWithFallback? && !ends.keyring))
  }

  /** A retrieve looks at the file. */
  predicate ReadsFile(w: World, b: Backend, later: Up) {
    b.FileOnly? || (b.KeyringWithFallback? && !(later.keyring && w.keyring.Some?))
  }

  /** A store that neither reads back nor tore what is read leaves the next retrieve as it was. */
  lemma RetrieveAfterStore(w: World, b: Backend, ends: Ends, later: Up, value: Cache)
    ensures Retrieve(Store(w, b, ends, value).0, b, later) ==
      if Store(w, b, ends, value).1 && ReadsBack(w, b, ends, later) then Some(value)
      else if Tears(b, ends) && ReadsFile(w, b, later) then None
      else Retrieve(w, b, later)
  {
  }

  /**
   What a new instance finds after a set, for every backend and every pattern of failures: the token just
   set if it was stored and reads back; nothing if the write tore the file that is read; otherwise what it
   would have found without the set. So a token that was not found before is found exactly in the first
   case, and after a failed set an older token is still found exactly outside the second.
   */
  lemma GetAfterSetAndReopen(w: World, b: Backend, ends: Ends, later: Up, scopes: seq<string>, token: string)
    requires Inv(w)
    ensures
      var (after, stored) := Set(w, b, ends, scopes, token);
      var before := Get(Reopen(w), b, later, scopes).1;
      var found := Get(Reopen(after), b, later, scopes).1;
      && (found ==
          if stored && ReadsBack(w, b, ends, later) then Some(token)
          else if Tears(b, ends) && ReadsFile(w, b, later) then None
          else before)
      && (before != Some(token) ==> (found == Some(token) <==> stored && ReadsBack(w, b, ends, later)))
      && (!stored && before.Some? ==> (found == before <==> !(Tears(b, ends) && ReadsFile(w, b, later))))
  {
    var cache := SetIn(w.cache, scopes, token);
    SetKeepsNoShadow(w.cache, scopes, token);
    FindOwn(cache, |cache| - 1);
    RetrieveAfterStore(w.(cache := cache), b, ends, later, cache);
  }

  /** So a set that fails can take every persisted token with it. */
  lemma TornWriteLosesTokens(scopes: seq<string>, older: string, newer: string)
    ensures var w1 := Set(World([], None, Missing), FileOnly, Ends(false, Written), scopes, older).0;
      var (w2, stored) := Set(w1, FileOnly, Ends(false, BrokenOff), scopes, newer);
      && Get(Reopen(w1), FileOnly, Up(false, true), scopes).1 == Some(older)
      && !stored && Get(Reopen(w2), FileOnly, Up(false, true), scopes).1 == None
  {
    var had := [StoredToken(scopes, older)];
    var w1 := Set(World([], None, Missing), FileOnly, Ends(false, Written), scopes, older).0;
    assert w1 == World(had, None, Tokens(had)) by {
      assert SetIn([], scopes, older) == had;
    }
    assert Find(had, scopes) == Some(older);
    var (w2, stored) := Set(w1, FileOnly, Ends(false, BrokenOff), scopes, newer);
    assert w2.file == Torn && !stored;
  }

  /** And a refreshed token can be lost behind a keyring that failed once. */
  lemma StaleKeyringWins(scopes: seq<string>, older: string, newer: string)
    ensures var w0 := World([], None, Missing);
      var w1 := Set(w0, KeyringWithFallback, Ends(true, Written), scopes, older).0;
      var (w2, stored) := Set(w1, KeyringWithFallback, Ends(false, Written), scopes, newer);
      stored && Get(Reopen(w2), KeyringWithFallback, Up(true, true), scopes).1 == Some(older)
  {
    assert SetIn([], scopes, older) == [StoredToken(scopes, older)];
  }

  /** Nor does the file help while the keyring is down: it may hold a copy older than the keyring's. */
  lemma StaleFileWins(scopes: seq<string>, older: string, newer: string)
    ensures var w0 := World([], None, Missing);
      var w1 := Set(w0, KeyringWithFallback, Ends(false, Written), scopes, older).0;
      var (w2, stored) := Set(w1, KeyringWithFallback, Ends(true, Written), scopes, newer);
      stored && Get(Reopen(w2), KeyringWithFallback, Up(false, true), scopes).1 == Some(older)
  {
    assert SetIn([], scopes, older) == [StoredToken(scopes, older)];
  }

  // ---------- Setting before loading ----------

  /**
   A new instance that sets before its first get stores its own cache over what was persisted. It ends as
   an instance that had loaded first exactly when every persisted entry covers the new scopes.
   */
  lemma {:induction false} UnloadedSetKeepsIff(
    w: World, b: Backend, up: Up, ends: Ends, persisted: Cache, scopes: seq<string>, token: string)
    requires w.cache == [] && Retrieve(w, b, up) == Some(persisted)
    ensures Set(w, b, ends, scopes, token) == Set(w.(cache := persisted), b, ends, scopes, token) <==>
      forall i :: 0 <= i < |persisted| ==> Covers(persisted[i].scopes, scopes)
  {
    RetainEmptyIff(persisted, scopes);
    assert Retain([], scopes) == [];
    var unloaded, loaded := SetIn([], scopes, token), SetIn(persisted, scopes, token);
    assert unloaded == loaded ==> |loaded| == 1;
    assert Set(w, b, ends, scopes, token).0.cache == unloaded;
    assert Set(w.(cache := persisted), b, ends, scopes, token).0.cache == loaded;
  }

  lemma {:induction false} RetainEmptyIff(cache: Cache, scopes: seq<string>)
    ensures Retain(cache, scopes) == [] <==> forall i :: 0 <= i < |cache| ==> Covers(cache[i].scopes, scopes)
  {
    if i :| 0 <= i < |cache| && !Covers(cache[i].scopes, scopes) {
      var k := RetainKeeps(cache, scopes, i);
    } else {
      AllCoveredRetainsNone(cache, scopes);
    }
  }

  lemma {:induction false} AllCoveredRetainsNone(cache: Cache, scopes: seq<string>)
    requires forall t :: t in cache ==> Covers(t.scopes, scopes)
    ensures Retain(cache, scopes) == []
  {
    if cache != [] {
      assert cache[|cache| - 1] in cache;
      AllCoveredRetainsNone(cache[..|cache| - 1], scopes);
    }
  }

  /**
   For every backend and whatever was persisted: once such a set has been stored and reads back, only the
   new token is found, and only under scopes it covers. Every other persisted token is gone.
   */
  lemma UnloadedSetLosesToken(
    w: World, b: Backend, ends: Ends, later: Up, scopes: seq<string>, token: string, asked: seq<string>)
    requires w.cache == [] && Set(w, b, ends, scopes, token).1 && ReadsBack(w, b, ends, later)
    ensures Get(Reopen(Set(w, b, ends, scopes, token).0), b, later, asked).1 ==
      if Covers(scopes, asked) then Some(token) else None
  {
    var only := [StoredToken(scopes, token)];
    assert SetIn([], scopes, token) == only;
    RetrieveAfterStore(w.(cache := only), b, ends, later, only);
    assert only[1..] == [];
  }

  /** Repaired: an instance with an empty cache loads before it sets. */
  function LoadThenSet(w: World, b: Backend, up: Up, ends: Ends, scopes: seq<string>, token: string): (World, bool) {
    var persisted := Retrieve(w, b, up);
    Set(if w.cache == [] && persisted.Some? then w.(cache := persisted.value) else w, b, ends, scopes, token)
  }

  /**
   Repaired: every readable persisted entry that does not cover the new scopes is still found after a
   reopen, whenever the set itself was stored and reads back.
   */
  lemma LoadThenSetKeepsTokens(
    w: World, b: Backend, up: Up, ends: Ends, later: Up, persisted: Cache, scopes: seq<string>, token: string, i: nat)
    requires Inv(w) && w.cache == [] && Retrieve(w, b, up) == Some(persisted)
    requires i < |persisted| && !Covers(persisted[i].scopes, scopes)
    requires LoadThenSet(w, b, up, ends, scopes, token).1 && ReadsBack(w, b, ends, later)
    ensures Get(Reopen(LoadThenSet(w, b, up, ends, scopes, token).0), b, later, persisted[i].scopes).1 == Some(persisted[i].token)
  {
    var cache := SetIn(persisted, scopes, token);
    SetKeepsNoShadow(persisted, scopes, token);
    var k := RetainKeeps(persisted, scopes, i);
    FindOwn(cache, k);
    RetrieveAfterStore(w.(cache := cache), b, ends, later, cache);
  }

  lemma {:induction false} RetainKeeps(cache: Cache, scopes: seq<string>, i: nat) returns (k: nat)
    requires i < |cache| && !Covers(cache[i].scopes, scopes)
    ensures k < |Retain(cache, scopes)| && Retain(cache, scopes)[k] == cache[i]
  {
    var n := |cache| - 1;
    if i == n {
      k := |Retain(cache[..n], scopes)|;
    } else {
      k := RetainKeeps(cache[..n], scopes, i);
    }
  }

  // ---------- A set while a get is under way ----------

  /** When the set runs: before the get, after its search, while it reads, after its read, or after it. */
  datatype Order = SetFirst | SetAfterSearch | SetDuringRead | SetAfterRead | SetLast

  /** What a read sees while the set is writing: a file that is being rewritten is truncated. */
  function Midway(w: World, b: Backend, ends: Ends): World {
    if !ends.file.Refused? && (b.FileOnly? || (b.KeyringWithFallback? && !ends.keyring)) then w.(file := Torn) else w
  }

  function Race(
    w: World, b: Backend, order: Order, ends: Ends, scopes: seq<string>, token: string, up: Up, asked: seq<string>
  ): World {
    var v := Set(w, b, ends, scopes, token).0;
    match order
    case SetFirst => Accesses(v, v, v, b, up, asked)
    case SetAfterSearch => Accesses(w, v, v, b, up, asked)
    case SetDuringRead => Accesses(w, Midway(w, b, ends), v, b, up, asked)
    case SetAfterRead => Accesses(w, w, v, b, up, asked)
    case SetLast => Set(Accesses(w, w, w, b, up, asked), b, ends, scopes, token).0
  }

  predicate Holds(cache: Cache, token: string) {
    exists i :: 0 <= i < |cache| && cache[i].token == token
  }

  /** The token is persisted nowhere yet. */
  predicate Unknown(w: World, token: string) {
    && (w.keyring.Some? ==> !Holds(w.keyring.value, token))
    && (w.file.Tokens? ==> !Holds(w.file.value, token))
  }

  /** Nothing is there to be read after the set has stored what it could. */
  predicate NothingToRead(w: World, b: Backend, ends: Ends, up: Up) {
    Retrieve(w, b, up).None? || (Tears(b, ends) && ReadsFile(w, b, up))
  }

  /**
   A new token that races with a get is still cached afterwards exactly in these cases: the set came last;
   the get's search had succeeded; its read gave nothing; or its read came after the set, which was stored
   and reads back.
   */
  lemma {:induction false} RacingSetIsKeptIff(
    w: World, b: Backend, order: Order, ends: Ends, scopes: seq<string>, token: string, up: Up, asked: seq<string>)
    requires Unknown(w, token)
    ensures
      var readsNew := Set(w, b, ends, scopes, token).1 && ReadsBack(w, b, ends, up);
      Holds(Race(w, b, order, ends, scopes, token, up, asked).cache, token) <==>
      match order
      case SetFirst => Find(SetIn(w.cache, scopes, token), asked).Some? || NothingToRead(w, b, ends, up) || readsNew
      case SetAfterSearch => Find(w.cache, asked).Some? || NothingToRead(w, b, ends, up) || readsNew
      case SetDuringRead => Find(w.cache, asked).Some? || Retrieve(Midway(w, b, ends), b, up).None?
      case SetAfterRead => Find(w.cache, asked).Some? || Retrieve(w, b, up).None?
      case SetLast => true
  {
    var cache := SetIn(w.cache, scopes, token);
    SetHolds(w.cache, scopes, token);
    RetrieveAfterStore(w.(cache := cache), b, ends, up, cache);
    SetHolds(Accesses(w, w, w, b, up, asked).cache, scopes, token);
  }

  /**
   Two losing runs, in both of which the set was stored: between the get's read and its write of the cache,
   and, with the keyring down for the set and up for the get, already between its search and its read.
   Either way this instance answers with the older token from then on.
   */
  lemma RacingSetIsLost(scopes: seq<string>, older: string, newer: string)
    ensures
      var had := [StoredToken(scopes, older)];
      var w := World([], None, Tokens(had));
      var after := Race(w, FileOnly, SetAfterRead, Ends(false, Written), scopes, newer, Up(false, true), scopes);
      && Set(w, FileOnly, Ends(false, Written), scopes, newer).1
      && Get(after, FileOnly, Up(false, true), scopes).1 == Some(older)
    ensures
      var had := [StoredToken(scopes, older)];
      var w := World([], Some(had), Missing);
      var after := Race(w, KeyringWithFallback, SetAfterSearch, Ends(false, Written), scopes, newer, Up(true, true), scopes);
      && Set(w, KeyringWithFallback, Ends(false, Written), scopes, newer).1
      && Get(after, KeyringWithFallback, Up(true, true), scopes).1 == Some(older)
  {
  }

  lemma SetHolds(cache: Cache, scopes: seq<string>, token: string)
    ensures Holds(SetIn(cache, scopes, token), token)
  {
    var after := SetIn(cache, scopes, token);
    assert after[|after| - 1].token == token;
  }

  lemma {:induction false} FoundIsHeld(cache: Cache, asked: seq<string>, token: string)
    ensures Find(cache, asked) == Some(token) ==> Holds(cache, token)
  {
    if cache != [] && !Covers(cache[0].scopes, asked) {
      FoundIsHeld(cache[1..], asked, token);
      assert forall i :: 0 <= i < |cache[1..]| ==> cache[1..][i] == cache[i + 1];
    }
  }

  /** A token lost from the cache is lost for good at the next set that is stored and reads back. */
  lemma {:induction false} LostFromCacheIsLost(
    w: World, b: Backend, ends: Ends, later: Up, token: string, scopes: seq<string>, other: string, asked: seq<string>)
    requires !Holds(w.cache, token) && other != token
    requires Set(w, b, ends, scopes, other).1 && ReadsBack(w, b, ends, later)
    ensures Get(Reopen(Set(w, b, ends, scopes, other).0), b, later, asked).1 != Some(token)
  {
    var cache := SetIn(w.cache, scopes, other);
    RetrieveAfterStore(w.(cache := cache), b, ends, later, cache);
    RetainIs(w.cache, scopes);
    FoundIsHeld(cache, asked, token);
  }

  // ---------- The storage in the source's form ----------

  class SecureTokenStorage {
    const backend: Backend
    var cache: Cache
    var keyring: Option<Cache>
    var file: FileText

    ghost function State(): World
      reads this
    {
      World(cache, keyring, file)
    }

    constructor (backend: Backend, keyring: Option<Cache>, file: FileText)
      ensures this.backend == backend && State() == World([], keyring, file)
    {
      this.backend, this.cache, this.keyring, this.file := backend, [], keyring, file;
    }

    method SetToken(scopes: seq<string>, token: string, ends: Ends) returns (ok: bool)
      modifies this
      ensures (State(), ok) == Set(old(State()), backend, ends, scopes, token)
    {
      var kept := [];
      var i := 0;
      while i < |cache|
        invariant i <= |cache| && State() == old(State())
        invariant kept == Retain(cache[..i], scopes)
      {
        assert cache[..i + 1][..i] == cache[..i];
        if !Covers(cache[i].scopes, scopes) {
          kept := kept + [cache[i]];
        }
        i := i + 1;
      }
      assert cache[..|cache|] == cache;
      cache := kept + [StoredToken(scopes, token)];
      ok := StoreTokens(cache, ends);
    }

    method StoreTokens(value: Cache, ends: Ends) returns (ok: bool)
      modifies `keyring, `file
      ensures (State(), ok) == Store(old(State()), backend, ends, value)
    {
      ok := false;
      if !backend.FileOnly? && ends.keyring {
        keyring := Some(value);
        ok := true;
      } else if !backend.KeyringOnly? && !ends.file.Refused? {
        file := Torn;
        if ends.file.Written? {
          file := Tokens(value);
          ok := true;
        }
      }
    }

    method Search(tokens: Cache, scopes: seq<string>) returns (r: Option<string>)
      ensures r == Find(tokens, scopes)
    {
      var i := 0;
      while i < |tokens|
        invariant i <= |tokens|
        invariant Find(tokens[i..], scopes) == Find(tokens, scopes)
      {
        if Covers(tokens[i].scopes, scopes) {
          return Some(tokens[i].token);
        }
        assert tokens[i..][1..] == tokens[i + 1..];
        i := i + 1;
      }
      r := None;
    }

    method GetToken(scopes: seq<string>, up: Up) returns (r: Option<string>)
      modifies `cache
      ensures (State(), r) == Get(old(State()), backend, up, scopes)
    {
      r := Search(cache, scopes);
      if r.None? {
        var persisted := Retrieve(World(cache, keyring, file), backend, up);
        if persisted.Some? {
          cache := persisted.value;
          r := Search(cache, scopes);
        }
      }
    }
  }
}

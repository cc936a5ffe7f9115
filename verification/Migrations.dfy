/**
 Schema migrations: `migrate` applies every migration newer than the stored version inside one
 transaction and records the version of each.
 */
module Migrations {
  datatype Migration = Migration(version: int, sql: string)

  /** The database: its version and the migrations committed so far, in order. */
  datatype Schema = Schema(version: int, committed: seq<Migration>)

  const EMPTY := Schema(0, [])

  function Pending(ms: seq<Migration>, version: int): seq<Migration> {
    if ms == [] then []
    else
      var init := Pending(ms[..|ms| - 1], version);
      if ms[|ms| - 1].version > version then init + [ms[|ms| - 1]] else init
  }

  function ApplyAll(s: Schema, ms: seq<Migration>): Schema {
    if ms == [] then s
    else
      var before := ApplyAll(s, ms[..|ms| - 1]);
      Schema(ms[|ms| - 1].version, before.committed + [ms[|ms| - 1]])
  }

  /** One call of `migrate` in which statement number `failAt` fails (never, if it is beyond the end). */
  function Migrate(s: Schema, ms: seq<Migration>, failAt: nat): (Schema, bool) {
    var pending := Pending(ms, s.version);
    if failAt < |pending| then (s, false) else (ApplyAll(s, pending), true)
  }

  predicate Ascending(ms: seq<Migration>) {
    && (forall i :: 0 <= i < |ms| ==> ms[i].version > 0)
    && (forall i, j :: 0 <= i < j < |ms| ==> ms[i].version < ms[j].version)
  }

  lemma {:induction false} ApplyAllIs(s: Schema, ms: seq<Migration>)
    ensures ApplyAll(s, ms).committed == s.committed + ms
    ensures ApplyAll(s, ms).version == if ms == [] then s.version else ms[|ms| - 1].version
  {
    if ms != [] {
      ApplyAllIs(s, ms[..|ms| - 1]);
      assert ms == ms[..|ms| - 1] + [ms[|ms| - 1]];
    }
  }

  lemma {:induction false} PendingIs(ms: seq<Migration>, version: int)
    ensures forall m :: m in Pending(ms, version) <==> m in ms && m.version > version
  {
    if ms != [] {
      PendingIs(ms[..|ms| - 1], version);
      forall m ensures m in ms <==> m in ms[..|ms| - 1] || m == ms[|ms| - 1] {
        assert ms == ms[..|ms| - 1] + [ms[|ms| - 1]];
      }
    }
  }

  /** With ascending versions, what is pending after the first k migrations is exactly the rest. */
  lemma {:induction false} PendingIsSuffix(ms: seq<Migration>, k: nat)
    requires Ascending(ms) && k <= |ms|
    ensures Pending(ms, if k == 0 then 0 else ms[k - 1].version) == ms[k..]
    decreases |ms|
  {
    if ms != [] {
      var init := ms[..|ms| - 1];
      if k < |ms| {
        PendingIsSuffix(init, k);
        assert ms[k..] == init[k..] + [ms[|ms| - 1]];
      } else {
        NothingPending(ms, ms[|ms| - 1].version);
      }
    }
  }

  lemma {:induction false} NothingPending(ms: seq<Migration>, version: int)
    requires forall i :: 0 <= i < |ms| ==> ms[i].version <= version
    ensures Pending(ms, version) == []
  {
    if ms != [] {
      NothingPending(ms[..|ms| - 1], version);
    }
  }

  /** The first k migrations of the list have been committed, in order, and the version says so. */
  predicate AtPrefix(s: Schema, ms: seq<Migration>, k: nat) {
    && k <= |ms|
    && s.committed == ms[..k]
    && s.version == (if k == 0 then 0 else ms[k - 1].version)
  }

  /** One opening of the database, with the migrations that release ships and where it fails. */
  datatype Opening = Opening(migrations: seq<Migration>, failAt: nat)

  function Run(s: Schema, opens: seq<Opening>): Schema {
    if opens == [] then s
    else Migrate(Run(s, opens[..|opens| - 1]), opens[|opens| - 1].migrations, opens[|opens| - 1].failAt).0
  }

  /** Releases only ever add migrations at the end. */
  predicate Extending(opens: seq<Opening>) {
    && (forall i :: 0 <= i < |opens| ==> Ascending(opens[i].migrations))
    && (forall i, j :: 0 <= i < j < |opens| ==> opens[i].migrations <= opens[j].migrations)
  }

  lemma {:induction false} MigrateFromPrefix(s: Schema, ms: seq<Migration>, k: nat, failAt: nat)
    requires Ascending(ms) && AtPrefix(s, ms, k)
    ensures Migrate(s, ms, failAt).1 ==> AtPrefix(Migrate(s, ms, failAt).0, ms, |ms|)
    ensures !Migrate(s, ms, failAt).1 ==> Migrate(s, ms, failAt).0 == s
  {
    PendingIsSuffix(ms, k);
    ApplyRest(s, ms, k);
  }

  lemma {:induction false} ApplyRest(s: Schema, ms: seq<Migration>, k: nat)
    requires AtPrefix(s, ms, k)
    ensures AtPrefix(ApplyAll(s, ms[k..]), ms, |ms|)
  {
    var rest := ms[k..];
    ApplyAllIs(s, rest);
    assert s.committed + rest == ms && ms[..|ms|] == ms;
    assert rest != [] ==> rest[|rest| - 1] == ms[|ms| - 1];
  }

  /**
   Over any sequence of openings with growing migration lists and failures anywhere: exactly a prefix of
   the latest list is committed, each migration once and in order, and the version is that of the last.
   */
  lemma {:induction false} EveryOpeningCommitsAPrefix(opens: seq<Opening>) returns (k: nat)
    requires opens != [] && Extending(opens)
    ensures AtPrefix(Run(EMPTY, opens), opens[|opens| - 1].migrations, k)
    decreases |opens|
  {
    var n := |opens| - 1;
    var init, last := opens[..n], opens[n];
    k := 0;
    if n > 0 {
      k := EveryOpeningCommitsAPrefix(init);
      var earlier := init[n - 1].migrations;
      assert init[n - 1] == opens[n - 1] && earlier <= last.migrations;
      assert last.migrations[..k] == earlier[..k];
    }
    var before := Run(EMPTY, init);
    assert AtPrefix(before, last.migrations, k);
    MigrateFromPrefix(before, last.migrations, k, last.failAt);
    if Migrate(before, last.migrations, last.failAt).1 {
      k := |last.migrations|;
    }
  }

  /** Each migration commits at most once over such a run. */
  lemma EachCommitsAtMostOnce(opens: seq<Opening>, i: nat, j: nat)
    requires opens != [] && Extending(opens)
    requires i < |Run(EMPTY, opens).committed| && j < |Run(EMPTY, opens).committed|
    ensures Run(EMPTY, opens).committed[i] == Run(EMPTY, opens).committed[j] ==> i == j
  {
    var k := EveryOpeningCommitsAPrefix(opens);
  }

  /** For an ascending list, whatever prefix was there before: after a success a repeat changes nothing. */
  lemma {:induction false} RepeatIsNoOp(s: Schema, ms: seq<Migration>, k: nat, failAt: nat, again: nat)
    requires Ascending(ms) && AtPrefix(s, ms, k) && Migrate(s, ms, failAt).1
    ensures Migrate(Migrate(s, ms, failAt).0, ms, again) == (Migrate(s, ms, failAt).0, true)
  {
    MigrateFromPrefix(s, ms, k, failAt);
    PendingIsSuffix(ms, |ms|);
  }

  /** The last migration of the list that is newer than `version`. */
  ghost predicate IsLastNewer(ms: seq<Migration>, version: int, l: int) {
    && 0 <= l < |ms|
    && ms[l].version > version
    && (forall j :: l < j < |ms| ==> ms[j].version <= version)
  }

  lemma {:induction false} LastPending(ms: seq<Migration>, version: int) returns (l: int)
    requires Pending(ms, version) != []
    ensures IsLastNewer(ms, version, l)
    ensures Pending(ms, version)[|Pending(ms, version)| - 1] == ms[l]
  {
    l := |ms| - 1;
    if ms[l].version <= version {
      l := LastPending(ms[..|ms| - 1], version);
    }
  }

  /**
   For any list and any earlier version: after a successful `migrate` a repeat changes nothing if and only
   if the last migration newer than that version is also the newest of the list.
   */
  lemma {:induction false} RepeatIsNoOpIff(s: Schema, ms: seq<Migration>, failAt: nat, again: nat)
    requires Migrate(s, ms, failAt).1 && again >= |ms|
    ensures var once := Migrate(s, ms, failAt).0;
      Migrate(once, ms, again).0 == once <==>
      forall l :: IsLastNewer(ms, s.version, l) ==> forall m :: m in ms ==> m.version <= ms[l].version
  {
    var pending := Pending(ms, s.version);
    var once := Migrate(s, ms, failAt).0;
    ApplyAllIs(s, pending);
    NoOpIffNoneNewer(once, ms, again);
    if pending == [] {
      PendingIs(ms, s.version);
      forall m | m in ms ensures m.version <= s.version {
        assert m !in pending;
      }
    } else {
      var last := LastPending(ms, s.version);
      assert forall l :: IsLastNewer(ms, s.version, l) ==> l == last;
    }
  }

  lemma {:induction false} NoOpIffNoneNewer(s: Schema, ms: seq<Migration>, again: nat)
    requires again >= |ms|
    ensures Migrate(s, ms, again).0 == s <==> forall m :: m in ms ==> m.version <= s.version
  {
    var pending := Pending(ms, s.version);
    PendingShort(ms, s.version);
    PendingIs(ms, s.version);
    ApplyAllIs(s, pending);
    if pending == [] {
      forall m | m in ms ensures m.version <= s.version {
        assert m !in pending;
      }
    } else {
      assert pending[0] in pending;
      assert |ApplyAll(s, pending).committed| > |s.committed|;
    }
  }

  /** A later version leaves at most as much pending, and strictly less when it reaches a pending migration. */
  lemma {:induction false} PendingShrinks(ms: seq<Migration>, version: int, later: int)
    requires version <= later
    ensures |Pending(ms, later)| <= |Pending(ms, version)|
    ensures (exists m :: m in ms && version < m.version <= later) ==> |Pending(ms, later)| < |Pending(ms, version)|
  {
    if ms != [] {
      var init := ms[..|ms| - 1];
      PendingShrinks(init, version, later);
      assert ms == init + [ms[|ms| - 1]];
    }
  }

  /** Whatever the order of the list, as many successful openings as there are pending migrations settle it. */
  lemma {:induction false} RepeatsSettle(s: Schema, ms: seq<Migration>, opens: seq<Opening>)
    requires forall i :: 0 <= i < |opens| ==> opens[i] == Opening(ms, |ms|)
    ensures |opens| >= |Pending(ms, s.version)| ==> Pending(ms, Run(s, opens).version) == []
    ensures Pending(ms, Run(s, opens).version) != [] ==>
      |Pending(ms, Run(s, opens).version)| + |opens| <= |Pending(ms, s.version)|
    decreases |opens|
  {
    if opens != [] {
      var init := opens[..|opens| - 1];
      assert forall i :: 0 <= i < |init| ==> init[i] == opens[i];
      RepeatsSettle(s, ms, init);
      var before := Run(s, init);
      var pending := Pending(ms, before.version);
      PendingShort(ms, before.version);
      ApplyAllIs(before, pending);
      if pending != [] {
        var l := LastPending(ms, before.version);
        assert ms[l] in ms;
        PendingShrinks(ms, before.version, ms[l].version);
      }
    }
  }

  lemma {:induction false} PendingShort(ms: seq<Migration>, version: int)
    ensures |Pending(ms, version)| <= |ms|
  {
    if ms != [] {
      PendingShort(ms[..|ms| - 1], version);
    }
  }

  lemma {:induction false} PendingSnoc(ms: seq<Migration>, m: Migration, version: int)
    ensures Pending(ms + [m], version) == Pending(ms, version) + (if m.version > version then [m] else [])
  {
    assert (ms + [m])[..|ms + [m]| - 1] == ms;
  }

  lemma {:induction false} PendingOfTwo(a: Migration, b: Migration, version: int)
    ensures Pending([a, b], version) ==
      (if a.version > version then [a] else []) + (if b.version > version then [b] else [])
  {
    PendingSnoc([], a, version);
    PendingSnoc([a], b, version);
    assert [] + [a] == [a] && [a] + [b] == [a, b];
  }

  /** A list out of order runs its newest migration again at the next opening. */
  lemma {:induction false} OutOfOrderRunsAgain()
    ensures var ms := [Migration(2, "b"), Migration(1, "a")];
      var once := Migrate(EMPTY, ms, 9).0;
      once == Schema(1, ms) && Migrate(once, ms, 9).0 == Schema(2, ms + [Migration(2, "b")])
  {
    var b, a := Migration(2, "b"), Migration(1, "a");
    PendingOfTwo(b, a, 0);
    PendingOfTwo(b, a, 1);
    assert [b] + [a] == [b, a] && [b] + [] == [b];
    ApplyAllIs(EMPTY, [b, a]);
    ApplyAllIs(Schema(1, [b, a]), [b]);
  }

  class Migrator {
    const migrations: seq<Migration>

    constructor (migrations: seq<Migration>)
      ensures this.migrations == migrations
    {
      this.migrations := migrations;
    }

    /** Runs the pending migrations in a transaction on `db` and returns the state it leaves. */
    method Run(db: Schema, failAt: nat) returns (after: Schema, ok: bool)
      ensures (after, ok) == Migrate(db, migrations, failAt)
      ensures !ok ==> after == db
    {
      var pending := Pending(migrations, db.version);
      if pending == [] {
        return db, true;
      }
      var tx := db;
      var i := 0;
      while i < |pending|
        invariant i <= |pending| && i <= failAt
        invariant tx == ApplyAll(db, pending[..i])
      {
        if i == failAt {
          return db, false;
        }
        assert pending[..i + 1][..i] == pending[..i];
        tx := Schema(pending[i].version, tx.committed + [pending[i]]);
        i := i + 1;
      }
      assert pending[..|pending|] == pending;
      return tx, true;
    }
  }
}

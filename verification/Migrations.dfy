/** The restartable migration runner (internal/database/migrations.go). */
module Migrations {
  import opened Sequences

  type Version = string

  const MIGRATIONS: seq<Version> := [
    "001_initial_schema", "002_add_token_table", "003_add_performance_indexes",
    "004_add_user_activity_table", "005_create_materialized_views"]

  /** Which of the three steps of one migration succeed, should they be reached. */
  datatype Outcome = Outcome(check: bool, up: bool, record: bool)

  /** The recorded versions in the order of recording, and the log of attempted Ups. */
  datatype Db = Db(table: seq<Version>, ups: seq<Version>)

  datatype Progress = Progress(db: Db, ok: bool)

  function RunOne(db: Db, v: Version, o: Outcome): Progress {
    if !o.check then Progress(db, false)
    else if v in db.table then Progress(db, true)
    else
      var tried := db.(ups := db.ups + [v]);
      if !o.up || !o.record then Progress(tried, false)
      else Progress(tried.(table := tried.table + [v]), true)
  }

  /** The first n migrations of the list, stopping at the first failure. */
  function RunFirst(db: Db, list: seq<Version>, n: nat, os: nat -> Outcome): Progress
    requires n <= |list|
  {
    if n == 0 then Progress(db, true)
    else
      var before := RunFirst(db, list, n - 1, os);
      if before.ok then RunOne(before.db, list[n - 1], os(n - 1)) else before
  }

  class MigrationManager {
    var table: seq<Version>
    var ups: seq<Version>

    function State(): Db
      reads this
    {
      Db(table, ups)
    }

    constructor (table: seq<Version>)
      ensures State() == Db(table, [])
    {
      this.table, ups := table, [];
    }

    method RunMigration(v: Version, o: Outcome) returns (ok: bool)
      modifies this
      ensures Progress(State(), ok) == RunOne(old(State()), v, o)
    {
      if !o.check {
        return false;
      }
      if v in table {
        return true;
      }
      ups := ups + [v];
      if !o.up {
        return false;
      }
      if !o.record {
        return false;
      }
      table := table + [v];
      return true;
    }

    method RunMigrations(initialized: bool, os: nat -> Outcome) returns (ok: bool)
      modifies this
      ensures initialized ==> Progress(State(), ok) == RunFirst(old(State()), MIGRATIONS, |MIGRATIONS|, os)
      ensures !initialized ==> !ok && State() == old(State())
    {
      if !initialized {
        return false;
      }
      var migrations := MIGRATIONS;
      for i := 0 to |migrations|
        invariant RunFirst(old(State()), migrations, i, os) == Progress(State(), true)
      {
        var done := RunMigration(migrations[i], os(i));
        if !done {
          StopsThere(old(State()), migrations, i + 1, |migrations|, os);
          return false;
        }
      }
      return true;
    }

    /** Fails on a version that is not recorded; otherwise deletes its record. */
    method RollbackMigration(v: Version, found: bool, deleted: bool) returns (ok: bool)
      modifies this
      ensures ok <==> found && v in old(table) && deleted
      ensures State() == if ok then Db(Unrecorded(old(table), v), old(ups)) else old(State())
    {
      if !found || v !in table {
        return false;
      }
      if !deleted {
        return false;
      }
      var kept: seq<Version> := [];
      for i := 0 to |table|
        invariant kept == Unrecorded(table[..i], v)
      {
        assert table[..i + 1][..i] == table[..i];
        if table[i] != v {
          kept := kept + [table[i]];
        }
      }
      assert table[..|table|] == table;
      table := kept;
      return true;
    }
  }

  function Unrecorded(table: seq<Version>, v: Version): seq<Version> {
    if table == [] then []
    else Unrecorded(table[..|table| - 1], v) + if table[|table| - 1] == v then [] else [table[|table| - 1]]
  }

  lemma {:induction false} StopsThere(db: Db, list: seq<Version>, n: nat, m: nat, os: nat -> Outcome)
    requires n <= m <= |list| && !RunFirst(db, list, n, os).ok
    ensures RunFirst(db, list, m, os) == RunFirst(db, list, n, os)
  {
    if n < m {
      StopsThere(db, list, n, m - 1, os);
    }
  }

  // ----- Restarts after failures -----

  /** They are numbered in the order of the list. */
  lemma MigrationsAreDistinct()
    ensures |MIGRATIONS| == 5
    ensures forall i | 0 <= i < 5 :: |MIGRATIONS[i]| >= 3 && MIGRATIONS[i][..3] == ['0', '0', "12345"[i]]
    ensures NoDup(MIGRATIONS)
  {
    assert forall i | 0 <= i < 5 :: MIGRATIONS[i][2] == "12345"[i];
  }

  /** The log with immediate repeats collapsed. */
  function Collapse(s: seq<Version>): seq<Version> {
    if s == [] then []
    else
      var n := |s| - 1;
      Collapse(s[..n]) + if n > 0 && s[n - 1] == s[n] then [] else [s[n]]
  }

  function Restarts(db: Db, list: seq<Version>, runs: seq<nat -> Outcome>): Db {
    if runs == [] then db
    else RunFirst(Restarts(db, list, runs[..|runs| - 1]), list, |list|, runs[|runs| - 1]).db
  }

  /** Recorded are the first n versions; tried since the first n0 are those up to m. */
  predicate Reached(db: Db, list: seq<Version>, n0: nat, n: nat, m: nat) {
    && n0 <= n <= m <= |list| && m <= n + 1
    && db.table == list[..n]
    && Collapse(db.ups) == list[n0..m]
    && (if m == n0 then db.ups == [] else db.ups != [] && db.ups[|db.ups| - 1] == list[m - 1])
  }

  lemma NextIsUnrecorded(list: seq<Version>, n: nat)
    requires NoDup(list) && n < |list|
    ensures list[n] !in list[..n]
  {
  }

  lemma CollapseMore(ups: seq<Version>, v: Version)
    ensures Collapse(ups + [v]) == Collapse(ups) + if ups != [] && ups[|ups| - 1] == v then [] else [v]
  {
    assert (ups + [v])[..|ups|] == ups;
  }

  /** Attempting the first unrecorded version, whether or not it was the last one attempted. */
  lemma Tried(db: Db, list: seq<Version>, n0: nat, n: nat, m: nat)
    requires NoDup(list) && Reached(db, list, n0, n, m) && n < |list|
    ensures Reached(Db(db.table, db.ups + [list[n]]), list, n0, n, n + 1)
  {
    CollapseMore(db.ups, list[n]);
    if m == n {
      assert list[n0..m] + [list[n]] == list[n0..n + 1];
    } else {
      assert list[n0..m] + [] == list[n0..n + 1];
    }
  }

  lemma Recorded(db: Db, list: seq<Version>, n0: nat, n: nat)
    requires Reached(db, list, n0, n, n + 1)
    ensures Reached(Db(db.table + [list[n]], db.ups), list, n0, n + 1, n + 1)
  {
    assert list[..n] + [list[n]] == list[..n + 1];
  }

  lemma OneMigrationProgress(db: Db, list: seq<Version>, n0: nat, n: nat, m: nat, i: nat, o: Outcome)
    returns (n': nat, m': nat)
    requires NoDup(list) && Reached(db, list, n0, n, m) && i < |list| && i <= n
    ensures Reached(RunOne(db, list[i], o).db, list, n0, n', m') && n <= n' && m <= m'
    ensures RunOne(db, list[i], o).ok ==> i + 1 <= n'
  {
    n', m' := n, m;
    if i < n {
      assert list[i] == db.table[i];
      assert RunOne(db, list[i], o).db == db;
    } else {
      NextIsUnrecorded(list, n);
      if o.check {
        Tried(db, list, n0, n, m);
        m' := n + 1;
        if o.up && o.record {
          Recorded(Db(db.table, db.ups + [list[n]]), list, n0, n);
          n' := n + 1;
        }
      }
    }
  }

  /** One round of the loop of a run. */
  lemma RoundProgress(before: Progress, list: seq<Version>, n0: nat, n: nat, m: nat, i: nat, o: Outcome)
    returns (n': nat, m': nat)
    requires NoDup(list) && Reached(before.db, list, n0, n, m) && i < |list| && (before.ok ==> i <= n)
    ensures
      var after := if before.ok then RunOne(before.db, list[i], o) else before;
      && Reached(after.db, list, n0, n', m') && n <= n' && m <= m'
      && (after.ok ==> i + 1 <= n')
  {
    n', m' := n, m;
    if before.ok {
      n', m' := OneMigrationProgress(before.db, list, n0, n, m, i, o);
    }
  }

  lemma OneMoreRound(db: Db, list: seq<Version>, i: nat, os: nat -> Outcome)
    requires i < |list|
    ensures
      var before := RunFirst(db, list, i, os);
      RunFirst(db, list, i + 1, os) == if before.ok then RunOne(before.db, list[i], os(i)) else before
  {
  }

  lemma RunProgress(db: Db, list: seq<Version>, n0: nat, n: nat, m: nat, i: nat, os: nat -> Outcome)
    returns (n': nat, m': nat)
    requires NoDup(list) && Reached(db, list, n0, n, m) && i <= |list|
    ensures Reached(RunFirst(db, list, i, os).db, list, n0, n', m') && n <= n' && m <= m'
    ensures RunFirst(db, list, i, os).ok ==> i <= n'
  {
    n', m' := n, m;
    var round := 0;
    while round < i
      invariant round <= i
      invariant Reached(RunFirst(db, list, round, os).db, list, n0, n', m') && n <= n' && m <= m'
      invariant RunFirst(db, list, round, os).ok ==> round <= n'
    {
      OneMoreRound(db, list, round, os);
      n', m' := RoundProgress(RunFirst(db, list, round, os), list, n0, n', m', round, os(round));
      round := round + 1;
    }
  }

  /** Over any number of restarts with failures at any check, Up or record, what is recorded is a
      prefix of the list, and the log of attempted Ups, immediate repeats apart, is the list in order
      from where the first run found it, at most one version ahead of the record. */
  lemma {:induction false} RecordedIsAPrefix(
    list: seq<Version>, n0: nat, runs: seq<nat -> Outcome>) returns (n: nat, m: nat)
    requires NoDup(list) && n0 <= |list|
    ensures
      var db := Restarts(Db(list[..n0], []), list, runs);
      && n0 <= n <= m <= n + 1 && m <= |list|
      && db.table == list[..n]
      && Collapse(db.ups) == list[n0..m]
    ensures Reached(Restarts(Db(list[..n0], []), list, runs), list, n0, n, m)
  {
    if runs == [] {
      n, m := n0, n0;
    } else {
      n, m := RecordedIsAPrefix(list, n0, runs[..|runs| - 1]);
      var before := Restarts(Db(list[..n0], []), list, runs[..|runs| - 1]);
      n, m := RunProgress(before, list, n0, n, m, |list|, runs[|runs| - 1]);
    }
  }

  /** The same for the migrations the code lists, whose first n0 were recorded before. */
  lemma TheMigrationsAreAPrefix(n0: nat, runs: seq<nat -> Outcome>) returns (n: nat, m: nat)
    requires n0 <= |MIGRATIONS|
    ensures
      var db := Restarts(Db(MIGRATIONS[..n0], []), MIGRATIONS, runs);
      && n0 <= n <= m <= n + 1 && m <= |MIGRATIONS|
      && db.table == MIGRATIONS[..n]
      && Collapse(db.ups) == MIGRATIONS[n0..m]
  {
    MigrationsAreDistinct();
    n, m := RecordedIsAPrefix(MIGRATIONS, n0, runs);
  }

  // ----- After rollbacks -----

  /** The versions of the list that are not recorded, in list order. */
  function Missing(list: seq<Version>, table: seq<Version>): seq<Version> {
    if list == [] then []
    else
      var last := list[|list| - 1];
      Missing(list[..|list| - 1], table) + if last in table then [] else [last]
  }

  lemma {:induction false} MissingElements(list: seq<Version>, table: seq<Version>)
    ensures forall v :: v in Missing(list, table) <==> v in list && v !in table
  {
    if list != [] {
      MissingElements(list[..|list| - 1], table);
      assert list == list[..|list| - 1] + [list[|list| - 1]];
    }
  }

  /** Of the missing versions the first ones were tried, and all of those but perhaps the last
      recorded; all of them if the run succeeded. */
  predicate Executed(db: Db, r: Progress, missing: seq<Version>, tried: nat, recorded: nat) {
    && recorded <= tried <= recorded + 1 && tried <= |missing|
    && r.db.table == db.table + missing[..recorded]
    && r.db.ups == db.ups + missing[..tried]
    && (r.ok ==> recorded == tried == |missing|)
  }

  lemma OneMigrationExecuted(
    db: Db, before: Progress, earlier: seq<Version>, v: Version, o: Outcome, tried: nat, recorded: nat)
    returns (tried': nat, recorded': nat)
    requires Executed(db, before, earlier, tried, recorded) && v !in earlier
    ensures
      var missing := earlier + if v in db.table then [] else [v];
      Executed(db, if before.ok then RunOne(before.db, v, o) else before, missing, tried', recorded')
  {
    var missing := earlier + if v in db.table then [] else [v];
    tried', recorded' := tried, recorded;
    assert missing[..recorded] == earlier[..recorded] && missing[..tried] == earlier[..tried];
    if before.ok && o.check {
      assert earlier[..|earlier|] == earlier;
      assert v in before.db.table <==> v in db.table;
      if v !in db.table {
        assert missing[..|missing|] == earlier + [v];
        tried' := |missing|;
        if o.up && o.record {
          recorded' := |missing|;
        }
      }
    }
  }

  /** From any recorded set, whatever was rolled back: a run tries unrecorded versions only, in list
      order, and records them as it goes; if it succeeds, it has executed exactly those. */
  lemma {:induction false} RunExecutesTheUnrecorded(db: Db, list: seq<Version>, n: nat, os: nat -> Outcome)
    returns (tried: nat, recorded: nat)
    requires NoDup(list) && n <= |list|
    ensures Executed(db, RunFirst(db, list, n, os), Missing(list[..n], db.table), tried, recorded)
  {
    if n == 0 {
      tried, recorded := 0, 0;
    } else {
      var v := list[n - 1];
      assert list[..n][..n - 1] == list[..n - 1];
      tried, recorded := RunExecutesTheUnrecorded(db, list, n - 1, os);
      MissingElements(list[..n - 1], db.table);
      assert v !in list[..n - 1];
      tried, recorded := OneMigrationExecuted(
        db, RunFirst(db, list, n - 1, os), Missing(list[..n - 1], db.table), v, os(n - 1), tried, recorded);
    }
  }

  /** A successful run leaves every version recorded. */
  lemma SuccessRecordsAll(db: Db, list: seq<Version>, os: nat -> Outcome)
    requires NoDup(list) && RunFirst(db, list, |list|, os).ok
    ensures
      var r := RunFirst(db, list, |list|, os);
      && r.db.ups == db.ups + Missing(list, db.table)
      && r.db.table == db.table + Missing(list, db.table)
      && forall v | v in list :: v in r.db.table
  {
    var tried, recorded := RunExecutesTheUnrecorded(db, list, |list|, os);
    assert list[..|list|] == list;
    var missing := Missing(list, db.table);
    assert missing[..|missing|] == missing;
    MissingElements(list, db.table);
  }

  // ----- Exactly what a run does -----

  /** The i-th migration of the list goes well: its check does, and if it is not recorded yet, so do its Up
      and its record. */
  predicate GoesWell(db: Db, list: seq<Version>, i: nat, os: nat -> Outcome)
    requires i < |list|
  {
    os(i).check && (list[i] in db.table || (os(i).up && os(i).record))
  }

  lemma OneWell(db: Db, missing: seq<Version>, v: Version, o: Outcome)
    requires v !in missing && o.check && (v in db.table || (o.up && o.record))
    ensures
      var more := missing + if v in db.table then [] else [v];
      RunOne(Db(db.table + missing, db.ups + missing), v, o) == Progress(Db(db.table + more, db.ups + more), true)
  {
    if v in db.table {
      assert missing + [] == missing;
    } else {
      assert v !in db.table + missing;
      assert db.table + missing + [v] == db.table + (missing + [v]);
      assert db.ups + missing + [v] == db.ups + (missing + [v]);
    }
  }

  lemma OneMoreMissing(list: seq<Version>, n: nat, table: seq<Version>)
    requires n < |list|
    ensures Missing(list[..n + 1], table) == Missing(list[..n], table) + if list[n] in table then [] else [list[n]]
    ensures NoDup(list) ==> list[n] !in Missing(list[..n], table)
  {
    assert list[..n + 1][..n] == list[..n];
    MissingElements(list[..n], table);
  }

  lemma {:induction false} AllWell(db: Db, list: seq<Version>, n: nat, os: nat -> Outcome)
    requires NoDup(list) && n <= |list| && forall i | 0 <= i < n :: GoesWell(db, list, i, os)
    ensures
      var missing := Missing(list[..n], db.table);
      RunFirst(db, list, n, os) == Progress(Db(db.table + missing, db.ups + missing), true)
  {
    if n == 0 {
      assert list[..0] == [];
      assert db.table + [] == db.table && db.ups + [] == db.ups;
    } else {
      AllWell(db, list, n - 1, os);
      OneMoreMissing(list, n - 1, db.table);
      assert GoesWell(db, list, n - 1, os);
      OneWell(db, Missing(list[..n - 1], db.table), list[n - 1], os(n - 1));
    }
  }

  /** A run ends at the first migration that does not go well, if there is one. Those before it are recorded
      if they were not, each attempted once. Its own Up is attempted iff its check succeeded and it was not
      recorded, and it is not recorded now. */
  lemma RunEndsAtTheFirstFailure(db: Db, list: seq<Version>, n: nat, os: nat -> Outcome, j: nat)
    requires NoDup(list) && j <= n <= |list|
    requires forall i | 0 <= i < j :: GoesWell(db, list, i, os)
    requires j < n ==> !GoesWell(db, list, j, os)
    ensures
      var r, missing := RunFirst(db, list, n, os), Missing(list[..j], db.table);
      && (r.ok <==> j == n)
      && r.db.table == db.table + missing
      && r.db.ups == db.ups + missing + if j < n && os(j).check && list[j] !in db.table then [list[j]] else []
  {
    AllWell(db, list, j, os);
    if j < n {
      OneMoreMissing(list, j, db.table);
      StopsThere(db, list, j + 1, n, os);
    }
  }

  lemma {:induction false} FirstFailure(db: Db, list: seq<Version>, n: nat, os: nat -> Outcome) returns (j: nat)
    requires n <= |list|
    ensures j <= n && (forall i | 0 <= i < j :: GoesWell(db, list, i, os)) && (j < n ==> !GoesWell(db, list, j, os))
  {
    j := 0;
    if n > 0 {
      j := FirstFailure(db, list, n - 1, os);
      if j == n - 1 && GoesWell(db, list, n - 1, os) {
        j := n;
      }
    }
  }

  /** A run succeeds iff every check does and, for every version that is not recorded, its Up and its
      record. */
  lemma SucceedsIff(db: Db, list: seq<Version>, n: nat, os: nat -> Outcome)
    requires NoDup(list) && n <= |list|
    ensures RunFirst(db, list, n, os).ok <==>
            forall i | 0 <= i < n :: os(i).check && (list[i] in db.table || (os(i).up && os(i).record))
  {
    var j := FirstFailure(db, list, n, os);
    RunEndsAtTheFirstFailure(db, list, n, os, j);
    assert forall i | 0 <= i < n ::
        GoesWell(db, list, i, os) <==> os(i).check && (list[i] in db.table || (os(i).up && os(i).record));
  }

  /** The version was applied in this run: check, Up and record of it all succeeded. */
  predicate AppliedIn(list: seq<Version>, n: nat, os: nat -> Outcome, v: Version)
    requires n <= |list|
  {
    exists i | 0 <= i < n :: list[i] == v && os(i).check && os(i).up && os(i).record
  }

  lemma NewlyRecordedWasApplied(db: Db, list: seq<Version>, n: nat, os: nat -> Outcome, v: Version)
    requires NoDup(list) && n <= |list|
    requires v in RunFirst(db, list, n, os).db.table && v !in db.table
    ensures AppliedIn(list, n, os, v)
  {
    var j := FirstFailure(db, list, n, os);
    RunEndsAtTheFirstFailure(db, list, n, os, j);
    MissingElements(list[..j], db.table);
    var i :| 0 <= i < j && list[..j][i] == v;
    assert GoesWell(db, list, i, os);
  }

  /** Over any number of restarts from any recorded set: nothing gets recorded without one run in which its
      check, its Up and its record all succeeded. */
  lemma {:induction false} RecordedWasApplied(db: Db, list: seq<Version>, runs: seq<nat -> Outcome>, v: Version)
    requires NoDup(list) && v in Restarts(db, list, runs).table && v !in db.table
    ensures exists r | 0 <= r < |runs| :: AppliedIn(list, |list|, runs[r], v)
  {
    var n := |runs| - 1;
    var before := Restarts(db, list, runs[..n]);
    if v in before.table {
      RecordedWasApplied(db, list, runs[..n], v);
      var r :| 0 <= r < n && AppliedIn(list, |list|, runs[..n][r], v);
      assert AppliedIn(list, |list|, runs[r], v);
    } else {
      NewlyRecordedWasApplied(before, list, |list|, runs[n], v);
    }
  }

  lemma {:induction false} NothingToUnrecord(table: seq<Version>, v: Version)
    requires v !in table
    ensures Unrecorded(table, v) == table
  {
    if table != [] {
      NothingToUnrecord(table[..|table| - 1], v);
    }
  }

  /** With versions unique in the table, a rollback takes one record out and keeps the others in place. */
  lemma {:induction false} RollbackTakesOne(before: seq<Version>, v: Version, after: seq<Version>)
    requires v !in before && v !in after
    ensures Unrecorded(before + [v] + after, v) == before + after
  {
    var table := before + [v] + after;
    if after == [] {
      assert table[..|table| - 1] == before;
      NothingToUnrecord(before, v);
    } else {
      var init := after[..|after| - 1];
      assert table[..|table| - 1] == before + [v] + init;
      RollbackTakesOne(before, v, init);
      assert before + after == before + init + [after[|after| - 1]];
    }
  }

  /** After one successful run, rolling back a version and running again executes exactly that one. */
  lemma RollbackThenRun(db: Db, list: seq<Version>, v: Version, os: nat -> Outcome)
    requires NoDup(list) && v in list && forall w | w in list :: w in db.table
    requires RunFirst(Db(Unrecorded(db.table, v), []), list, |list|, os).ok
    ensures RunFirst(Db(Unrecorded(db.table, v), []), list, |list|, os).db
         == Db(Unrecorded(db.table, v) + [v], [v])
  {
    UnrecordedElements(db.table, v);
    SuccessRecordsAll(Db(Unrecorded(db.table, v), []), list, os);
    OnlyOneMissing(list, Unrecorded(db.table, v), v);
  }

  lemma {:induction false} UnrecordedElements(table: seq<Version>, v: Version)
    ensures forall w :: w in Unrecorded(table, v) <==> w in table && w != v
  {
    if table != [] {
      UnrecordedElements(table[..|table| - 1], v);
      assert table == table[..|table| - 1] + [table[|table| - 1]];
    }
  }

  lemma {:induction false} OnlyOneMissing(list: seq<Version>, table: seq<Version>, v: Version)
    requires NoDup(list) && v !in table && forall w | w in list :: w == v || w in table
    ensures Missing(list, table) == if v in list then [v] else []
  {
    if list != [] {
      var init, last := list[..|list| - 1], list[|list| - 1];
      assert list == init + [last];
      assert last !in init;
      OnlyOneMissing(init, table, v);
    }
  }
}

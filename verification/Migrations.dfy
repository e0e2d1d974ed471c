/**
 The migration runner: each run applies what is missing in order of version,
 one transaction a migration, and may be cut off between two commits. Every
 non-baseline migration commits once over all runs.
 */
module Migrations {
  import opened Basics

  const BASELINE := 1
  const LEGACY_HASH := "7cee6841e8192bedd6e33bcb1140e0ce1f239af3a260be166f9fbfa00f8cecd6"

  datatype Migration = Migration(version: int, name: string, hash: string)

  datatype Applied = Applied(name: string, hash: string)

  /** The control table. */
  type Table = map<int, Applied>

  datatype End = Done | Cut | Changed(version: int)

  /** What one run does: the table it leaves, the versions it committed, and how it ended. */
  datatype Outcome = Outcome(table: Table, commits: seq<int>, end: End)

  predicate Ascending(ms: seq<Migration>) {
    forall i, j :: 0 <= i < j < |ms| ==> ms[i].version < ms[j].version
  }

  /** The recorded migration is not the one in the code. */
  predicate HashClash(m: Migration, t: Table) {
    && m.version in t && t[m.version].hash != m.hash
    && (m.version == BASELINE ==> t[m.version].hash != LEGACY_HASH)
  }

  /** The run commits something for this migration: always for the baseline, once for the others. */
  predicate Commits(m: Migration, t: Table) {
    m.version == BASELINE || m.version !in t
  }

  function Recorded(m: Migration, t: Table): Table {
    t[m.version := Applied(m.name, m.hash)]
  }

  /** `Migrate` on the rest of the list, with `budget` commits before it is cut off. */
  function Migrate(ms: seq<Migration>, t: Table, budget: nat): Outcome {
    if ms == [] then Outcome(t, [], Done)
    else
      var m := ms[0];
      if HashClash(m, t) then Outcome(t, [], Changed(m.version))
      else if !Commits(m, t) then Migrate(ms[1..], t, budget)
      else if budget == 0 then Outcome(t, [], Cut)
      else
        var rest := Migrate(ms[1..], Recorded(m, t), budget - 1);
        rest.(commits := [m.version] + rest.commits)
  }

  /** The versions of the list that are not in the table, other than the baseline, in order. */
  function Missing(ms: seq<Migration>, t: Table): seq<int> {
    if ms == [] then []
    else if ms[0].version != BASELINE && ms[0].version !in t then [ms[0].version] + Missing(ms[1..], t)
    else Missing(ms[1..], t)
  }

  /** The commits that are not the baseline's. */
  function Real(commits: seq<int>): seq<int> {
    if commits == [] then []
    else if commits[0] == BASELINE then Real(commits[1..])
    else [commits[0]] + Real(commits[1..])
  }

  // ----- one run

  predicate Lacks(ms: seq<Migration>, v: int) {
    forall i :: 0 <= i < |ms| ==> ms[i].version != v
  }

  lemma {:induction false} MissingFrame(ms: seq<Migration>, t: Table, v: int, a: Applied)
    requires Lacks(ms, v)
    ensures Missing(ms, t[v := a]) == Missing(ms, t)
  {
    if ms != [] {
      MissingFrame(ms[1..], t, v, a);
    }
  }

  /** A run touches only the versions of its list, and of those already there only the baseline's. */
  lemma {:induction false} RunFrame(ms: seq<Migration>, t: Table, budget: nat, v: int)
    requires Ascending(ms)
    ensures var after := Migrate(ms, t, budget).table;
      && (v in t ==> v in after && (v != BASELINE || Lacks(ms, v) ==> after[v] == t[v]))
      && (v !in t && Lacks(ms, v) ==> v !in after)
  {
    if ms != [] {
      var m := ms[0];
      RunFrame(ms[1..], t, budget, v);
      if budget > 0 {
        RunFrame(ms[1..], Recorded(m, t), budget - 1, v);
      }
    }
  }

  lemma RestLacks(ms: seq<Migration>)
    requires Ascending(ms) && ms != []
    ensures Lacks(ms[1..], ms[0].version) && Ascending(ms[1..])
  {
  }

  lemma RecordedStays(m: Migration, rest: seq<Migration>, t: Table, budget: nat)
    requires Ascending(rest) && Lacks(rest, m.version)
    ensures var after := Migrate(rest, Recorded(m, t), budget).table;
      m.version in after && after[m.version] == Applied(m.name, m.hash)
  {
    RunFrame(rest, Recorded(m, t), budget, m.version);
  }

  /** What a run commits, and what is still missing after it, is what was missing before it. */
  lemma {:induction false} RunCommits(ms: seq<Migration>, t: Table, budget: nat)
    requires Ascending(ms)
    ensures var o := Migrate(ms, t, budget);
      && Real(o.commits) + Missing(ms, o.table) == Missing(ms, t)
      && (o.end == Done ==> Missing(ms, o.table) == [])
  {
    if ms != [] {
      var m, rest := ms[0], ms[1..];
      RestLacks(ms);
      if !HashClash(m, t) {
        if !Commits(m, t) {
          RunCommits(rest, t, budget);
          RunFrame(rest, t, budget, m.version);
        } else if budget > 0 {
          RunCommits(rest, Recorded(m, t), budget - 1);
          MissingFrame(rest, t, m.version, Applied(m.name, m.hash));
          RecordedStays(m, rest, t, budget - 1);
        }
      }
    }
  }

  /** More budget than migrations changes nothing. */
  lemma {:induction false} EnoughBudget(ms: seq<Migration>, t: Table, a: nat, b: nat)
    requires a >= |ms| && b >= |ms|
    ensures Migrate(ms, t, a) == Migrate(ms, t, b)
  {
    if ms != [] {
      EnoughBudget(ms[1..], t, a, b);
      EnoughBudget(ms[1..], Recorded(ms[0], t), a - 1, b - 1);
    }
  }

  lemma {:induction false} DoneIsFull(ms: seq<Migration>, t: Table, budget: nat)
    requires Migrate(ms, t, budget).end != Cut
    ensures Migrate(ms, t, budget) == Migrate(ms, t, |ms|)
  {
    if ms != [] {
      var m, rest := ms[0], ms[1..];
      if !HashClash(m, t) {
        if !Commits(m, t) {
          DoneIsFull(rest, t, budget);
          EnoughBudget(rest, t, |rest|, |ms|);
        } else {
          DoneIsFull(rest, Recorded(m, t), budget - 1);
        }
      }
    }
  }

  /** An uninterrupted run. */
  function Full(ms: seq<Migration>, t: Table): Outcome {
    Migrate(ms, t, |ms|)
  }

  /** The two outcomes leave the same table and the same answer. */
  predicate SameEnd(a: Outcome, b: Outcome) {
    a.table == b.table && a.end == b.end
  }

  /** Cutting a run off anywhere and running again ends as one uninterrupted run does. */
  lemma {:induction false} ResumeIsFull(ms: seq<Migration>, t: Table, budget: nat)
    requires Ascending(ms)
    ensures SameEnd(Full(ms, Migrate(ms, t, budget).table), Full(ms, t))
  {
    if ms != [] {
      var m, rest := ms[0], ms[1..];
      RestLacks(ms);
      if !HashClash(m, t) {
        if !Commits(m, t) {
          ResumeIsFull(rest, t, budget);
          RunFrame(rest, t, budget, m.version);
          var after := Migrate(rest, t, budget).table;
          EnoughBudget(rest, t, |rest|, |ms|);
          EnoughBudget(rest, after, |rest|, |ms|);
        } else if budget > 0 {
          var after := Migrate(rest, Recorded(m, t), budget - 1).table;
          ResumeIsFull(rest, Recorded(m, t), budget - 1);
          RecordedStays(m, rest, t, budget - 1);
          assert Recorded(m, after) == after;
          EnoughBudget(rest, after, |rest|, |ms|);
        }
      }
    }
  }

  /** What a finished run leaves recorded of one migration. */
  predicate RecordedAs(m: Migration, t: Table) {
    m.version in t && t[m.version].hash == m.hash
  }

  /** When a run is done every migration of the list is recorded with the hash it has in the list. */
  lemma {:induction false} DoneRecordsAll(ms: seq<Migration>, t: Table, budget: nat, i: nat)
    requires Ascending(ms) && i < |ms| && Migrate(ms, t, budget).end == Done
    ensures RecordedAs(ms[i], Migrate(ms, t, budget).table)
  {
    var m, rest := ms[0], ms[1..];
    RestLacks(ms);
    if i == 0 {
      RunFrame(rest, t, budget, m.version);
      if Commits(m, t) {
        RecordedStays(m, rest, t, budget - 1);
      }
    } else if Commits(m, t) {
      DoneRecordsAll(rest, Recorded(m, t), budget - 1, i - 1);
    } else {
      DoneRecordsAll(rest, t, budget, i - 1);
    }
  }

  /** The migration was edited after it was recorded: its hash is another, and it is not the baseline's old one. */
  predicate Edited(m: Migration, t: Table) {
    && m.version in t && t[m.version].hash != m.hash
    && !(m.version == 1 && t[m.version].hash == "7cee6841e8192bedd6e33bcb1140e0ce1f239af3a260be166f9fbfa00f8cecd6")
  }

  lemma EditedFrame(m: Migration, first: Migration, t: Table)
    requires first.version != m.version
    ensures Edited(m, Recorded(first, t)) == Edited(m, t)
  {
  }

  /**
   An uninterrupted run refuses exactly when some migration of the list was
   edited: it names the first such, and is done otherwise.
   */
  lemma {:induction false} RefusesIffEdited(ms: seq<Migration>, t: Table)
    requires Ascending(ms)
    ensures match Full(ms, t).end
      case Done => forall i :: 0 <= i < |ms| ==> !Edited(ms[i], t)
      case Changed(v) => exists i :: 0 <= i < |ms| && ms[i].version == v && Edited(ms[i], t)
                                     && forall j :: 0 <= j < i ==> !Edited(ms[j], t)
      case Cut => false
  {
    if ms != [] {
      var m, rest := ms[0], ms[1..];
      RestLacks(ms);
      if !Edited(m, t) {
        var next := if Commits(m, t) then Recorded(m, t) else t;
        EnoughBudget(rest, next, |rest|, |ms|);
        RefusesIffEdited(rest, next);
        assert Full(ms, t).end == Full(rest, next).end;
        forall i | 0 <= i < |rest| ensures Edited(rest[i], next) == Edited(ms[i + 1], t) {
          EditedFrame(rest[i], m, t);
        }
        if Full(ms, t).end.Changed? {
          var i :| 0 <= i < |rest| && rest[i].version == Full(rest, next).end.version && Edited(rest[i], next)
                   && forall j :: 0 <= j < i ==> !Edited(rest[j], next);
          assert ms[i + 1].version == Full(ms, t).end.version && Edited(ms[i + 1], t);
          assert forall j :: 1 <= j < i + 1 ==> ms[j] == rest[j - 1];
        }
      }
    }
  }

  // ----- many runs

  /** The table and the commits after runs with the given budgets, one after the other. */
  function Runs(ms: seq<Migration>, t: Table, budgets: seq<nat>): Outcome {
    if budgets == [] then Outcome(t, [], Cut)
    else
      var n := |budgets| - 1;
      var before := Runs(ms, t, budgets[..n]);
      var last := Migrate(ms, before.table, budgets[n]);
      Outcome(last.table, before.commits + last.commits, last.end)
  }

  lemma {:induction false} RealAppend(a: seq<int>, b: seq<int>)
    ensures Real(a + b) == Real(a) + Real(b)
  {
    if a == [] {
      assert a + b == b;
    } else {
      RealAppend(a[1..], b);
      assert (a + b)[1..] == a[1..] + b;
    }
  }

  lemma OneMoreRun(ms: seq<Migration>, before: Outcome, budget: nat, all: seq<int>)
    requires Ascending(ms) && Real(before.commits) + Missing(ms, before.table) == all
    ensures var last := Migrate(ms, before.table, budget);
      && Real(before.commits + last.commits) + Missing(ms, last.table) == all
      && (last.end == Done ==> Real(before.commits + last.commits) == all)
  {
    var last := Migrate(ms, before.table, budget);
    RunCommits(ms, before.table, budget);
    RealAppend(before.commits, last.commits);
    Regroup(Real(before.commits), Real(last.commits), Missing(ms, last.table));
  }

  lemma Regroup(a: seq<int>, b: seq<int>, c: seq<int>)
    ensures (a + b) + c == a + (b + c)
    ensures c == [] ==> a + (b + c) == a + b
  {
  }

  /**
   Over any number of runs, each cut off anywhere, the commits are the missing
   versions from the first on, in order; once a run is done, all of them.
   */
  lemma {:induction false} RunsCommit(ms: seq<Migration>, t: Table, budgets: seq<nat>)
    requires Ascending(ms)
    ensures var o := Runs(ms, t, budgets);
      && Real(o.commits) + Missing(ms, o.table) == Missing(ms, t)
      && (o.end == Done ==> Real(o.commits) == Missing(ms, t))
  {
    if budgets == [] {
      assert Real([]) + Missing(ms, t) == Missing(ms, t);
    } else {
      var n := |budgets| - 1;
      var before := Runs(ms, t, budgets[..n]);
      RunsCommit(ms, t, budgets[..n]);
      OneMoreRun(ms, before, budgets[n], Missing(ms, t));
    }
  }

  predicate AscendingVersions(vs: seq<int>) {
    forall i, j :: 0 <= i < j < |vs| ==> vs[i] < vs[j]
  }

  lemma {:induction false} MissingAscends(ms: seq<Migration>, t: Table)
    requires Ascending(ms)
    ensures AscendingVersions(Missing(ms, t)) && BASELINE !in Missing(ms, t)
    ensures forall v :: v in Missing(ms, t) ==> v !in t && exists i :: 0 <= i < |ms| && ms[i].version == v
  {
    if ms != [] {
      MissingAscends(ms[1..], t);
      forall v | v in Missing(ms[1..], t) ensures v > ms[0].version && exists i :: 0 <= i < |ms| && ms[i].version == v {
        var i :| 0 <= i < |ms[1..]| && ms[1..][i].version == v;
        assert ms[i + 1].version == v;
      }
      var rest := Missing(ms[1..], t);
      assert forall i :: 0 <= i < |rest| ==> rest[i] in rest;
    }
  }

  /** No migration but the baseline commits twice, and none that was already there commits at all. */
  lemma CommitsOnce(ms: seq<Migration>, t: Table, budgets: seq<nat>)
    requires Ascending(ms)
    ensures AscendingVersions(Real(Runs(ms, t, budgets).commits))
    ensures forall v :: v in Real(Runs(ms, t, budgets).commits) ==> v !in t
  {
    var o := Runs(ms, t, budgets);
    RunsCommit(ms, t, budgets);
    MissingAscends(ms, t);
    var all := Missing(ms, t);
    assert forall i :: 0 <= i < |Real(o.commits)| ==> Real(o.commits)[i] == all[i];
  }

  /** What is recorded stays as it is, whatever runs follow, except the baseline's row. */
  lemma {:induction false} RecordsStay(ms: seq<Migration>, t: Table, budgets: seq<nat>, v: int)
    requires Ascending(ms) && v in t
    ensures v in Runs(ms, t, budgets).table
    ensures v != BASELINE ==> Runs(ms, t, budgets).table[v] == t[v]
  {
    if budgets != [] {
      var n := |budgets| - 1;
      RecordsStay(ms, t, budgets[..n], v);
      RunFrame(ms, Runs(ms, t, budgets[..n]).table, budgets[n], v);
    }
  }

  /** The first run that is not cut off ends as one uninterrupted run from the start would. */
  lemma {:induction false} RunsAreOneRun(ms: seq<Migration>, t: Table, budgets: seq<nat>)
    requires Ascending(ms)
    ensures var o := Runs(ms, t, budgets);
      && SameEnd(Full(ms, o.table), Full(ms, t))
      && (o.end != Cut ==> SameEnd(o, Full(ms, t)))
  {
    if budgets != [] {
      var n := |budgets| - 1;
      var before := Runs(ms, t, budgets[..n]);
      RunsAreOneRun(ms, t, budgets[..n]);
      ResumeIsFull(ms, before.table, budgets[n]);
      if Migrate(ms, before.table, budgets[n]).end != Cut {
        DoneIsFull(ms, before.table, budgets[n]);
      }
    }
  }

  // ----- the runner

  /** Insertion in order of version; a version that is already there is refused. */
  method Insert(sorted: seq<Migration>, m: Migration) returns (r: Option<seq<Migration>>)
    requires Ascending(sorted)
    ensures r.Some? ==> Ascending(r.value) && multiset(r.value) == multiset(sorted) + multiset{m}
    ensures r.None? ==> exists k :: 0 <= k < |sorted| && sorted[k].version == m.version
  {
    var k := 0;
    while k < |sorted| && sorted[k].version < m.version
      invariant k <= |sorted|
      invariant forall j :: 0 <= j < k ==> sorted[j].version < m.version
    {
      k := k + 1;
    }
    if k < |sorted| && sorted[k].version == m.version {
      return None;
    }
    assert sorted == sorted[..k] + sorted[k..];
    return Some(sorted[..k] + [m] + sorted[k..]);
  }

  /** The order and duplicate check of `migracoesEmbutidas`: sorted by version, refused on a repeated one. */
  method Order(list: seq<Migration>) returns (r: Option<seq<Migration>>)
    ensures r.Some? ==> Ascending(r.value) && multiset(r.value) == multiset(list)
    ensures r.None? ==> exists i, j :: 0 <= i < j < |list| && list[i].version == list[j].version
  {
    var sorted: seq<Migration> := [];
    for i := 0 to |list|
      invariant Ascending(sorted) && multiset(sorted) == multiset(list[..i])
    {
      assert list[..i + 1] == list[..i] + [list[i]];
      var more := Insert(sorted, list[i]);
      if more.None? {
        var k :| 0 <= k < |sorted| && sorted[k].version == list[i].version;
        assert sorted[k] in multiset(sorted);
        var j :| 0 <= j < i && list[j] == sorted[k];
        return None;
      }
      sorted := more.value;
    }
    assert list[..|list|] == list;
    return Some(sorted);
  }

  class Database {
    var table: Table
    /** How many commits are left before the run is cut off. */
    var budget: nat

    constructor (table: Table, budget: nat)
      ensures this.table == table && this.budget == budget
    {
      this.table, this.budget := table, budget;
    }

    /** One transaction: the migration and its record, or nothing. */
    method Commit(m: Migration) returns (ok: bool)
      modifies this
      ensures ok == (old(budget) > 0)
      ensures table == if ok then Recorded(m, old(table)) else old(table)
      ensures budget == if ok then old(budget) - 1 else 0
      ensures ok ==> m.version in table && table[m.version] == Applied(m.name, m.hash)
      ensures ok ==> !HashClash(m, table) && (m.version == BASELINE || !Commits(m, table))
      ensures forall v :: v != m.version ==>
        (v in table <==> v in old(table)) && (v in table ==> table[v] == old(table)[v])
    {
      if budget == 0 {
        return false;
      }
      budget := budget - 1;
      table := table[m.version := Applied(m.name, m.hash)];
      return true;
    }

    /** `Migrate`: one pass over the list, against the records read at the start. */
    method Upgrade(list: seq<Migration>) returns (end: End, commits: seq<int>)
      requires Ascending(list)
      modifies this
      ensures Outcome(table, commits, end) == Migrate(list, old(table), old(budget))
    {
      commits := [];
      var applied := table;
      ghost var all := Migrate(list, table, budget);
      for i := 0 to |list|
        invariant all == Continued(commits, Migrate(list[i..], table, budget))
        invariant forall j :: i <= j < |list| ==>
          (list[j].version in applied <==> list[j].version in table)
          && (list[j].version in applied ==> applied[list[j].version] == table[list[j].version])
      {
        var m := list[i];
        assert list[i..][1..] == list[i + 1..];
        ContinuedMore(commits, m.version, Migrate(list[i + 1..], Recorded(m, table), if budget > 0 then budget - 1 else 0));
        var exists_ := m.version in applied;
        if m.version == BASELINE {
          if exists_ && applied[m.version].hash != m.hash && applied[m.version].hash != LEGACY_HASH {
            return Changed(m.version), commits;
          }
          var ok := Commit(m);
          if !ok {
            return Cut, commits;
          }
          commits := commits + [m.version];
          continue;
        }
        if exists_ {
          if applied[m.version].hash != m.hash {
            return Changed(m.version), commits;
          }
          continue;
        }
        var ok := Commit(m);
        if !ok {
          return Cut, commits;
        }
        commits := commits + [m.version];
      }
      return Done, commits;
    }
  }

  /** The outcome of a run that had already made some commits. */
  function Continued(commits: seq<int>, rest: Outcome): Outcome {
    rest.(commits := commits + rest.commits)
  }

  lemma ContinuedMore(commits: seq<int>, v: int, rest: Outcome)
    ensures Continued(commits, rest.(commits := [v] + rest.commits)) == Continued(commits + [v], rest)
    ensures commits + [] == commits
  {
  }
}

/**
 The reconciliation of the interfaces a device reports with the rows stored
 for it: each reported interface is matched, greedily and in order, with at
 most one stored row, by name or by index, or becomes a new row.
 */
module InterfaceMatching {
  import opened Basics

  datatype Row = Row(id: nat, index: int, name: string)

  datatype Reported = Reported(index: int, name: string)

  // ----- the look-ups, over rows in order of id

  /** The row of a name; of several, the last. */
  function ByName(rows: seq<Row>, name: string): (r: Option<nat>)
    ensures r.Some? ==> exists k :: 0 <= k < |rows| && rows[k].id == r.value && rows[k].name == name != ""
    ensures r.None? ==> forall k :: 0 <= k < |rows| && rows[k].name != "" ==> rows[k].name != name
  {
    if rows == [] then None
    else
      var row := rows[|rows| - 1];
      if row.name != "" && row.name == name then Some(row.id) else ByName(rows[..|rows| - 1], name)
  }

  /** The first row of an index, among the unnamed ones or among all. */
  function ByIndex(rows: seq<Row>, index: int, unnamedOnly: bool): (r: Option<nat>)
    ensures r.Some? ==> exists k :: 0 <= k < |rows| && rows[k].id == r.value && HasIndex(rows[k], index, unnamedOnly)
                                    && forall l :: 0 <= l < k ==> !HasIndex(rows[l], index, unnamedOnly)
    ensures r.None? ==> forall k :: 0 <= k < |rows| ==> !HasIndex(rows[k], index, unnamedOnly)
  {
    if rows == [] then None
    else
      var row, before := rows[|rows| - 1], ByIndex(rows[..|rows| - 1], index, unnamedOnly);
      if before.None? && HasIndex(row, index, unnamedOnly) then Some(row.id) else before
  }

  predicate HasIndex(row: Row, index: int, unnamedOnly: bool) {
    row.index == index && (unnamedOnly ==> row.name == "")
  }

  // ----- one interface

  predicate Free(id: Option<nat>, used: set<nat>) {
    id.Some? && id.value !in used
  }

  /** `casar` */
  function Match(rows: seq<Row>, used: set<nat>, r: Reported): Option<nat> {
    var named, unnamed, any := ByName(rows, r.name), ByIndex(rows, r.index, true), ByIndex(rows, r.index, false);
    if r.name != "" && Free(named, used) then named
    else if Free(unnamed, used) then unnamed
    else if r.name == "" && Free(any, used) then any
    else None
  }

  /** How far the reconciliation has come: by position in the report, who was matched and who is new. */
  datatype Progress = Progress(used: set<nat>, names: set<string>, indexes: set<int>,
                               matched: map<nat, nat>, created: seq<nat>)

  const START := Progress({}, {}, {}, map[], [])

  /** A repeated name, a repeated index without a name, and an interface with neither are skipped. */
  predicate Skips(p: Progress, r: Reported) {
    if r.name != "" then r.name in p.names else r.index <= 0 || r.index in p.indexes
  }

  function Step(rows: seq<Row>, p: Progress, r: Reported, i: nat): Progress {
    if Skips(p, r) then p
    else
      var q := if r.name != "" then p.(names := p.names + {r.name}) else p.(indexes := p.indexes + {r.index});
      var id := Match(rows, p.used, r);
      if id.Some? then q.(used := p.used + {id.value}, matched := p.matched[i := id.value])
      else q.(created := p.created + [i])
  }

  function After(rows: seq<Row>, report: seq<Reported>, n: nat): Progress
    requires n <= |report|
  {
    if n == 0 then START else Step(rows, After(rows, report, n - 1), report[n - 1], n - 1)
  }

  /** Row `k` is unnamed, of the index, and no earlier row is. */
  predicate FirstUnnamed(rows: seq<Row>, k: nat, index: int) {
    && k < |rows| && rows[k].index == index && rows[k].name == ""
    && forall l :: 0 <= l < k ==> rows[l].index != index || rows[l].name != ""
  }

  /** Row `k` is of the index, and no earlier row is. */
  predicate FirstOfIndex(rows: seq<Row>, k: nat, index: int) {
    k < |rows| && rows[k].index == index && forall l :: 0 <= l < k ==> rows[l].index != index
  }

  lemma SameName(rows: seq<Row>, k: nat, l: nat)
    requires RowsOk(rows) && k < |rows| && l < |rows| && rows[k].name == rows[l].name != ""
    ensures k == l
  {
  }

  /** An interface takes the row of its own name, if nobody has. */
  lemma TakesOwnName(rows: seq<Row>, used: set<nat>, r: Reported, k: nat)
    requires RowsOk(rows) && k < |rows| && r.name != "" && rows[k].name == r.name && rows[k].id !in used
    ensures Match(rows, used, r) == Some(rows[k].id)
  {
    var l: nat :| l < |rows| && rows[l].id == ByName(rows, r.name).value && rows[l].name == r.name;
    SameName(rows, k, l);
  }

  lemma FirstIsOne(rows: seq<Row>, index: int, unnamedOnly: bool, k: nat, l: nat)
    requires k < |rows| && HasIndex(rows[k], index, unnamedOnly) && forall m :: 0 <= m < k ==> !HasIndex(rows[m], index, unnamedOnly)
    requires l < |rows| && HasIndex(rows[l], index, unnamedOnly) && forall m :: 0 <= m < l ==> !HasIndex(rows[m], index, unnamedOnly)
    ensures k == l
  {
  }

  /** If it cannot, it takes the first unnamed row of its index, if nobody has. */
  lemma TakesUnnamed(rows: seq<Row>, used: set<nat>, r: Reported, k: nat)
    requires FirstUnnamed(rows, k, r.index) && rows[k].id !in used
    requires forall l :: 0 <= l < |rows| && r.name != "" && rows[l].name == r.name ==> rows[l].id in used
    ensures Match(rows, used, r) == Some(rows[k].id)
  {
    assert HasIndex(rows[k], r.index, true);
    var l: nat :| l < |rows| && rows[l].id == ByIndex(rows, r.index, true).value && HasIndex(rows[l], r.index, true)
                  && forall m :: 0 <= m < l ==> !HasIndex(rows[m], r.index, true);
    FirstIsOne(rows, r.index, true, k, l);
  }

  /** An interface without a name takes the first row of its index, if there is no unnamed one left and nobody has. */
  lemma TakesAny(rows: seq<Row>, used: set<nat>, r: Reported, k: nat)
    requires r.name == "" && FirstOfIndex(rows, k, r.index) && rows[k].id !in used
    requires forall l: nat :: FirstUnnamed(rows, l, r.index) ==> rows[l].id in used
    ensures Match(rows, used, r) == Some(rows[k].id)
  {
    var any := ByIndex(rows, r.index, false);
    var l: nat :| l < |rows| && rows[l].id == any.value && HasIndex(rows[l], r.index, false)
                  && forall m :: 0 <= m < l ==> !HasIndex(rows[m], r.index, false);
    assert HasIndex(rows[k], r.index, false);
    assert l == k;
    if ByIndex(rows, r.index, true).Some? {
      var u: nat :| u < |rows| && rows[u].id == ByIndex(rows, r.index, true).value && HasIndex(rows[u], r.index, true)
                    && forall m :: 0 <= m < u ==> !HasIndex(rows[m], r.index, true);
      assert forall m :: 0 <= m < u ==> !HasIndex(rows[m], r.index, true);
      assert FirstUnnamed(rows, u, r.index);
    }
  }

  /** An interface for which none of these rows is free becomes a new one. */
  lemma TakesNone(rows: seq<Row>, used: set<nat>, r: Reported)
    requires forall l :: 0 <= l < |rows| && r.name != "" && rows[l].name == r.name ==> rows[l].id in used
    requires forall l :: 0 <= l < |rows| && rows[l].index == r.index && (r.name != "" ==> rows[l].name == "") ==> rows[l].id in used
    ensures Match(rows, used, r) == None
  {
  }

  // ----- what holds after any part of the report

  /** The first interface of its name, or the first without a name of its valid index. */
  predicate Accepted(report: seq<Reported>, i: nat)
    requires i < |report|
  {
    if report[i].name != "" then forall j :: 0 <= j < i ==> report[j].name != report[i].name
    else report[i].index > 0
         && forall j :: 0 <= j < i ==> report[j].name != "" || report[j].index != report[i].index
  }

  ghost predicate SeenSoFar(report: seq<Reported>, n: nat, p: Progress)
    requires n <= |report|
  {
    && (forall s :: s in p.names <==> s != "" && exists j :: 0 <= j < n && report[j].name == s)
    && (forall x :: x in p.indexes <==> x > 0 && exists j :: 0 <= j < n && report[j].name == "" && report[j].index == x)
  }

  /** Matched interfaces are accepted ones, and no row is matched twice. */
  ghost predicate MatchesOk(report: seq<Reported>, n: nat, p: Progress)
    requires n <= |report|
  {
    && (forall i :: i in p.matched ==> i < n && Accepted(report, i) && p.matched[i] in p.used)
    && (forall id :: id in p.used ==> exists i :: i in p.matched && p.matched[i] == id)
    && (forall i, j :: i in p.matched && j in p.matched && i != j ==> p.matched[i] != p.matched[j])
  }

  /** New interfaces are accepted ones that were not matched, in the order of the report. */
  predicate CreationsOk(report: seq<Reported>, n: nat, p: Progress)
    requires n <= |report|
  {
    && (forall k :: 0 <= k < |p.created| ==>
          p.created[k] < n && Accepted(report, p.created[k]) && p.created[k] !in p.matched)
    && (forall k, l :: 0 <= k < l < |p.created| ==> p.created[k] < p.created[l])
  }

  predicate AllPlaced(report: seq<Reported>, n: nat, p: Progress)
    requires n <= |report|
  {
    forall i: nat :: i < n && Accepted(report, i) ==> i in p.matched || i in p.created
  }

  /** Every accepted interface is matched or new, never both, and no row is matched twice. */
  ghost predicate Sorted(report: seq<Reported>, n: nat, p: Progress)
    requires n <= |report|
  {
    MatchesOk(report, n, p) && CreationsOk(report, n, p) && AllPlaced(report, n, p)
  }

  lemma SkipsIffNotAccepted(report: seq<Reported>, n: nat, p: Progress)
    requires n < |report| && SeenSoFar(report, n, p)
    ensures Skips(p, report[n]) <==> !Accepted(report, n)
  {
  }

  lemma StepSees(rows: seq<Row>, report: seq<Reported>, n: nat, p: Progress)
    requires n < |report| && SeenSoFar(report, n, p)
    ensures SeenSoFar(report, n + 1, Step(rows, p, report[n], n))
  {
  }

  lemma SkipSorts(report: seq<Reported>, n: nat, p: Progress)
    requires n < |report| && Sorted(report, n, p) && !Accepted(report, n)
    ensures Sorted(report, n + 1, p)
  {
  }

  lemma MatchKeepsMatches(report: seq<Reported>, n: nat, p: Progress, q: Progress, id: nat)
    requires n < |report| && MatchesOk(report, n, p) && Accepted(report, n) && id !in p.used
    requires q.used == p.used + {id} && q.matched == p.matched[n := id]
    ensures MatchesOk(report, n + 1, q)
  {
    forall x | x in q.used ensures exists i :: i in q.matched && q.matched[i] == x {
      if x in p.used {
        var i :| i in p.matched && p.matched[i] == x;
        assert q.matched[i] == x;
      } else {
        assert q.matched[n] == x;
      }
    }
  }

  lemma MatchSorts(report: seq<Reported>, n: nat, p: Progress, q: Progress, id: nat)
    requires n < |report| && Sorted(report, n, p) && Accepted(report, n) && id !in p.used
    requires q.used == p.used + {id} && q.matched == p.matched[n := id] && q.created == p.created
    ensures Sorted(report, n + 1, q)
  {
    MatchKeepsMatches(report, n, p, q, id);
  }

  lemma CreateSorts(report: seq<Reported>, n: nat, p: Progress, q: Progress)
    requires n < |report| && Sorted(report, n, p) && Accepted(report, n)
    requires q.used == p.used && q.matched == p.matched && q.created == p.created + [n]
    ensures Sorted(report, n + 1, q)
  {
  }

  lemma StepSorts(rows: seq<Row>, report: seq<Reported>, n: nat, p: Progress)
    requires n < |report| && SeenSoFar(report, n, p) && Sorted(report, n, p)
    ensures Sorted(report, n + 1, Step(rows, p, report[n], n))
  {
    SkipsIffNotAccepted(report, n, p);
    var q, id := Step(rows, p, report[n], n), Match(rows, p.used, report[n]);
    if Skips(p, report[n]) {
      SkipSorts(report, n, p);
    } else if id.Some? {
      MatchSorts(report, n, p, q, id.value);
    } else {
      CreateSorts(report, n, p, q);
    }
  }

  // ----- names

  predicate RowsOk(rows: seq<Row>) {
    && (forall k, l :: 0 <= k < l < |rows| ==> rows[k].id != rows[l].id)
    && (forall k, l :: 0 <= k < l < |rows| && rows[k].name != "" ==> rows[k].name != rows[l].name)
  }

  /** Interface `i` was matched with row `k`. */
  predicate Took(rows: seq<Row>, p: Progress, i: nat, k: nat)
    requires k < |rows|
  {
    i in p.matched && p.matched[i] == rows[k].id
  }

  /** An interface only takes a row that is unnamed, or of its own name, or that it leaves its name. */
  ghost predicate Gentle(rows: seq<Row>, report: seq<Reported>, n: nat, p: Progress)
    requires n <= |report|
  {
    && (forall i :: i in p.matched ==> i < n && exists k: nat :: k < |rows| && Took(rows, p, i, k))
    && (forall i: nat, k: nat :: i < n && k < |rows| && Took(rows, p, i, k) && rows[k].name != "" && report[i].name != ""
          ==> report[i].name == rows[k].name)
  }

  lemma SameRow(rows: seq<Row>, k: nat, l: nat)
    requires RowsOk(rows) && k < |rows| && l < |rows| && rows[k].id == rows[l].id
    ensures k == l
  {
  }

  lemma StepGentle(rows: seq<Row>, report: seq<Reported>, n: nat, p: Progress)
    requires RowsOk(rows) && n < |report| && Gentle(rows, report, n, p) && Sorted(report, n, p)
    ensures Gentle(rows, report, n + 1, Step(rows, p, report[n], n))
  {
    var q, r := Step(rows, p, report[n], n), report[n];
    forall i | i in q.matched ensures i < n + 1 && exists k: nat :: k < |rows| && Took(rows, q, i, k) {
      if i in p.matched {
        var k: nat :| k < |rows| && Took(rows, p, i, k);
        assert Took(rows, q, i, k);
      } else {
        var k: nat :| k < |rows| && rows[k].id == q.matched[i];
        assert Took(rows, q, i, k);
      }
    }
    forall i: nat, k: nat | i < n + 1 && k < |rows| && Took(rows, q, i, k) && rows[k].name != "" && report[i].name != ""
      ensures report[i].name == rows[k].name
    {
      if i == n {
        var l: nat :| l < |rows| && rows[l].id == q.matched[n] && (rows[l].name == "" || rows[l].name == r.name);
        SameRow(rows, k, l);
      } else {
        assert Took(rows, p, i, k);
      }
    }
  }

  ghost predicate Good(rows: seq<Row>, report: seq<Reported>, n: nat, p: Progress)
    requires n <= |report|
  {
    SeenSoFar(report, n, p) && Sorted(report, n, p) && Gentle(rows, report, n, p)
  }

  lemma StepGood(rows: seq<Row>, report: seq<Reported>, n: nat, p: Progress, q: Progress)
    requires RowsOk(rows) && n < |report| && Good(rows, report, n, p) && q == Step(rows, p, report[n], n)
    ensures Good(rows, report, n + 1, q)
  {
    StepSees(rows, report, n, p);
    StepSorts(rows, report, n, p);
    StepGentle(rows, report, n, p);
  }

  lemma StartGood(rows: seq<Row>, report: seq<Reported>)
    ensures Good(rows, report, 0, START)
  {
  }

  lemma {:induction false} AfterGood(rows: seq<Row>, report: seq<Reported>, n: nat)
    requires RowsOk(rows) && n <= |report|
    ensures Good(rows, report, n, After(rows, report, n))
  {
    if n > 0 {
      AfterGood(rows, report, n - 1);
      StepGood(rows, report, n - 1, After(rows, report, n - 1), After(rows, report, n));
    } else {
      StartGood(rows, report);
    }
  }

  // ----- the names after the report

  /** A row was taken by an unnamed interface before the interface that bears its name came up. */
  predicate Stolen(rows: seq<Row>, report: seq<Reported>, p: Progress, i: nat, j: nat, k: nat)
    requires |report| > i && |report| > j && k < |rows|
  {
    && j < i && Accepted(report, i) && report[i].name == rows[k].name != ""
    && report[j].name == "" && Took(rows, p, j, k)
  }

  ghost predicate SomeStolen(rows: seq<Row>, report: seq<Reported>, n: nat, p: Progress)
    requires n <= |report|
  {
    exists i: nat, j: nat, k: nat :: i < n && j < n && k < |rows| && Stolen(rows, report, p, i, j, k)
  }

  /** Row `k` is called `name` once the matches are written. */
  ghost predicate RowNamed(rows: seq<Row>, report: seq<Reported>, n: nat, p: Progress, k: nat, name: string)
    requires n <= |report| && k < |rows|
  {
    || (exists i: nat :: i < n && Took(rows, p, i, k) && report[i].name == name != "")
    || (rows[k].name == name && forall i: nat :: i < n && Took(rows, p, i, k) ==> report[i].name == "")
  }

  /** A stored non-empty name never changes. */
  lemma NamesStay(rows: seq<Row>, report: seq<Reported>, k: nat, name: string)
    requires RowsOk(rows) && k < |rows| && rows[k].name != ""
    ensures RowNamed(rows, report, |report|, After(rows, report, |report|), k, name) <==> name == rows[k].name
  {
    var p := After(rows, report, |report|);
    AfterGood(rows, report, |report|);
    if name == rows[k].name && !(forall i: nat :: i < |report| && Took(rows, p, i, k) ==> report[i].name == "") {
      var i: nat :| i < |report| && Took(rows, p, i, k) && report[i].name != "";
    }
  }

  // ----- who bears the name of an accepted interface

  /** An accepted interface whose name is stored took that row, or found it stolen. */
  ghost predicate Owned(rows: seq<Row>, report: seq<Reported>, n: nat, p: Progress)
    requires n <= |report|
  {
    forall i: nat, k: nat :: i < n && k < |rows| && Accepted(report, i) && report[i].name == rows[k].name != ""
      ==> Took(rows, p, i, k) || exists j: nat :: j < i && Stolen(rows, report, p, i, j, k)
  }

  /** The interface that just came up took the row of its name, or an unnamed one has it. */
  lemma NewOwner(rows: seq<Row>, report: seq<Reported>, n: nat, p: Progress, q: Progress, k: nat)
    requires RowsOk(rows) && n < |report| && Good(rows, report, n, p) && q == Step(rows, p, report[n], n)
    requires k < |rows| && Accepted(report, n) && report[n].name == rows[k].name != ""
    ensures Took(rows, q, n, k) || exists j: nat :: j < n && Stolen(rows, report, q, n, j, k)
  {
    SkipsIffNotAccepted(report, n, p);
    var id := ByName(rows, report[n].name);
    var l: nat :| l < |rows| && rows[l].id == id.value && rows[l].name == report[n].name;
    assert k == l;
    if id.value in p.used {
      var j :| j in p.matched && p.matched[j] == id.value;
      assert Took(rows, p, j, k);
      assert Stolen(rows, report, q, n, j, k);
    }
  }

  lemma StepOwned(rows: seq<Row>, report: seq<Reported>, n: nat, p: Progress, q: Progress)
    requires RowsOk(rows) && n < |report| && Good(rows, report, n, p) && q == Step(rows, p, report[n], n)
    requires Owned(rows, report, n, p)
    ensures Owned(rows, report, n + 1, q)
  {
    forall i: nat, k: nat | i < n + 1 && k < |rows| && Accepted(report, i) && report[i].name == rows[k].name != ""
      ensures Took(rows, q, i, k) || exists j: nat :: j < i && Stolen(rows, report, q, i, j, k)
    {
      if i == n {
        NewOwner(rows, report, n, p, q, k);
      } else if Took(rows, p, i, k) {
        assert Took(rows, q, i, k);
      } else {
        var j: nat :| j < i && Stolen(rows, report, p, i, j, k);
        assert Stolen(rows, report, q, i, j, k);
      }
    }
  }

  lemma OwnedNext(rows: seq<Row>, report: seq<Reported>, n: nat)
    requires RowsOk(rows) && n < |report| && Owned(rows, report, n, After(rows, report, n))
    ensures Owned(rows, report, n + 1, After(rows, report, n + 1))
  {
    AfterGood(rows, report, n);
    StepOwned(rows, report, n, After(rows, report, n), After(rows, report, n + 1));
  }

  lemma {:induction false} AfterOwned(rows: seq<Row>, report: seq<Reported>, n: nat)
    requires RowsOk(rows) && n <= |report|
    ensures Owned(rows, report, n, After(rows, report, n))
  {
    if n > 0 {
      AfterOwned(rows, report, n - 1);
      OwnedNext(rows, report, n - 1);
    }
  }

  /** A row after the report: a stored one, or the new one of an interface. */
  datatype Holder = Stored(k: nat) | New(i: nat)

  ghost predicate Bears(rows: seq<Row>, report: seq<Reported>, p: Progress, h: Holder, name: string) {
    match h
    case Stored(k) => k < |rows| && RowNamed(rows, report, |report|, p, k, name)
    case New(i) => i in p.created && i < |report| && report[i].name == name
  }

  ghost predicate NamesDistinct(rows: seq<Row>, report: seq<Reported>, p: Progress) {
    forall g, h, name :: name != "" && Bears(rows, report, p, g, name) && Bears(rows, report, p, h, name) ==> g == h
  }

  /** Interface `i` brings the name, to the row it took or to a new one. */
  ghost predicate Brings(rows: seq<Row>, report: seq<Reported>, p: Progress, h: Holder, i: nat) {
    match h
    case Stored(k) => k < |rows| && Took(rows, p, i, k)
    case New(j) => i == j && i in p.created
  }

  /** The row had the name all along. */
  predicate Had(rows: seq<Row>, h: Holder, name: string) {
    h.Stored? && h.k < |rows| && rows[h.k].name == name
  }

  lemma BearerKinds(rows: seq<Row>, report: seq<Reported>, p: Progress, h: Holder, name: string)
    requires name != "" && Bears(rows, report, p, h, name)
    ensures Had(rows, h, name) || exists i: nat :: i < |report| && report[i].name == name && Brings(rows, report, p, h, i)
  {
  }

  lemma OneBearer(rows: seq<Row>, report: seq<Reported>, p: Progress, g: Holder, h: Holder, name: string)
    requires RowsOk(rows) && Good(rows, report, |report|, p) && Owned(rows, report, |report|, p)
    requires !SomeStolen(rows, report, |report|, p)
    requires name != "" && Bears(rows, report, p, g, name) && Bears(rows, report, p, h, name)
    requires Had(rows, g, name)
    ensures g == h
  {
    BearerKinds(rows, report, p, h, name);
  }

  lemma TwoBringers(rows: seq<Row>, report: seq<Reported>, p: Progress, g: Holder, h: Holder, i: nat, j: nat)
    requires RowsOk(rows) && Good(rows, report, |report|, p) && i < |report| && j < |report|
    requires report[i].name == report[j].name != ""
    requires Brings(rows, report, p, g, i) && Brings(rows, report, p, h, j)
    ensures g == h
  {
    assert Accepted(report, i) && Accepted(report, j);
    assert i == j;
  }

  lemma UnstolenIsDistinct(rows: seq<Row>, report: seq<Reported>, p: Progress)
    requires RowsOk(rows) && Good(rows, report, |report|, p) && Owned(rows, report, |report|, p)
    requires !SomeStolen(rows, report, |report|, p)
    ensures NamesDistinct(rows, report, p)
  {
    forall g, h, name | name != "" && Bears(rows, report, p, g, name) && Bears(rows, report, p, h, name)
      ensures g == h
    {
      BearerKinds(rows, report, p, g, name);
      BearerKinds(rows, report, p, h, name);
      if Had(rows, g, name) {
        OneBearer(rows, report, p, g, h, name);
      } else if Had(rows, h, name) {
        OneBearer(rows, report, p, h, g, name);
      } else {
        var i: nat :| i < |report| && report[i].name == name && Brings(rows, report, p, g, i);
        var j: nat :| j < |report| && report[j].name == name && Brings(rows, report, p, h, j);
        TwoBringers(rows, report, p, g, h, i, j);
      }
    }
  }

  lemma StolenIsNotDistinct(rows: seq<Row>, report: seq<Reported>, p: Progress, i: nat, j: nat, k: nat)
    requires RowsOk(rows) && Good(rows, report, |report|, p)
    requires i < |report| && j < |report| && k < |rows| && Stolen(rows, report, p, i, j, k)
    ensures !NamesDistinct(rows, report, p)
  {
    var name := report[i].name;
    forall x: nat | x < |report| && Took(rows, p, x, k) ensures report[x].name == "" {
      assert x == j;
    }
    assert Bears(rows, report, p, Stored(k), name);
    if i in p.created {
      assert Bears(rows, report, p, New(i), name);
    } else {
      var l: nat :| l < |rows| && Took(rows, p, i, l);
      assert l != k;
      assert Bears(rows, report, p, Stored(l), name);
    }
  }

  /**
   Names stay pairwise distinct exactly when no unnamed interface takes a row,
   by its index, before the interface that bears the row's name comes up.
   */
  lemma DistinctIffNotStolen(rows: seq<Row>, report: seq<Reported>)
    requires RowsOk(rows)
    ensures var p := After(rows, report, |report|);
      NamesDistinct(rows, report, p) <==> !SomeStolen(rows, report, |report|, p)
  {
    var n, p := |report|, After(rows, report, |report|);
    AfterGood(rows, report, n);
    AfterOwned(rows, report, n);
    if SomeStolen(rows, report, n, p) {
      var i: nat, j: nat, k: nat :| i < n && j < n && k < |rows| && Stolen(rows, report, p, i, j, k);
      StolenIsNotDistinct(rows, report, p, i, j, k);
    } else {
      UnstolenIsDistinct(rows, report, p);
    }
  }

  // ----- the same condition, read off the stored rows and the report

  /** A new name among the named interfaces before `j`, with this index. */
  predicate NewNameBefore(rows: seq<Row>, report: seq<Reported>, j: nat, index: int)
    requires j <= |report|
  {
    exists h: nat :: h < j && Accepted(report, h) && report[h].index == index
                     && report[h].name != "" && ByName(rows, report[h].name).None?
  }

  /**
   Row `k` is the first of the index of the unnamed interface `j`, which comes
   before the interface `i` that bears the row's name; and `j` has no unnamed
   row to take: there is none of its index, or a new name took it.
   */
  predicate Clash(rows: seq<Row>, report: seq<Reported>, i: nat, j: nat, k: nat) {
    && j < i < |report| && k < |rows|
    && Accepted(report, i) && report[i].name == rows[k].name != ""
    && Accepted(report, j) && report[j].name == ""
    && ByIndex(rows, report[j].index, false) == Some(rows[k].id)
    && (ByIndex(rows, report[j].index, true).None? || NewNameBefore(rows, report, j, report[j].index))
  }

  ghost predicate SomeClash(rows: seq<Row>, report: seq<Reported>) {
    exists i: nat, j: nat, k: nat :: Clash(rows, report, i, j, k)
  }

  /** Interface `i` took what it could when it came up, and has it still after `n` interfaces. */
  ghost predicate Taken(rows: seq<Row>, report: seq<Reported>, before: Progress, p: Progress, i: nat)
    requires i < |report|
  {
    && before.used <= p.used
    && (i in p.matched <==> Accepted(report, i) && Match(rows, before.used, report[i]).Some?)
    && (i in p.matched ==> p.matched[i] == Match(rows, before.used, report[i]).value && p.matched[i] in p.used)
  }

  lemma TakenNow(rows: seq<Row>, report: seq<Reported>, i: nat, before: Progress)
    requires RowsOk(rows) && i < |report| && Good(rows, report, i, before)
    ensures Taken(rows, report, before, Step(rows, before, report[i], i), i)
  {
    SkipsIffNotAccepted(report, i, before);
  }

  lemma TakenStays(rows: seq<Row>, report: seq<Reported>, i: nat, n: nat, before: Progress, p: Progress)
    requires i < n < |report| && Taken(rows, report, before, p, i)
    ensures Taken(rows, report, before, Step(rows, p, report[n], n), i)
  {
  }

  /** What an interface takes is decided when it comes up, against what was used before it. */
  lemma {:induction false} TakenThen(rows: seq<Row>, report: seq<Reported>, n: nat, i: nat)
    requires RowsOk(rows) && i < n <= |report|
    ensures Taken(rows, report, After(rows, report, i), After(rows, report, n), i)
    decreases n
  {
    if i == n - 1 {
      AfterGood(rows, report, i);
      TakenNow(rows, report, i, After(rows, report, i));
    } else {
      TakenThen(rows, report, n - 1, i);
      TakenStays(rows, report, i, n - 1, After(rows, report, i), After(rows, report, n - 1));
    }
  }

  /** Whoever used a row came up earlier, and took it. */
  lemma UsedBefore(rows: seq<Row>, report: seq<Reported>, n: nat, id: nat) returns (h: nat)
    requires RowsOk(rows) && n <= |report| && id in After(rows, report, n).used
    ensures h < n && Accepted(report, h)
    ensures Match(rows, After(rows, report, h).used, report[h]) == Some(id)
  {
    AfterGood(rows, report, n);
    h :| h in After(rows, report, n).matched && After(rows, report, n).matched[h] == id;
    TakenThen(rows, report, n, h);
  }

  /** How a row can be taken: by its own name, or by its index. */
  lemma HowTaken(rows: seq<Row>, used: set<nat>, r: Reported, k: nat)
    requires RowsOk(rows) && k < |rows| && Match(rows, used, r) == Some(rows[k].id)
    ensures if r.name != "" then rows[k].name == r.name || (rows[k].name == "" && rows[k].index == r.index)
            else rows[k].index == r.index
    ensures rows[k].name == "" && r.name != "" ==> !Free(ByName(rows, r.name), used)
  {
    var l: nat :| l < |rows| && rows[l].id == rows[k].id
                  && (if r.name != "" then rows[l].name == r.name || (rows[l].name == "" && rows[l].index == r.index)
                      else rows[l].index == r.index);
    SameRow(rows, k, l);
    if r.name != "" && Free(ByName(rows, r.name), used) {
      var m: nat :| m < |rows| && rows[m].id == rows[k].id && rows[m].name == r.name;
      SameRow(rows, k, m);
    }
  }

  /** Two accepted interfaces without a name have different indexes, and two of one name are one. */
  lemma AcceptedApart(report: seq<Reported>, g: nat, h: nat)
    requires g < h < |report| && Accepted(report, g) && Accepted(report, h) && report[g].name == report[h].name
    ensures report[h].name == "" && report[g].index != report[h].index
  {
  }

  /** Up to the unnamed interface of a clash, nobody has taken the row. */
  lemma ClashFindsFree(rows: seq<Row>, report: seq<Reported>, i: nat, j: nat, k: nat)
    requires RowsOk(rows) && Clash(rows, report, i, j, k)
    ensures rows[k].id !in After(rows, report, j).used
  {
    if rows[k].id in After(rows, report, j).used {
      var h := UsedBefore(rows, report, j, rows[k].id);
      HowTaken(rows, After(rows, report, h).used, report[h], k);
    }
  }

  /** The unnamed row of an index is used once a new name with that index has come up. */
  lemma NewNameUses(rows: seq<Row>, report: seq<Reported>, j: nat, h: nat)
    requires RowsOk(rows) && h < j <= |report| && Accepted(report, h) && report[h].name != ""
    requires ByName(rows, report[h].name).None? && ByIndex(rows, report[h].index, true).Some?
    ensures ByIndex(rows, report[h].index, true).value in After(rows, report, j).used
  {
    TakenThen(rows, report, j, h);
  }

  lemma ClashSteals(rows: seq<Row>, report: seq<Reported>, i: nat, j: nat, k: nat)
    requires RowsOk(rows) && Clash(rows, report, i, j, k)
    ensures Stolen(rows, report, After(rows, report, |report|), i, j, k)
  {
    var x := report[j].index;
    ClashFindsFree(rows, report, i, j, k);
    if ByIndex(rows, x, true).Some? {
      var h: nat :| h < j && Accepted(report, h) && report[h].index == x
                    && report[h].name != "" && ByName(rows, report[h].name).None?;
      NewNameUses(rows, report, j, h);
    }
    TakenThen(rows, report, |report|, j);
  }

  /** The unnamed row that the first thief could not have was taken by a new name. */
  lemma FirstThiefHadNone(rows: seq<Row>, report: seq<Reported>, j: nat)
    requires RowsOk(rows) && j < |report| && Accepted(report, j) && report[j].name == ""
    requires !Free(ByIndex(rows, report[j].index, true), After(rows, report, j).used)
    requires forall i: nat, h: nat, k: nat :: i < |report| && h < j && k < |rows| ==>
      !Stolen(rows, report, After(rows, report, |report|), i, h, k)
    ensures ByIndex(rows, report[j].index, true).None? || NewNameBefore(rows, report, j, report[j].index)
  {
    var id := ByIndex(rows, report[j].index, true);
    if id.Some? {
      var l: nat :| l < |rows| && rows[l].id == id.value && rows[l].index == report[j].index && rows[l].name == "";
      var h := UsedBefore(rows, report, j, id.value);
      HowTaken(rows, After(rows, report, h).used, report[h], l);
      if report[h].name == "" {
        AcceptedApart(report, h, j);
      }
      NamedTakerIsNew(rows, report, h, l);
    }
  }

  /** A named interface that took an unnamed row bears a new name, unless its own row was stolen earlier. */
  lemma NamedTakerIsNew(rows: seq<Row>, report: seq<Reported>, h: nat, l: nat)
    requires RowsOk(rows) && h < |report| && l < |rows| && Accepted(report, h) && report[h].name != ""
    requires Match(rows, After(rows, report, h).used, report[h]) == Some(rows[l].id) && rows[l].name == ""
    requires forall i: nat, g: nat, k: nat :: i < |report| && g < h && k < |rows| ==>
      !Stolen(rows, report, After(rows, report, |report|), i, g, k)
    ensures ByName(rows, report[h].name).None?
  {
    var p, own := After(rows, report, |report|), ByName(rows, report[h].name);
    if own.Some? {
      var k: nat :| k < |rows| && rows[k].id == own.value && rows[k].name == report[h].name;
      TakenThen(rows, report, |report|, h);
      AfterOwned(rows, report, |report|);
      if Took(rows, p, h, k) {
        SameRow(rows, k, l);
      }
    }
  }

  lemma FirstThiefClashes(rows: seq<Row>, report: seq<Reported>, i: nat, j: nat, k: nat)
    requires RowsOk(rows) && i < |report| && j < |report| && k < |rows|
    requires Stolen(rows, report, After(rows, report, |report|), i, j, k)
    requires forall g: nat, h: nat, l: nat :: g < |report| && h < j && l < |rows| ==>
      !Stolen(rows, report, After(rows, report, |report|), g, h, l)
    ensures Clash(rows, report, i, j, k)
  {
    TakenThen(rows, report, |report|, j);
    FirstThiefHadNone(rows, report, j);
  }

  lemma {:induction false} StolenClashes(rows: seq<Row>, report: seq<Reported>, i: nat, j: nat, k: nat)
    requires RowsOk(rows) && i < |report| && j < |report| && k < |rows|
    requires Stolen(rows, report, After(rows, report, |report|), i, j, k)
    ensures SomeClash(rows, report)
    decreases j
  {
    var p := After(rows, report, |report|);
    if g: nat, h: nat, l: nat :| g < |report| && h < j && l < |rows| && Stolen(rows, report, p, g, h, l) {
      StolenClashes(rows, report, g, h, l);
    } else {
      FirstThiefClashes(rows, report, i, j, k);
    }
  }

  /** Names stay pairwise distinct exactly when the rows and the report show no clash. */
  lemma DistinctIffNoClash(rows: seq<Row>, report: seq<Reported>)
    requires RowsOk(rows)
    ensures NamesDistinct(rows, report, After(rows, report, |report|)) <==> !SomeClash(rows, report)
  {
    var n, p := |report|, After(rows, report, |report|);
    DistinctIffNotStolen(rows, report);
    if SomeStolen(rows, report, n, p) {
      var i: nat, j: nat, k: nat :| i < n && j < n && k < |rows| && Stolen(rows, report, p, i, j, k);
      StolenClashes(rows, report, i, j, k);
    }
    if SomeClash(rows, report) {
      var i: nat, j: nat, k: nat :| Clash(rows, report, i, j, k);
      ClashSteals(rows, report, i, j, k);
    }
  }

  /** A report that lists its named interfaces first keeps the names distinct. */
  lemma NamedFirstIsDistinct(rows: seq<Row>, report: seq<Reported>)
    requires RowsOk(rows)
    requires forall i, j :: 0 <= j < i < |report| && report[i].name != "" ==> report[j].name != ""
    ensures NamesDistinct(rows, report, After(rows, report, |report|))
  {
    DistinctIffNoClash(rows, report);
  }

  /** Interleaved, the names can collide. */
  lemma InterleavedCollides()
    ensures var rows, report := [Row(1, 3, "eth0")], [Reported(3, ""), Reported(3, "eth0")];
      RowsOk(rows) && !NamesDistinct(rows, report, After(rows, report, |report|))
  {
    var rows, report := [Row(1, 3, "eth0")], [Reported(3, ""), Reported(3, "eth0")];
    DistinctIffNoClash(rows, report);
    assert rows[..0] == [];
    assert ByIndex(rows[..0], 3, false) == None && ByIndex(rows[..0], 3, true) == None;
    assert Clash(rows, report, 1, 0, 0);
  }

  // ----- `reconciliarInterfaces`

  /** The three indexes over the stored rows, built in one pass. */
  method BuildIndexes(rows: seq<Row>)
    returns (byName: map<string, nat>, unnamed: map<int, nat>, any: map<int, nat>)
    ensures forall s :: s != "" ==> Lookup(byName, s) == ByName(rows, s)
    ensures forall x :: Lookup(unnamed, x) == ByIndex(rows, x, true)
    ensures forall x :: Lookup(any, x) == ByIndex(rows, x, false)
  {
    byName, unnamed, any := map[], map[], map[];
    for i := 0 to |rows|
      invariant forall s :: s != "" ==> Lookup(byName, s) == ByName(rows[..i], s)
      invariant forall x :: Lookup(unnamed, x) == ByIndex(rows[..i], x, true)
      invariant forall x :: Lookup(any, x) == ByIndex(rows[..i], x, false)
    {
      assert rows[..i + 1][..i] == rows[..i];
      var row := rows[i];
      if row.name != "" {
        byName := byName[row.name := row.id];
      } else if row.index !in unnamed {
        unnamed := unnamed[row.index := row.id];
      }
      if row.index !in any {
        any := any[row.index := row.id];
      }
    }
    assert rows[..|rows|] == rows;
  }

  function Lookup<K, V>(m: map<K, V>, k: K): Option<V> {
    if k in m then Some(m[k]) else None
  }

  /** One reading: the interface it is of, by position, and the row it is stored under. */
  datatype Metric = Metric(position: nat, id: nat)

  /** One reading for each accepted interface, each under a row of its own. */
  ghost predicate OnePerAccepted(report: seq<Reported>, metrics: seq<Metric>) {
    && (forall m :: 0 <= m < |metrics| ==> metrics[m].position < |report| && Accepted(report, metrics[m].position))
    && (forall i: nat :: i < |report| && Accepted(report, i) ==>
          exists m :: 0 <= m < |metrics| && metrics[m].position == i)
    && PairwiseApart(metrics)
  }

  /** The matches, listed in the order they were made. */
  predicate Lists(updates: seq<Metric>, p: Progress) {
    && (forall m :: 0 <= m < |updates| ==>
          updates[m].position in p.matched && p.matched[updates[m].position] == updates[m].id)
    && (forall m, n :: 0 <= m < n < |updates| ==> updates[m].position != updates[n].position)
    && (forall i :: i in p.matched ==> exists m :: 0 <= m < |updates| && updates[m].position == i)
  }

  function NewMetrics(created: seq<nat>, nextId: nat): (r: seq<Metric>)
    ensures |r| == |created|
  {
    seq(|created|, k requires 0 <= k < |created| => Metric(created[k], nextId + k))
  }

  /** What makes the list of matches and the list of new rows fit together. */
  ghost predicate Disjoint(updates: seq<Metric>, added: seq<Metric>) {
    forall m, n :: 0 <= m < |updates| && 0 <= n < |added| ==>
      updates[m].position != added[n].position && updates[m].id != added[n].id
  }

  predicate PairwiseApart(metrics: seq<Metric>) {
    forall m, n :: 0 <= m < n < |metrics| ==>
      metrics[m].position != metrics[n].position && metrics[m].id != metrics[n].id
  }

  lemma JoinApart(updates: seq<Metric>, added: seq<Metric>)
    requires PairwiseApart(updates) && PairwiseApart(added) && Disjoint(updates, added)
    ensures PairwiseApart(updates + added)
  {
  }

  lemma ListsApart(rows: seq<Row>, report: seq<Reported>, p: Progress, updates: seq<Metric>, nextId: nat)
    requires Sorted(report, |report|, p) && Gentle(rows, report, |report|, p) && Lists(updates, p)
    requires forall k :: 0 <= k < |rows| ==> rows[k].id < nextId
    ensures PairwiseApart(updates) && PairwiseApart(NewMetrics(p.created, nextId))
    ensures Disjoint(updates, NewMetrics(p.created, nextId))
  {
  }

  lemma ListsCover(report: seq<Reported>, p: Progress, updates: seq<Metric>, nextId: nat, i: nat)
    requires AllPlaced(report, |report|, p) && Lists(updates, p) && i < |report| && Accepted(report, i)
    ensures var all := updates + NewMetrics(p.created, nextId);
      exists m :: 0 <= m < |all| && all[m].position == i
  {
    var added := NewMetrics(p.created, nextId);
    var all := updates + added;
    if i in p.matched {
      var m :| 0 <= m < |updates| && updates[m].position == i;
      assert all[m].position == i;
    } else {
      var k :| 0 <= k < |p.created| && p.created[k] == i;
      assert all[|updates| + k] == added[k];
    }
  }

  lemma ListsAccepted(report: seq<Reported>, p: Progress, updates: seq<Metric>, nextId: nat, m: nat)
    requires MatchesOk(report, |report|, p) && CreationsOk(report, |report|, p) && Lists(updates, p)
    requires m < |updates| + |p.created|
    ensures var all := updates + NewMetrics(p.created, nextId);
      && all[m].position < |report| && Accepted(report, all[m].position)
      && (if all[m].position in p.matched then all[m].id == p.matched[all[m].position] else all[m].id >= nextId)
  {
  }

  lemma MetricsAreOnePerAccepted(rows: seq<Row>, report: seq<Reported>, p: Progress, updates: seq<Metric>, nextId: nat)
    requires Good(rows, report, |report|, p) && Lists(updates, p)
    requires forall k :: 0 <= k < |rows| ==> rows[k].id < nextId
    ensures var all := updates + NewMetrics(p.created, nextId);
      && OnePerAccepted(report, all)
      && forall m :: 0 <= m < |all| ==>
           if all[m].position in p.matched then all[m].id == p.matched[all[m].position] else all[m].id >= nextId
  {
    var all := updates + NewMetrics(p.created, nextId);
    ListsApart(rows, report, p, updates, nextId);
    JoinApart(updates, NewMetrics(p.created, nextId));
    forall i: nat | i < |report| && Accepted(report, i) ensures exists m :: 0 <= m < |all| && all[m].position == i {
      ListsCover(report, p, updates, nextId, i);
    }
    forall m: nat | m < |all|
      ensures all[m].position < |report| && Accepted(report, all[m].position)
      ensures if all[m].position in p.matched then all[m].id == p.matched[all[m].position] else all[m].id >= nextId
    {
      ListsAccepted(report, p, updates, nextId, m);
    }
  }

  /** The choice of `casar`, through the indexes. */
  method Choose(byName: map<string, nat>, unnamed: map<int, nat>, any: map<int, nat>, used: set<nat>, r: Reported,
                ghost rows: seq<Row>)
    returns (id: Option<nat>)
    requires r.name != "" ==> Lookup(byName, r.name) == ByName(rows, r.name)
    requires Lookup(unnamed, r.index) == ByIndex(rows, r.index, true)
    requires Lookup(any, r.index) == ByIndex(rows, r.index, false)
    ensures id == Match(rows, used, r)
  {
    if r.name != "" && r.name in byName && byName[r.name] !in used {
      return Some(byName[r.name]);
    }
    if r.index in unnamed && unnamed[r.index] !in used {
      return Some(unnamed[r.index]);
    }
    if r.name == "" && r.index in any && any[r.index] !in used {
      return Some(any[r.index]);
    }
    return None;
  }

  /** `reconciliarInterfaces`; ids from `nextId` on are those the database gives to new rows. */
  method Reconcile(rows: seq<Row>, report: seq<Reported>, nextId: nat)
    returns (p: Progress, metrics: seq<Metric>)
    requires RowsOk(rows) && forall k :: 0 <= k < |rows| ==> rows[k].id < nextId
    ensures p == After(rows, report, |report|)
    ensures OnePerAccepted(report, metrics)
    ensures forall m :: 0 <= m < |metrics| ==>
      if metrics[m].position in p.matched then metrics[m].id == p.matched[metrics[m].position]
      else metrics[m].id >= nextId
  {
    var byName, unnamed, any := BuildIndexes(rows);
    var updates := [];
    p := START;
    for i := 0 to |report|
      invariant p == After(rows, report, i) && Lists(updates, p)
      invariant forall x :: x in p.matched ==> x < i
    {
      var r := report[i];
      if r.name == "" && r.index <= 0 {
        continue;
      }
      if r.name != "" {
        if r.name in p.names {
          continue;
        }
        p := p.(names := p.names + {r.name});
      } else {
        if r.index in p.indexes {
          continue;
        }
        p := p.(indexes := p.indexes + {r.index});
      }
      var id := Choose(byName, unnamed, any, p.used, r, rows);
      if id.Some? {
        ghost var before := p;
        p := p.(used := p.used + {id.value}, matched := p.matched[i := id.value]);
        updates := updates + [Metric(i, id.value)];
        ListsMore(updates[..|updates| - 1], before, i, id.value, p);
        continue;
      }
      p := p.(created := p.created + [i]);
    }
    AfterGood(rows, report, |report|);
    MetricsAreOnePerAccepted(rows, report, p, updates, nextId);
    metrics := updates + NewMetrics(p.created, nextId);
  }

  lemma ListsMore(updates: seq<Metric>, p: Progress, i: nat, id: nat, q: Progress)
    requires Lists(updates, p) && i !in p.matched && q.matched == p.matched[i := id]
    ensures Lists(updates + [Metric(i, id)], q)
  {
    var all := updates + [Metric(i, id)];
    forall x | x in q.matched ensures exists m :: 0 <= m < |all| && all[m].position == x {
      if x == i {
        assert all[|updates|].position == i;
      } else {
        var m :| 0 <= m < |updates| && updates[m].position == x;
        assert all[m].position == x;
      }
    }
  }
}

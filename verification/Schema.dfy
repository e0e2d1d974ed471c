/**
 The drawing of a database schema. A large schema is cut to its most connected
 tables; what is drawn is the subgraph they span, with every key column and the
 first few plain ones.
 */
module Schema {
  import opened Basics

  const MAX_PLAIN_COLUMNS := 8

  datatype Table = Table(schema: string, name: string, rows: Option<int>, size: Option<int>)

  datatype Column = Column(schema: string, table: string, name: string, kind: string,
                           nullable: bool, primary: bool, foreign: bool)

  datatype Relation = Relation(name: string, fromSchema: string, fromTable: string, fromColumns: seq<string>,
                               toSchema: string, toTable: string, toColumns: seq<string>, onDelete: string)

  datatype Payload = Payload(tables: seq<Table>, columns: seq<Column>, relations: seq<Relation>)

  datatype ColumnView = ColumnView(name: string, kind: string, nullable: bool, primary: bool)

  datatype TableView = TableView(schema: string, name: string, rows: Option<int>, size: Option<int>,
                                 keyColumns: seq<string>, columns: seq<ColumnView>)

  datatype View = View(schemas: seq<string>, tables: seq<TableView>, relations: seq<Relation>,
                       truncated: bool, total: nat)

  function Key(schema: string, name: string): string {
    schema + "." + name
  }

  function KeyOf(t: Table): string {
    Key(t.schema, t.name)
  }

  function From(r: Relation): string {
    Key(r.fromSchema, r.fromTable)
  }

  function To(r: Relation): string {
    Key(r.toSchema, r.toTable)
  }

  function Keys(tables: seq<Table>): set<string> {
    set t | t in tables :: KeyOf(t)
  }

  // ----- the order of texts

  predicate Less(a: string, b: string) {
    b != "" && (a == "" || a[0] < b[0] || (a[0] == b[0] && Less(a[1..], b[1..])))
  }

  lemma {:induction false} LessIsTotal(a: string, b: string)
    ensures a == b || Less(a, b) || Less(b, a)
    ensures !(Less(a, b) && Less(b, a)) && !Less(a, a)
  {
    if a != "" {
      LessIsTotal(a[1..], a[1..]);
      if b != "" && a[0] == b[0] {
        LessIsTotal(a[1..], b[1..]);
        assert a == [a[0]] + a[1..] && b == [b[0]] + b[1..];
      }
    }
  }

  lemma {:induction false} LessIsTransitive(a: string, b: string, c: string)
    requires Less(a, b) && Less(b, c)
    ensures Less(a, c)
  {
    if a != "" && a[0] == b[0] && b[0] == c[0] {
      LessIsTransitive(a[1..], b[1..], c[1..]);
    }
  }

  /** Texts are compared at the first place where they differ; a text comes before its continuations. */
  lemma {:induction false} LessIff(a: string, b: string)
    ensures Less(a, b) <==> exists k: nat :: k <= |a| && k < |b| && a[..k] == b[..k] && (k == |a| || a[k] < b[k])
  {
    if a != "" && b != "" && a[0] == b[0] {
      LessIff(a[1..], b[1..]);
      if Less(a, b) {
        var k: nat :| k <= |a[1..]| && k < |b[1..]| && a[1..][..k] == b[1..][..k] && (k == |a[1..]| || a[1..][k] < b[1..][k]);
        assert a[..k + 1] == [a[0]] + a[1..][..k] && b[..k + 1] == [b[0]] + b[1..][..k];
        assert k + 1 <= |a| && k + 1 < |b| && a[..k + 1] == b[..k + 1] && (k + 1 == |a| || a[k + 1] < b[k + 1]);
      }
      if k: nat :| k <= |a| && k < |b| && a[..k] == b[..k] && (k == |a| || a[k] < b[k]) {
        assert k > 0;
        assert a[1..][..k - 1] == a[..k][1..] && b[1..][..k - 1] == b[..k][1..];
        assert k - 1 <= |a[1..]| && k - 1 < |b[1..]| && (k - 1 == |a[1..]| || a[1..][k - 1] < b[1..][k - 1]);
      }
    } else {
      assert a[..0] == b[..0];
      assert forall k :: 0 < k <= |a| && k < |b| && a[..k] == b[..k] ==> a[..k][0] == b[..k][0];
    }
  }

  // ----- degrees

  /** A relation between two existing tables, one of which is this one. */
  predicate Touches(r: Relation, existing: set<string>, key: string) {
    From(r) in existing && To(r) in existing && (From(r) == key || To(r) == key)
  }

  function Touching(relations: seq<Relation>, existing: set<string>, key: string): set<nat> {
    set i: nat | i < |relations| && Touches(relations[i], existing, key)
  }

  /** How many relations touch a table; one to itself counts once. */
  function Degree(relations: seq<Relation>, existing: set<string>, key: string): nat {
    |Touching(relations, existing, key)|
  }

  function At(m: map<string, nat>, key: string): nat {
    if key in m then m[key] else 0
  }

  lemma DegreeMore(relations: seq<Relation>, r: Relation, existing: set<string>, key: string)
    ensures Degree(relations + [r], existing, key)
         == Degree(relations, existing, key) + if Touches(r, existing, key) then 1 else 0
  {
    var more := relations + [r];
    assert forall i :: 0 <= i < |relations| ==> more[i] == relations[i];
    assert Touching(more, existing, key)
        == Touching(relations, existing, key) + if Touches(r, existing, key) then {|relations|} else {};
  }

  ghost predicate Counted(m: map<string, nat>, relations: seq<Relation>, existing: set<string>) {
    forall key: string :: At(m, key) == Degree(relations, existing, key)
  }

  /** `grauDasTabelas`. */
  method Degrees(relations: seq<Relation>, existing: set<string>) returns (degree: map<string, nat>)
    ensures Counted(degree, relations, existing)
  {
    degree := map[];
    for i := 0 to |relations|
      invariant Counted(degree, relations[..i], existing)
    {
      var r := relations[i];
      assert relations[..i + 1] == relations[..i] + [r];
      forall key: string ensures Degree(relations[..i + 1], existing, key)
           == Degree(relations[..i], existing, key) + if Touches(r, existing, key) then 1 else 0 {
        DegreeMore(relations[..i], r, existing, key);
      }
      var from, to := From(r), To(r);
      if from !in existing || to !in existing {
        continue;
      }
      degree := degree[from := At(degree, from) + 1];
      if from != to {
        degree := degree[to := At(degree, to) + 1];
      }
    }
    assert relations[..|relations|] == relations;
  }

  // ----- sorting

  /** By degree from the highest, then by key. */
  predicate Precedes(da: nat, a: string, db: nat, b: string) {
    da > db || (da == db && Less(a, b))
  }

  predicate Before(a: Table, b: Table, degree: map<string, nat>) {
    Precedes(At(degree, KeyOf(a)), KeyOf(a), At(degree, KeyOf(b)), KeyOf(b))
  }

  predicate Ordered(s: seq<Table>, degree: map<string, nat>) {
    forall i, j :: 0 <= i < j < |s| ==> !Before(s[j], s[i], degree)
  }

  /** The tables with this key, in the order of the list. */
  function OfKey(s: seq<Table>, key: string): seq<Table> {
    if s == [] then []
    else if KeyOf(s[0]) == key then [s[0]] + OfKey(s[1..], key)
    else OfKey(s[1..], key)
  }

  /** Each key has the same tables in both, in the same order. */
  ghost predicate SameOfKeys(a: seq<Table>, b: seq<Table>) {
    forall key: string :: OfKey(a, key) == OfKey(b, key)
  }

  lemma NotBeforeIsTransitive(a: Table, b: Table, c: Table, degree: map<string, nat>)
    requires !Before(b, a, degree) && !Before(c, b, degree)
    ensures !Before(c, a, degree)
  {
    LessIsTotal(KeyOf(a), KeyOf(b));
    LessIsTotal(KeyOf(b), KeyOf(c));
    LessIsTotal(KeyOf(a), KeyOf(c));
    if Less(KeyOf(a), KeyOf(b)) && Less(KeyOf(b), KeyOf(c)) {
      LessIsTransitive(KeyOf(a), KeyOf(b), KeyOf(c));
    }
  }

  lemma BeforeIsTotal(a: Table, b: Table, degree: map<string, nat>)
    ensures !(Before(a, b, degree) && Before(b, a, degree))
    ensures Before(a, b, degree) || Before(b, a, degree) || KeyOf(a) == KeyOf(b)
    ensures KeyOf(a) == KeyOf(b) ==> !Before(a, b, degree)
  {
    LessIsTotal(KeyOf(a), KeyOf(b));
  }

  lemma OfKeyFirst(t: Table, rest: seq<Table>, key: string)
    ensures OfKey([t] + rest, key) == (if KeyOf(t) == key then [t] else []) + OfKey(rest, key)
  {
    assert ([t] + rest)[1..] == rest;
  }

  lemma {:induction false} OfKeyAppend(a: seq<Table>, b: seq<Table>, key: string)
    ensures OfKey(a + b, key) == OfKey(a, key) + OfKey(b, key)
  {
    if a == [] {
      assert a + b == b;
    } else {
      OfKeyAppend(a[1..], b, key);
      assert a + b == [a[0]] + (a[1..] + b);
      OfKeyFirst(a[0], a[1..] + b, key);
      OfKeyFirst(a[0], a[1..], key);
      assert a == [a[0]] + a[1..];
    }
  }

  lemma {:induction false} OfKeyNone(s: seq<Table>, key: string)
    ensures OfKey(s, key) == [] <==> forall i :: 0 <= i < |s| ==> KeyOf(s[i]) != key
  {
    if s != [] {
      OfKeyNone(s[1..], key);
      assert forall i :: 1 <= i < |s| ==> s[i] == s[1..][i - 1];
    }
  }

  function PutAt(s: seq<Table>, k: nat, x: Table): seq<Table>
    requires k <= |s|
  {
    s[..k] + [x] + s[k..]
  }

  lemma PutAtOrders(s: seq<Table>, k: nat, x: Table, degree: map<string, nat>)
    requires k <= |s| && Ordered(s, degree)
    requires k > 0 ==> !Before(x, s[k - 1], degree)
    requires k < |s| ==> Before(x, s[k], degree)
    ensures Ordered(PutAt(s, k, x), degree)
    ensures forall j :: k <= j < |s| ==> KeyOf(s[j]) != KeyOf(x)
  {
    forall j | 0 <= j < k ensures !Before(x, s[j], degree) {
      if j < k - 1 {
        NotBeforeIsTransitive(s[j], s[k - 1], x, degree);
      }
    }
    forall j | k <= j < |s| ensures Before(x, s[j], degree) {
      if j > k {
        if !Before(x, s[j], degree) {
          NotBeforeIsTransitive(s[k], s[j], x, degree);
        }
      }
    }
    forall j | k <= j < |s| ensures !Before(s[j], x, degree) && KeyOf(s[j]) != KeyOf(x) {
      BeforeIsTotal(x, s[j], degree);
    }
    var r := PutAt(s, k, x);
    forall i, j | 0 <= i < j < |r| ensures !Before(r[j], r[i], degree) {
      assert r[i] == if i < k then s[i] else if i == k then x else s[i - 1];
      assert r[j] == if j < k then s[j] else if j == k then x else s[j - 1];
    }
  }

  lemma PutAtKeeps(s: seq<Table>, k: nat, x: Table, key: string)
    requires k <= |s|
    requires forall j :: k <= j < |s| ==> KeyOf(s[j]) != KeyOf(x)
    ensures OfKey(PutAt(s, k, x), key) == OfKey(s + [x], key)
  {
    var a, b := s[..k], s[k..];
    assert s == a + b;
    OfKeyAppend(a + [x], b, key);
    OfKeyAppend(a, [x], key);
    OfKeyAppend(a + b, [x], key);
    OfKeyAppend(a, b, key);
    if key == KeyOf(x) {
      OfKeyNone(b, key);
    } else {
      OfKeyNone([x], key);
    }
  }

  /** A stable sort by degree and key; with no degrees, by key alone. */
  method Sort(tables: seq<Table>, degree: map<string, nat>) returns (r: seq<Table>)
    ensures Ordered(r, degree) && SameOfKeys(r, tables) && |r| == |tables|
  {
    r := [];
    for i := 0 to |tables|
      invariant Ordered(r, degree) && SameOfKeys(r, tables[..i]) && |r| == i
    {
      var x := tables[i];
      var k := |r|;
      while k > 0 && Before(x, r[k - 1], degree)
        invariant 0 <= k <= |r|
        invariant k < |r| ==> Before(x, r[k], degree)
      {
        k := k - 1;
      }
      PutAtOrders(r, k, x, degree);
      assert tables[..i + 1] == tables[..i] + [x];
      forall key: string ensures OfKey(PutAt(r, k, x), key) == OfKey(tables[..i + 1], key) {
        PutAtKeeps(r, k, x, key);
        OfKeyAppend(r, [x], key);
        OfKeyAppend(tables[..i], [x], key);
      }
      r := PutAt(r, k, x);
    }
    assert tables[..|tables|] == tables;
  }

  lemma HasKey(a: seq<Table>, b: seq<Table>, i: nat) returns (j: nat)
    requires i < |a| && SameOfKeys(a, b)
    ensures j < |b| && KeyOf(b[j]) == KeyOf(a[i])
  {
    var key := KeyOf(a[i]);
    OfKeyNone(a, key);
    OfKeyNone(b, key);
    assert OfKey(a, key) == OfKey(b, key);
    j :| 0 <= j < |b| && KeyOf(b[j]) == key;
  }

  lemma NoneOfNone(a: seq<Table>, b: seq<Table>)
    requires SameOfKeys(a, b)
    ensures a == [] ==> b == []
  {
    if b != [] {
      var j := HasKey(b, a, 0);
    }
  }

  lemma SameHead(a: seq<Table>, b: seq<Table>, degree: map<string, nat>)
    requires a != [] && b != []
    requires Ordered(a, degree) && Ordered(b, degree) && SameOfKeys(a, b)
    ensures a[0] == b[0]
  {
    var j := HasKey(a, b, 0);
    var i := HasKey(b, a, 0);
    BeforeIsTotal(a[0], b[0], degree);
    BeforeIsTotal(b[j], b[0], degree);
    BeforeIsTotal(a[i], a[0], degree);
    assert !Before(b[j], b[0], degree) && !Before(a[i], a[0], degree);
    var key := KeyOf(a[0]);
    assert KeyOf(b[0]) == key;
    assert OfKey(a, key) == OfKey(b, key);
    assert OfKey(a, key)[0] == a[0] && OfKey(b, key)[0] == b[0];
  }

  lemma SameTails(a: seq<Table>, b: seq<Table>)
    requires a != [] && b != [] && a[0] == b[0] && SameOfKeys(a, b)
    ensures SameOfKeys(a[1..], b[1..])
  {
    forall key: string ensures OfKey(a[1..], key) == OfKey(b[1..], key) {
      assert OfKey(a, key) == OfKey(b, key);
      if key == KeyOf(a[0]) {
        assert OfKey(a, key)[1..] == OfKey(a[1..], key);
        assert OfKey(b, key)[1..] == OfKey(b[1..], key);
      }
    }
  }

  /** A list has one stable order. */
  lemma {:induction false} SortIsUnique(a: seq<Table>, b: seq<Table>, degree: map<string, nat>)
    requires Ordered(a, degree) && Ordered(b, degree) && SameOfKeys(a, b)
    ensures a == b
  {
    NoneOfNone(a, b);
    NoneOfNone(b, a);
    if a != [] {
      SameHead(a, b, degree);
      SameTails(a, b);
      SortIsUnique(a[1..], b[1..], degree);
      assert a == [a[0]] + a[1..] && b == [b[0]] + b[1..];
    }
  }

  // ----- the cut

  /** How two tables compare by the degrees of the payload. */
  predicate Outranks(p: Payload, a: Table, b: Table) {
    var existing := Keys(p.tables);
    Precedes(Degree(p.relations, existing, KeyOf(a)), KeyOf(a), Degree(p.relations, existing, KeyOf(b)), KeyOf(b))
  }

  /** The chosen tables and the omitted ones make up all, and no omitted one outranks a chosen one. */
  ghost predicate Cut(p: Payload, chosen: seq<Table>, omitted: seq<Table>) {
    && |chosen| + |omitted| == |p.tables|
    && SameOfKeys(chosen + omitted, p.tables)
    && (forall c, o :: c in chosen && o in omitted ==> !Outranks(p, o, c))
  }

  ghost predicate MostConnected(p: Payload, chosen: seq<Table>, limit: nat) {
    |chosen| == limit && exists omitted :: Cut(p, chosen, omitted)
  }

  lemma BeforeIsOutranks(p: Payload, degree: map<string, nat>, a: Table, b: Table)
    requires Counted(degree, p.relations, Keys(p.tables))
    ensures Before(a, b, degree) == Outranks(p, a, b)
  {
  }

  /** `tabelasMaisConectadas`. */
  method TopTables(p: Payload, degree: map<string, nat>, limit: nat) returns (chosen: seq<Table>)
    requires limit <= |p.tables| && Counted(degree, p.relations, Keys(p.tables))
    ensures MostConnected(p, chosen, limit)
  {
    var sorted := Sort(p.tables, degree);
    chosen := sorted[..limit];
    ghost var omitted := sorted[limit..];
    assert sorted == chosen + omitted;
    forall c, o | c in chosen && o in omitted ensures !Outranks(p, o, c) {
      var i :| 0 <= i < |chosen| && chosen[i] == c;
      var j :| 0 <= j < |omitted| && omitted[j] == o;
      assert sorted[i] == c && sorted[limit + j] == o;
      BeforeIsOutranks(p, degree, o, c);
    }
    assert Cut(p, chosen, omitted);
  }

  /** A permutation of the chosen tables is as good a choice. */
  lemma CutOfSame(p: Payload, a: seq<Table>, b: seq<Table>, limit: nat)
    requires MostConnected(p, a, limit) && SameOfKeys(b, a) && |a| == |b|
    ensures MostConnected(p, b, limit)
  {
    var omitted :| Cut(p, a, omitted);
    forall key: string ensures OfKey(b + omitted, key) == OfKey(p.tables, key) {
      OfKeyAppend(a, omitted, key);
      OfKeyAppend(b, omitted, key);
      assert OfKey(b, key) == OfKey(a, key);
      assert OfKey(a + omitted, key) == OfKey(p.tables, key);
    }
    forall c, o | c in b && o in omitted ensures !Outranks(p, o, c) {
      var i: nat :| i < |b| && b[i] == c;
      var j := HasKey(b, a, i);
      assert !Outranks(p, o, a[j]);
    }
    assert Cut(p, b, omitted);
  }

  // ----- columns

  predicate Plain(c: Column) {
    !c.primary && !c.foreign
  }

  function PlainOnes(cs: seq<Column>): seq<Column> {
    if cs == [] then [] else (if Plain(cs[0]) then [cs[0]] else []) + PlainOnes(cs[1..])
  }

  function KeyOnes(cs: seq<Column>): seq<Column> {
    if cs == [] then [] else (if Plain(cs[0]) then [] else [cs[0]]) + KeyOnes(cs[1..])
  }

  function PrimaryNames(cs: seq<Column>): seq<string> {
    if cs == [] then [] else (if cs[0].primary then [cs[0].name] else []) + PrimaryNames(cs[1..])
  }

  /** Every key column, and the first `limit` plain ones, in their order. */
  function Kept(cs: seq<Column>, limit: nat): seq<Column> {
    if cs == [] then []
    else if !Plain(cs[0]) then [cs[0]] + Kept(cs[1..], limit)
    else if limit == 0 then Kept(cs[1..], 0)
    else [cs[0]] + Kept(cs[1..], limit - 1)
  }

  function Shown(c: Column): ColumnView {
    ColumnView(c.name, c.kind, c.nullable, c.primary)
  }

  function ShownAll(cs: seq<Column>): seq<ColumnView> {
    seq(|cs|, i requires 0 <= i < |cs| => Shown(cs[i]))
  }

  function Min(a: nat, b: nat): nat {
    if a < b then a else b
  }

  /** No key column is lost, and of the plain ones exactly the first `limit` stay. */
  lemma {:induction false} KeptIsAllKeysAndFirstPlain(cs: seq<Column>, limit: nat)
    ensures KeyOnes(Kept(cs, limit)) == KeyOnes(cs)
    ensures PlainOnes(Kept(cs, limit)) == PlainOnes(cs)[..Min(limit, |PlainOnes(cs)|)]
    ensures PrimaryNames(Kept(cs, limit)) == PrimaryNames(cs)
  {
    if cs != [] {
      var c, rest := cs[0], cs[1..];
      if !Plain(c) {
        KeptIsAllKeysAndFirstPlain(rest, limit);
        assert ([c] + Kept(rest, limit))[1..] == Kept(rest, limit);
      } else if limit == 0 {
        KeptIsAllKeysAndFirstPlain(rest, 0);
      } else {
        KeptIsAllKeysAndFirstPlain(rest, limit - 1);
        assert ([c] + Kept(rest, limit - 1))[1..] == Kept(rest, limit - 1);
      }
    }
  }

  /** The keys of a table are the names of its primary columns. */
  lemma {:induction false} PrimaryNamesIff(cs: seq<Column>, name: string)
    ensures name in PrimaryNames(cs) <==> exists i :: 0 <= i < |cs| && cs[i].primary && cs[i].name == name
  {
    if cs != [] {
      PrimaryNamesIff(cs[1..], name);
      if i :| 0 <= i < |cs| && cs[i].primary && cs[i].name == name && i > 0 {
        assert cs[1..][i - 1].primary;
      }
    }
  }

  /** How many columns are neither primary nor foreign keys. */
  function NoKeys(cs: seq<Column>): nat {
    if cs == [] then 0 else (if !cs[0].primary && !cs[0].foreign then 1 else 0) + NoKeys(cs[1..])
  }

  /** Every primary and foreign key column is kept, and of the others as many as the limit allows. */
  lemma {:induction false} KeptCounts(cs: seq<Column>, limit: nat)
    ensures NoKeys(Kept(cs, limit)) == if NoKeys(cs) < limit then NoKeys(cs) else limit
    ensures forall c :: c in cs && (c.primary || c.foreign) ==> c in Kept(cs, limit)
    ensures forall c :: c in Kept(cs, limit) ==> c in cs
  {
    if cs != [] {
      var c, rest := cs[0], cs[1..];
      var left := if c.primary || c.foreign then limit else if limit > 0 then limit - 1 else 0;
      KeptCounts(rest, left);
      assert ([c] + Kept(rest, left))[1..] == Kept(rest, left);
      assert cs == [c] + rest;
    }
  }

  /** No table shows more than eight columns that are no key. */
  lemma AtMostEightPlain(cs: seq<Column>)
    ensures NoKeys(Kept(cs, MAX_PLAIN_COLUMNS)) == if NoKeys(cs) < 8 then NoKeys(cs) else 8
  {
    KeptCounts(cs, MAX_PLAIN_COLUMNS);
  }

  /** `colunasDaTabela`. */
  method Columns(cs: seq<Column>, limit: nat) returns (chosen: seq<ColumnView>, keys: seq<string>)
    ensures chosen == ShownAll(Kept(cs, limit))
    ensures keys == PrimaryNames(cs)
    ensures |chosen| == |Kept(cs, limit)| && forall i :: 0 <= i < |chosen| ==>
      var c := Kept(cs, limit)[i]; chosen[i] == ColumnView(c.name, c.kind, c.nullable, c.primary)
  {
    chosen, keys := [], [];
    var plain := 0;
    for i := 0 to |cs|
      invariant plain <= limit
      invariant chosen + ShownAll(Kept(cs[i..], limit - plain)) == ShownAll(Kept(cs, limit))
      invariant keys + PrimaryNames(cs[i..]) == PrimaryNames(cs)
    {
      var c := cs[i];
      ghost var rest := cs[i + 1..];
      assert cs[i..][0] == c && cs[i..][1..] == rest;
      if c.primary {
        assert keys + ([c.name] + PrimaryNames(rest)) == (keys + [c.name]) + PrimaryNames(rest);
        keys := keys + [c.name];
      } else {
        assert [] + PrimaryNames(rest) == PrimaryNames(rest);
      }
      if !c.primary && !c.foreign {
        if plain >= limit {
          continue;
        }
        plain := plain + 1;
      }
      ghost var later := Kept(rest, limit - plain);
      assert ShownAll([c] + later) == [Shown(c)] + ShownAll(later);
      assert chosen + ([Shown(c)] + ShownAll(later)) == (chosen + [Shown(c)]) + ShownAll(later);
      chosen := chosen + [Shown(c)];
    }
    assert chosen + [] == chosen && keys + [] == keys;
  }

  /** The columns whose table has this key. */
  function ColumnsOf(cs: seq<Column>, key: string): seq<Column> {
    if cs == [] then []
    else
      var n := |cs| - 1;
      ColumnsOf(cs[..n], key) + if Key(cs[n].schema, cs[n].table) == key then [cs[n]] else []
  }

  function ListAt(m: map<string, seq<Column>>, key: string): seq<Column> {
    if key in m then m[key] else []
  }

  method GroupColumns(cs: seq<Column>, drawn: set<string>) returns (m: map<string, seq<Column>>)
    ensures forall key :: key in drawn ==> ListAt(m, key) == ColumnsOf(cs, key)
  {
    m := map[];
    for i := 0 to |cs|
      invariant forall key :: key in drawn ==> ListAt(m, key) == ColumnsOf(cs[..i], key)
    {
      var key := Key(cs[i].schema, cs[i].table);
      assert cs[..i + 1][..i] == cs[..i];
      if key !in drawn {
        continue;
      }
      m := m[key := ListAt(m, key) + [cs[i]]];
    }
    assert cs[..|cs|] == cs;
  }

  // ----- relations

  /** The relations between drawn tables. */
  function Between(rs: seq<Relation>, drawn: set<string>): seq<Relation> {
    if rs == [] then []
    else
      var n := |rs| - 1;
      Between(rs[..n], drawn) + if From(rs[n]) in drawn && To(rs[n]) in drawn then [rs[n]] else []
  }

  lemma {:induction false} BetweenIff(rs: seq<Relation>, drawn: set<string>, r: Relation)
    ensures r in Between(rs, drawn) <==> r in rs && From(r) in drawn && To(r) in drawn
  {
    if rs != [] {
      var n := |rs| - 1;
      BetweenIff(rs[..n], drawn, r);
      assert rs == rs[..n] + [rs[n]];
    }
  }

  method SelectRelations(rs: seq<Relation>, drawn: set<string>) returns (kept: seq<Relation>)
    ensures kept == Between(rs, drawn)
  {
    kept := [];
    for i := 0 to |rs|
      invariant kept == Between(rs[..i], drawn)
    {
      assert rs[..i + 1][..i] == rs[..i];
      if From(rs[i]) !in drawn || To(rs[i]) !in drawn {
        continue;
      }
      kept := kept + [rs[i]];
    }
    assert rs[..|rs|] == rs;
  }

  // ----- the list of schemas

  predicate Ascending(s: seq<string>) {
    forall i, j :: 0 <= i < j < |s| ==> Less(s[i], s[j])
  }

  predicate NoRepeats(s: seq<string>) {
    forall i, j :: 0 <= i < j < |s| ==> s[i] != s[j]
  }

  lemma TextPutAt(s: seq<string>, k: nat, x: string)
    requires k <= |s| && Ascending(s)
    requires (k > 0 ==> Less(s[k - 1], x)) && (k < |s| ==> Less(x, s[k]))
    ensures Ascending(s[..k] + [x] + s[k..])
  {
    forall j | 0 <= j < k ensures Less(s[j], x) {
      if j < k - 1 {
        LessIsTransitive(s[j], s[k - 1], x);
      }
    }
    forall j | k <= j < |s| ensures Less(x, s[j]) {
      if j > k {
        LessIsTransitive(x, s[k], s[j]);
      }
    }
    var r := s[..k] + [x] + s[k..];
    forall i, j | 0 <= i < j < |r| ensures Less(r[i], r[j]) {
      assert r[i] == if i < k then s[i] else if i == k then x else s[i - 1];
      assert r[j] == if j < k then s[j] else if j == k then x else s[j - 1];
    }
  }

  method SortTexts(s: seq<string>) returns (r: seq<string>)
    requires NoRepeats(s)
    ensures Ascending(r) && forall x :: x in r <==> x in s
  {
    r := [];
    for i := 0 to |s|
      invariant Ascending(r) && forall x :: x in r <==> x in s[..i]
    {
      var x := s[i];
      assert s[..i + 1] == s[..i] + [x];
      assert x !in s[..i];
      var k := |r|;
      while k > 0 && Less(x, r[k - 1])
        invariant 0 <= k <= |r|
        invariant k < |r| ==> Less(x, r[k])
      {
        k := k - 1;
      }
      if k > 0 {
        LessIsTotal(x, r[k - 1]);
        assert r[k - 1] in r;
      }
      TextPutAt(r, k, x);
      assert r == r[..k] + r[k..];
      r := r[..k] + [x] + r[k..];
    }
    assert s[..|s|] == s;
  }

  /** The schemas of the tables: each once, in order. */
  method SchemasOf(tables: seq<Table>) returns (schemas: seq<string>)
    ensures Ascending(schemas)
    ensures forall x :: x in schemas <==> exists t :: t in tables && t.schema == x
  {
    var seen: set<string> := {};
    schemas := [];
    for i := 0 to |tables|
      invariant NoRepeats(schemas)
      invariant forall x :: x in schemas <==> x in seen
      invariant forall x :: x in seen <==> exists t :: t in tables[..i] && t.schema == x
    {
      var x := tables[i].schema;
      assert tables[..i + 1] == tables[..i] + [tables[i]];
      if x !in seen {
        seen := seen + {x};
        schemas := schemas + [x];
      }
    }
    assert tables[..|tables|] == tables;
    schemas := SortTexts(schemas);
  }

  // ----- the view

  function ViewOf(t: Table, cs: seq<Column>): TableView {
    TableView(t.schema, t.name, t.rows, t.size, PrimaryNames(cs), ShownAll(Kept(cs, MAX_PLAIN_COLUMNS)))
  }

  function ViewKey(v: TableView): string {
    v.schema + "." + v.name
  }

  function TableOf(v: TableView): Table {
    Table(v.schema, v.name, v.rows, v.size)
  }

  /** The tables behind a view. */
  function Drawn(views: seq<TableView>): seq<Table> {
    seq(|views|, i requires 0 <= i < |views| => TableOf(views[i]))
  }

  predicate Cuts(p: Payload, limit: int) {
    0 < limit < |p.tables|
  }

  /** The tables that may be drawn: all of them, or the most connected. */
  ghost predicate Chosen(p: Payload, tables: seq<Table>, limit: int) {
    if Cuts(p, limit) then MostConnected(p, tables, limit)
    else SameOfKeys(tables, p.tables) && |tables| == |p.tables|
  }

  lemma ChosenOfSame(p: Payload, a: seq<Table>, b: seq<Table>, limit: int)
    requires Chosen(p, a, limit) && SameOfKeys(b, a) && |b| == |a|
    ensures Chosen(p, b, limit)
  {
    if Cuts(p, limit) {
      CutOfSame(p, a, b, limit);
    } else {
      forall key: string ensures OfKey(b, key) == OfKey(p.tables, key) {
        assert OfKey(b, key) == OfKey(a, key);
        assert OfKey(a, key) == OfKey(p.tables, key);
      }
    }
  }

  method Choose(p: Payload, limit: int) returns (chosen: seq<Table>, truncated: bool)
    ensures Chosen(p, chosen, limit) && truncated == Cuts(p, limit)
  {
    chosen, truncated := p.tables, false;
    if limit > 0 && |p.tables| > limit {
      var degree := Degrees(p.relations, Keys(p.tables));
      chosen := TopTables(p, degree, limit);
      truncated := true;
    }
  }

  lemma SameKeys(a: seq<Table>, b: seq<Table>)
    requires SameOfKeys(a, b)
    ensures Keys(a) == Keys(b)
  {
    forall key | key in Keys(a) ensures key in Keys(b) {
      var i: nat :| i < |a| && KeyOf(a[i]) == key;
      var j := HasKey(a, b, i);
      assert b[j] in b;
    }
    forall key | key in Keys(b) ensures key in Keys(a) {
      var i: nat :| i < |b| && KeyOf(b[i]) == key;
      var j := HasKey(b, a, i);
      assert a[j] in a;
    }
  }

  method TableViews(tables: seq<Table>, columns: seq<Column>) returns (views: seq<TableView>)
    ensures Drawn(views) == tables
    ensures forall i :: 0 <= i < |views| ==> views[i] == ViewOf(tables[i], ColumnsOf(columns, KeyOf(tables[i])))
  {
    var byTable := GroupColumns(columns, Keys(tables));
    views := [];
    for i := 0 to |tables|
      invariant |views| == i
      invariant forall k :: 0 <= k < i ==> views[k] == ViewOf(tables[k], ColumnsOf(columns, KeyOf(tables[k])))
    {
      var t := tables[i];
      assert KeyOf(t) in Keys(tables);
      var shown, keys := Columns(ListAt(byTable, KeyOf(t)), MAX_PLAIN_COLUMNS);
      views := views + [TableView(t.schema, t.name, t.rows, t.size, keys, shown)];
    }
  }

  /** `montarEsquema`. */
  method Assemble(p: Payload, limit: int) returns (view: View)
    ensures view.truncated == (0 < limit < |p.tables|) && view.total == |p.tables|
    ensures |view.tables| == if 0 < limit < |p.tables| then limit else |p.tables|
    ensures forall i, j :: 0 <= i < j < |view.tables| ==> !Less(ViewKey(view.tables[j]), ViewKey(view.tables[i]))
    ensures Chosen(p, Drawn(view.tables), limit)
    ensures Ordered(Drawn(view.tables), map[])
    ensures forall v :: v in view.tables ==> v == ViewOf(TableOf(v), ColumnsOf(p.columns, KeyOf(TableOf(v))))
    ensures view.relations == Between(p.relations, Keys(Drawn(view.tables)))
    ensures Ascending(view.schemas)
    ensures forall x :: x in view.schemas <==> exists t :: t in Drawn(view.tables) && t.schema == x
  {
    var chosen, truncated := Choose(p, limit);
    var tables := Sort(chosen, map[]);
    ChosenOfSame(p, chosen, tables, limit);
    SameKeys(tables, chosen);
    var views := TableViews(tables, p.columns);
    var relations := SelectRelations(p.relations, Keys(chosen));
    var schemas := SchemasOf(tables);
    view := View(schemas, views, relations, truncated, |p.tables|);
    forall i, j | 0 <= i < j < |views| ensures !Less(ViewKey(views[j]), ViewKey(views[i])) {
      assert !Before(Drawn(views)[j], Drawn(views)[i], map[]);
    }
    forall v | v in views ensures v == ViewOf(TableOf(v), ColumnsOf(p.columns, KeyOf(TableOf(v)))) {
      var i :| 0 <= i < |views| && views[i] == v;
      assert TableOf(v) == Drawn(views)[i];
    }
  }

  // ----- what a reader of the drawing can rely on

  /** Every drawn table has at least the degree of every omitted one, and of equal degree comes no later by key. */
  lemma OmittedAreNoMoreConnected(p: Payload, chosen: seq<Table>, omitted: seq<Table>, c: Table, o: Table)
    requires Cut(p, chosen, omitted) && c in chosen && o in omitted
    ensures var existing := Keys(p.tables);
      var dc, do_ := Degree(p.relations, existing, KeyOf(c)), Degree(p.relations, existing, KeyOf(o));
      dc >= do_ && (dc == do_ ==> KeyOf(c) == KeyOf(o) || Less(KeyOf(c), KeyOf(o)))
  {
    LessIsTotal(KeyOf(c), KeyOf(o));
  }

  /** A cut is the beginning of the one stable order of all tables: the choice is determined. */
  lemma CutIsDetermined(p: Payload, degree: map<string, nat>, chosen: seq<Table>, omitted: seq<Table>, sorted: seq<Table>)
    requires Counted(degree, p.relations, Keys(p.tables))
    requires Cut(p, chosen, omitted) && Ordered(chosen, degree) && Ordered(omitted, degree)
    requires Ordered(sorted, degree) && SameOfKeys(sorted, p.tables) && |sorted| == |p.tables|
    ensures chosen == sorted[..|chosen|]
  {
    var all := chosen + omitted;
    forall i, j | 0 <= i < j < |all| ensures !Before(all[j], all[i], degree) {
      if i < |chosen| <= j {
        assert all[i] in chosen && all[j] in omitted;
        BeforeIsOutranks(p, degree, all[j], all[i]);
      }
    }
    forall key: string ensures OfKey(all, key) == OfKey(sorted, key) {
      assert OfKey(all, key) == OfKey(p.tables, key);
      assert OfKey(sorted, key) == OfKey(p.tables, key);
    }
    SortIsUnique(all, sorted, degree);
  }

  /** Columns are grouped by the table they name, and keep their order. */
  lemma {:induction false} ColumnsOfIs(cs: seq<Column>, key: string)
    ensures forall c :: c in ColumnsOf(cs, key) <==> c in cs && c.schema + "." + c.table == key
  {
    if cs != [] {
      var n := |cs| - 1;
      ColumnsOfIs(cs[..n], key);
      assert cs == cs[..n] + [cs[n]];
    }
  }

  lemma {:induction false} ColumnsOfAppend(a: seq<Column>, b: seq<Column>, key: string)
    ensures ColumnsOf(a + b, key) == ColumnsOf(a, key) + ColumnsOf(b, key)
  {
    if b == [] {
      assert a + b == a;
    } else {
      var n := |b| - 1;
      ColumnsOfAppend(a, b[..n], key);
      assert (a + b)[..|a + b| - 1] == a + b[..n];
    }
  }

  /** Relations keep their order. */
  lemma {:induction false} BetweenAppend(a: seq<Relation>, b: seq<Relation>, drawn: set<string>)
    ensures Between(a + b, drawn) == Between(a, drawn) + Between(b, drawn)
  {
    if b == [] {
      assert a + b == a;
    } else {
      var n := |b| - 1;
      BetweenAppend(a, b[..n], drawn);
      assert (a + b)[..|a + b| - 1] == a + b[..n];
    }
  }

  /** A relation counts for a table that it names at one end, if both tables it names exist. */
  lemma TouchesSays(r: Relation, existing: set<string>, schema: string, name: string)
    ensures Touches(r, existing, schema + "." + name) <==>
      r.fromSchema + "." + r.fromTable in existing && r.toSchema + "." + r.toTable in existing
      && schema + "." + name in {r.fromSchema + "." + r.fromTable, r.toSchema + "." + r.toTable}
  {
  }

  /** The drawn relations lead only to drawn tables, and without a cut none between existing tables is missing. */
  lemma DrawingIsClosed(p: Payload, tables: seq<Table>, limit: int, r: Relation)
    requires Chosen(p, tables, limit) && r in p.relations
    ensures r in Between(p.relations, Keys(tables)) <==>
      (exists a, b :: a in tables && b in tables && a.schema + "." + a.name == r.fromSchema + "." + r.fromTable
                      && b.schema + "." + b.name == r.toSchema + "." + r.toTable)
    ensures !Cuts(p, limit) ==>
      (r in Between(p.relations, Keys(tables)) <==> From(r) in Keys(p.tables) && To(r) in Keys(p.tables))
  {
    BetweenIff(p.relations, Keys(tables), r);
    if !Cuts(p, limit) {
      SameKeys(tables, p.tables);
    }
    if From(r) in Keys(tables) && To(r) in Keys(tables) {
      var a :| a in tables && KeyOf(a) == From(r);
      var b :| b in tables && KeyOf(b) == To(r);
      assert a.schema + "." + a.name == r.fromSchema + "." + r.fromTable;
      assert b.schema + "." + b.name == r.toSchema + "." + r.toTable;
    }
  }
}

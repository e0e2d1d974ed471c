/**
 Which server an address belongs to. An address collected from a server is
 exclusive among the live servers of its scope; a strong or recent owner is
 never displaced, and a silent one gives way.
 */
module Addresses {
  import opened Basics

  const MINUTE: Time := 60_000_000_000
  const OWNER_WINDOW: Time := 15 * MINUTE
  const MAX_PER_REPORT := 32

  datatype Origin = Collected | Manual

  datatype Row = Row(origin: Origin, first: Time, last: Time)

  /** `unit` is the site of the server; it never changes here. */
  datatype Server = Server(hostIp: string, agent: bool, updatedAt: Time, unit: Option<nat>, live: bool)

  type RowId = (string, string)

  datatype Store = Store(servers: map<string, Server>, rows: map<RowId, Row>)

  /** How an address is read: its canonical form if it is usable, and whether it means the same everywhere. */
  datatype Reader = Reader(valid: string -> Option<string>, global: string -> bool)

  predicate IsLive(db: Store, s: string) {
    s in db.servers && db.servers[s].live
  }

  /** Both servers would answer to the address. */
  predicate SameScope(rd: Reader, db: Store, s: string, t: string, address: string)
    requires IsLive(db, s) && IsLive(db, t)
  {
    rd.global(address) || db.servers[s].unit == db.servers[t].unit
  }

  /** `t` stands in the way of `s` for the address: strong, or heard of since the cutoff. */
  predicate Owns(rd: Reader, db: Store, t: string, s: string, address: string, cutoff: Time)
    requires IsLive(db, s)
  {
    && t != s && IsLive(db, t) && SameScope(rd, db, s, t, address)
    && (|| (db.servers[t].hostIp == address && (!db.servers[t].agent || db.servers[t].updatedAt >= cutoff))
        || ((t, address) in db.rows
            && (db.rows[(t, address)].origin == Manual || db.rows[(t, address)].last >= cutoff)))
  }

  predicate Owned(rd: Reader, db: Store, s: string, address: string, cutoff: Time)
    requires IsLive(db, s)
  {
    exists t :: t in db.servers && Owns(rd, db, t, s, address, cutoff)
  }

  /** `t` holds a collected row for the address that `s` takes over. */
  predicate Yields(rd: Reader, db: Store, t: string, s: string, address: string, cutoff: Time)
    requires IsLive(db, s)
  {
    && t != s && IsLive(db, t) && SameScope(rd, db, s, t, address)
    && (t, address) in db.rows && db.rows[(t, address)].origin == Collected && db.rows[(t, address)].last < cutoff
  }

  // ----- the statements

  /** INSERT .. ON CONFLICT: what the row is after the write. */
  function Upserted(old_: Option<Row>, origin: Origin, now: Time): Row {
    match old_
    case None => Row(origin, now, now)
    case Some(r) => if origin == Manual then r.(last := now, origin := Manual) else r.(last := now)
  }

  function RowAt(rows: map<RowId, Row>, k: RowId): Option<Row> {
    if k in rows then Some(rows[k]) else None
  }

  function Write(rows: map<RowId, Row>, s: string, addresses: set<string>, origin: Origin, now: Time): map<RowId, Row> {
    rows + map a | a in addresses :: (s, a) := Upserted(RowAt(rows, (s, a)), origin, now)
  }

  predicate Accepts(rd: Reader, db: Store, s: string, address: string, now: Time)
    requires IsLive(db, s)
  {
    !Owned(rd, db, s, address, now - OWNER_WINDOW)
  }

  /** The rows after the silent owners of the accepted addresses have given way. */
  function WithoutIdle(rd: Reader, db: Store, s: string, accepted: set<string>, now: Time): map<RowId, Row>
    requires IsLive(db, s)
  {
    map k | k in db.rows && !(k.1 in accepted && Yields(rd, db, k.0, s, k.1, now - OWNER_WINDOW)) :: db.rows[k]
  }

  /** `gravarEnderecos` with collected addresses, already canonical and within the cap. */
  function Collect(rd: Reader, db: Store, s: string, addresses: set<string>, now: Time): Store {
    if s == "" || !IsLive(db, s) then db
    else
      var accepted := set a | a in addresses && Accepts(rd, db, s, a, now);
      db.(rows := Write(WithoutIdle(rd, db, s, accepted, now), s, accepted, Collected, now))
  }

  function Alias(db: Store, s: string, addresses: set<string>, now: Time): Store {
    if s == "" then db else db.(rows := Write(db.rows, s, addresses, Manual, now))
  }

  /** The rows without the aliases of `s` that are not in the list. */
  function KeepAliases(rows: map<RowId, Row>, s: string, listed: set<string>): map<RowId, Row> {
    map k | k in rows && !(k.0 == s && rows[k].origin == Manual && k.1 !in listed) :: rows[k]
  }

  /** `SubstituirAliases`: what is not in the list as given goes; the usable addresses of the list are written. */
  function ReplaceAliases(db: Store, s: string, listed: set<string>, addresses: set<string>, now: Time): Store {
    if s == "" then db
    else Alias(db.(rows := KeepAliases(db.rows, s, listed)), s, addresses, now)
  }

  /** `PodarEnderecos` */
  function Prune(db: Store, cutoff: Time): Store {
    db.(rows := map k | k in db.rows && !(db.rows[k].origin == Collected && db.rows[k].last < cutoff) :: db.rows[k])
  }

  datatype Step =
    | CollectStep(server: string, addresses: set<string>, at: Time)
    | AliasStep(server: string, addresses: set<string>, at: Time)
    | ReplaceStep(server: string, listed: set<string>, addresses: set<string>, at: Time)
    | PruneStep(cutoff: Time)
    | NewServer(id: string, row: Server)
    | HostStep(id: string, hostIp: string, at: Time)
    | RemoveServer(id: string)
    | ClearServer(id: string)

  /** A new server has a new id, with no address rows; a removed one does not come back. */
  predicate Enabled(db: Store, step: Step) {
    match step
    case NewServer(id, _) => id !in db.servers && forall k :: k in db.rows ==> k.0 != id
    case _ => true
  }

  function Apply(rd: Reader, db: Store, step: Step): Store
    requires Enabled(db, step)
  {
    match step
    case CollectStep(s, addresses, at) => Collect(rd, db, s, addresses, at)
    case AliasStep(s, addresses, at) => Alias(db, s, addresses, at)
    case ReplaceStep(s, listed, addresses, at) => ReplaceAliases(db, s, listed, addresses, at)
    case PruneStep(cutoff) => Prune(db, cutoff)
    case NewServer(id, row) => db.(servers := db.servers[id := row])
    case HostStep(id, hostIp, at) =>
      if id in db.servers then db.(servers := db.servers[id := db.servers[id].(hostIp := hostIp, updatedAt := at)]) else db
    case RemoveServer(id) =>
      if id in db.servers then db.(servers := db.servers[id := db.servers[id].(live := false)]) else db
    case ClearServer(id) => db.(rows := map k | k in db.rows && k.0 != id :: db.rows[k])
  }

  // ----- exclusive ownership

  predicate Holds(db: Store, s: string, address: string) {
    IsLive(db, s) && (s, address) in db.rows && db.rows[(s, address)].origin == Collected
  }

  /** No two live servers of one scope hold the same collected address. */
  ghost predicate Exclusive(rd: Reader, db: Store) {
    forall s, t, a :: s != t && Holds(db, s, a) && Holds(db, t, a) ==> !SameScope(rd, db, s, t, a)
  }

  lemma CollectExclusive(rd: Reader, db: Store, s: string, addresses: set<string>, now: Time)
    requires Exclusive(rd, db)
    ensures Exclusive(rd, Collect(rd, db, s, addresses, now))
  {
    var after := Collect(rd, db, s, addresses, now);
    if s != "" && IsLive(db, s) {
      forall t, u, a | t != u && Holds(after, t, a) && Holds(after, u, a) ensures !SameScope(rd, after, t, u, a) {
        if Holds(db, t, a) && Holds(db, u, a) {
        } else if t == s {
          NewHolderAlone(rd, db, s, addresses, now, u, a);
        } else {
          NewHolderAlone(rd, db, s, addresses, now, t, a);
        }
      }
    }
  }

  /** When `s` gets an address, whoever else still holds it is out of its scope. */
  lemma NewHolderAlone(rd: Reader, db: Store, s: string, addresses: set<string>, now: Time, t: string, a: string)
    requires s != "" && IsLive(db, s) && t != s && a in addresses && Accepts(rd, db, s, a, now)
    requires Holds(Collect(rd, db, s, addresses, now), t, a)
    ensures !SameScope(rd, db, s, t, a) && Holds(db, t, a)
  {
  }

  /** Every step keeps collected addresses exclusive. */
  lemma StepExclusive(rd: Reader, db: Store, step: Step)
    requires Exclusive(rd, db) && Enabled(db, step)
    ensures Exclusive(rd, Apply(rd, db, step))
  {
    if step.CollectStep? {
      CollectExclusive(rd, db, step.server, step.addresses, step.at);
    } else {
      var after := Apply(rd, db, step);
      forall t, u, a | t != u && Holds(after, t, a) && Holds(after, u, a) ensures !SameScope(rd, after, t, u, a) {
        assert Holds(db, t, a) && Holds(db, u, a);
      }
    }
  }

  lemma StepKeepsExclusive(rd: Reader, db: Store, step: Step)
    requires Enabled(db, step)
    ensures Exclusive(rd, db) ==> Exclusive(rd, Apply(rd, db, step))
  {
    if Exclusive(rd, db) {
      StepExclusive(rd, db, step);
    }
  }

  predicate Admissible(rd: Reader, db: Store, steps: seq<Step>)
    decreases |steps|
  {
    steps == [] || (Enabled(db, steps[0]) && Admissible(rd, Apply(rd, db, steps[0]), steps[1..]))
  }

  function Run(rd: Reader, db: Store, steps: seq<Step>): Store
    requires Admissible(rd, db, steps)
    decreases |steps|
  {
    if steps == [] then db else Run(rd, Apply(rd, db, steps[0]), steps[1..])
  }

  /** However collection, aliases, pruning and changes of servers interleave, collected addresses stay exclusive. */
  lemma {:induction false} RunExclusive(rd: Reader, db: Store, steps: seq<Step>)
    requires Exclusive(rd, db) && Admissible(rd, db, steps)
    ensures Exclusive(rd, Run(rd, db, steps))
    decreases |steps|
  {
    if steps != [] {
      StepExclusive(rd, db, steps[0]);
      RunExclusive(rd, Apply(rd, db, steps[0]), steps[1..]);
    }
  }

  /**
   What one report displaces: the row of another server goes exactly when the
   reporter may have the address and that server only holds it from a
   collection older than the window.
   */
  lemma DisplacedIffIdle(rd: Reader, db: Store, s: string, addresses: set<string>, now: Time, t: string, a: string)
    requires s != "" && IsLive(db, s) && t != s && (t, a) in db.rows
    ensures (t, a) !in Collect(rd, db, s, addresses, now).rows <==>
            a in addresses && Accepts(rd, db, s, a, now) && Yields(rd, db, t, s, a, now - OWNER_WINDOW)
    ensures (t, a) in Collect(rd, db, s, addresses, now).rows ==>
            Collect(rd, db, s, addresses, now).rows[(t, a)] == db.rows[(t, a)]
  {
  }

  /** An owner that is strong, or was heard of within the window, keeps its row, and the reporter gets none. */
  lemma OwnerStays(rd: Reader, db: Store, s: string, addresses: set<string>, now: Time, t: string, a: string)
    requires s != "" && IsLive(db, s) && t in db.servers && Owns(rd, db, t, s, a, now - OWNER_WINDOW)
    ensures RowAt(Collect(rd, db, s, addresses, now).rows, (t, a)) == RowAt(db.rows, (t, a))
    ensures RowAt(Collect(rd, db, s, addresses, now).rows, (s, a)) == RowAt(db.rows, (s, a))
  {
  }

  // ----- one report, by rows

  /** Both addresses mean the same: one that is global, or servers of one unit. */
  predicate Conflicts(rd: Reader, db: Store, s: string, t: string, a: string) {
    && s in db.servers && t in db.servers && s != t && db.servers[s].live && db.servers[t].live
    && (rd.global(a) || db.servers[s].unit == db.servers[t].unit)
  }

  /** `t` has the address as its own: a server without an agent, or one heard of in the last fifteen minutes. */
  predicate HasAsHost(db: Store, t: string, a: string, now: Time) {
    && t in db.servers && db.servers[t].hostIp == a
    && (!db.servers[t].agent || db.servers[t].updatedAt >= now - 900_000_000_000)
  }

  /** `t` has a row for the address: an alias, or one seen in the last fifteen minutes. */
  predicate HasAsRow(db: Store, t: string, a: string, now: Time) {
    (t, a) in db.rows && (db.rows[(t, a)].origin == Manual || db.rows[(t, a)].last >= now - 900_000_000_000)
  }

  /** Some other server in conflict has the address. */
  predicate HeldElsewhere(rd: Reader, db: Store, s: string, a: string, now: Time) {
    exists t :: t in db.servers && Conflicts(rd, db, s, t, a) && (HasAsHost(db, t, a, now) || HasAsRow(db, t, a, now))
  }

  lemma HeldIsOwned(rd: Reader, db: Store, s: string, a: string, now: Time)
    requires IsLive(db, s)
    ensures HeldElsewhere(rd, db, s, a, now) <==> !Accepts(rd, db, s, a, now)
  {
    var cutoff := now - OWNER_WINDOW;
    if Owned(rd, db, s, a, cutoff) {
      var t :| t in db.servers && Owns(rd, db, t, s, a, cutoff);
      assert Conflicts(rd, db, s, t, a) && (HasAsHost(db, t, a, now) || HasAsRow(db, t, a, now));
    }
    if HeldElsewhere(rd, db, s, a, now) {
      var t :| t in db.servers && Conflicts(rd, db, s, t, a) && (HasAsHost(db, t, a, now) || HasAsRow(db, t, a, now));
      assert Owns(rd, db, t, s, a, cutoff);
    }
  }

  /**
   The reporter gets a row seen now for every address nobody else has, new or
   with its origin and first sight kept; for an address somebody has, and for
   one it did not report, its row stays as it was.
   */
  lemma ReporterRows(rd: Reader, db: Store, s: string, addresses: set<string>, now: Time, a: string)
    requires s != "" && IsLive(db, s)
    ensures var rows, after := db.rows, Collect(rd, db, s, addresses, now).rows;
      if a in addresses && !HeldElsewhere(rd, db, s, a, now)
      then (s, a) in after && after[(s, a)] ==
             if (s, a) in rows then Row(rows[(s, a)].origin, rows[(s, a)].first, now) else Row(Collected, now, now)
      else RowAt(after, (s, a)) == RowAt(rows, (s, a))
  {
    HeldIsOwned(rd, db, s, a, now);
  }

  /** Another server loses its row exactly to a reporter in conflict, for a collected row not seen for fifteen minutes. */
  lemma OtherRows(rd: Reader, db: Store, s: string, addresses: set<string>, now: Time, t: string, a: string)
    requires s != "" && IsLive(db, s) && t != s && (t, a) in db.rows
    ensures var r, after := db.rows[(t, a)], Collect(rd, db, s, addresses, now).rows;
      && ((t, a) !in after <==> a in addresses && !HeldElsewhere(rd, db, s, a, now) && Conflicts(rd, db, s, t, a)
                                && r.origin == Collected && r.last < now - 900_000_000_000)
      && ((t, a) in after ==> after[(t, a)] == r)
  {
    HeldIsOwned(rd, db, s, a, now);
    DisplacedIffIdle(rd, db, s, addresses, now, t, a);
  }

  /** Aliases are written over anybody: manual, seen now, with the first sight kept. */
  lemma AliasRows(db: Store, s: string, addresses: set<string>, now: Time, k: RowId)
    requires s != ""
    ensures var after := Alias(db, s, addresses, now).rows;
      if k.0 == s && k.1 in addresses
      then k in after && after[k] == Row(Manual, if k in db.rows then db.rows[k].first else now, now)
      else RowAt(after, k) == RowAt(db.rows, k)
  {
  }

  /** Replacing aliases drops exactly those not listed; rows that were collected stay. */
  lemma ReplacedRows(db: Store, s: string, listed: set<string>, addresses: set<string>, now: Time, k: RowId)
    requires s != "" && !(k.0 == s && k.1 in addresses)
    ensures RowAt(ReplaceAliases(db, s, listed, addresses, now).rows, k) ==
      if k.0 == s && k in db.rows && db.rows[k].origin == Manual && k.1 !in listed then None else RowAt(db.rows, k)
  {
  }

  // ----- `gravarEnderecos`

  /** The usable addresses of a report: canonical, each once, in order. */
  function Canonical(rd: Reader, raw: seq<string>): seq<string> {
    if raw == [] then []
    else
      var before, a := Canonical(rd, raw[..|raw| - 1]), rd.valid(raw[|raw| - 1]);
      if a.None? || a.value in before then before else before + [a.value]
  }

  /** Exactly the usable addresses, each once. */
  lemma {:induction false} CanonicalSays(rd: Reader, raw: seq<string>)
    ensures forall a :: a in Canonical(rd, raw) <==> exists i :: 0 <= i < |raw| && rd.valid(raw[i]) == Some(a)
    ensures forall i, j :: 0 <= i < j < |Canonical(rd, raw)| ==> Canonical(rd, raw)[i] != Canonical(rd, raw)[j]
  {
    if raw != [] {
      var n := |raw| - 1;
      CanonicalSays(rd, raw[..n]);
      forall a ensures a in Canonical(rd, raw) <==> exists i :: 0 <= i < |raw| && rd.valid(raw[i]) == Some(a) {
        if a in Canonical(rd, raw[..n]) {
          var i :| 0 <= i < n && rd.valid(raw[..n][i]) == Some(a);
          assert rd.valid(raw[i]) == Some(a);
        }
        if i :| 0 <= i < |raw| && rd.valid(raw[i]) == Some(a) && i < n {
          assert rd.valid(raw[..n][i]) == Some(a);
        }
      }
    }
  }

  /** They come in the order in which they are first reported. */
  lemma {:induction false} CanonicalOrder(rd: Reader, raw: seq<string>, n: nat)
    requires n <= |raw|
    ensures Canonical(rd, raw[..n]) <= Canonical(rd, raw)
    decreases |raw| - n
  {
    if n < |raw| {
      CanonicalOrder(rd, raw, n + 1);
      assert raw[..n + 1][..n] == raw[..n];
    } else {
      assert raw[..n] == raw;
    }
  }

  function First(s: seq<string>, n: nat): seq<string> {
    if |s| <= n then s else s[..n]
  }

  function AsSet(s: seq<string>): set<string> {
    set a | a in s
  }

  /** What the candidate query returns about one other server and one address. */
  datatype Candidate = Candidate(address: string, server: string, strong: bool, seen: Time, collected: bool)

  /** The candidate comes from the server's own address, or from its row for the address. */
  predicate FromHost(db: Store, c: Candidate) {
    && c.server in db.servers && db.servers[c.server].hostIp == c.address && !c.collected
    && c.strong == !db.servers[c.server].agent && c.seen == db.servers[c.server].updatedAt
  }

  predicate FromRow(db: Store, c: Candidate) {
    && (c.server, c.address) in db.rows
    && c.strong == (db.rows[(c.server, c.address)].origin == Manual)
    && c.collected == (db.rows[(c.server, c.address)].origin == Collected)
    && c.seen == db.rows[(c.server, c.address)].last
  }

  /** The result of the query: every live server but the reporter, through its host address and through its rows. */
  ghost predicate IsResult(db: Store, s: string, addresses: seq<string>, cs: seq<Candidate>) {
    && (forall c :: c in cs ==> c.server != s && IsLive(db, c.server) && c.address in addresses
                                && (FromHost(db, c) || FromRow(db, c)))
    && (forall t, a :: t != s && IsLive(db, t) && a in addresses && db.servers[t].hostIp == a ==>
          exists c :: c in cs && c.server == t && c.address == a && FromHost(db, c))
    && (forall t, a :: t != s && IsLive(db, t) && a in addresses && (t, a) in db.rows ==>
          exists c :: c in cs && c.server == t && c.address == a && FromRow(db, c))
  }

  predicate InScope(rd: Reader, db: Store, s: string, c: Candidate)
    requires IsLive(db, s)
  {
    IsLive(db, c.server) && SameScope(rd, db, s, c.server, c.address)
  }

  /** The candidate owns the address, or only idles on it. */
  predicate OwnsIt(c: Candidate, cutoff: Time) {
    c.strong || c.seen >= cutoff
  }

  predicate IdlesOnIt(c: Candidate, cutoff: Time) {
    !OwnsIt(c, cutoff) && c.collected
  }

  lemma OwnersAreOwned(rd: Reader, db: Store, s: string, addresses: seq<string>, cs: seq<Candidate>, a: string, cutoff: Time)
    requires IsLive(db, s) && IsResult(db, s, addresses, cs) && a in addresses
    ensures Owned(rd, db, s, a, cutoff) <==>
            exists c :: c in cs && c.address == a && InScope(rd, db, s, c) && OwnsIt(c, cutoff)
  {
    if Owned(rd, db, s, a, cutoff) {
      var t :| t in db.servers && Owns(rd, db, t, s, a, cutoff);
      if db.servers[t].hostIp == a && (!db.servers[t].agent || db.servers[t].updatedAt >= cutoff) {
        var c :| c in cs && c.server == t && c.address == a && FromHost(db, c);
        assert OwnsIt(c, cutoff) && InScope(rd, db, s, c);
      } else {
        var c :| c in cs && c.server == t && c.address == a && FromRow(db, c);
        assert OwnsIt(c, cutoff) && InScope(rd, db, s, c);
      }
    }
    if c :| c in cs && c.address == a && InScope(rd, db, s, c) && OwnsIt(c, cutoff) {
      assert Owns(rd, db, c.server, s, a, cutoff);
    }
  }

  lemma IdlersYield(rd: Reader, db: Store, s: string, addresses: seq<string>, cs: seq<Candidate>,
                    t: string, a: string, cutoff: Time)
    requires IsLive(db, s) && IsResult(db, s, addresses, cs) && a in addresses
    ensures Yields(rd, db, t, s, a, cutoff) <==>
            exists c :: c in cs && c.address == a && c.server == t && InScope(rd, db, s, c) && IdlesOnIt(c, cutoff)
  {
    if Yields(rd, db, t, s, a, cutoff) {
      var c :| c in cs && c.server == t && c.address == a && FromRow(db, c);
      assert InScope(rd, db, s, c) && IdlesOnIt(c, cutoff);
    }
    if c :| c in cs && c.address == a && c.server == t && InScope(rd, db, s, c) && IdlesOnIt(c, cutoff) {
      assert FromRow(db, c);
    }
  }

  /** The addresses somebody owns, and the (server, address) pairs that only idle. */
  ghost predicate Sorts(rd: Reader, db: Store, s: string, cs: seq<Candidate>, cutoff: Time,
                        owners: set<string>, idle: set<RowId>)
    requires IsLive(db, s)
  {
    && (forall a :: a in owners <==> exists c :: c in cs && c.address == a && InScope(rd, db, s, c) && OwnsIt(c, cutoff))
    && (forall t, a :: (t, a) in idle <==>
          exists c :: c in cs && c.address == a && c.server == t && InScope(rd, db, s, c) && IdlesOnIt(c, cutoff))
  }

  lemma AsSetPush(s: seq<string>, i: nat)
    requires i < |s|
    ensures AsSet(s[..i + 1]) == AsSet(s[..i]) + {s[i]}
    ensures i + 1 == |s| ==> AsSet(s) == AsSet(s[..i]) + {s[i]}
  {
  }

  /** Writing one address more, again or for the first time. */
  lemma WriteOne(rows: map<RowId, Row>, s: string, done: set<string>, a: string, origin: Origin, now: Time)
    ensures var sofar := Write(rows, s, done, origin, now);
      Write(rows, s, done + {a}, origin, now) == sofar[(s, a) := Upserted(RowAt(sofar, (s, a)), origin, now)]
  {
  }

  lemma CollectIs(rd: Reader, db: Store, s: string, addresses: seq<string>, accepted: seq<string>, now: Time)
    requires s != "" && IsLive(db, s) && AsSet(accepted) == set a | a in addresses && Accepts(rd, db, s, a, now)
    ensures Collect(rd, db, s, AsSet(addresses), now) == db.(
      rows := Write(WithoutIdle(rd, db, s, AsSet(accepted), now), s, AsSet(accepted), Collected, now))
  {
    assert (set a | a in AsSet(addresses) && Accepts(rd, db, s, a, now)) == AsSet(accepted);
  }

  class Registry {
    const rd: Reader
    var servers: map<string, Server>
    var rows: map<RowId, Row>

    constructor (rd: Reader)
      ensures this.rd == rd && Db() == Store(map[], map[])
    {
      this.rd := rd;
      servers, rows := map[], map[];
    }

    function Db(): Store
      reads this
    {
      Store(servers, rows)
    }

    /** The first loop of `gravarEnderecos`. */
    method Normalize(raw: seq<string>) returns (r: seq<string>)
      ensures r == Canonical(rd, raw)
      ensures forall a :: a in r <==> exists i :: 0 <= i < |raw| && rd.valid(raw[i]) == Some(a)
      ensures forall i, j :: 0 <= i < j < |r| ==> r[i] != r[j]
    {
      CanonicalSays(rd, raw);
      r := [];
      var seen: set<string> := {};
      for i := 0 to |raw|
        invariant r == Canonical(rd, raw[..i]) && seen == AsSet(r)
      {
        assert raw[..i + 1][..i] == raw[..i];
        var a := rd.valid(raw[i]);
        if a.None? || a.value in seen {
          continue;
        }
        seen := seen + {a.value};
        r := r + [a.value];
      }
      assert raw[..|raw|] == raw;
    }

    /** The loop of `filtrarPorDono` over the candidates. */
    method Survey(s: string, cs: seq<Candidate>, cutoff: Time) returns (owners: set<string>, idle: set<RowId>)
      requires IsLive(Db(), s)
      ensures Sorts(rd, Db(), s, cs, cutoff, owners, idle)
    {
      owners, idle := {}, {};
      for i := 0 to |cs|
        invariant Sorts(rd, Db(), s, cs[..i], cutoff, owners, idle)
      {
        assert cs[..i + 1] == cs[..i] + [cs[i]];
        var c := cs[i];
        if !InScope(rd, Db(), s, c) {
          continue;
        }
        if c.strong || c.seen >= cutoff {
          owners := owners + {c.address};
          continue;
        }
        if c.collected {
          idle := idle + {(c.server, c.address)};
        }
      }
      assert cs[..|cs|] == cs;
    }

    /** The loop of `filtrarPorDono` over the addresses. */
    method Divide(addresses: seq<string>, owners: set<string>, idle: set<RowId>)
      returns (accepted: seq<string>, refused: seq<string>)
      modifies this`rows
      ensures AsSet(accepted) == AsSet(addresses) - owners && AsSet(refused) == AsSet(addresses) * owners
      ensures rows == map k | k in old(rows) && !(k.1 in accepted && k in idle && old(rows)[k].origin == Collected)
                        :: old(rows)[k]
    {
      accepted, refused := [], [];
      for i := 0 to |addresses|
        invariant AsSet(accepted) == AsSet(addresses[..i]) - owners
        invariant AsSet(refused) == AsSet(addresses[..i]) * owners
        invariant rows == map k | k in old(rows) && !(k.1 in accepted && k in idle && old(rows)[k].origin == Collected)
                            :: old(rows)[k]
      {
        var a := addresses[i];
        AsSetPush(addresses, i);
        AsSetPush(accepted + [a], |accepted|);
        AsSetPush(refused + [a], |refused|);
        assert (accepted + [a])[..|accepted|] == accepted && (refused + [a])[..|refused|] == refused;
        if a in owners {
          refused := refused + [a];
          continue;
        }
        rows := map k | k in rows && !(k.1 == a && k in idle && rows[k].origin == Collected) :: rows[k];
        accepted := accepted + [a];
      }
      assert addresses[..|addresses|] == addresses;
    }

    /** `filtrarPorDono`: refuse what is owned, take over what only idles. */
    method Filter(s: string, addresses: seq<string>, cs: seq<Candidate>, now: Time)
      returns (accepted: seq<string>, refused: seq<string>)
      requires IsLive(Db(), s) && IsResult(Db(), s, addresses, cs)
      modifies this`rows
      ensures AsSet(accepted) == set a | a in addresses && Accepts(rd, old(Db()), s, a, now)
      ensures AsSet(refused) == set a | a in addresses && !Accepts(rd, old(Db()), s, a, now)
      ensures rows == WithoutIdle(rd, old(Db()), s, AsSet(accepted), now)
    {
      ghost var db := Db();
      var owners, idle := Survey(s, cs, now - OWNER_WINDOW);
      accepted, refused := Divide(addresses, owners, idle);
      FilteredIs(rd, db, s, addresses, cs, now, owners, idle, accepted, rows);
    }

    /** `gravarEnderecos` for collected addresses; a server that is not live writes nothing. */
    method RecordCollected(s: string, raw: seq<string>, cs: seq<Candidate>, now: Time)
      requires s != "" && IsLive(Db(), s) ==> IsResult(Db(), s, First(Canonical(rd, raw), 32), cs)
      modifies this`rows
      ensures Db() == Collect(rd, old(Db()), s, AsSet(First(Canonical(rd, raw), 32)), now)
    {
      if s == "" {
        return;
      }
      var addresses := Normalize(raw);
      if |addresses| > MAX_PER_REPORT {
        addresses := addresses[..MAX_PER_REPORT];
      }
      if !IsLive(Db(), s) {
        return;
      }
      var accepted, _ := Filter(s, addresses, cs, now);
      CollectIs(rd, old(Db()), s, addresses, accepted, now);
      UpsertAll(s, accepted, Collected, now);
    }

    /** The insert-or-update of `gravarEnderecos`. */
    method UpsertAll(s: string, addresses: seq<string>, origin: Origin, now: Time)
      modifies this`rows
      ensures rows == Write(old(rows), s, AsSet(addresses), origin, now)
    {
      ghost var before := rows;
      assert AsSet(addresses[..0]) == {};
      for i := 0 to |addresses|
        invariant rows == Write(before, s, AsSet(addresses[..i]), origin, now)
      {
        AsSetPush(addresses, i);
        WriteOne(before, s, AsSet(addresses[..i]), addresses[i], origin, now);
        var k := (s, addresses[i]);
        if k !in rows {
          rows := rows[k := Row(origin, now, now)];
        } else if origin == Manual {
          rows := rows[k := rows[k].(last := now, origin := Manual)];
        } else {
          rows := rows[k := rows[k].(last := now)];
        }
      }
      assert addresses[..|addresses|] == addresses;
    }

    /** `RegistrarAliases`: every usable address of the list, whoever owns it. */
    method AddAliases(s: string, raw: seq<string>, now: Time)
      modifies this`rows
      ensures Db() == Alias(old(Db()), s, AsSet(Canonical(rd, raw)), now)
    {
      if s == "" {
        return;
      }
      var addresses := Normalize(raw);
      UpsertAll(s, addresses, Manual, now);
    }

    /** `SubstituirAliases` */
    method SetAliases(s: string, raw: seq<string>, now: Time)
      modifies this`rows
      ensures Db() == ReplaceAliases(old(Db()), s, AsSet(raw), AsSet(Canonical(rd, raw)), now)
    {
      if s == "" {
        return;
      }
      rows := KeepAliases(rows, s, AsSet(raw));
      AddAliases(s, raw, now);
    }

    /** `PodarEnderecos` */
    method Expire(cutoff: Time)
      modifies this`rows
      ensures Db() == Prune(old(Db()), cutoff)
      ensures forall k :: k in rows ==> k in old(rows) && rows[k] == old(rows)[k]
                                        && (rows[k].origin == Manual || rows[k].last >= cutoff)
      ensures forall k :: k in old(rows) && k !in rows ==> old(rows)[k].origin == Collected && old(rows)[k].last < cutoff
      ensures old(Exclusive(rd, Db())) ==> Exclusive(rd, Db())
    {
      StepKeepsExclusive(rd, Db(), PruneStep(cutoff));
      rows := map k | k in rows && !(rows[k].origin == Collected && rows[k].last < cutoff) :: rows[k];
    }
  }

  lemma FilteredIs(rd: Reader, db: Store, s: string, addresses: seq<string>, cs: seq<Candidate>, now: Time,
                   owners: set<string>, idle: set<RowId>, accepted: seq<string>, rows: map<RowId, Row>)
    requires IsLive(db, s) && IsResult(db, s, addresses, cs)
    requires Sorts(rd, db, s, cs, now - OWNER_WINDOW, owners, idle)
    requires AsSet(accepted) == AsSet(addresses) - owners
    requires rows == map k | k in db.rows && !(k.1 in accepted && k in idle && db.rows[k].origin == Collected)
                       :: db.rows[k]
    ensures forall a :: a in addresses ==> (Accepts(rd, db, s, a, now) <==> a !in owners)
    ensures rows == WithoutIdle(rd, db, s, AsSet(accepted), now)
  {
    var cutoff := now - OWNER_WINDOW;
    forall a | a in addresses ensures Accepts(rd, db, s, a, now) <==> a !in owners {
      OwnersAreOwned(rd, db, s, addresses, cs, a, cutoff);
    }
    forall k | k in db.rows && k.1 in AsSet(accepted)
      ensures (k in idle && db.rows[k].origin == Collected) <==> Yields(rd, db, k.0, s, k.1, cutoff)
    {
      IdlersYield(rd, db, s, addresses, cs, k.0, k.1, cutoff);
      assert k == (k.0, k.1);
    }
  }
}

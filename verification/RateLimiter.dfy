/**
 The sliding log behind the rate limits: marks are filtered in place, a use is
 granted while fewer than the limit are live, and a table over its cap evicts
 stale keys first and then the keys with the fewest marks.
 */
module RateLimiter {
  import opened Basics

  const SECOND: Time := 1_000_000_000

  /** The marks after the cutoff, in order. */
  function Live(marks: seq<Time>, cutoff: Time): seq<Time> {
    if marks == [] then []
    else
      var m, rest := marks[|marks| - 1], Live(marks[..|marks| - 1], cutoff);
      if m > cutoff then rest + [m] else rest
  }

  /** The in-place filter over the slice's own array; the tail beyond it is not touched. */
  method FilterInPlace(a: array<Time>, n: nat, cutoff: Time) returns (kept: nat)
    requires n <= a.Length
    modifies a
    ensures kept <= n && a[..kept] == Live(old(a[..n]), cutoff)
    ensures a[n..] == old(a[n..])
  {
    kept := 0;
    for i := 0 to n
      invariant kept <= i
      invariant a[..kept] == Live(old(a[..n])[..i], cutoff)
      invariant a[i..] == old(a[i..])
    {
      assert old(a[..n])[..i + 1][..i] == old(a[..n])[..i];
      assert a[i] == a[i..][0] == old(a[i]);
      if a[i] > cutoff {
        a[kept] := a[i];
        kept := kept + 1;
        assert a[..kept] == a[..kept - 1] + [a[kept - 1]];
      }
      assert a[i + 1..] == old(a[i..])[1..];
    }
    assert old(a[..n])[..n] == old(a[..n]);
  }

  // ----- one key

  /** `usar` on the marks of one key: what is kept, and whether the use is granted. */
  function Used(marks: seq<Time>, now: Time, limit: nat, span: nat): seq<Time> {
    var live := Live(marks, now - span);
    if |live| >= limit then live else live + [now]
  }

  predicate Granted(marks: seq<Time>, now: Time, limit: nat, span: nat) {
    |Live(marks, now - span)| < limit
  }

  /** How long a refused caller is told to wait. */
  function Wait(marks: seq<Time>, now: Time, limit: nat, span: nat): Time
    requires limit > 0 && !Granted(marks, now, limit, span)
  {
    var left := Live(marks, now - span)[0] + span - now;
    if left < SECOND then SECOND else left
  }

  /** Filtering again later gives what one filter gives. */
  lemma {:induction false} LiveTwice(marks: seq<Time>, cutoff: Time, later: Time)
    requires cutoff <= later
    ensures Live(Live(marks, cutoff), later) == Live(marks, later)
  {
    if marks != [] {
      var n := |marks| - 1;
      LiveTwice(marks[..n], cutoff, later);
      if marks[n] > cutoff {
        LiveAppend(Live(marks[..n], cutoff), marks[n], later);
      }
    }
  }

  lemma LiveAppend(marks: seq<Time>, m: Time, cutoff: Time)
    ensures Live(marks + [m], cutoff) == if m > cutoff then Live(marks, cutoff) + [m] else Live(marks, cutoff)
  {
  }

  /** The marks a key is left with, and the uses it was granted. */
  datatype Log = Log(marks: seq<Time>, grants: seq<Time>)

  function Use(log: Log, now: Time, limit: nat, span: nat): Log {
    Log(Used(log.marks, now, limit, span),
        if Granted(log.marks, now, limit, span) then log.grants + [now] else log.grants)
  }

  /** A key used at the given instants. */
  function Uses(times: seq<Time>, limit: nat, span: nat): Log {
    if times == [] then Log([], [])
    else Use(Uses(times[..|times| - 1], limit, span), times[|times| - 1], limit, span)
  }

  /** The instants come in order, the last one no later than `t`. */
  predicate UpTo(times: seq<Time>, t: Time) {
    times == [] || (times[|times| - 1] <= t && UpTo(times[..|times| - 1], times[|times| - 1]))
  }

  predicate Stands(log: Log, cutoff: Time) {
    Live(log.marks, cutoff) == Live(log.grants, cutoff)
  }

  lemma LiveLater(live: seq<Time>, grants: seq<Time>, now: Time, cutoff: Time, later: Time)
    requires live == Live(grants, cutoff) && cutoff <= later
    ensures Live(live, later) == Live(grants, later)
    ensures Live(live + [now], later) == Live(grants + [now], later)
  {
    LiveTwice(grants, cutoff, later);
    LiveAppend(live, now, later);
    LiveAppend(grants, now, later);
  }

  lemma UseStands(log: Log, now: Time, t: Time, limit: nat, span: nat)
    requires Stands(log, now - span) && now <= t
    ensures Stands(Use(log, now, limit, span), t - span)
  {
    LiveLater(Live(log.marks, now - span), log.grants, now, now - span, t - span);
  }

  /** From `t` on, the marks are live exactly when the grants are. */
  lemma {:induction false} UsesStand(times: seq<Time>, t: Time, limit: nat, span: nat)
    requires UpTo(times, t)
    ensures Stands(Uses(times, limit, span), t - span)
  {
    if times != [] {
      var n := |times| - 1;
      UsesStand(times[..n], times[n], limit, span);
      UseStands(Uses(times[..n], limit, span), times[n], t, limit, span);
    }
  }

  /** How many of the instants fall in `[from, from + span)`. */
  function CountIn(grants: seq<Time>, from: Time, span: nat): nat {
    if grants == [] then 0
    else
      var g := grants[|grants| - 1];
      CountIn(grants[..|grants| - 1], from, span) + if from <= g < from + span then 1 else 0
  }

  lemma {:induction false} CountedAreLive(grants: seq<Time>, from: Time, span: nat, cutoff: Time)
    requires cutoff < from
    ensures CountIn(grants, from, span) <= |Live(grants, cutoff)|
  {
    if grants != [] {
      CountedAreLive(grants[..|grants| - 1], from, span, cutoff);
    }
  }

  lemma UseCounts(log: Log, now: Time, from: Time, limit: nat, span: nat)
    requires Stands(log, now - span) && CountIn(log.grants, from, span) <= limit
    ensures CountIn(Use(log, now, limit, span).grants, from, span) <= limit
  {
    assert (log.grants + [now])[..|log.grants|] == log.grants;
    if from <= now < from + span {
      CountedAreLive(log.grants, from, span, now - span);
    }
  }

  /** However a key is used, at most `limit` uses are granted in any window of the span's length. */
  lemma {:induction false} AtMostLimitPerWindow(times: seq<Time>, t: Time, from: Time, limit: nat, span: nat)
    requires UpTo(times, t)
    ensures CountIn(Uses(times, limit, span).grants, from, span) <= limit
  {
    if times != [] {
      var n := |times| - 1;
      AtMostLimitPerWindow(times[..n], times[n], from, limit, span);
      UsesStand(times[..n], times[n], limit, span);
      UseCounts(Uses(times[..n], limit, span), times[n], from, limit, span);
    }
  }

  // ----- the wait of a refused caller

  lemma {:induction false} LiveUpTo(marks: seq<Time>, t: Time, cutoff: Time)
    requires UpTo(marks, t)
    ensures UpTo(Live(marks, cutoff), t)
  {
    if marks != [] {
      var n := |marks| - 1;
      LiveUpTo(marks[..n], marks[n], cutoff);
      if marks[n] <= cutoff {
        UpToLater(Live(marks[..n], cutoff), marks[n], t);
      } else {
        UpToAppend(Live(marks[..n], cutoff), marks[n], t);
      }
    }
  }

  lemma UpToLater(marks: seq<Time>, s: Time, t: Time)
    requires UpTo(marks, s) && s <= t
    ensures UpTo(marks, t)
  {
  }

  lemma UpToAppend(marks: seq<Time>, m: Time, t: Time)
    requires UpTo(marks, m) && m <= t
    ensures UpTo(marks + [m], t)
  {
  }

  lemma {:induction false} LiveShrinks(marks: seq<Time>, cutoff: Time)
    ensures |Live(marks, cutoff)| <= |marks|
  {
    if marks != [] {
      LiveShrinks(marks[..|marks| - 1], cutoff);
    }
  }

  predicate Fits(marks: seq<Time>, t: Time, limit: nat) {
    |marks| <= limit && UpTo(marks, t)
  }

  lemma UsedFits(marks: seq<Time>, now: Time, t: Time, limit: nat, span: nat)
    requires Fits(marks, now, limit) && now <= t
    ensures Fits(Used(marks, now, limit, span), t, limit)
  {
    var live := Live(marks, now - span);
    LiveShrinks(marks, now - span);
    LiveUpTo(marks, now, now - span);
    UpToAppend(live, now, t);
    UpToLater(live, now, t);
  }

  /** A key never holds more marks than the limit, and holds them in order. */
  lemma {:induction false} MarksFit(times: seq<Time>, t: Time, limit: nat, span: nat)
    requires UpTo(times, t)
    ensures Fits(Uses(times, limit, span).marks, t, limit)
  {
    if times != [] {
      var n := |times| - 1;
      MarksFit(times[..n], times[n], limit, span);
      UsedFits(Uses(times[..n], limit, span).marks, times[n], t, limit, span);
    }
  }

  /** In an ordered log nothing is dropped before the first mark is, and then at least that one is. */
  lemma {:induction false} LiveByFirst(marks: seq<Time>, t: Time, cutoff: Time)
    requires UpTo(marks, t) && marks != []
    ensures marks[0] <= cutoff ==> |Live(marks, cutoff)| < |marks|
    ensures marks[0] > cutoff ==> Live(marks, cutoff) == marks && t > cutoff
  {
    var n := |marks| - 1;
    LiveShrinks(marks[..n], cutoff);
    if n > 0 {
      LiveByFirst(marks[..n], marks[n], cutoff);
    }
  }

  /** A full set of live marks frees a place exactly when its first mark expires. */
  lemma FullUntilFirst(live: seq<Time>, now: Time, cutoff: Time, limit: nat)
    requires UpTo(live, now) && |live| == limit > 0
    ensures |Live(live, cutoff)| < limit <==> live[0] <= cutoff
  {
    LiveByFirst(live, now, cutoff);
  }

  /** What is promised to a caller refused at `now` about a use at `later`. */
  predicate WaitIsRight(marks: seq<Time>, now: Time, later: Time, limit: nat, span: nat)
    requires limit > 0 && !Granted(marks, now, limit, span)
  {
    var wait, kept := Wait(marks, now, limit, span), Used(marks, now, limit, span);
    && (later - now >= wait ==> Granted(kept, later, limit, span))
    && (wait > SECOND && later - now < wait ==> !Granted(kept, later, limit, span))
  }

  lemma WaitIsRightFor(marks: seq<Time>, now: Time, later: Time, limit: nat, span: nat)
    requires Fits(marks, now, limit) && limit > 0 && !Granted(marks, now, limit, span)
    ensures WaitIsRight(marks, now, later, limit, span)
  {
    LiveShrinks(marks, now - span);
    LiveUpTo(marks, now, now - span);
    FullUntilFirst(Live(marks, now - span), now, later - span, limit);
  }

  /**
   The wait a refused caller is given is right: with no use in between, it is
   granted after that long, and when the wait is over a second, not before.
   */
  lemma WaitIsExact(times: seq<Time>, now: Time, later: Time, limit: nat, span: nat)
    requires limit > 0 && UpTo(times, now)
    requires !Granted(Uses(times, limit, span).marks, now, limit, span)
    ensures WaitIsRight(Uses(times, limit, span).marks, now, later, limit, span)
  {
    MarksFit(times, now, limit, span);
    WaitIsRightFor(Uses(times, limit, span).marks, now, later, limit, span);
  }

  // ----- the table and its eviction

  type Table = map<string, seq<Time>>

  function IpKey(ip: string): string {
    "ip:" + ip
  }

  /** The key of an account, from its name trimmed and in lower case. */
  function UserKey(name: string): string {
    "user:" + name
  }

  function MarksOf(t: Table, key: string): seq<Time> {
    if key in t then t[key] else []
  }

  /** The key's last mark has left the window, or it has no mark at all. */
  predicate Stale(marks: seq<Time>, cutoff: Time) {
    marks == [] || marks[|marks| - 1] <= cutoff
  }

  /** A stale key counts zero: eviction of stale keys changes no count. */
  lemma {:induction false} StaleCountsZero(marks: seq<Time>, t: Time, cutoff: Time)
    requires UpTo(marks, t)
    ensures Stale(marks, cutoff) <==> Live(marks, cutoff) == []
  {
    if marks != [] && Stale(marks, cutoff) {
      var n := |marks| - 1;
      StaleCountsZero(marks[..n], marks[n], cutoff);
    }
  }

  /** Fewer marks first; with as many, the older last mark first. */
  predicate EvictedBefore(a: seq<Time>, b: seq<Time>)
    requires a != [] && b != []
  {
    |a| < |b| || (|a| == |b| && a[|a| - 1] <= b[|b| - 1])
  }

  /** Fewer marks, or as many and the last one no later. */
  predicate FewerOrOlder(a: seq<Time>, b: seq<Time>) {
    |a| < |b| || (|a| == |b| > 0 && a[|a| - 1] <= b[|b| - 1])
  }

  datatype Candidate = Candidate(key: string, marks: seq<Time>)

  predicate InOrder(cs: seq<Candidate>) {
    && (forall i :: 0 <= i < |cs| ==> cs[i].marks != [])
    && (forall i, j :: 0 <= i < j < |cs| ==> EvictedBefore(cs[i].marks, cs[j].marks))
  }

  function Keys(cs: seq<Candidate>): set<string> {
    set c | c in cs :: c.key
  }

  /** The candidates stand for the rows of the table, one each. */
  predicate Lists(cs: seq<Candidate>, t: Table) {
    && (forall i :: 0 <= i < |cs| ==> cs[i].key in t && cs[i].marks == t[cs[i].key])
    && (forall i, j :: 0 <= i < j < |cs| ==> cs[i].key != cs[j].key)
  }

  /** The keys of the candidates are different. */
  predicate Listed(cs: seq<Candidate>) {
    forall i, j :: 0 <= i < j < |cs| ==> cs[i].key != cs[j].key
  }

  function PutAt(cs: seq<Candidate>, i: nat, c: Candidate): seq<Candidate>
    requires i <= |cs|
  {
    cs[..i] + [c] + cs[i..]
  }

  lemma PutAtMembers(cs: seq<Candidate>, i: nat, c: Candidate)
    requires i <= |cs|
    ensures forall x :: x in PutAt(cs, i, c) <==> x == c || x in cs
  {
    assert cs == cs[..i] + cs[i..];
  }

  lemma PutAtIndex(cs: seq<Candidate>, i: nat, c: Candidate, a: nat)
    requires i <= |cs| && a <= |cs|
    ensures PutAt(cs, i, c)[a] == if a < i then cs[a] else if a == i then c else cs[a - 1]
  {
  }

  lemma PutAtListed(cs: seq<Candidate>, i: nat, c: Candidate)
    requires i <= |cs| && Listed(cs) && c.key !in Keys(cs)
    ensures Listed(PutAt(cs, i, c))
  {
    assert forall k :: 0 <= k < |cs| ==> cs[k].key in Keys(cs);
    var r := PutAt(cs, i, c);
    forall a, b | 0 <= a < b < |r| ensures r[a].key != r[b].key {
      PutAtIndex(cs, i, c, a);
      PutAtIndex(cs, i, c, b);
    }
  }

  lemma PutAtInOrder(cs: seq<Candidate>, i: nat, c: Candidate)
    requires i <= |cs| && InOrder(cs) && c.marks != []
    requires forall j :: 0 <= j < i ==> EvictedBefore(cs[j].marks, c.marks)
    requires i < |cs| ==> !EvictedBefore(cs[i].marks, c.marks)
    ensures InOrder(PutAt(cs, i, c))
  {
    forall j | i <= j < |cs| ensures EvictedBefore(c.marks, cs[j].marks) {
      assert j > i ==> EvictedBefore(cs[i].marks, cs[j].marks);
    }
    var r := PutAt(cs, i, c);
    forall a | 0 <= a < |r| ensures r[a].marks != [] {
      PutAtIndex(cs, i, c, a);
    }
    forall a, b | 0 <= a < b < |r| ensures EvictedBefore(r[a].marks, r[b].marks) {
      PutAtIndex(cs, i, c, a);
      PutAtIndex(cs, i, c, b);
    }
  }

  /** Insertion into an ordered list of candidates. */
  method Insert(cs: seq<Candidate>, c: Candidate) returns (r: seq<Candidate>)
    requires InOrder(cs) && c.marks != []
    ensures InOrder(r) && |r| == |cs| + 1
    ensures forall x :: x in r <==> x == c || x in cs
    ensures Listed(cs) && c.key !in Keys(cs) ==> Listed(r)
  {
    var i := 0;
    while i < |cs| && EvictedBefore(cs[i].marks, c.marks)
      invariant i <= |cs|
      invariant forall j :: 0 <= j < i ==> EvictedBefore(cs[j].marks, c.marks)
    {
      i := i + 1;
    }
    r := PutAt(cs, i, c);
    PutAtInOrder(cs, i, c);
    PutAtMembers(cs, i, c);
    if Listed(cs) && c.key !in Keys(cs) {
      PutAtListed(cs, i, c);
    }
  }

  /** The candidates are the rows of the table outside `todo`. */
  predicate Covers(cs: seq<Candidate>, t: Table, todo: set<string>) {
    Lists(cs, t) && forall i :: 0 <= i < |cs| ==> cs[i].key !in todo
  }

  lemma CoversMore(before: seq<Candidate>, cs: seq<Candidate>, t: Table, todo: set<string>, k: string)
    requires Covers(before, t, todo) && k in todo && k in t && Listed(cs)
    requires forall x :: x in cs <==> x == Candidate(k, t[k]) || x in before
    ensures Covers(cs, t, todo - {k})
  {
    forall i | 0 <= i < |cs| ensures cs[i].key in t && cs[i].marks == t[cs[i].key] && cs[i].key !in todo - {k} {
      assert cs[i] in cs;
    }
  }

  lemma NotYetListed(cs: seq<Candidate>, t: Table, todo: set<string>, k: string)
    requires Covers(cs, t, todo) && k in todo
    ensures Listed(cs) && k !in Keys(cs)
  {
  }

  /** The rows of the table, in eviction order. */
  method Ordered(t: Table) returns (cs: seq<Candidate>)
    requires forall k :: k in t ==> t[k] != []
    ensures InOrder(cs) && Lists(cs, t) && |cs| == |t|
  {
    cs := [];
    var todo := t.Keys;
    while todo != {}
      invariant todo <= t.Keys && |cs| + |todo| == |t.Keys|
      invariant InOrder(cs) && Covers(cs, t, todo)
      decreases todo
    {
      var k :| k in todo;
      var before := cs;
      NotYetListed(before, t, todo, k);
      cs := Insert(before, Candidate(k, t[k]));
      CoversMore(before, cs, t, todo, k);
      todo := todo - {k};
    }
  }

  /** The table with one use of a key in it. */
  function Stored(t: Table, key: string, now: Time, limit: nat, span: nat): Table {
    t[key := Used(MarksOf(t, key), now, limit, span)]
  }

  /** Why a key may be gone after pruning. */
  predicate Evictable(before: Table, after: Table, k: string, cutoff: Time)
    requires k in before
  {
    Stale(before[k], cutoff)
    || forall s :: s in after ==> before[k] != [] && after[s] != [] && EvictedBefore(before[k], after[s])
  }

  /** What `podarLocked` does to the table. */
  predicate Pruned(before: Table, after: Table, maxKeys: int, cutoff: Time) {
    && (maxKeys <= 0 || |before| <= maxKeys ==> after == before)
    && (maxKeys > 0 ==> |after| <= maxKeys)
    && (forall k :: k in after ==> k in before && after[k] == before[k])
    && (forall k :: k in before && k !in after ==> Evictable(before, after, k, cutoff))
  }

  lemma KeysOfPrefix(cs: seq<Candidate>, t: Table, n: nat)
    requires Lists(cs, t) && n <= |cs|
    ensures |Keys(cs[..n])| == n && Keys(cs[..n]) <= t.Keys
    decreases n
  {
    if n > 0 {
      KeysOfPrefix(cs, t, n - 1);
      assert cs[..n] == cs[..n - 1] + [cs[n - 1]];
      assert Keys(cs[..n]) == Keys(cs[..n - 1]) + {cs[n - 1].key};
    } else {
      assert Keys(cs[..0]) == {};
    }
  }

  lemma AllListed(cs: seq<Candidate>, t: Table, k: string) returns (i: nat)
    requires Lists(cs, t) && |cs| == |t| && k in t
    ensures i < |cs| && cs[i].key == k
  {
    KeysOfPrefix(cs, t, |cs|);
    assert cs[..|cs|] == cs;
    CardinalityIsEverything(Keys(cs), t.Keys);
    assert k in Keys(cs);
    i :| 0 <= i < |cs| && cs[i].key == k;
  }

  /** A table without the first candidates: of the rest, none should have gone before them. */
  lemma WithoutFirst(t: Table, cs: seq<Candidate>, n: nat)
    requires InOrder(cs) && Lists(cs, t) && |cs| == |t| && n <= |cs|
    ensures var left := t - Keys(cs[..n]);
      && |left| == |t| - n
      && (forall k :: k in left ==> k in t && left[k] == t[k] && t[k] != [])
      && (forall k, s :: k in t && k !in left && s in left ==> t[k] != [] && EvictedBefore(t[k], left[s]))
      && (forall k, s :: k in t && k !in left && s in left ==> FewerOrOlder(t[k], left[s]))
  {
    var gone := Keys(cs[..n]);
    var left := t - gone;
    KeysOfPrefix(cs, t, n);
    assert left.Keys == t.Keys - gone;
    forall k | k in left ensures t[k] != [] {
      var i := AllListed(cs, t, k);
    }
    forall k, s | k in t && k !in left && s in left ensures t[k] != [] && EvictedBefore(t[k], left[s]) {
      var i :| 0 <= i < n && cs[i].key == k;
      var j := AllListed(cs, t, s);
    }
  }

  /**
   A key that is locked out stays locked out through a pruning, as long as some
   key that stays has fewer marks.
   */
  lemma LockedOutStays(before: Table, after: Table, maxKeys: int, cutoff: Time, k: string, s: string, limit: nat)
    requires Pruned(before, after, maxKeys, cutoff) && limit > 0
    requires k in before && |Live(before[k], cutoff)| >= limit && (exists t :: UpTo(before[k], t))
    requires s in after && |after[s]| < |before[k]|
    ensures k in after && |Live(MarksOf(after, k), cutoff)| >= limit
  {
    var t :| UpTo(before[k], t);
    StaleCountsZero(before[k], t, cutoff);
  }

  /** A use is granted exactly while fewer than the limit were granted within the span. */
  lemma GrantedIff(times: seq<Time>, now: Time, limit: nat, span: nat)
    requires UpTo(times, now)
    ensures Granted(Uses(times, limit, span).marks, now, limit, span)
       <==> |Live(Uses(times, limit, span).grants, now - span)| < limit
  {
    UsesStand(times, now, limit, span);
  }

  /** Exactly the marks after the cutoff are live, in their order. */
  lemma {:induction false} LiveSays(marks: seq<Time>, cutoff: Time)
    ensures multiset(Live(marks, cutoff)) <= multiset(marks)
    ensures forall m :: multiset(Live(marks, cutoff))[m] == if m > cutoff then multiset(marks)[m] else 0
  {
    if marks != [] {
      var n := |marks| - 1;
      LiveSays(marks[..n], cutoff);
      assert marks == marks[..n] + [marks[n]];
    }
  }

  /** A key that still counted is gone. */
  predicate Evicted(before: Table, after: Table, k: string, cutoff: Time) {
    k in before && k !in after && before[k] != [] && before[k][|before[k]| - 1] > cutoff
  }

  class Limiter {
    const window: nat
    const maxIp: int
    const maxUser: int
    const maxKeys: int
    var failures: Table

    constructor (window: nat, maxIp: int, maxUser: int, maxKeys: int)
      ensures failures == map[] && this.window == window
      ensures this.maxIp == maxIp && this.maxUser == maxUser && this.maxKeys == maxKeys
    {
      this.window, this.maxIp, this.maxUser, this.maxKeys := window, maxIp, maxUser, maxKeys;
      failures := map[];
    }

    /** First phase: the stale keys go. */
    method DropStale(cutoff: Time)
      modifies this
      ensures failures == map k | k in old(failures) && !Stale(old(failures)[k], cutoff) :: old(failures)[k]
    {
      ghost var before := failures;
      var todo := failures.Keys;
      while todo != {}
        invariant todo <= before.Keys
        invariant failures == map k | k in before && (k in todo || !Stale(before[k], cutoff)) :: before[k]
        decreases todo
      {
        var k :| k in todo;
        if Stale(failures[k], cutoff) {
          failures := failures - {k};
        }
        todo := todo - {k};
      }
    }

    /** Second phase: of keys that are all live, the first in eviction order go. */
    method DropExcess()
      requires maxKeys > 0 && |failures| > maxKeys
      requires forall k :: k in failures ==> failures[k] != []
      modifies this
      ensures |failures| == maxKeys
      ensures forall k :: k in failures ==> k in old(failures) && failures[k] == old(failures)[k]
      ensures forall k, s :: k in old(failures) && k !in failures && s in failures ==>
                FewerOrOlder(old(failures)[k], failures[s])
    {
      var cs := Ordered(failures);
      var excess := |failures| - maxKeys;
      WithoutFirst(failures, cs, excess);
      failures := failures - Keys(cs[..excess]);
    }

    /** `podarLocked` */
    method Prune(now: Time)
      modifies this
      ensures Pruned(old(failures), failures, maxKeys, now - window)
      ensures forall k :: k in old(failures) && k !in failures && !Stale(old(failures)[k], now - window) ==>
                maxKeys > 0 && |failures| == maxKeys
      ensures forall k, s :: (Evicted(old(failures), failures, k, now - window) && s in failures) ==>
        var a, b := old(failures)[k], failures[s];
        |a| < |b| || (|a| == |b| && a[|a| - 1] <= b[|b| - 1])
    {
      if maxKeys <= 0 || |failures| <= maxKeys {
        return;
      }
      DropStale(now - window);
      if |failures| <= maxKeys {
        return;
      }
      DropExcess();
    }

    /** `usar`: a use of one key; the answer and the wait are those of `Granted` and `Wait`. */
    method TryUse(key: string, limit: nat, span: nat, now: Time) returns (granted: bool, wait: Time)
      requires limit > 0
      modifies this
      ensures granted == Granted(MarksOf(old(failures), key), now, limit, span)
      ensures !granted ==> wait == Wait(MarksOf(old(failures), key), now, limit, span)
      ensures !granted ==> failures == Stored(old(failures), key, now, limit, span)
      ensures granted ==> wait == 0
      ensures granted ==> Pruned(Stored(old(failures), key, now, limit, span), failures, maxKeys, now - window)
    {
      ghost var before := failures;
      var marks := KeepLive(MarksOf(failures, key), now - span);
      failures := failures[key := marks];
      if |marks| >= limit {
        wait := marks[0] + span - now;
        if wait < SECOND {
          wait := SECOND;
        }
        return false, wait;
      }
      failures := failures[key := marks + [now]];
      assert failures == Stored(before, key, now, limit, span);
      Prune(now);
      return true, 0;
    }

    /** The filter of `usar` and `countLocked`, through a buffer of its own. */
    method KeepLive(marks: seq<Time>, cutoff: Time) returns (r: seq<Time>)
      ensures r == Live(marks, cutoff)
    {
      var a := new Time[|marks|](i requires 0 <= i < |marks| => marks[i]);
      assert a[..|marks|] == marks;
      var n := FilterInPlace(a, |marks|, cutoff);
      return a[..n];
    }

    /** `countLocked`: the live failures of a key; a key with none is forgotten. */
    method Count(key: string, now: Time) returns (n: nat)
      modifies this
      ensures n == |Live(MarksOf(old(failures), key), now - window)|
      ensures failures == if n == 0 then old(failures) - {key}
                          else old(failures)[key := Live(MarksOf(old(failures), key), now - window)]
    {
      var kept := KeepLive(MarksOf(failures, key), now - window);
      if |kept| == 0 {
        failures := failures - {key};
        return 0;
      }
      failures := failures[key := kept];
      return |kept|;
    }

    /** `allowed`: a login may be tried while both its address and its account are under their limits. */
    method Allowed(ip: string, user: string, now: Time) returns (ok: bool)
      modifies this
      ensures ok <==> |Live(MarksOf(old(failures), IpKey(ip)), now - window)| < maxIp
                      && |Live(MarksOf(old(failures), UserKey(user)), now - window)| < maxUser
      ensures forall k :: Live(MarksOf(failures, k), now - window) == Live(MarksOf(old(failures), k), now - window)
    {
      ghost var before := failures;
      var byIp := Count(IpKey(ip), now);
      CountKeeps(before, failures, IpKey(ip), now - window);
      if byIp >= maxIp {
        return false;
      }
      ghost var between := failures;
      var byUser := Count(UserKey(user), now);
      CountKeeps(between, failures, UserKey(user), now - window);
      return byUser < maxUser;
    }

    /** `fail`: one failed login counts against the address and against the account. */
    method Fail(ip: string, user: string, now: Time)
      modifies this
      ensures Pruned(old(failures)[IpKey(ip) := MarksOf(old(failures), IpKey(ip)) + [now]]
                                  [UserKey(user) := MarksOf(old(failures), UserKey(user)) + [now]],
                     failures, maxKeys, now - window)
    {
      assert IpKey(ip)[0] != UserKey(user)[0];
      failures := failures[IpKey(ip) := MarksOf(failures, IpKey(ip)) + [now]];
      failures := failures[UserKey(user) := MarksOf(failures, UserKey(user)) + [now]];
      Prune(now);
    }

    /** `succeed`: a successful login clears the account's failures. */
    method Succeed(user: string)
      modifies this
      ensures failures == old(failures) - {UserKey(user)}
      ensures forall cutoff :: Live(MarksOf(failures, UserKey(user)), cutoff) == []
      ensures forall k :: k != UserKey(user) ==> MarksOf(failures, k) == MarksOf(old(failures), k)
      ensures forall ip :: MarksOf(failures, IpKey(ip)) == MarksOf(old(failures), IpKey(ip))
    {
      assert forall ip :: IpKey(ip)[0] != UserKey(user)[0];
      failures := failures - {UserKey(user)};
    }
  }

  lemma CardinalityIsEverything<T>(a: set<T>, b: set<T>)
    requires a <= b && |a| == |b|
    ensures a == b
  {
    if a != b {
      var x :| x in b && x !in a;
      assert a <= b - {x} && |b - {x}| < |b|;
      SubsetCardinality(a, b - {x});
    }
  }

  /** Counting a key leaves the live marks of every key as they were. */
  lemma CountKeeps(before: Table, after: Table, key: string, cutoff: Time)
    requires after == if Live(MarksOf(before, key), cutoff) == [] then before - {key}
                      else before[key := Live(MarksOf(before, key), cutoff)]
    ensures forall k :: Live(MarksOf(after, k), cutoff) == Live(MarksOf(before, k), cutoff)
  {
    LiveTwice(MarksOf(before, key), cutoff, cutoff);
  }
}

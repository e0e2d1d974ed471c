/**
 A sliding-window counter kept in coarse buckets. The window of a key is a
 suffix of the buckets its whole history would give, so what it answers is
 exact up to one bucket width, and dropping expired buckets early or late
 changes no answer.
 */
module SlidingWindow {
  import opened Basics

  const SLOTS := 30
  const SECOND: Time := 1_000_000_000
  const MANY_KEYS := 1000

  datatype Bucket = Bucket(start: Time, total: nat, hits: nat)

  /** Events are counted from the zero time on. */
  datatype Event = Event(at: nat, hit: bool)

  /** The last multiple of the width that is not after `t`. */
  function Truncate(t: nat, step: int): (r: nat)
    requires step > 0
    ensures r <= t < r + step
  {
    if t < step then 0 else step + Truncate(t - step, step)
  }

  lemma RemainderStep(t: nat, step: int)
    requires step > 0
    ensures (t + step) % step == t % step
  {
    var q, r := t / step, t % step;
    assert t == q * step + r;
    assert t + step == (q + 1) * step + r;
    QuotientIs(t + step, q + 1, r, step);
  }

  lemma QuotientIs(n: nat, q: int, r: int, step: int)
    requires 0 <= r < step && n == q * step + r
    ensures n % step == r
  {
    var d := n / step - q;
    assert d * step + n % step == r;
    TimesOne(d, step);
  }

  lemma TimesOne(d: int, step: int)
    requires step > 0
    ensures d > 0 ==> d * step >= step
    ensures d < 0 ==> d * step <= -step
  {
  }

  lemma {:induction false} TruncateIsRemainder(t: nat, step: int)
    requires step > 0
    ensures Truncate(t, step) == t - t % step
  {
    if t >= step {
      TruncateIsRemainder(t - step, step);
      RemainderStep(t - step, step);
    }
  }

  /** The bucket width of a window of the given span. */
  function StepOf(span: Time): (step: int)
    ensures step >= SECOND
    ensures span >= 0 ==> span <= 31 * step
    ensures step == SECOND || step * 30 <= span
  {
    if span < 0 || span / SLOTS < SECOND then SECOND else span / SLOTS
  }

  /** The larger of one second and a thirtieth of the span: how far an answer may reach back beyond the span. */
  function Slack(span: Time): Time {
    if span / 30 > 1_000_000_000 then span / 30 else 1_000_000_000
  }

  lemma StepIsSlack(span: Time)
    requires span > 0
    ensures StepOf(span) == Slack(span)
  {
  }

  // ----- the specification: the buckets of a whole history

  /** One more event at the end of the buckets. */
  function Push(bs: seq<Bucket>, step: int, e: Event): seq<Bucket>
    requires step > 0
  {
    var n := |bs|;
    var hit := if e.hit then 1 else 0;
    if n > 0 && bs[n - 1].start == Truncate(e.at, step)
    then bs[n - 1 := Bucket(bs[n - 1].start, bs[n - 1].total + 1, bs[n - 1].hits + hit)]
    else bs + [Bucket(Truncate(e.at, step), 1, hit)]
  }

  function Group(events: seq<Event>, step: int): seq<Bucket>
    requires step > 0
  {
    if events == [] then [] else Push(Group(events[..|events| - 1], step), step, events[|events| - 1])
  }

  predicate Expired(b: Bucket, cutoff: Time, step: int) {
    b.start + step <= cutoff
  }

  /** `expire`: the buckets from the first live one on. */
  function Expire(bs: seq<Bucket>, cutoff: Time, step: int): seq<Bucket> {
    if bs != [] && Expired(bs[0], cutoff, step) then Expire(bs[1..], cutoff, step) else bs
  }

  /** What is left is a suffix, what is gone had expired, and the first one left has not. */
  lemma {:induction false} ExpireDrops(bs: seq<Bucket>, cutoff: Time, step: int)
    ensures var r := Expire(bs, cutoff, step);
      && |r| <= |bs| && r == bs[|bs| - |r|..]
      && (forall i :: 0 <= i < |bs| - |r| ==> Expired(bs[i], cutoff, step))
      && (r != [] ==> !Expired(r[0], cutoff, step))
  {
    if bs != [] && Expired(bs[0], cutoff, step) {
      var rest := bs[1..];
      ExpireDrops(rest, cutoff, step);
      var gone := |rest| - |Expire(rest, cutoff, step)|;
      assert rest[gone..] == bs[gone + 1..];
      assert forall i :: 0 < i < gone + 1 ==> bs[i] == rest[i - 1];
    }
  }

  function Total(bs: seq<Bucket>): nat {
    if bs == [] then 0 else Total(bs[..|bs| - 1]) + bs[|bs| - 1].total
  }

  function Hits(bs: seq<Bucket>): nat {
    if bs == [] then 0 else Hits(bs[..|bs| - 1]) + bs[|bs| - 1].hits
  }

  /** The exact count of events after `lo`. */
  function Exact(events: seq<Event>, lo: Time): nat {
    if events == [] then 0
    else Exact(events[..|events| - 1], lo) + if events[|events| - 1].at > lo then 1 else 0
  }

  function ExactHits(events: seq<Event>, lo: Time): nat {
    if events == [] then 0
    else
      var e := events[|events| - 1];
      ExactHits(events[..|events| - 1], lo) + if e.at > lo && e.hit then 1 else 0
  }

  /** The events came in order of time, the last one no later than `clock`. */
  predicate UpTo(events: seq<Event>, clock: Time) {
    events == [] || (events[|events| - 1].at <= clock && UpTo(events[..|events| - 1], events[|events| - 1].at))
  }

  /** Buckets in order, at least one width apart. */
  predicate Ordered(bs: seq<Bucket>, step: int) {
    forall i, j :: 0 <= i < j < |bs| ==> bs[i].start + step <= bs[j].start
  }

  lemma {:induction false} TruncateStep(s: nat, t: nat, step: int)
    requires step > 0 && s <= t
    ensures Truncate(s, step) == Truncate(t, step) || Truncate(s, step) + step <= Truncate(t, step)
  {
    if s >= step {
      TruncateStep(s - step, t - step, step);
    }
  }

  /** The last bucket of a history is the one of its last event. */
  lemma {:induction false} GroupOrdered(events: seq<Event>, clock: Time, step: int)
    requires step > 0 && UpTo(events, clock)
    ensures Ordered(Group(events, step), step)
    ensures events != [] ==>
      var all := Group(events, step);
      all != [] && all[|all| - 1].start == Truncate(events[|events| - 1].at, step)
  {
    if events != [] {
      var n := |events| - 1;
      GroupOrdered(events[..n], events[n].at, step);
      if n > 0 {
        TruncateStep(events[n - 1].at, events[n].at, step);
      }
    }
  }

  // ----- sums over the live buckets are counts over the events

  /** The events whose bucket is live. */
  function Live(events: seq<Event>, cutoff: Time, step: int): (n: nat)
    requires step > 0
    ensures Exact(events, cutoff) <= n <= Exact(events, cutoff - step)
  {
    if events == [] then 0
    else
      var e := events[|events| - 1];
      Live(events[..|events| - 1], cutoff, step) + if Truncate(e.at, step) + step > cutoff then 1 else 0
  }

  function LiveHits(events: seq<Event>, cutoff: Time, step: int): (n: nat)
    requires step > 0
    ensures ExactHits(events, cutoff) <= n <= ExactHits(events, cutoff - step)
  {
    if events == [] then 0
    else
      var e := events[|events| - 1];
      LiveHits(events[..|events| - 1], cutoff, step) + if e.hit && Truncate(e.at, step) + step > cutoff then 1 else 0
  }

  /** Appending a live bucket, or touching the last one, commutes with expiry. */
  lemma {:induction false} ExpireAppend(bs: seq<Bucket>, b: Bucket, cutoff: Time, step: int)
    requires !Expired(b, cutoff, step)
    ensures Expire(bs + [b], cutoff, step) == Expire(bs, cutoff, step) + [b]
  {
    if bs != [] && Expired(bs[0], cutoff, step) {
      assert (bs + [b])[1..] == bs[1..] + [b];
      ExpireAppend(bs[1..], b, cutoff, step);
    } else if bs == [] {
      assert bs + [b] == [b];
    }
  }

  lemma {:induction false} ExpireAll(bs: seq<Bucket>, cutoff: Time, step: int)
    requires forall i :: 0 <= i < |bs| ==> Expired(bs[i], cutoff, step)
    ensures Expire(bs, cutoff, step) == []
  {
    if bs != [] {
      ExpireAll(bs[1..], cutoff, step);
    }
  }

  lemma SumsAppend(bs: seq<Bucket>, b: Bucket)
    ensures Total(bs + [b]) == Total(bs) + b.total && Hits(bs + [b]) == Hits(bs) + b.hits
  {
  }

  /** An ordered list whose last bucket expired has expired entirely. */
  lemma LastExpired(bs: seq<Bucket>, cutoff: Time, step: int)
    requires step >= 0 && Ordered(bs, step) && bs != [] && Expired(bs[|bs| - 1], cutoff, step)
    ensures Expire(bs, cutoff, step) == []
  {
  }

  /** Counting an event in a live bucket commutes with expiry. */
  lemma PushExpire(bs: seq<Bucket>, e: Event, cutoff: Time, step: int)
    requires step > 0 && Truncate(e.at, step) + step > cutoff
    requires bs != [] ==> bs[|bs| - 1].start <= Truncate(e.at, step)
    ensures Expire(Push(bs, step, e), cutoff, step) == Push(Expire(bs, cutoff, step), step, e)
  {
    var all := Push(bs, step, e);
    var init, last := all[..|all| - 1], all[|all| - 1];
    assert all == init + [last];
    ExpireAppend(init, last, cutoff, step);
    if |bs| == |all| {
      assert bs == init + [bs[|bs| - 1]];
      ExpireAppend(init, bs[|bs| - 1], cutoff, step);
    } else {
      assert bs == init;
      ExpireDrops(bs, cutoff, step);
    }
  }

  lemma PushSums(bs: seq<Bucket>, e: Event, step: int)
    requires step > 0
    ensures Total(Push(bs, step, e)) == Total(bs) + 1
    ensures Hits(Push(bs, step, e)) == Hits(bs) + if e.hit then 1 else 0
  {
    var all := Push(bs, step, e);
    var init, last := all[..|all| - 1], all[|all| - 1];
    SumsAppend(init, last);
    assert all == init + [last];
    if |bs| == |all| {
      SumsAppend(init, bs[|bs| - 1]);
      assert bs == init + [bs[|bs| - 1]];
    } else {
      assert bs == init;
    }
  }

  /** Counting one event adds one to the live buckets, if its bucket is live. */
  lemma PushLive(bs: seq<Bucket>, e: Event, cutoff: Time, step: int)
    requires step > 0 && Ordered(bs, step) && Ordered(Push(bs, step, e), step)
    ensures var live := Truncate(e.at, step) + step > cutoff;
      var before, after := Expire(bs, cutoff, step), Expire(Push(bs, step, e), cutoff, step);
      && Total(after) == Total(before) + (if live then 1 else 0)
      && Hits(after) == Hits(before) + (if live && e.hit then 1 else 0)
  {
    var all := Push(bs, step, e);
    assert all[|all| - 1].start == Truncate(e.at, step);
    assert bs != [] ==> all[|bs| - 1].start == bs[|bs| - 1].start;
    if Truncate(e.at, step) + step > cutoff {
      PushExpire(bs, e, cutoff, step);
      PushSums(Expire(bs, cutoff, step), e, step);
    } else {
      LastExpired(all, cutoff, step);
      if bs != [] {
        LastExpired(bs, cutoff, step);
      }
    }
  }

  /** The live buckets of a history add up to the events whose bucket is live. */
  lemma {:induction false} LiveSums(events: seq<Event>, clock: Time, cutoff: Time, step: int)
    requires step > 0 && UpTo(events, clock)
    ensures Total(Expire(Group(events, step), cutoff, step)) == Live(events, cutoff, step)
    ensures Hits(Expire(Group(events, step), cutoff, step)) == LiveHits(events, cutoff, step)
  {
    if events != [] {
      var n := |events| - 1;
      LiveSums(events[..n], events[n].at, cutoff, step);
      GroupOrdered(events[..n], events[n].at, step);
      GroupOrdered(events, clock, step);
      PushLive(Group(events[..n], step), events[n], cutoff, step);
    }
  }

  // ----- dropping expired buckets changes no later answer

  /** `bs` answers like the whole history from `cutoff` on. */
  predicate Stands(bs: seq<Bucket>, events: seq<Event>, cutoff: Time, step: int)
    requires step > 0
  {
    Expire(bs, cutoff, step) == Expire(Group(events, step), cutoff, step)
  }

  /** Expiring after an earlier expiry gives what one expiry gives. */
  lemma {:induction false} ExpireTwice(bs: seq<Bucket>, cutoff: Time, later: Time, step: int)
    requires cutoff <= later
    ensures Expire(Expire(bs, cutoff, step), later, step) == Expire(bs, later, step)
  {
    if bs != [] && Expired(bs[0], cutoff, step) {
      ExpireTwice(bs[1..], cutoff, later, step);
    }
  }

  lemma StandsLater(bs: seq<Bucket>, events: seq<Event>, cutoff: Time, later: Time, step: int)
    requires step > 0 && Stands(bs, events, cutoff, step) && cutoff <= later
    ensures Stands(bs, events, later, step)
    ensures Stands(Expire(bs, later, step), events, later, step)
  {
    ExpireTwice(bs, cutoff, later, step);
    ExpireTwice(Group(events, step), cutoff, later, step);
    ExpireTwice(bs, later, later, step);
  }

  lemma {:induction false} Spread(bs: seq<Bucket>, step: int)
    requires step > 0 && Ordered(bs, step) && bs != []
    ensures bs[0].start + (|bs| - 1) * step <= bs[|bs| - 1].start
  {
    if |bs| > 1 {
      var n := |bs| - 1;
      Spread(bs[..n], step);
      assert (n - 1) * step + step == n * step;
    }
  }

  lemma TimesAtLeast(m: int, n: int, step: int)
    requires m >= n && step > 0
    ensures m * step >= n * step
  {
  }

  /** Live buckets that start no later than now are at most `SLOTS + 2`. */
  lemma FewBuckets(bs: seq<Bucket>, span: Time, step: int, now: Time)
    requires step > 0 && Ordered(bs, step) && span <= 31 * step
    requires bs != [] ==> !Expired(bs[0], now - span, step) && bs[|bs| - 1].start <= now
    ensures |bs| <= SLOTS + 2
  {
    if |bs| > SLOTS + 2 {
      Spread(bs, step);
      TimesAtLeast(|bs| - 1, SLOTS + 2, step);
    }
  }

  // ----- the window itself

  function BucketsOf(keys: map<string, seq<Bucket>>, key: string): seq<Bucket> {
    if key in keys then keys[key] else []
  }

  function LogOf(log: map<string, seq<Event>>, key: string): seq<Event> {
    if key in log then log[key] else []
  }

  /** What the window holds for one key, against the key's whole history up to `clock`. */
  predicate KeyOk(bs: seq<Bucket>, events: seq<Event>, clock: Time, span: Time, step: int)
    requires step > 0
  {
    UpTo(events, clock) && Stands(bs, events, clock - span, step) && |bs| <= SLOTS + 2
  }

  lemma UpToLater(events: seq<Event>, clock: Time, now: Time)
    requires UpTo(events, clock) && clock <= now
    ensures UpTo(events, now)
  {
  }

  lemma KeyOkLater(bs: seq<Bucket>, events: seq<Event>, clock: Time, now: Time, span: Time, step: int)
    requires step > 0 && KeyOk(bs, events, clock, span, step) && clock <= now
    ensures KeyOk(bs, events, now, span, step)
    ensures KeyOk(Expire(bs, now - span, step), events, now, span, step)
  {
    UpToLater(events, clock, now);
    StandsLater(bs, events, clock - span, now - span, step);
    ExpireDrops(bs, now - span, step);
  }

  /** `Ordered`, from one bucket to the next. */
  predicate InOrder(bs: seq<Bucket>, step: int) {
    |bs| <= 1 || (bs[|bs| - 2].start + step <= bs[|bs| - 1].start && InOrder(bs[..|bs| - 1], step))
  }

  lemma {:induction false} InOrderIsOrdered(bs: seq<Bucket>, step: int)
    requires step > 0
    ensures InOrder(bs, step) <==> Ordered(bs, step)
  {
    if |bs| > 1 {
      InOrderIsOrdered(bs[..|bs| - 1], step);
    }
  }

  /** What expiry leaves is still in order. */
  lemma ExpireKeepsOrder(bs: seq<Bucket>, cutoff: Time, step: int)
    requires step > 0 && InOrder(bs, step)
    ensures InOrder(Expire(bs, cutoff, step), step)
  {
    InOrderIsOrdered(bs, step);
    InOrderIsOrdered(Expire(bs, cutoff, step), step);
    ExpireDrops(bs, cutoff, step);
    var gone := |bs| - |Expire(bs, cutoff, step)|;
    assert forall i :: 0 <= i < |bs| - gone ==> Expire(bs, cutoff, step)[i] == bs[gone + i];
  }

  /** One more event: the live buckets, with the event counted, stand for the longer history. */
  lemma KeyOkPush(bs: seq<Bucket>, events: seq<Event>, now: nat, span: Time, step: int, hit: bool)
    requires step > 0 && 0 < span <= 31 * step && KeyOk(bs, events, now, span, step)
    ensures var after := Push(Expire(bs, now - span, step), step, Event(now, hit));
      && KeyOk(after, events + [Event(now, hit)], now, span, step)
      && Answers(after, events + [Event(now, hit)], now - span, step)
  {
    var e, cutoff := Event(now, hit), now - span;
    var all := events + [e];
    assert all[..|events|] == events;
    assert UpTo(all, now);
    var after := Expire(Group(all, step), cutoff, step);
    GroupOrdered(events, now, step);
    GroupOrdered(all, now, step);
    if events != [] {
      TruncateStep(events[|events| - 1].at, now, step);
    }
    PushExpire(Group(events, step), e, cutoff, step);
    ExpireTwice(Group(all, step), cutoff, cutoff, step);
    ExpireDrops(Group(all, step), cutoff, step);
    FewBuckets(after, span, step, now);
    LiveAnswers(all, now, cutoff, step);
  }

  /** The buckets of one more event are in order, and its own comes last. */
  lemma GroupInOrder(events: seq<Event>, e: Event, step: int)
    requires step > 0 && UpTo(events, e.at)
    ensures InOrder(Push(Group(events, step), step, e), step)
    ensures var bs := Group(events, step); bs != [] ==> bs[|bs| - 1].start <= Truncate(e.at, step)
  {
    var all := events + [e];
    assert all[..|events|] == events && UpTo(all, e.at);
    GroupOrdered(events, e.at, step);
    GroupOrdered(all, e.at, step);
    InOrderIsOrdered(Group(all, step), step);
    if events != [] {
      TruncateStep(events[|events| - 1].at, e.at, step);
    }
  }

  lemma PushExpireInOrder(bs: seq<Bucket>, e: Event, cutoff: Time, step: int)
    requires step > 0 && Truncate(e.at, step) + step > cutoff && InOrder(Push(bs, step, e), step)
    requires bs != [] ==> bs[|bs| - 1].start <= Truncate(e.at, step)
    ensures InOrder(Push(Expire(bs, cutoff, step), step, e), step)
  {
    PushExpire(bs, e, cutoff, step);
    ExpireKeepsOrder(Push(bs, step, e), cutoff, step);
  }

  /** Counting an event for a key keeps its buckets in order. */
  lemma PushKeepsOrder(bs: seq<Bucket>, events: seq<Event>, now: nat, span: Time, step: int, hit: bool)
    requires step > 0 && 0 < span && KeyOk(bs, events, now, span, step)
    ensures InOrder(Push(Expire(bs, now - span, step), step, Event(now, hit)), step)
  {
    GroupInOrder(events, Event(now, hit), step);
    PushExpireInOrder(Group(events, step), Event(now, hit), now - span, step);
  }

  /** The sums of `bs` are within one bucket width of the exact counts after `lo`. */
  predicate Answers(bs: seq<Bucket>, events: seq<Event>, lo: Time, step: int) {
    && Exact(events, lo) <= Total(bs) <= Exact(events, lo - step)
    && ExactHits(events, lo) <= Hits(bs) <= ExactHits(events, lo - step)
  }

  lemma LiveAnswers(events: seq<Event>, clock: Time, lo: Time, step: int)
    requires step > 0 && UpTo(events, clock)
    ensures Answers(Expire(Group(events, step), lo, step), events, lo, step)
  {
    LiveSums(events, clock, lo, step);
  }

  predicate KeysOk(keys: map<string, seq<Bucket>>, log: map<string, seq<Event>>, clock: Time, span: Time, step: int)
    requires step > 0
  {
    && keys.Keys <= log.Keys
    && forall k :: k in log ==> KeyOk(BucketsOf(keys, k), log[k], clock, span, step)
  }

  /** The buckets of every key are in strict order, at least one width apart. */
  predicate KeysOrdered(keys: map<string, seq<Bucket>>, step: int) {
    forall k :: k in keys ==> InOrder(keys[k], step)
  }

  lemma SweptOrdered(keys: map<string, seq<Bucket>>, cutoff: Time, step: int)
    requires step > 0 && KeysOrdered(keys, step)
    ensures KeysOrdered(Swept(keys, cutoff, step), step)
  {
    forall k | k in Swept(keys, cutoff, step) ensures InOrder(Swept(keys, cutoff, step)[k], step) {
      ExpireKeepsOrder(keys[k], cutoff, step);
    }
  }

  lemma KeysOkPut(keys: map<string, seq<Bucket>>, log: map<string, seq<Event>>, clock: Time, span: Time, step: int,
                  key: string, bs: seq<Bucket>, events: seq<Event>)
    requires step > 0 && KeysOk(keys, log, clock, span, step) && KeyOk(bs, events, clock, span, step)
    ensures KeysOk(keys[key := bs], log[key := events], clock, span, step)
    ensures bs == [] && key in log ==> KeysOk(keys - {key}, log[key := events], clock, span, step)
  {
    var logged := log[key := events];
    forall k | k in logged
      ensures KeyOk(BucketsOf(keys[key := bs], k), logged[k], clock, span, step)
    {
      if k != key {
        assert BucketsOf(keys[key := bs], k) == BucketsOf(keys, k);
      }
    }
    if bs == [] && key in log {
      forall k | k in logged
        ensures KeyOk(BucketsOf(keys - {key}, k), logged[k], clock, span, step)
      {
        if k != key {
          assert BucketsOf(keys - {key}, k) == BucketsOf(keys, k);
        } else {
          assert BucketsOf(keys - {key}, k) == [];
        }
      }
    }
  }

  /** Every key with its live buckets, without the keys that have none. */
  function Swept(keys: map<string, seq<Bucket>>, cutoff: Time, step: int): map<string, seq<Bucket>> {
    map k | k in keys && Expire(keys[k], cutoff, step) != [] :: Expire(keys[k], cutoff, step)
  }

  lemma SweptOk(keys: map<string, seq<Bucket>>, log: map<string, seq<Event>>, clock: Time, span: Time, step: int)
    requires step > 0 && KeysOk(keys, log, clock, span, step)
    ensures KeysOk(Swept(keys, clock - span, step), log, clock, span, step)
  {
    var swept := Swept(keys, clock - span, step);
    forall k | k in log ensures KeyOk(BucketsOf(swept, k), log[k], clock, span, step) {
      KeyOkLater(BucketsOf(keys, k), log[k], clock, clock, span, step);
      assert BucketsOf(swept, k) == Expire(BucketsOf(keys, k), clock - span, step);
    }
  }

  lemma KeyHeld(keys: map<string, seq<Bucket>>, log: map<string, seq<Event>>, clock: Time, span: Time, step: int,
                key: string)
    requires step > 0 && KeysOk(keys, log, clock, span, step)
    ensures KeyOk(BucketsOf(keys, key), LogOf(log, key), clock, span, step)
  {
  }

  lemma LiveOk(bs: seq<Bucket>, events: seq<Event>, clock: Time, span: Time, step: int)
    requires step > 0 && KeyOk(bs, events, clock, span, step)
    ensures KeyOk(Expire(bs, clock - span, step), events, clock, span, step)
    ensures Answers(Expire(bs, clock - span, step), events, clock - span, step)
  {
    LiveAnswers(events, clock, clock - span, step);
    KeyOkLater(bs, events, clock, clock, span, step);
  }

  class Window {
    const span: Time
    const step: int
    var keys: map<string, seq<Bucket>>
    ghost var log: map<string, seq<Event>>
    ghost var clock: Time

    ghost predicate Valid()
      reads this
    {
      0 < span <= 31 * step && step == Slack(span) > 0 && KeysOk(keys, log, clock, span, step) && KeysOrdered(keys, step)
    }

    constructor (span: Time)
      requires span > 0
      ensures Valid() && this.span == span && step == StepOf(span) && keys == map[] && log == map[]
    {
      StepIsSlack(span);
      this.span, this.step := span, StepOf(span);
      keys := map[];
      log := map[];
    }

    /** The buckets of a key are few and strictly ordered, at least one width apart. */
    lemma Tidy(key: string)
      requires Valid() && key in keys
      ensures Ordered(keys[key], step) && |keys[key]| <= 32
    {
      KeyHeld(keys, log, clock, span, step, key);
      InOrderIsOrdered(keys[key], step);
    }

    /** The index loop of `expire`. */
    method DropExpired(bs: seq<Bucket>, cutoff: Time) returns (r: seq<Bucket>)
      ensures r == Expire(bs, cutoff, step)
    {
      var i := 0;
      while i < |bs| && bs[i].start + step <= cutoff
        invariant i <= |bs| && Expire(bs, cutoff, step) == Expire(bs[i..], cutoff, step)
      {
        assert bs[i..][1..] == bs[i + 1..];
        i := i + 1;
      }
      return bs[i..];
    }

    /** Time passes; nothing else changes. */
    ghost method Advance(now: Time)
      requires Valid() && now >= clock
      modifies this`clock
      ensures Valid() && clock == now
    {
      forall k | k in log ensures KeyOk(BucketsOf(keys, k), log[k], now, span, step) {
        KeyOkLater(BucketsOf(keys, k), log[k], clock, now, span, step);
      }
      clock := now;
    }

    /** The live buckets of a key. */
    method LiveBuckets(key: string, cutoff: Time) returns (r: seq<Bucket>)
      requires Valid() && cutoff == clock - span
      ensures r == Expire(BucketsOf(keys, key), cutoff, step)
      ensures KeyOk(BucketsOf(keys, key), LogOf(log, key), clock, span, step)
      ensures KeyOk(r, LogOf(log, key), clock, span, step)
      ensures Answers(r, LogOf(log, key), cutoff, step)
      ensures key !in log ==> r == []
      ensures InOrder(r, step)
    {
      KeyHeld(keys, log, clock, span, step, key);
      LiveOk(BucketsOf(keys, key), LogOf(log, key), clock, span, step);
      ExpireKeepsOrder(BucketsOf(keys, key), cutoff, step);
      r := DropExpired(BucketsOf(keys, key), cutoff);
    }

    /** Keep the buckets of a key, or forget the key when nothing is left. */
    method Keep(key: string, bs: seq<Bucket>, ghost events: seq<Event>)
      requires Valid() && KeyOk(bs, events, clock, span, step) && InOrder(bs, step)
      requires bs == [] ==> events == LogOf(log, key)
      modifies this`keys, this`log
      ensures Valid()
      ensures keys == if bs == [] then old(keys) - {key} else old(keys)[key := bs]
      ensures log == if key in old(log) || bs != [] then old(log)[key := events] else old(log)
    {
      KeysOkPut(keys, log, clock, span, step, key, bs, events);
      if bs == [] {
        keys := keys - {key};
        assert key !in log ==> keys == old(keys);
      } else {
        keys := keys[key := bs];
      }
      log := if key in log || bs != [] then log[key := events] else log;
    }

    /** `sweep`: every key keeps its live buckets, so no later answer changes. */
    method Sweep(cutoff: Time)
      requires Valid() && cutoff == clock - span
      modifies this`keys
      ensures Valid()
      ensures keys == Swept(old(keys), cutoff, step)
    {
      SweptOk(keys, log, clock, span, step);
      SweptOrdered(keys, cutoff, step);
      keys := SweepKeys(keys, cutoff);
    }

    method SweepKeys(keys: map<string, seq<Bucket>>, cutoff: Time) returns (r: map<string, seq<Bucket>>)
      ensures r == Swept(keys, cutoff, step)
    {
      r := keys;
      var todo := keys.Keys;
      while todo != {}
        invariant todo <= keys.Keys
        invariant r == map k | k in keys && (k in todo || Expire(keys[k], cutoff, step) != []) ::
                         if k in todo then keys[k] else Expire(keys[k], cutoff, step)
        decreases todo
      {
        var k :| k in todo;
        var rest := DropExpired(keys[k], cutoff);
        if rest == [] {
          r := r - {k};
        } else {
          r := r[k := rest];
        }
        todo := todo - {k};
      }
    }

    /** The live buckets of a key with one more event counted. */
    method Counted(key: string, now: nat, hit: bool) returns (r: seq<Bucket>)
      requires Valid() && now == clock
      ensures r != [] && InOrder(r, step)
      ensures KeyOk(r, LogOf(log, key) + [Event(now, hit)], now, span, step)
      ensures Answers(r, LogOf(log, key) + [Event(now, hit)], now - span, step)
    {
      KeyHeld(keys, log, clock, span, step, key);
      r := DropExpired(BucketsOf(keys, key), now - span);
      KeyOkPush(BucketsOf(keys, key), LogOf(log, key), now, span, step, hit);
      PushKeepsOrder(BucketsOf(keys, key), LogOf(log, key), now, span, step, hit);
      r := Count(r, now, hit);
    }

    /** The part of `add` that counts the event. */
    method Store(key: string, now: nat, hit: bool) returns (buckets: seq<Bucket>)
      requires Valid() && now >= clock
      modifies this
      ensures Valid() && clock == now
      ensures log == old(log)[key := LogOf(old(log), key) + [Event(now, hit)]]
      ensures Answers(buckets, log[key], now - span, step)
    {
      Advance(now);
      ghost var events := LogOf(log, key) + [Event(now, hit)];
      buckets := Counted(key, now, hit);
      Keep(key, buckets, events);
    }

    /**
     `add`: count an event and answer for its key. The answer lies between the
     exact counts over the span and over the span plus its slack.
     */
    method Add(key: string, now: nat, hit: bool) returns (total: nat, hits: nat)
      requires Valid() && now >= clock
      modifies this
      ensures Valid() && clock == now
      ensures log == old(log)[key := LogOf(old(log), key) + [Event(now, hit)]]
      ensures Exact(log[key], now - span) <= total <= Exact(log[key], now - span - Slack(span))
      ensures ExactHits(log[key], now - span) <= hits <= ExactHits(log[key], now - span - Slack(span))
    {
      var buckets := Store(key, now, hit);
      total, hits := Sum(buckets);
      if |keys| > MANY_KEYS {
        Sweep(now - span);
      }
    }

    /** The event goes to the last bucket if that is its own, and to a new one if not. */
    method Count(bs: seq<Bucket>, now: nat, hit: bool) returns (r: seq<Bucket>)
      requires step > 0
      ensures r == Push(bs, step, Event(now, hit)) && r != []
    {
      TruncateIsRemainder(now, step);
      var start, n := now - now % step, |bs|;
      if n > 0 && bs[n - 1].start == start {
        var b := bs[n - 1].(total := bs[n - 1].total + 1);
        if hit {
          b := b.(hits := b.hits + 1);
        }
        return bs[n - 1 := b];
      }
      var b := Bucket(start, 1, 0);
      if hit {
        b := b.(hits := 1);
      }
      return bs + [b];
    }

    method Sum(bs: seq<Bucket>) returns (total: nat, hits: nat)
      ensures total == Total(bs) && hits == Hits(bs)
    {
      total, hits := 0, 0;
      for i := 0 to |bs|
        invariant total == Total(bs[..i]) && hits == Hits(bs[..i])
      {
        assert bs[..i + 1][..i] == bs[..i];
        total := total + bs[i].total;
        hits := hits + bs[i].hits;
      }
      assert bs[..|bs|] == bs;
    }

    /** The part of `hits` that keeps the live buckets. */
    method Refresh(key: string, now: Time) returns (buckets: seq<Bucket>)
      requires Valid() && now >= clock
      modifies this
      ensures Valid() && clock == now && log == old(log)
      ensures Answers(buckets, LogOf(log, key), now - span, step)
      ensures if buckets == [] then key !in keys else key in keys && keys[key] == buckets
    {
      Advance(now);
      buckets := LiveBuckets(key, now - span);
      Keep(key, buckets, LogOf(log, key));
    }

    /** `hits`: the same bounds without counting an event; a key with nothing left is dropped. */
    method Recent(key: string, now: Time) returns (hits: nat)
      requires Valid() && now >= clock
      modifies this
      ensures Valid() && clock == now && log == old(log)
      ensures ExactHits(LogOf(log, key), now - span) <= hits <= ExactHits(LogOf(log, key), now - span - Slack(span))
      ensures key in keys ==> keys[key] != []
    {
      var buckets := Refresh(key, now);
      if buckets == [] {
        return 0;
      }
      var _, n := Sum(buckets);
      return n;
    }
  }
}

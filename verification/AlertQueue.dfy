/**
 The queue itself: the tables as fields, changed in place, with the loops of
 the delivery pass. Each method is proved to be the table function of the same
 step; what those functions guarantee over whole runs is in `AlertTheorems`.
 The rows a claiming query returns are a parameter; the channels' answers are
 a function from channel names.
 */
module AlertQueue {
  import opened Basics
  import opened AlertModel
  import opened AlertMachine
  import opened AlertCore
  import opened AlertLaws

  /** Durations the backoff computes with: a 64-bit count of nanoseconds. */
  newtype Duration = d: int | -0x8000_0000_0000_0000 <= d < 0x8000_0000_0000_0000

  lemma {:induction false} Pow2Grows(m: nat, n: nat)
    requires m <= n
    ensures 1 <= Pow2(m) <= Pow2(n)
  {
    if m < n {
      Pow2Grows(m, n - 1);
    } else if n > 0 {
      Pow2Grows(m - 1, n - 1);
    }
  }

  lemma DoubledPow2(base: int, n: nat)
    requires n > 0
    ensures base * Pow2(n) == base * Pow2(n - 1) * 2
  {
  }

  lemma TimesGrows(k: nat, a: int, b: int)
    requires a <= b
    ensures k * a <= k * b
  {
  }

  /** `retryDelay`: doubling with an early exit at the cap, never past the range of the type. */
  method RetryWait(base: Duration, cap: Duration, attempts: nat) returns (wait: Duration)
    requires 1 <= base <= cap <= 0x3fff_ffff_ffff_ffff
    ensures wait as int ==
      if attempts <= 1 then base as int else Min(base as int * Pow2(attempts - 1), cap as int)
  {
    wait := base;
    var i := 1;
    while i < attempts
      invariant 1 <= i && (i == 1 || i <= attempts)
      invariant 1 <= wait && wait as int == base as int * Pow2(i - 1)
      invariant i == 1 || wait < cap
      invariant wait <= cap
    {
      wait := wait * 2;
      DoubledPow2(base as int, i);
      if wait >= cap {
        Pow2Grows(i, attempts - 1);
        TimesGrows(base as int, Pow2(i), Pow2(attempts - 1));
        return cap;
      }
      i := i + 1;
    }
  }

  lemma EnsuredAt(before: map<LineId, Line>, id: nat, active: seq<string>, k: LineId)
    ensures var lines := EnsureLines(before, id, active);
      && (k in lines <==> k in before || (k.0 == id && k.1 in active))
      && (k in lines ==> lines[k] == if k in before then before[k] else FreshLine())
  {
  }

  lemma EnsureNext(before: map<LineId, Line>, id: nat, active: seq<string>, i: nat)
    requires i < |active|
    ensures var done, k := EnsureLines(before, id, active[..i]), (id, active[i]);
      EnsureLines(before, id, active[..i + 1]) == if k in done then done else done[k := FreshLine()]
  {
    assert active[..i + 1] == active[..i] + [active[i]];
    var done, more := EnsureLines(before, id, active[..i]), EnsureLines(before, id, active[..i + 1]);
    var k := (id, active[i]);
    var next := if k in done then done else done[k := FreshLine()];
    forall l: LineId ensures (l in more <==> l in next) && (l in more ==> more[l] == next[l]) {
      EnsuredAt(before, id, active[..i], l);
      EnsuredAt(before, id, active[..i + 1], l);
    }
    assert more == next;
  }

  /** One bulk update, on values. */
  function Updated(db: Store, p: Alert -> bool, change: Alert -> Alert,
                   from: set<Delivery>, lineChange: Line -> Line): Store
  {
    Store(
      seq(|db.alerts|, i requires 0 <= i < |db.alerts| => if p(db.alerts[i]) then change(db.alerts[i]) else db.alerts[i]),
      map k | k in db.lines ::
        if k.0 < |db.alerts| && p(db.alerts[k.0]) && db.lines[k].status in from
        then lineChange(db.lines[k]) else db.lines[k])
  }

  predicate Unheard(a: Alert) {
    Dismissable(a) && a.lastNotified.None?
  }

  predicate Heard(a: Alert) {
    Dismissable(a) && a.lastNotified.Some?
  }

  function DismissRow(a: Alert): Alert {
    a.(delivery := Dismissed, next := None)
  }

  function SettleRow(a: Alert): Alert {
    a.(delivery := Sent, next := None)
  }

  function DismissLine(l: Line): Line {
    l.(status := Dismissed, next := None)
  }

  function SettleLine(l: Line): Line {
    l.(status := Sent, next := None)
  }

  /** One row, or one line of row `a`, after a bulk update. */
  function RowAfter(a: Alert, p: Alert -> bool, change: Alert -> Alert): Alert {
    if p(a) then change(a) else a
  }

  function LineAfter(a: Alert, l: Line, p: Alert -> bool, from: set<Delivery>, change: Line -> Line): Line {
    if p(a) && l.status in from then change(l) else l
  }

  /** Two bulk updates in a row are a third one if they are so for every row and every line of it. */
  lemma UpdatedTwice(db: Store, from: set<Delivery>,
                     p: Alert -> bool, f: Alert -> Alert, fl: Line -> Line,
                     q: Alert -> bool, g: Alert -> Alert, gl: Line -> Line,
                     after: Store)
    requires |after.alerts| == |db.alerts| && after.lines.Keys == db.lines.Keys
    requires forall i :: 0 <= i < |db.alerts| ==>
      after.alerts[i] == RowAfter(RowAfter(db.alerts[i], p, f), q, g)
    requires forall k: LineId :: k in db.lines ==>
      var l := db.lines[k];
      after.lines[k] ==
        if k.0 >= |db.alerts| then l
        else LineAfter(RowAfter(db.alerts[k.0], p, f), LineAfter(db.alerts[k.0], l, p, from, fl), q, from, gl)
    ensures Updated(Updated(db, p, f, from, fl), q, g, from, gl) == after
  {
    var one := Updated(db, p, f, from, fl);
    var two := Updated(one, q, g, from, gl);
    forall i | 0 <= i < |db.alerts| ensures two.alerts[i] == after.alerts[i] {
      assert one.alerts[i] == RowAfter(db.alerts[i], p, f);
    }
    assert two.alerts == after.alerts;
    forall k: LineId | k in db.lines ensures two.lines[k] == after.lines[k] {
      if k.0 < |db.alerts| {
        assert one.alerts[k.0] == RowAfter(db.alerts[k.0], p, f);
        assert one.lines[k] == LineAfter(db.alerts[k.0], db.lines[k], p, from, fl);
      }
    }
    assert two.lines == after.lines;
  }

  /** The two statements of `dispensarResolvidos` together are `DismissResolved`. */
  lemma DismissInTwo(db: Store)
    ensures Updated(Updated(db, Unheard, DismissRow, {Pending}, DismissLine), Heard, SettleRow, {Pending}, SettleLine)
         == DismissResolved(db)
  {
    UpdatedTwice(db, {Pending}, Unheard, DismissRow, DismissLine, Heard, SettleRow, SettleLine, DismissResolved(db));
  }

  function Silent(cfg: Config, health: Health, now: Time): Alert -> bool {
    a => StuckWithoutChannel(cfg, a, health, now)
  }

  function GaveUp(cfg: Config, health: Health, now: Time): Alert -> bool {
    a => StuckFailed(cfg, a, health, now)
  }

  /** The two selections of `retomarPresos` do not interfere, and are `ResumeStuck`. */
  lemma ResumeInTwo(cfg: Config, db: Store, health: Health, now: Time)
    ensures Updated(Updated(db, Silent(cfg, health, now), Resume, {NoChannel, Failed}, Reopened),
                    GaveUp(cfg, health, now), Resume, {NoChannel, Failed}, Reopened)
         == ResumeStuck(cfg, db, health, now)
  {
    UpdatedTwice(db, {NoChannel, Failed}, Silent(cfg, health, now), Resume, Reopened,
                 GaveUp(cfg, health, now), Resume, Reopened, ResumeStuck(cfg, db, health, now));
  }

  /** A selection that finds nothing changes nothing. */
  lemma UpdatedNowhere(db: Store, p: Alert -> bool, change: Alert -> Alert,
                       from: set<Delivery>, lineChange: Line -> Line)
    requires forall a :: !p(a)
    ensures Updated(db, p, change, from, lineChange) == db
  {
  }

  /** One more channel of the pass: its line is attempted if it is due, and the rest stay. */
  lemma AttemptedNext(cfg: Config, before: map<LineId, Line>, id: nat, active: seq<string>,
                      answers: string -> Answer, now: Time, i: nat)
    requires Distinct(active) && i < |active| && (id, active[i]) in before
    ensures var k := (id, active[i]);
      var done := Attempted(cfg, before, id, active[..i], answers, now);
      && k in done && done[k] == before[k]
      && Attempted(cfg, before, id, active[..i + 1], answers, now)
         == (if LineDue(before[k], now) then done[k := RecordResult(cfg, before[k], answers(active[i]), now)] else done)
  {
  }

  /** Closing duplicates changes nothing when there are none. */
  lemma OneLiveIsLeft(alerts: seq<Alert>)
    ensures OneLivePerKey(alerts) ==> CloseDuplicates(alerts) == alerts
  {
  }

  class Queue {
    const cfg: Config
    var alerts: seq<Alert>
    var lines: map<LineId, Line>

    constructor (cfg: Config)
      ensures this.cfg == cfg && Db() == Store([], map[])
    {
      this.cfg := cfg;
      alerts := [];
      lines := map[];
    }

    function Db(): Store
      reads this
    {
      Store(alerts, lines)
    }

    /** `Enqueue`: raise an alert, or count a repetition of a live incident. */
    method Raise(e: Entry, now: Time) returns (queued: bool)
      modifies this
      ensures Db() == Enqueue(cfg, old(Db()), e, now)
      ensures queued ==> Accepted(e) && |alerts| > 0
      ensures !queued ==> lines == old(lines) && |alerts| == |old(alerts)|
      ensures !queued ==> forall i :: 0 <= i < |alerts| ==>
                alerts[i] == old(alerts)[i] || alerts[i] == old(alerts)[i].(lastSeen := Some(now))
    {
      if !Accepted(e) {
        return false;
      }
      var live := LiveIncident(alerts, e.key, now - cfg.window);
      if live.Some? {
        queued := Repeat(live.value, e, now);
        return;
      }
      var row := NewIncident(e.key, e.text, now, FirstAttempt(cfg, alerts, e.key, now));
      alerts := CloseOthers(alerts + [row], e.key, |alerts|);
      return true;
    }

    /** `renotificar` */
    method Repeat(i: nat, e: Entry, now: Time) returns (warned: bool)
      requires i < |alerts|
      modifies this
      ensures Db() == Renotify(cfg, old(Db()), i, e, now)
      ensures warned <==> old(alerts)[i].status == Open && old(alerts)[i].delivery == Sent
                          && Quiet(cfg, old(alerts)[i], now)
      ensures !warned ==> lines == old(lines)
      ensures warned ==> forall k :: k in lines && k.0 == i ==> lines[k].status == Pending && lines[k].attempts == 0
    {
      var a := alerts[i];
      var seen := a.lastSeen.None? || now - a.lastSeen.value >= SEEN_EVERY;
      warned := a.status == Open && a.delivery == Sent
                && (a.lastNotified.None? || now - a.lastNotified.value >= cfg.cooldown);
      if seen {
        a := a.(lastSeen := Some(now));
      }
      if warned {
        a := a.(lastSeen := Some(now), text := e.text, delivery := Pending, attempts := 0,
                next := Some(now), lastError := "", renotifyCount := a.renotifyCount + 1);
      }
      if !seen && !warned {
        return;
      }
      alerts := alerts[i := a];
      if warned {
        lines := ReopenLines(lines, i);
      }
    }

    /** `Recovered`: close the incident and, if anyone was told about it, tell them it is over. */
    method Recover(key: string, text: string, enabled: bool, now: Time) returns (queued: bool)
      modifies this
      ensures Db() == Recovered(old(Db()), key, text, enabled, now)
      ensures queued <==> ToldOf(old(alerts), key) && enabled && text != ""
      ensures |alerts| == |old(alerts)| + if queued then 1 else 0
      ensures queued ==>
        var notice := alerts[|old(alerts)|];
        notice.key == key + ":recuperacao" && Notice(notice, text) && AlertDue(notice, now)
      ensures forall i :: 0 <= i < |old(alerts)| ==> alerts[i] == ClosedAt(old(alerts)[i], key, Some(now))
    {
      SuffixedIsRecovery(key);
      var before := alerts;
      var announced, any := false, false;
      for i := 0 to |before|
        invariant any == exists j :: 0 <= j < i && OpenFor(before[j], key)
        invariant announced == exists j :: 0 <= j < i && OpenFor(before[j], key) && before[j].lastNotified.Some?
      {
        if OpenFor(before[i], key) {
          any := true;
          announced := announced || before[i].lastNotified.Some?;
        }
      }
      if !any {
        assert ResolveKey(alerts, key, now) == alerts;
        return false;
      }
      alerts := ResolveKey(alerts, key, now);
      if !announced || !enabled || text == "" {
        return false;
      }
      alerts := alerts + [RecoveryRow(key, text, now)];
      return true;
    }

    method Ack(id: nat) returns (accepted: bool)
      modifies this
      ensures Db() == Acknowledge(old(Db()), id)
      ensures accepted <==> id < |old(alerts)| && old(alerts)[id].status != Resolved
      ensures lines == old(lines)
      ensures alerts == if accepted then old(alerts)[id := old(alerts)[id].(status := Acked)] else old(alerts)
    {
      if id >= |alerts| || alerts[id].status == Resolved {
        return false;
      }
      alerts := alerts[id := alerts[id].(status := Acked)];
      return true;
    }

    method ResolveOne(id: nat, now: Time) returns (accepted: bool)
      modifies this
      ensures Db() == ResolveByHand(old(Db()), id, now)
      ensures accepted <==> id < |old(alerts)| && old(alerts)[id].status != Resolved
      ensures lines == old(lines)
      ensures alerts == if accepted
        then old(alerts)[id := old(alerts)[id].(status := Resolved, resolvedAt := Some(now))] else old(alerts)
    {
      if id >= |alerts| || alerts[id].status == Resolved {
        return false;
      }
      alerts := alerts[id := alerts[id].(status := Resolved, resolvedAt := Some(now))];
      return true;
    }

    /** `fecharDuplicados` */
    method CloseStale()
      modifies this
      ensures Db() == old(Db()).(alerts := CloseDuplicates(old(alerts)))
      ensures OneLivePerKey(alerts)
      ensures OneLivePerKey(old(alerts)) ==> Db() == old(Db())
    {
      CloseDuplicatesOneLive(alerts);
      OneLiveIsLeft(alerts);
      alerts := CloseDuplicates(alerts);
    }

    /** A bulk update of the selected rows and of those of their lines that are in one of the given states. */
    method UpdateWhere(p: Alert -> bool, change: Alert -> Alert, from: set<Delivery>, lineChange: Line -> Line)
      modifies this
      ensures Db() == Updated(old(Db()), p, change, from, lineChange)
    {
      var db := Updated(Db(), p, change, from, lineChange);
      alerts, lines := db.alerts, db.lines;
    }

    /** `dispensarResolvidos`: first the rows nobody heard of, then the announced ones. */
    method Dismiss()
      modifies this
      ensures Db() == DismissResolved(old(Db()))
    {
      DismissInTwo(Db());
      UpdateWhere(Unheard, DismissRow, {Pending}, DismissLine);
      UpdateWhere(Heard, SettleRow, {Pending}, SettleLine);
    }

    /** `retomarPresos`: the rows without a channel, then the failed ones the channel outlived. */
    method ResumeAll(health: Health, now: Time)
      modifies this
      ensures Db() == ResumeStuck(cfg, old(Db()), health, now)
    {
      ResumeInTwo(cfg, Db(), health, now);
      if health.state == Off {
        UpdatedNowhere(Db(), Silent(cfg, health, now), Resume, {NoChannel, Failed}, Reopened);
        UpdatedNowhere(Db(), GaveUp(cfg, health, now), Resume, {NoChannel, Failed}, Reopened);
        return;
      }
      UpdateWhere(Silent(cfg, health, now), Resume, {NoChannel, Failed}, Reopened);
      if health.state != Working || health.checkedAt.None? {
        UpdatedNowhere(Db(), GaveUp(cfg, health, now), Resume, {NoChannel, Failed}, Reopened);
        return;
      }
      UpdateWhere(GaveUp(cfg, health, now), Resume, {NoChannel, Failed}, Reopened);
    }

    /** `claimBatch`, on the rows its query returned. */
    method Claim(ids: seq<nat>, now: Time)
      requires ClaimOf(cfg, alerts, ids, now)
      modifies this`alerts
      ensures alerts == Lease(cfg, old(Db()), ids, now).alerts
      ensures forall i, t :: i in ids && t < now + cfg.lease ==> !AlertDue(alerts[i], t)
      ensures cfg.lease > 0 && |ids| < cfg.batch ==> forall i :: 0 <= i < |alerts| ==> !AlertDue(alerts[i], now)
    {
      alerts := Lease(cfg, Db(), ids, now).alerts;
    }

    /** `garantirLinhas` */
    method OpenLines(id: nat, active: seq<string>)
      modifies this`lines
      ensures lines == EnsureLines(old(lines), id, active)
    {
      ghost var before := lines;
      for i := 0 to |active|
        invariant lines == EnsureLines(before, id, active[..i])
      {
        EnsureNext(before, id, active, i);
        if (id, active[i]) !in lines {
          lines := lines[(id, active[i]) := FreshLine()];
        }
      }
      assert active[..|active|] == active;
    }

    /** `registrarResultado` */
    method Record(k: LineId, answer: Answer, now: Time)
      requires ValidConfig(cfg) && cfg.cap <= 0x3fff_ffff_ffff_ffff && k in lines
      modifies this`lines
      ensures lines == old(lines)[k := RecordResult(cfg, old(lines)[k], answer, now)]
    {
      var l := lines[k];
      match answer {
        case Unconfigured(reason) =>
          l := l.(status := NoChannel, next := None, lastAttempt := Some(now), lastError := reason);
        case Refused(reason) =>
          l := l.(attempts := l.attempts + 1, lastAttempt := Some(now), lastError := reason);
          if l.attempts >= cfg.maxAttempts {
            l := l.(status := Failed, next := None);
          } else {
            var wait := RetryWait(cfg.base as Duration, cfg.cap as Duration, l.attempts);
            l := l.(status := Pending, next := Some(now + wait as int));
          }
        case Delivered =>
          l := Line(Sent, l.attempts + 1, None, Some(now), "");
      }
      lines := lines[k := l];
    }

    /** `consolidar` */
    method Consolidate(id: nat, active: seq<string>, deliveredNow: bool, now: Time)
      requires id < |alerts|
      modifies this`alerts
      ensures alerts ==
        old(alerts)[id := Consolidated(old(alerts)[id], TallyOf(lines, id, active), deliveredNow, now)]
    {
      var attempts, lastError := 0, "";
      var next, lastAttempt := None, None;
      var pending, failed, noChannel := false, false, false;
      for i := 0 to |active|
        invariant TallyOf(lines, id, active[..i])
               == Tally(attempts, lastError, next, lastAttempt, pending, failed, noChannel)
      {
        assert active[..i + 1][..i] == active[..i];
        var k := (id, active[i]);
        if k !in lines {
          continue;
        }
        var l := lines[k];
        if l.attempts > attempts {
          attempts := l.attempts;
        }
        if l.lastAttempt.Some? && (lastAttempt.None? || l.lastAttempt.value > lastAttempt.value) {
          lastAttempt := l.lastAttempt;
        }
        if l.lastError != "" && lastError == "" {
          lastError := l.lastError;
        }
        match l.status {
          case Pending =>
            pending := true;
            if l.next.Some? && (next.None? || l.next.value < next.value) {
              next := l.next;
            }
          case Failed => failed := true;
          case NoChannel => noChannel := true;
          case _ =>
        }
      }
      assert active[..|active|] == active;
      var a := alerts[id];
      var outcome := Sent;
      if pending {
        outcome := Pending;
        if next.None? {
          next := Some(now);
        }
      } else if noChannel {
        outcome := NoChannel;
      } else if failed {
        outcome := Failed;
      }
      a := a.(delivery := outcome, attempts := attempts, lastError := lastError, next := next);
      if lastAttempt.Some? {
        a := a.(lastAttempt := lastAttempt);
      }
      if deliveredNow {
        a := a.(lastNotified := Some(now));
      }
      alerts := alerts[id := a];
    }

    /** The loop of `entregarAlerta`: every due line of an active channel is attempted once. */
    method AttemptLines(id: nat, active: seq<string>, answers: string -> Answer, now: Time)
      returns (delivered: seq<string>)
      requires ValidConfig(cfg) && cfg.cap <= 0x3fff_ffff_ffff_ffff && Distinct(active)
      requires forall c :: c in active ==> (id, c) in lines
      modifies this`lines
      ensures lines == Attempted(cfg, old(lines), id, active, answers, now)
      ensures delivered == DeliveredOn(old(lines), id, active, answers, now)
    {
      delivered := [];
      ghost var before := lines;
      for i := 0 to |active|
        invariant lines == Attempted(cfg, before, id, active[..i], answers, now)
        invariant delivered == DeliveredOn(before, id, active[..i], answers, now)
      {
        var c := active[i];
        assert c in active;
        AttemptedNext(cfg, before, id, active, answers, now, i);
        assert active[..i + 1][..i] == active[..i];
        if LineDue(lines[(id, c)], now) {
          if answers(c) == Delivered {
            delivered := delivered + [c];
          }
          Record((id, c), answers(c), now);
        }
      }
      assert active[..|active|] == active;
    }

    /** `entregarAlerta` */
    method DeliverAlert(id: nat, active: seq<string>, answers: string -> Answer, now: Time)
      returns (delivered: seq<string>)
      requires ValidConfig(cfg) && cfg.cap <= 0x3fff_ffff_ffff_ffff && id < |alerts| && Distinct(active)
      modifies this
      ensures Db() == Deliver(cfg, old(Db()), id, active, answers, now)
      ensures delivered == SentBy(old(Db()), id, active, answers, now)
    {
      if active == [] {
        alerts := alerts[id := WithoutChannel(alerts[id], now)];
        return [];
      }
      OpenLines(id, active);
      delivered := AttemptLines(id, active, answers, now);
      Consolidate(id, active, delivered != [], now);
    }
  }
}

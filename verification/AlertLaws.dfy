/**
 What the steps of the queue do to single rows and lines, field by field, and
 what follows for whole runs: a notice of recovery waits for its delivery, an
 acknowledged incident is not announced again, a refused line is given up after
 exactly the configured number of attempts.
 */
module AlertLaws {
  import opened Basics
  import opened AlertModel
  import opened AlertMachine
  import opened AlertCore

  // ----- raising

  /** The last announcement is absent, or at least a cooldown old. */
  predicate Quiet(cfg: Config, a: Alert, now: Time) {
    a.lastNotified.None? || a.lastNotified.value + cfg.cooldown <= now
  }

  /** The live incident of a key is its newest unresolved row seen since the cutoff. */
  lemma LiveIs(alerts: seq<Alert>, key: string, cutoff: Time, i: nat)
    ensures LiveIncident(alerts, key, cutoff) == Some(i) <==> LiveRow(alerts, key, cutoff, i)
                                                              && forall j: nat :: i < j ==> !LiveRow(alerts, key, cutoff, j)
    ensures LiveIncident(alerts, key, cutoff).None? <==> forall j: nat :: !LiveRow(alerts, key, cutoff, j)
  {
    var live := LiveIncident(alerts, key, cutoff);
    assert forall j: nat :: LiveRow(alerts, key, cutoff, j) ==> OpenFor(alerts[j], key) && Seen(alerts[j]) >= cutoff;
    if live.Some? {
      assert LiveRow(alerts, key, cutoff, live.value);
    }
  }

  predicate LiveRow(alerts: seq<Alert>, key: string, cutoff: Time, i: nat) {
    i < |alerts| && alerts[i].key == key && alerts[i].status != Resolved && SightOf(alerts[i]).value >= cutoff
  }

  /** A row that is announced again was open, sent and quiet. */
  lemma ReannouncedWasQuiet(cfg: Config, w: World, step: Step, i: nat)
    requires Enabled(cfg, w, step) && i < |w.db.alerts|
    requires Apply(cfg, w, step).db.alerts[i].renotifyCount != w.db.alerts[i].renotifyCount
    ensures step.EnqueueStep? && w.db.alerts[i].key == step.entry.key
    ensures w.db.alerts[i].status == Open && w.db.alerts[i].delivery == Sent && Quiet(cfg, w.db.alerts[i], step.at)
    ensures Apply(cfg, w, step).db.alerts[i].renotifyCount == w.db.alerts[i].renotifyCount + 1
  {
  }

  /** A served line that is opened again belonged to a row that was open, sent and quiet. */
  lemma ReopenedWasQuiet(cfg: Config, w: World, step: Step, k: LineId)
    requires Enabled(cfg, w, step) && k in w.db.lines && k.0 < |w.db.alerts| && w.db.lines[k].status == Sent
    requires Apply(cfg, w, step).db.lines[k] != w.db.lines[k]
    ensures step.EnqueueStep? && w.db.alerts[k.0].key == step.entry.key
    ensures w.db.alerts[k.0].status == Open && w.db.alerts[k.0].delivery == Sent && Quiet(cfg, w.db.alerts[k.0], step.at)
  {
  }

  /** The entry is accepted, and row `i` is the live incident it meets: open, sent and quiet. */
  predicate MeetsQuiet(cfg: Config, w: World, e: Entry, at: Time, i: nat) {
    && at >= w.clock && e.key != "" && e.text != "" && !e.belowMinimum
    && LiveIncident(w.db.alerts, e.key, at - cfg.window) == Some(i)
    && w.db.alerts[i].status == Open && w.db.alerts[i].delivery == Sent && Quiet(cfg, w.db.alerts[i], at)
  }

  /** What a repeated alert changes in the open, sent and quiet incident it meets. */
  lemma QuietIsReannounced(cfg: Config, w: World, e: Entry, at: Time, i: nat)
    requires MeetsQuiet(cfg, w, e, at, i)
    ensures var alerts, after := w.db.alerts, Apply(cfg, w, EnqueueStep(e, at)).db.alerts;
      && |after| == |alerts|
      && after[i] == alerts[i].(lastSeen := Some(at), text := e.text, delivery := Pending, attempts := 0,
                                next := Some(at), lastError := "", renotifyCount := alerts[i].renotifyCount + 1)
      && forall j :: 0 <= j < |alerts| && j != i ==> after[j] == alerts[j]
  {
  }

  /** All its lines are pending again, whatever their state, with no attempt made; no other line changes. */
  lemma QuietIsReopened(cfg: Config, w: World, e: Entry, at: Time, i: nat)
    requires MeetsQuiet(cfg, w, e, at, i)
    ensures var lines, after := w.db.lines, Apply(cfg, w, EnqueueStep(e, at)).db.lines;
      && after.Keys == lines.Keys
      && forall k :: k in lines ==>
           if k.0 != i then after[k] == lines[k]
           else after[k].status == Pending && after[k].attempts == 0 && after[k].next.None? && after[k].lastError == ""
  {
  }

  /** Any other repetition of a live incident changes at most the time of its last sight, once a minute. */
  lemma OtherIsSeen(cfg: Config, db: Store, i: nat, e: Entry, at: Time)
    requires i < |db.alerts|
    requires db.alerts[i].status != Open || db.alerts[i].delivery != Sent || !Quiet(cfg, db.alerts[i], at)
    ensures var a := db.alerts[i];
      var seen := a.lastSeen.None? || at - a.lastSeen.value >= 60_000_000_000;
      Renotify(cfg, db, i, e, at) == db.(alerts := db.alerts[i := if seen then a.(lastSeen := Some(at)) else a])
  {
    assert db.alerts[i := db.alerts[i]] == db.alerts;
  }

  lemma RepeatedIsSeen(cfg: Config, w: World, e: Entry, at: Time, i: nat)
    requires at >= w.clock && LiveIncident(w.db.alerts, e.key, at - cfg.window) == Some(i)
    requires e.key != "" && e.text != "" && !e.belowMinimum && !MeetsQuiet(cfg, w, e, at, i)
    ensures var a := w.db.alerts[i];
      var seen := a.lastSeen.None? || at - a.lastSeen.value >= 60_000_000_000;
      Apply(cfg, w, EnqueueStep(e, at)).db
        == w.db.(alerts := w.db.alerts[i := if seen then a.(lastSeen := Some(at)) else a])
  {
    OtherIsSeen(cfg, w.db, i, e, at);
  }

  /** No step opens a row that was acknowledged or resolved. */
  lemma NeverOpenAgain(cfg: Config, w: World, step: Step, i: nat)
    requires Enabled(cfg, w, step) && i < |w.db.alerts| && w.db.alerts[i].status != Open
    ensures i < |Apply(cfg, w, step).db.alerts| && Apply(cfg, w, step).db.alerts[i].status != Open
  {
  }

  /** A served line of a row that is no longer open is neither changed nor delivered to. */
  lemma ServedStaysQuiet(cfg: Config, w: World, step: Step, k: LineId)
    requires Enabled(cfg, w, step) && LinesOk(cfg, w.db) && k in w.db.lines && w.db.lines[k].status == Sent
    requires w.db.alerts[k.0].status != Open
    ensures k in Apply(cfg, w, step).db.lines && Apply(cfg, w, step).db.lines[k] == w.db.lines[k]
    ensures Count(Apply(cfg, w, step).sends, k) == Count(w.sends, k)
  {
    if Apply(cfg, w, step).db.lines[k] != w.db.lines[k] {
      ReopenedWasQuiet(cfg, w, step, k);
    }
    if step.DeliverStep? {
      PassCount(cfg, w, step, k);
      var id := w.inflight[0];
      DeliveredOnMembers(EnsureLines(w.db.lines, id, step.active), id, step.active, step.answers, step.at);
    }
  }

  /**
   Once a row is acknowledged or resolved, no run delivers it again to a channel
   that has it: nothing but an open incident is announced twice.
   */
  lemma {:induction false} AcknowledgedStaysQuiet(cfg: Config, w: World, steps: seq<Step>, k: LineId)
    requires ValidConfig(cfg) && Core(cfg, w) && Admissible(cfg, w, steps)
    requires k in w.db.lines && w.db.lines[k].status == Sent && w.db.alerts[k.0].status != Open
    ensures k in Run(cfg, w, steps).db.lines && Run(cfg, w, steps).db.lines[k] == w.db.lines[k]
    ensures Count(Run(cfg, w, steps).sends, k) == Count(w.sends, k)
    decreases |steps|
  {
    if steps != [] {
      StepKeepsCore(cfg, w, steps[0]);
      NeverOpenAgain(cfg, w, steps[0], k.0);
      ServedStaysQuiet(cfg, w, steps[0], k);
      AcknowledgedStaysQuiet(cfg, Apply(cfg, w, steps[0]), steps[1..], k);
    }
  }

  // ----- notices of recovery

  /** A pending notice of recovery: resolved from birth, and due once its time comes. */
  predicate Notice(a: Alert, text: string) {
    && a.status == Resolved && a.delivery == Pending && a.text == text && IsRecoveryKey(a.key)
    && a.next.Some?
  }

  /** A pending notice is due from its time on, resolved though it is. */
  lemma NoticeIsDue(a: Alert, text: string, t: Time)
    requires Notice(a, text)
    ensures AlertDue(a, t) <==> a.next.value <= t
  {
  }

  lemma SuffixedIsRecovery(key: string)
    ensures IsRecoveryKey(key + ":recuperacao")
  {
    var all := key + ":recuperacao";
    assert all[|all| - |RECOVERY_SUFFIX|..] == ":recuperacao";
  }

  /** Some unresolved row of the key was announced. */
  predicate ToldOf(alerts: seq<Alert>, key: string) {
    exists i :: 0 <= i < |alerts| && alerts[i].key == key && alerts[i].status != Resolved && alerts[i].lastNotified.Some?
  }

  /** A row after its key was closed at some time: no row but the unresolved ones of the key changes. */
  function ClosedAt(a: Alert, key: string, t: Option<Time>): Alert {
    if a.key == key && a.status != Resolved then a.(status := Resolved, resolvedAt := t) else a
  }

  /** What a recovery does to every row, and the notice it makes when somebody was told. */
  lemma RecoveryTells(cfg: Config, w: World, key: string, text: string, enabled: bool, at: Time)
    requires at >= w.clock
    ensures var v := Apply(cfg, w, RecoveredStep(key, text, enabled, at));
      var n := |w.db.alerts|;
      && v.db.lines == w.db.lines
      && (forall i :: 0 <= i < n ==> v.db.alerts[i] == ClosedAt(w.db.alerts[i], key, Some(at)))
      && (if ToldOf(w.db.alerts, key) && enabled && text != ""
          then |v.db.alerts| == n + 1 && v.db.alerts[n].key == key + ":recuperacao"
               && Notice(v.db.alerts[n], text) && AlertDue(v.db.alerts[n], at) && v.db.alerts[n].attempts == 0
          else |v.db.alerts| == n)
  {
    SuffixedIsRecovery(key);
  }

  /** The step is a delivery pass over row `r`. */
  predicate PassOver(w: World, step: Step, r: nat) {
    step.DeliverStep? && w.inflight != [] && w.inflight[0] == r
  }

  /** Nothing but a pass over it touches a pending notice, except that a claim leases it. */
  lemma NoticeWaits(cfg: Config, w: World, step: Step, r: nat, text: string)
    requires Enabled(cfg, w, step) && r < |w.db.alerts| && Notice(w.db.alerts[r], text) && !PassOver(w, step, r)
    ensures r < |Apply(cfg, w, step).db.alerts| && Notice(Apply(cfg, w, step).db.alerts[r], text)
    ensures Apply(cfg, w, step).db.alerts[r].key == w.db.alerts[r].key
  {
  }

  ghost predicate NoPassOver(cfg: Config, w: World, steps: seq<Step>, r: nat)
    requires Admissible(cfg, w, steps)
    decreases |steps|
  {
    steps == [] || (!PassOver(w, steps[0], r) && NoPassOver(cfg, Apply(cfg, w, steps[0]), steps[1..], r))
  }

  /** A notice of recovery stays pending, through dismissals and restarts, until a pass over it. */
  lemma {:induction false} NoticeWaitsForPass(cfg: Config, w: World, steps: seq<Step>, r: nat, text: string)
    requires Admissible(cfg, w, steps) && NoPassOver(cfg, w, steps, r)
    requires r < |w.db.alerts| && Notice(w.db.alerts[r], text)
    ensures r < |Run(cfg, w, steps).db.alerts| && Notice(Run(cfg, w, steps).db.alerts[r], text)
    ensures Run(cfg, w, steps).db.alerts[r].key == w.db.alerts[r].key
    decreases |steps|
  {
    if steps != [] {
      NoticeWaits(cfg, w, steps[0], r, text);
      NoticeWaitsForPass(cfg, Apply(cfg, w, steps[0]), steps[1..], r, text);
    }
  }

  /**
   No recovery is lost. When somebody was told of an incident, notices are on and
   there is a text, its recovery leaves a notice with that text that is due at
   once, and in whatever way the run goes on the notice is pending until a pass
   over it.
   */
  lemma RecoveryIsNotLost(cfg: Config, w: World, key: string, text: string, at: Time, rest: seq<Step>)
    requires at >= w.clock && ToldOf(w.db.alerts, key) && text != ""
    requires Admissible(cfg, Apply(cfg, w, RecoveredStep(key, text, true, at)), rest)
    requires NoPassOver(cfg, Apply(cfg, w, RecoveredStep(key, text, true, at)), rest, |w.db.alerts|)
    ensures var v, n := Apply(cfg, w, RecoveredStep(key, text, true, at)), |w.db.alerts|;
      var u := Run(cfg, v, rest);
      && |v.db.alerts| == n + 1 && AlertDue(v.db.alerts[n], at)
      && n < |u.db.alerts| && u.db.alerts[n].key == key + ":recuperacao" && Notice(u.db.alerts[n], text)
  {
    RecoveryTells(cfg, w, key, text, true, at);
    NoticeWaitsForPass(cfg, Apply(cfg, w, RecoveredStep(key, text, true, at)), rest, |w.db.alerts|, text);
  }

  // ----- new incidents

  /** The latest announcement of a key. */
  predicate LastTold(alerts: seq<Alert>, key: string, t: Time) {
    && (exists i :: 0 <= i < |alerts| && alerts[i].key == key && alerts[i].lastNotified == Some(t))
    && (forall i :: 0 <= i < |alerts| && alerts[i].key == key && alerts[i].lastNotified.Some? ==>
          alerts[i].lastNotified.value <= t)
  }

  /** When a row was last seen, or made. */
  function SightOf(a: Alert): Option<Time> {
    if a.lastSeen.Some? then a.lastSeen else Some(a.createdAt)
  }

  /** No unresolved row of the key has been seen within the window. */
  predicate NoneLive(alerts: seq<Alert>, key: string, cutoff: Time) {
    forall i :: 0 <= i < |alerts| && alerts[i].key == key && alerts[i].status != Resolved
                ==> SightOf(alerts[i]).value < cutoff
  }

  /**
   What raising does when no incident of the key is live: the other rows of the
   key are closed, and one row is added that waits exactly for the cooldown of
   the last announcement of its key.
   */
  lemma NewIncidentIs(cfg: Config, w: World, e: Entry, at: Time)
    requires at >= w.clock && e.key != "" && e.text != "" && !e.belowMinimum
    requires NoneLive(w.db.alerts, e.key, at - cfg.window)
    ensures var v := Apply(cfg, w, EnqueueStep(e, at));
      var n := |w.db.alerts|;
      && |v.db.alerts| == n + 1 && v.db.lines == w.db.lines
      && v.db.alerts[n].key == e.key && v.db.alerts[n].text == e.text
      && v.db.alerts[n].status == Open && v.db.alerts[n].delivery == Pending && v.db.alerts[n].attempts == 0
      && v.db.alerts[n].createdAt == at && v.db.alerts[n].lastNotified.None? && v.db.alerts[n].renotifyCount == 0
      && v.db.alerts[n].next.Some?
      && (forall t :: LastTold(w.db.alerts, e.key, t) && t + cfg.cooldown > at ==>
            v.db.alerts[n].next.value == t + cfg.cooldown)
      && ((forall i :: 0 <= i < n && w.db.alerts[i].key == e.key ==> Quiet(cfg, w.db.alerts[i], at)) ==>
            v.db.alerts[n].next.value == at)
      && (forall i :: 0 <= i < n ==> v.db.alerts[i] == ClosedAt(w.db.alerts[i], e.key, SightOf(w.db.alerts[i])))
  {
  }

  /** An alert without a key or a text, or below the minimum severity, changes nothing. */
  lemma RefusedIsIgnored(cfg: Config, w: World, e: Entry, at: Time)
    requires at >= w.clock && (e.key == "" || e.text == "" || e.belowMinimum)
    ensures Apply(cfg, w, EnqueueStep(e, at)).db == w.db
  {
  }

  // ----- answers of the channels

  /** The wait after the n-th refusal. */
  function WaitAfter(cfg: Config, n: nat): nat
    requires n > 0
    decreases n
  {
    if n == 1 then cfg.base
    else
      var before := WaitAfter(cfg, n - 1);
      if before * 2 >= cfg.cap then cfg.cap else before * 2
  }

  lemma {:induction false} WaitAfterIs(cfg: Config, n: nat)
    requires ValidConfig(cfg) && n > 0
    ensures 1 <= WaitAfter(cfg, n) <= cfg.cap
    ensures WaitAfter(cfg, n) == Min(cfg.base * Pow2(n - 1), cfg.cap)
  {
    if n == 1 {
      assert Pow2(0) == 1;
    } else {
      WaitAfterIs(cfg, n - 1);
      Doubles(cfg.base, n - 1);
      assert Pow2(n - 1) >= 1 by {
        Positive(n - 1);
      }
    }
  }

  lemma Doubles(base: nat, n: nat)
    requires n > 0
    ensures base * Pow2(n) == base * Pow2(n - 1) * 2
  {
  }

  lemma {:induction false} Positive(n: nat)
    ensures Pow2(n) >= 1
  {
    if n > 0 {
      Positive(n - 1);
    }
  }

  /** A line after refusals at the given instants. */
  function RefusedAt(cfg: Config, times: seq<Time>, reason: string): Line {
    if times == [] then FreshLine()
    else RecordResult(cfg, RefusedAt(cfg, times[..|times| - 1], reason), Refused(reason), times[|times| - 1])
  }

  /**
   A line that is refused every time tries again after one, two, four .. times
   the base, up to the cap, and is given up at the last allowed attempt.
   */
  lemma {:induction false} RefusedIsGivenUp(cfg: Config, times: seq<Time>, reason: string)
    requires ValidConfig(cfg) && |times| <= cfg.maxAttempts
    ensures var l, n := RefusedAt(cfg, times, reason), |times|;
      && l.attempts == n
      && (n == 0 ==> l.status == Pending && l.next.None? && l.lastError == "")
      && (0 < n ==> l.lastAttempt == Some(times[n - 1]) && l.lastError == reason)
      && (0 < n < cfg.maxAttempts ==> l.status == Pending && l.next == Some(times[n - 1] + WaitAfter(cfg, n)))
      && (n == cfg.maxAttempts ==> l.status == Failed && l.next.None?)
  {
    if times != [] {
      RefusedIsGivenUp(cfg, times[..|times| - 1], reason);
      WaitAfterIs(cfg, |times|);
    }
  }

  /** A served line keeps count of the attempt and forgets the errors; a channel that is not set up costs no attempt. */
  lemma AnswersSay(cfg: Config, l: Line, reason: string, now: Time)
    ensures RecordResult(cfg, l, Delivered, now) == Line(Sent, l.attempts + 1, None, Some(now), "")
    ensures RecordResult(cfg, l, Unconfigured(reason), now) == Line(NoChannel, l.attempts, None, Some(now), reason)
  {
  }

  /** A refused line counts one attempt, and waits for its next one unless that was the last allowed. */
  lemma RefusalSays(cfg: Config, l: Line, reason: string, now: Time)
    requires ValidConfig(cfg)
    ensures RecordResult(cfg, l, Refused(reason), now) ==
      if l.attempts + 1 < cfg.maxAttempts
      then Line(Pending, l.attempts + 1, Some(now + WaitAfter(cfg, l.attempts + 1)), Some(now), reason)
      else Line(Failed, l.attempts + 1, None, Some(now), reason)
  {
    WaitAfterIs(cfg, l.attempts + 1);
  }

  /** A pass attempts a line of an active channel exactly when it is pending and its time has come, or has none. */
  lemma PassOnLine(cfg: Config, db: Store, id: nat, active: seq<string>, answers: string -> Answer, now: Time, c: string)
    requires id < |db.alerts| && c in active
    ensures var l := if (id, c) in db.lines then db.lines[(id, c)] else Line(Pending, 0, None, None, "");
      var due := l.status == Pending && (l.next.Some? ==> l.next.value <= now);
      var after := Deliver(cfg, db, id, active, answers, now).lines;
      (id, c) in after && after[(id, c)] == if due then RecordResult(cfg, l, answers(c), now) else l
  {
  }

  // ----- what the dispatcher does before a batch

  /** A recovery key is a key with the suffix. */
  lemma RecoveryKeyIff(key: string)
    ensures IsRecoveryKey(key) <==> exists p: string :: key == p + ":recuperacao"
  {
    if IsRecoveryKey(key) {
      assert key == key[..|key| - |RECOVERY_SUFFIX|] + ":recuperacao";
    }
    if p: string :| key == p + ":recuperacao" {
      SuffixedIsRecovery(p);
    }
  }

  /** A resolved incident that is still pending, recovery notices apart. */
  predicate LeftPending(a: Alert) {
    a.status == Resolved && a.delivery == Pending && !IsRecoveryKey(a.key)
  }

  /**
   Dismissal settles exactly the resolved incidents that are still pending, and
   their pending lines: as sent if anybody was told, as dismissed if nobody was.
   */
  lemma DismissalSettles(db: Store)
    ensures var after := DismissResolved(db);
      && |after.alerts| == |db.alerts| && after.lines.Keys == db.lines.Keys
      && (forall i :: 0 <= i < |db.alerts| ==> after.alerts[i] == SettledRow(db.alerts[i]))
      && (forall k :: k in db.lines && k.0 < |db.alerts| ==> after.lines[k] == SettledLine(db.alerts[k.0], db.lines[k]))
  {
  }

  function SettledRow(a: Alert): Alert {
    if !LeftPending(a) then a
    else if a.lastNotified.Some? then a.(delivery := Sent, next := None)
    else a.(delivery := Dismissed, next := None)
  }

  function SettledLine(a: Alert, l: Line): Line {
    if !LeftPending(a) || l.status != Pending then l
    else if a.lastNotified.Some? then l.(status := Sent, next := None)
    else l.(status := Dismissed, next := None)
  }

  /** After dismissal no resolved incident is pending, and so none is claimed. */
  lemma DismissedIsNotClaimed(cfg: Config, db: Store, ids: seq<nat>, now: Time, k: nat)
    requires ClaimOf(cfg, DismissResolved(db).alerts, ids, now) && k < |ids|
    ensures var a := DismissResolved(db).alerts[ids[k]];
      a.delivery == Pending && (a.status == Resolved ==> IsRecoveryKey(a.key)) && (a.next.Some? ==> a.next.value <= now)
  {
  }

  /** An open incident, seen within the window, that stopped for want of a channel or because a channel failed. */
  predicate Stopped(cfg: Config, a: Alert, health: Health, now: Time) {
    && a.status == Open && SightOf(a).value >= now - cfg.window
    && (|| (a.delivery == NoChannel && health.state != Off)
        || (a.delivery == Failed && health.state == Working && health.checkedAt.Some?
            && a.lastAttempt.Some? && a.lastAttempt.value < health.checkedAt.value))
  }

  /**
   Resumption puts exactly the stopped incidents back, with their failed and
   channel-less lines as if never tried; served and pending lines stay.
   */
  lemma ResumptionPutsBack(cfg: Config, db: Store, health: Health, now: Time)
    ensures var after := ResumeStuck(cfg, db, health, now);
      && |after.alerts| == |db.alerts| && after.lines.Keys == db.lines.Keys
      && (forall i :: 0 <= i < |db.alerts| ==>
            after.alerts[i] == PutBackRow(db.alerts[i], Stopped(cfg, db.alerts[i], health, now)))
      && (forall k :: k in db.lines && k.0 < |db.alerts| ==>
            after.lines[k] == PutBackLine(db.lines[k], Stopped(cfg, db.alerts[k.0], health, now)))
  {
  }

  function PutBackRow(a: Alert, stopped: bool): Alert {
    if stopped then a.(delivery := Pending, next := None, lastError := "") else a
  }

  function PutBackLine(l: Line, stopped: bool): Line {
    if stopped && l.status in {NoChannel, Failed} then Line(Pending, 0, None, l.lastAttempt, "") else l
  }

  /** A claim takes the oldest due rows: none that is left due is older than one it took. */
  lemma ClaimIsOldest(cfg: Config, alerts: seq<Alert>, ids: seq<nat>, now: Time, i: nat, j: nat)
    requires ClaimOf(cfg, alerts, ids, now) && i in ids && j < |alerts| && j !in ids
    requires alerts[j].delivery == Pending && alerts[j].status != Resolved && (alerts[j].next.Some? ==> alerts[j].next.value <= now)
    ensures |ids| == cfg.batch && i < |alerts| && alerts[i].createdAt <= alerts[j].createdAt
    ensures alerts[i].createdAt == alerts[j].createdAt ==> i < j
  {
    assert AlertDue(alerts[j], now);
    var k :| 0 <= k < |ids| && ids[k] == i;
    assert Before(alerts, ids[k], j);
  }

  /** A claim leases its rows and touches nothing else. */
  lemma ClaimLeases(cfg: Config, db: Store, ids: seq<nat>, at: Time, i: nat)
    requires i < |db.alerts|
    ensures var after := Lease(cfg, db, ids, at);
      && after.lines == db.lines && |after.alerts| == |db.alerts|
      && after.alerts[i] == if i in ids then db.alerts[i].(lastAttempt := Some(at), next := Some(at + cfg.lease))
                            else db.alerts[i]
  {
  }

  // ----- the rest of a pass

  /** Of the active channels, the `i`-th is the first whose line has an error. */
  predicate FirstError(lines: map<LineId, Line>, id: nat, active: seq<string>, i: nat, error: string)
    requires Covered(lines, id, active) && i < |active|
  {
    && lines[(id, active[i])].lastError == error
    && forall j :: 0 <= j < i ==> lines[(id, active[j])].lastError == ""
  }

  /** What a pass says of its row besides the summary of its lines. */
  lemma {:induction false} TallyRest(lines: map<LineId, Line>, id: nat, active: seq<string>)
    requires Covered(lines, id, active)
    ensures var t := TallyOf(lines, id, active);
      && (forall c :: c in active ==> lines[(id, c)].attempts <= t.attempts)
      && (active != [] ==> exists c :: c in active && lines[(id, c)].attempts == t.attempts)
      && (t.lastError == "" <==> forall c :: c in active ==> lines[(id, c)].lastError == "")
      && (t.lastError != "" ==> exists i: nat :: i < |active| && FirstError(lines, id, active, i, t.lastError))
      && (forall c :: c in active && lines[(id, c)].lastAttempt.Some? ==>
            t.lastAttempt.Some? && lines[(id, c)].lastAttempt.value <= t.lastAttempt.value)
      && (t.lastAttempt.Some? ==> exists c :: c in active && lines[(id, c)].lastAttempt == t.lastAttempt)
  {
    if active != [] {
      var n := |active| - 1;
      var rest, c := active[..n], active[n];
      assert active == rest + [c];
      TallyRest(lines, id, rest);
      assert c in active;
      var t, before := TallyOf(lines, id, active), TallyOf(lines, id, rest);
      if before.lastError != "" {
        var i: nat :| i < |rest| && FirstError(lines, id, rest, i, before.lastError);
        assert FirstError(lines, id, active, i, t.lastError);
      } else if t.lastError != "" {
        assert forall j :: 0 <= j < n ==> active[j] in rest;
        assert FirstError(lines, id, active, n, t.lastError);
      }
    }
  }

  predicate NoneActive(a: Alert, now: Time) {
    a.delivery == NoChannel && a.next.None? && a.lastAttempt == Some(now) && a.lastError == NO_CHANNEL_ERROR
  }

  /** A pass that reached a channel is the announcement; one with no channel active says so and keeps the incident. */
  lemma PassMarks(cfg: Config, db: Store, id: nat, active: seq<string>, answers: string -> Answer, now: Time)
    requires id < |db.alerts|
    ensures var after := Deliver(cfg, db, id, active, answers, now);
      var a, b := db.alerts[id], after.alerts[id];
      && b.key == a.key && b.text == a.text && b.status == a.status && b.renotifyCount == a.renotifyCount
      && b.lastSeen == a.lastSeen && b.resolvedAt == a.resolvedAt
      && b.lastNotified == (if active != [] && SentBy(db, id, active, answers, now) != [] then Some(now) else a.lastNotified)
      && (active == [] ==> after.lines == db.lines && NoneActive(b, now))
      && forall j :: 0 <= j < |db.alerts| && j != id ==> after.alerts[j] == db.alerts[j]
  {
  }
}

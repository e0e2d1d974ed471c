/**
 The invariant of the alert machine: each kind of step keeps it, so every run
 from empty tables keeps it, however the steps interleave.
 */
module AlertCore {
  import opened Basics
  import opened AlertModel
  import opened AlertMachine

  // ----- the summary of the active lines

  predicate Covered(lines: map<LineId, Line>, id: nat, active: seq<string>) {
    forall c :: c in active ==> (id, c) in lines
  }

  predicate SomeLineIs(lines: map<LineId, Line>, id: nat, active: seq<string>, status: Delivery)
    requires Covered(lines, id, active)
  {
    exists c :: c in active && lines[(id, c)].status == status
  }

  /** The flags of the tally are exactly "some active line has this status". */
  lemma {:induction false} TallyFlags(lines: map<LineId, Line>, id: nat, active: seq<string>)
    requires Covered(lines, id, active)
    ensures TallyOf(lines, id, active).pending <==> SomeLineIs(lines, id, active, Pending)
    ensures TallyOf(lines, id, active).failed <==> SomeLineIs(lines, id, active, Failed)
    ensures TallyOf(lines, id, active).noChannel <==> SomeLineIs(lines, id, active, NoChannel)
  {
    if active != [] {
      var rest, c := active[..|active| - 1], active[|active| - 1];
      assert active == rest + [c];
      TallyFlags(lines, id, rest);
    }
  }

  /** The wake-up time of the tally is the earliest one of its pending lines. */
  lemma {:induction false} TallyNext(lines: map<LineId, Line>, id: nat, active: seq<string>)
    requires Covered(lines, id, active)
    requires forall c :: c in active && lines[(id, c)].status == Pending ==> lines[(id, c)].next.Some?
    ensures var t := TallyOf(lines, id, active);
      && (t.next.Some? <==> t.pending)
      && (t.next.Some? ==>
            && (exists c :: c in active && lines[(id, c)].status == Pending && lines[(id, c)].next == t.next)
            && (forall c :: c in active && lines[(id, c)].status == Pending
                  ==> t.next.value <= lines[(id, c)].next.value))
  {
    if active != [] {
      var rest, c := active[..|active| - 1], active[|active| - 1];
      assert active == rest + [c];
      TallyNext(lines, id, rest);
      TallyFlags(lines, id, rest);
    }
  }

  // ----- rows only grow

  predicate RowGrows(a: Alert, b: Alert) {
    && b.key == a.key && b.createdAt == a.createdAt
    && (a.status == Resolved ==> b.status == Resolved)
    && (a.lastNotified.Some? ==> b.lastNotified.Some? && b.lastNotified.value >= a.lastNotified.value)
    && b.renotifyCount >= a.renotifyCount
  }

  predicate Grows(before: Store, after: Store) {
    && |before.alerts| <= |after.alerts|
    && (forall i :: 0 <= i < |before.alerts| ==> RowGrows(before.alerts[i], after.alerts[i]))
    && (forall k :: k in before.lines ==> k in after.lines)
  }

  lemma EnqueueGrows(cfg: Config, db: Store, e: Entry, now: Time)
    ensures Grows(db, Enqueue(cfg, db, e, now))
  {
  }

  lemma DeliverGrows(cfg: Config, db: Store, id: nat, active: seq<string>, answers: string -> Answer, now: Time)
    requires id < |db.alerts|
    requires db.alerts[id].lastNotified.Some? ==> db.alerts[id].lastNotified.value <= now
    ensures Grows(db, Deliver(cfg, db, id, active, answers, now))
  {
  }

  /** In every step a row keeps its key, never leaves `Resolved` and never forgets an announcement. */
  lemma StepGrows(cfg: Config, w: World, step: Step)
    requires Enabled(cfg, w, step) && AlertsOk(w.db.alerts, w.clock)
    ensures Grows(w.db, Apply(cfg, w, step).db)
  {
    match step {
      case EnqueueStep(e, at) => EnqueueGrows(cfg, w.db, e, at);
      case DeliverStep(active, answers, at) => DeliverGrows(cfg, w.db, w.inflight[0], active, answers, at);
      case RecoveredStep(_, _, _, _) =>
      case AckStep(_, _) =>
      case ResolveStep(_, _) =>
      case DismissStep(_) =>
      case ResumeStep(_, _) =>
      case ClaimStep(_, _) =>
      case RestartStep(_) =>
    }
  }

  lemma SendsGrow(before: Store, after: Store, sends: seq<Send>)
    requires SendsOk(before, sends) && Grows(before, after)
    ensures SendsOk(after, sends)
  {
  }

  lemma RecoveriesGrow(before: Store, after: Store, recoveryOf: map<nat, nat>)
    requires RecoveriesOk(before.alerts, recoveryOf) && Grows(before, after)
    ensures RecoveriesOk(after.alerts, recoveryOf)
  {
  }

  predicate NoneRevived(before: seq<Alert>, after: seq<Alert>) {
    && |before| == |after|
    && forall i :: 0 <= i < |before| ==>
         after[i].key == before[i].key && (before[i].status == Resolved ==> after[i].status == Resolved)
  }

  lemma OneLiveKept(before: seq<Alert>, after: seq<Alert>)
    requires OneLivePerKey(before) && NoneRevived(before, after)
    ensures OneLivePerKey(after)
  {
  }

  // ----- the other parts of the invariant, step by step

  lemma EnqueueLines(cfg: Config, db: Store, e: Entry, now: Time)
    requires ValidConfig(cfg) && LinesOk(cfg, db)
    ensures LinesOk(cfg, Enqueue(cfg, db, e, now))
  {
  }

  lemma DismissLines(cfg: Config, db: Store)
    requires LinesOk(cfg, db)
    ensures LinesOk(cfg, DismissResolved(db))
  {
  }

  lemma ResumeLines(cfg: Config, db: Store, health: Health, now: Time)
    requires ValidConfig(cfg) && LinesOk(cfg, db)
    ensures LinesOk(cfg, ResumeStuck(cfg, db, health, now))
  {
  }

  lemma LinesKept(cfg: Config, w: World, step: Step)
    requires Enabled(cfg, w, step) && !step.DeliverStep? && ValidConfig(cfg) && LinesOk(cfg, w.db)
    ensures LinesOk(cfg, Apply(cfg, w, step).db)
  {
    match step {
      case EnqueueStep(e, at) => EnqueueLines(cfg, w.db, e, at);
      case DismissStep(_) => DismissLines(cfg, w.db);
      case ResumeStep(health, at) => ResumeLines(cfg, w.db, health, at);
      case RecoveredStep(_, _, _, _) =>
      case AckStep(_, _) =>
      case ResolveStep(_, _) =>
      case ClaimStep(_, _) =>
      case RestartStep(_) =>
    }
  }

  lemma EnqueueAlerts(cfg: Config, db: Store, e: Entry, now: Time)
    requires AlertsOk(db.alerts, now)
    ensures AlertsOk(Enqueue(cfg, db, e, now).alerts, now)
  {
  }

  lemma AlertsKept(cfg: Config, w: World, step: Step)
    requires Enabled(cfg, w, step) && !step.DeliverStep? && AlertsOk(w.db.alerts, w.clock)
    ensures AlertsOk(Apply(cfg, w, step).db.alerts, step.at)
  {
    match step {
      case EnqueueStep(e, at) => EnqueueAlerts(cfg, w.db, e, at);
      case RecoveredStep(_, _, _, _) =>
      case AckStep(_, _) =>
      case ResolveStep(_, _) =>
      case DismissStep(_) =>
      case ResumeStep(_, _) =>
      case ClaimStep(_, _) =>
      case RestartStep(_) =>
    }
  }

  /** Outside a pass the quota of a line never shrinks below what it has used. */
  lemma QuotasKept(cfg: Config, w: World, step: Step, k: LineId)
    requires Enabled(cfg, w, step) && !step.DeliverStep? && k in w.db.lines && k.0 < |w.db.alerts|
    ensures k in Apply(cfg, w, step).db.lines && k.0 < |Apply(cfg, w, step).db.alerts|
    ensures Quota(Apply(cfg, w, step).db.alerts[k.0], Apply(cfg, w, step).db.lines[k])
         >= Quota(w.db.alerts[k.0], w.db.lines[k])
  {
  }

  lemma CountsKept(cfg: Config, w: World, step: Step)
    requires Enabled(cfg, w, step) && !step.DeliverStep? && LinesOk(cfg, w.db) && CountsOk(w.db, w.sends)
    ensures CountsOk(Apply(cfg, w, step).db, w.sends)
  {
    var v := Apply(cfg, w, step).db;
    forall k | k in v.lines && k.0 < |v.alerts| ensures Count(w.sends, k) <= Quota(v.alerts[k.0], v.lines[k]) {
      assert k in w.db.lines;
      QuotasKept(cfg, w, step, k);
    }
  }

  /** Whatever the table holds, `fecharDuplicados` leaves one unresolved row per key: the newest. */
  lemma CloseDuplicatesOneLive(alerts: seq<Alert>)
    ensures OneLivePerKey(CloseDuplicates(alerts))
    ensures forall i :: 0 <= i < |alerts| ==>
      (CloseDuplicates(alerts)[i].status != Resolved <==> alerts[i].status != Resolved && !HasNewer(alerts, i))
  {
  }

  lemma NewIncidentOneLive(alerts: seq<Alert>, row: Alert)
    requires OneLivePerKey(alerts)
    ensures OneLivePerKey(CloseOthers(alerts + [row], row.key, |alerts|))
  {
  }

  lemma ResolvedRowOneLive(alerts: seq<Alert>, row: Alert)
    requires OneLivePerKey(alerts) && row.status == Resolved
    ensures OneLivePerKey(alerts + [row])
  {
  }

  /** No other step makes a row or revives one. */
  lemma QuietNoneRevived(cfg: Config, w: World, step: Step)
    requires Enabled(cfg, w, step) && !step.RecoveredStep?
    requires step.EnqueueStep? ==> |Enqueue(cfg, w.db, step.entry, step.at).alerts| == |w.db.alerts|
    ensures NoneRevived(w.db.alerts, Apply(cfg, w, step).db.alerts)
  {
  }

  lemma OneLiveStep(cfg: Config, w: World, step: Step)
    requires Enabled(cfg, w, step) && OneLivePerKey(w.db.alerts)
    ensures OneLivePerKey(Apply(cfg, w, step).db.alerts)
  {
    var before := w.db.alerts;
    if step.RecoveredStep? {
      var closed := ResolveKey(before, step.key, step.at);
      OneLiveKept(before, closed);
      ResolvedRowOneLive(closed, RecoveryRow(step.key, step.text, step.at));
    } else if step.EnqueueStep? && |Enqueue(cfg, w.db, step.entry, step.at).alerts| != |before| {
      var e, at := step.entry, step.at;
      NewIncidentOneLive(before, NewIncident(e.key, e.text, at, FirstAttempt(cfg, before, e.key, at)));
    } else {
      QuietNoneRevived(cfg, w, step);
      OneLiveKept(before, Apply(cfg, w, step).db.alerts);
    }
  }

  lemma BatchKept(cfg: Config, w: World, step: Step)
    requires Enabled(cfg, w, step) && !step.DeliverStep? && BatchOk(w.db.alerts, w.inflight)
    ensures BatchOk(Apply(cfg, w, step).db.alerts, Apply(cfg, w, step).inflight)
  {
  }

  lemma RecoveriesKept(cfg: Config, w: World, step: Step)
    requires Enabled(cfg, w, step) && RecoveriesOk(w.db.alerts, w.recoveryOf) && AlertsOk(w.db.alerts, w.clock)
    ensures RecoveriesOk(Apply(cfg, w, step).db.alerts, Apply(cfg, w, step).recoveryOf)
  {
    StepGrows(cfg, w, step);
    RecoveriesGrow(w.db, Apply(cfg, w, step).db, w.recoveryOf);
  }

  // ----- the delivery step

  predicate LineFits(cfg: Config, db: Store, k: LineId, l: Line) {
    && k.0 < |db.alerts| && LineOk(cfg, l)
    && (l.status == Sent ==> db.alerts[k.0].lastNotified.Some?)
    && (l.status == Dismissed ==> db.alerts[k.0].delivery == Dismissed)
  }

  /** What the pass did to the line of one active channel. */
  lemma AttemptedLine(cfg: Config, db: Store, id: nat, active: seq<string>,
                      answers: string -> Answer, now: Time, c: string)
    requires ValidConfig(cfg) && LinesOk(cfg, db) && id < |db.alerts| && Distinct(active) && c in active
    ensures var before := EnsureLines(db.lines, id, active);
      var l := Attempted(cfg, before, id, active, answers, now)[(id, c)];
      && LineOk(cfg, l)
      && (l.status == Dismissed ==> (id, c) in db.lines && db.lines[(id, c)].status == Dismissed)
      && (l.status == Sent ==>
            c in DeliveredOn(before, id, active, answers, now)
            || ((id, c) in db.lines && db.lines[(id, c)].status == Sent))
  {
    DeliveredOnMembers(EnsureLines(db.lines, id, active), id, active, answers, now);
  }

  lemma DeliverLines(cfg: Config, w: World, step: Step)
    requires Enabled(cfg, w, step) && step.DeliverStep? && ValidConfig(cfg) && LinesOk(cfg, w.db)
    requires BatchOk(w.db.alerts, w.inflight)
    ensures LinesOk(cfg, Apply(cfg, w, step).db)
  {
    var id, v := w.inflight[0], Apply(cfg, w, step).db;
    forall k | k in v.lines ensures LineFits(cfg, v, k, v.lines[k]) {
      if k.0 == id && k.1 in step.active {
        AttemptedLine(cfg, w.db, id, step.active, step.answers, step.at, k.1);
      } else {
        assert k in w.db.lines && v.lines[k] == w.db.lines[k];
        assert k.0 == id ==> w.db.lines[k].status != Dismissed;
      }
    }
  }

  /** The summary of a pass over a pending row is `Sent` only if the row has been announced. */
  lemma SentIsAnnounced(cfg: Config, db: Store, id: nat, active: seq<string>,
                        answers: string -> Answer, now: Time)
    requires ValidConfig(cfg) && LinesOk(cfg, db) && id < |db.alerts| && Distinct(active)
    requires db.alerts[id].delivery == Pending
    requires Deliver(cfg, db, id, active, answers, now).alerts[id].delivery == Sent
    ensures db.alerts[id].lastNotified.Some? || SentBy(db, id, active, answers, now) != []
  {
    var c := active[0];
    var after := Attempted(cfg, EnsureLines(db.lines, id, active), id, active, answers, now);
    AttemptedLine(cfg, db, id, active, answers, now, c);
    TallyFlags(after, id, active);
    assert after[(id, c)].status in {Sent, Dismissed};
  }

  lemma DeliverAlerts(cfg: Config, w: World, step: Step)
    requires Enabled(cfg, w, step) && step.DeliverStep? && ValidConfig(cfg) && LinesOk(cfg, w.db)
    requires BatchOk(w.db.alerts, w.inflight) && AlertsOk(w.db.alerts, w.clock)
    ensures AlertsOk(Apply(cfg, w, step).db.alerts, step.at)
  {
    var id := w.inflight[0];
    if Apply(cfg, w, step).db.alerts[id].delivery == Sent {
      SentIsAnnounced(cfg, w.db, id, step.active, step.answers, step.at);
    }
  }

  /** The pass reaches the channel of line `k`. */
  predicate Reaches(w: World, step: Step, k: LineId)
    requires step.DeliverStep? && w.inflight != []
  {
    k.0 == w.inflight[0] && k.1 in SentBy(w.db, w.inflight[0], step.active, step.answers, step.at)
  }

  /** A pass that reaches a channel settles its line, which was not settled before. */
  lemma PassQuota(cfg: Config, w: World, step: Step, k: LineId)
    requires Enabled(cfg, w, step) && step.DeliverStep? && LinesOk(cfg, w.db)
    requires k in Apply(cfg, w, step).db.lines && k.0 < |w.db.alerts|
    ensures Quota(Apply(cfg, w, step).db.alerts[k.0], Apply(cfg, w, step).db.lines[k])
         >= (if k in w.db.lines then Quota(w.db.alerts[k.0], w.db.lines[k]) else 0) + if Reaches(w, step, k) then 1 else 0
  {
    DeliveredOnMembers(EnsureLines(w.db.lines, w.inflight[0], step.active), w.inflight[0], step.active, step.answers, step.at);
  }

  /** A pass adds one delivery to the lines it reaches and none to the others. */
  lemma PassCount(cfg: Config, w: World, step: Step, k: LineId)
    requires Enabled(cfg, w, step) && step.DeliverStep?
    ensures Count(Apply(cfg, w, step).sends, k) == Count(w.sends, k) + if Reaches(w, step, k) then 1 else 0
  {
    var id := w.inflight[0];
    DeliveredOnMembers(EnsureLines(w.db.lines, id, step.active), id, step.active, step.answers, step.at);
    CountAppend(w.sends, id, SentBy(w.db, id, step.active, step.answers, step.at), step.at, k);
  }

  lemma DeliverCounts(cfg: Config, w: World, step: Step)
    requires Enabled(cfg, w, step) && step.DeliverStep? && ValidConfig(cfg) && LinesOk(cfg, w.db)
    requires CountsOk(w.db, w.sends) && SendsOk(w.db, w.sends)
    ensures CountsOk(Apply(cfg, w, step).db, Apply(cfg, w, step).sends)
  {
    var v := Apply(cfg, w, step);
    forall k | k in v.db.lines && k.0 < |v.db.alerts|
      ensures Count(v.sends, k) <= Quota(v.db.alerts[k.0], v.db.lines[k])
    {
      if k !in w.db.lines {
        NoSendNoCount(w.sends, k);
      }
      PassQuota(cfg, w, step, k);
      PassCount(cfg, w, step, k);
    }
  }

  lemma DeliverSends(cfg: Config, w: World, step: Step)
    requires Enabled(cfg, w, step) && step.DeliverStep? && AlertsOk(w.db.alerts, w.clock) && SendsOk(w.db, w.sends)
    ensures SendsOk(Apply(cfg, w, step).db, Apply(cfg, w, step).sends)
  {
    var id := w.inflight[0];
    StepGrows(cfg, w, step);
    SendsGrow(w.db, Apply(cfg, w, step).db, w.sends);
    DeliveredOnMembers(EnsureLines(w.db.lines, id, step.active), id, step.active, step.answers, step.at);
  }

  lemma DeliverBatch(cfg: Config, w: World, step: Step)
    requires Enabled(cfg, w, step) && step.DeliverStep? && BatchOk(w.db.alerts, w.inflight)
    ensures BatchOk(Apply(cfg, w, step).db.alerts, Apply(cfg, w, step).inflight)
  {
  }

  // ----- the invariant

  /** Every step keeps the whole invariant. */
  lemma StepKeepsCore(cfg: Config, w: World, step: Step)
    requires ValidConfig(cfg) && Core(cfg, w) && Enabled(cfg, w, step)
    ensures Core(cfg, Apply(cfg, w, step))
  {
    OneLiveStep(cfg, w, step);
    RecoveriesKept(cfg, w, step);
    if step.DeliverStep? {
      DeliverLines(cfg, w, step);
      DeliverAlerts(cfg, w, step);
      DeliverCounts(cfg, w, step);
      DeliverSends(cfg, w, step);
      DeliverBatch(cfg, w, step);
    } else {
      LinesKept(cfg, w, step);
      AlertsKept(cfg, w, step);
      CountsKept(cfg, w, step);
      BatchKept(cfg, w, step);
      StepGrows(cfg, w, step);
      SendsGrow(w.db, Apply(cfg, w, step).db, w.sends);
    }
  }

  /** Every run from a state that meets the invariant ends in one that does. */
  lemma {:induction false} RunKeepsCore(cfg: Config, w: World, steps: seq<Step>)
    requires ValidConfig(cfg) && Core(cfg, w) && Admissible(cfg, w, steps)
    ensures Core(cfg, Run(cfg, w, steps))
    decreases |steps|
  {
    if steps != [] {
      StepKeepsCore(cfg, w, steps[0]);
      RunKeepsCore(cfg, Apply(cfg, w, steps[0]), steps[1..]);
    }
  }
}

/** What the alert queue guarantees, over every run from empty tables. */
module AlertTheorems {
  import opened Basics
  import opened AlertModel
  import opened AlertMachine
  import opened AlertCore
  import opened AlertCooldown
  import opened AlertOvertaking

  lemma EmptyIsSpaced(cfg: Config, clock: Time)
    ensures Guarded(cfg, Empty(clock))
  {
  }

  lemma CoreCounts(cfg: Config, w: World, k: LineId)
    requires Core(cfg, w)
    ensures if k.0 < |w.db.alerts| then Count(w.sends, k) <= 1 + w.db.alerts[k.0].renotifyCount
            else Count(w.sends, k) == 0
  {
    if k !in w.db.lines {
      forall x | 0 <= x < |w.sends| ensures (w.sends[x].id, w.sends[x].channel) != k {
      }
      NoSendNoCount(w.sends, k);
    }
  }

  /** The worlds some run from empty tables ends in. */
  ghost predicate Reachable(cfg: Config, w: World) {
    exists clock, steps :: Admissible(cfg, Empty(clock), steps) && w == Run(cfg, Empty(clock), steps)
  }

  lemma ReachableCore(cfg: Config, w: World)
    requires ValidConfig(cfg) && Reachable(cfg, w)
    ensures Core(cfg, w)
  {
    var clock, steps :| Admissible(cfg, Empty(clock), steps) && w == Run(cfg, Empty(clock), steps);
    NoRowsIsCore(cfg, Empty(clock));
    RunKeepsCore(cfg, Empty(clock), steps);
  }

  /** A channel receives an alert at most once per announcement of it. */
  lemma AtMostOncePerAnnouncement(cfg: Config, w: World, k: LineId)
    requires ValidConfig(cfg) && Reachable(cfg, w)
    ensures if k.0 < |w.db.alerts| then Count(w.sends, k) <= 1 + w.db.alerts[k.0].renotifyCount
            else Count(w.sends, k) == 0
  {
    ReachableCore(cfg, w);
    CoreCounts(cfg, w, k);
  }

  // ----- the cooldown

  /** The worlds some run from empty tables ends in that overtakes no incident. */
  ghost predicate ReachedQuietly(cfg: Config, w: World) {
    exists clock, steps :: Admissible(cfg, Empty(clock), steps) && NoOvertaking(cfg, Empty(clock), steps)
                           && w == Run(cfg, Empty(clock), steps)
  }

  lemma QuietlyGuarded(cfg: Config, w: World)
    requires ValidConfig(cfg) && ReachedQuietly(cfg, w)
    ensures Core(cfg, w) && Guarded(cfg, w)
  {
    var clock, steps :| Admissible(cfg, Empty(clock), steps) && NoOvertaking(cfg, Empty(clock), steps)
                        && w == Run(cfg, Empty(clock), steps);
    NoRowsIsCore(cfg, Empty(clock));
    EmptyIsSpaced(cfg, clock);
    RunKeepsSpacing(cfg, Empty(clock), steps);
  }

  /** Deliveries of one incident key on one channel keep the cooldown in every run that overtakes no incident. */
  lemma CooldownKept(cfg: Config, w: World)
    requires ValidConfig(cfg) && ReachedQuietly(cfg, w)
    ensures Spaced(cfg, w)
  {
    QuietlyGuarded(cfg, w);
  }

  /**
   The condition is exact. After a run that overtakes nothing, one more step
   leaves a world from which the cooldown can be broken, without overtaking
   anything again, exactly when that step overtakes an incident.
   */
  lemma CooldownBreakableIff(cfg: Config, w: World, step: Step)
    requires ValidConfig(cfg) && cfg.cooldown > 0 && ReachedQuietly(cfg, w) && Enabled(cfg, w, step)
    ensures CanBreak(cfg, Apply(cfg, w, step)) <==> Overtakes(cfg, w, step)
  {
    QuietlyGuarded(cfg, w);
    BreakableIffOvertakes(cfg, w, step);
  }

  lemma {:induction false} RunStaysApart(cfg: Config, w: World, steps: seq<Step>)
    requires ValidConfig(cfg) && Core(cfg, w) && BatchApart(w) && Admissible(cfg, w, steps)
    ensures BatchApart(Run(cfg, w, steps))
    decreases |steps|
  {
    if steps != [] {
      StepKeepsCore(cfg, w, steps[0]);
      BatchStaysApart(cfg, w, steps[0]);
      RunStaysApart(cfg, Apply(cfg, w, steps[0]), steps[1..]);
    }
  }

  /**
   In every reachable world, whatever happened before: a late send can be
   followed by a second delivery of its incident on its channel at any time
   within the cooldown at which an open incident of the key is due.
   */
  lemma OvertakingBreaksCooldown(cfg: Config, w: World, step: Step, j: nat, t: Time) returns (rest: seq<Step>)
    requires ValidConfig(cfg) && Reachable(cfg, w) && Enabled(cfg, w, step) && LateSend(w, step)
    requires OvertakenBy(w, j, t) && step.at <= t < step.at + cfg.cooldown
    ensures BreaksAt(cfg, Apply(cfg, w, step), rest, t)
  {
    var clock, steps :| Admissible(cfg, Empty(clock), steps) && w == Run(cfg, Empty(clock), steps);
    NoRowsIsCore(cfg, Empty(clock));
    RunKeepsCore(cfg, Empty(clock), steps);
    RunStaysApart(cfg, Empty(clock), steps);
    rest := OvertakingBreaks(cfg, w, step, j, t);
  }

  // ----- incidents and their recoveries

  /** In every reachable world a key has at most one unresolved row. */
  lemma OneIncidentPerKey(cfg: Config, w: World, i: nat, j: nat)
    requires ValidConfig(cfg) && Reachable(cfg, w)
    requires i < |w.db.alerts| && j < |w.db.alerts| && w.db.alerts[i].key == w.db.alerts[j].key
    requires w.db.alerts[i].status != Resolved && w.db.alerts[j].status != Resolved
    ensures i == j
  {
    ReachableCore(cfg, w);
  }

  /** Recovery notices and announced incidents pair off: no incident is reported recovered twice. */
  lemma RecoveriesPairOff(cfg: Config, w: World, r: nat, q: nat)
    requires ValidConfig(cfg) && Reachable(cfg, w) && r in w.recoveryOf && q in w.recoveryOf
    ensures RecoveryFor(w.db.alerts, r, w.recoveryOf[r])
    ensures w.recoveryOf[r] == w.recoveryOf[q] ==> r == q
  {
    ReachableCore(cfg, w);
  }

  lemma {:induction false} RecoveriesStay(cfg: Config, w: World, steps: seq<Step>, r: nat)
    requires ValidConfig(cfg) && Core(cfg, w) && Admissible(cfg, w, steps) && r in w.recoveryOf
    ensures r in Run(cfg, w, steps).recoveryOf && Run(cfg, w, steps).recoveryOf[r] == w.recoveryOf[r]
    decreases |steps|
  {
    if steps != [] {
      StepKeepsCore(cfg, w, steps[0]);
      assert RecoveryFor(w.db.alerts, r, w.recoveryOf[r]);
      RecoveriesStay(cfg, Apply(cfg, w, steps[0]), steps[1..], r);
    }
  }

  /** Every notice a recovery makes is paired, for the rest of the run, with the same announced and resolved incident. */
  lemma EveryNoticeIsPaired(cfg: Config, w: World, step: Step, rest: seq<Step>, r: nat)
    requires ValidConfig(cfg) && Reachable(cfg, w) && Enabled(cfg, w, step) && step.RecoveredStep?
    requires Admissible(cfg, Apply(cfg, w, step), rest) && |w.db.alerts| <= r < |Apply(cfg, w, step).db.alerts|
    ensures var v, u := Apply(cfg, w, step), Run(cfg, Apply(cfg, w, step), rest);
      && r in v.recoveryOf && r in u.recoveryOf && u.recoveryOf[r] == v.recoveryOf[r]
      && RecoveryFor(u.db.alerts, r, u.recoveryOf[r])
  {
    ReachableCore(cfg, w);
    StepKeepsCore(cfg, w, step);
    RecoveriesStay(cfg, Apply(cfg, w, step), rest, r);
    RunKeepsCore(cfg, Apply(cfg, w, step), rest);
  }

  // ----- one step seen from one delivery line

  /** The step renotifies the incident of alert `id`. */
  predicate Renotifies(cfg: Config, w: World, step: Step, id: nat) {
    && step.EnqueueStep? && Accepted(step.entry)
    && LiveIncident(w.db.alerts, step.entry.key, step.at - cfg.window) == Some(id)
    && MustWarn(cfg, w.db.alerts[id], step.at)
  }

  /**
   A line that was served stays exactly as it is, through outages, resumption
   and restarts, until its incident is renotified, a cooldown after its last
   delivery.
   */
  lemma ServedLinesStay(cfg: Config, w: World, step: Step, k: LineId)
    requires ValidConfig(cfg) && Reachable(cfg, w) && Enabled(cfg, w, step)
    requires k in w.db.lines && w.db.lines[k].status == Sent
    ensures var v := Apply(cfg, w, step);
      && k in v.db.lines
      && (v.db.lines[k] == w.db.lines[k] <==> !Renotifies(cfg, w, step, k.0))
      && (v.db.lines[k] != w.db.lines[k] ==>
            && v.db.lines[k].status == Pending
            && v.db.alerts[k.0].renotifyCount == w.db.alerts[k.0].renotifyCount + 1
            && w.db.alerts[k.0].lastNotified.Some?
            && step.at - w.db.alerts[k.0].lastNotified.value >= cfg.cooldown)
  {
    ReachableCore(cfg, w);
    ServedLineStep(cfg, w, step, k);
  }

  lemma ServedLineStep(cfg: Config, w: World, step: Step, k: LineId)
    requires LinesOk(cfg, w.db) && Enabled(cfg, w, step)
    requires k in w.db.lines && w.db.lines[k].status == Sent
    ensures k in Apply(cfg, w, step).db.lines
    ensures Renotifies(cfg, w, step, k.0) ==>
      && Apply(cfg, w, step).db.lines[k] == Reopened(w.db.lines[k])
      && Apply(cfg, w, step).db.alerts[k.0].renotifyCount == w.db.alerts[k.0].renotifyCount + 1
    ensures !Renotifies(cfg, w, step, k.0) ==> Apply(cfg, w, step).db.lines[k] == w.db.lines[k]
  {
  }

  // ----- one delivery pass

  /** A pending line of an active channel, with its wake-up time. */
  predicate Wakes(lines: map<LineId, Line>, id: nat, c: string, at: Time) {
    (id, c) in lines && lines[(id, c)].status == Pending && lines[(id, c)].next == Some(at)
  }

  lemma {:induction false} Pow2Positive(n: nat)
    ensures Pow2(n) >= 1
  {
    if n > 0 {
      Pow2Positive(n - 1);
    }
  }

  lemma RetryDelayPositive(cfg: Config, attempts: nat)
    requires ValidConfig(cfg)
    ensures 1 <= RetryDelay(cfg, attempts) <= cfg.cap
  {
    if attempts > 1 {
      Pow2Positive(attempts - 1);
      assert cfg.base * Pow2(attempts - 1) >= cfg.base by {
        assert cfg.base * (Pow2(attempts - 1) - 1) >= 0;
      }
    }
  }

  /** A refused line that may try again wakes up strictly later. */
  lemma RecordedWakes(cfg: Config, l: Line, answer: Answer, now: Time)
    requires ValidConfig(cfg) && RecordResult(cfg, l, answer, now).status == Pending
    ensures RecordResult(cfg, l, answer, now).next.Some?
    ensures RecordResult(cfg, l, answer, now).next.value > now
  {
    RetryDelayPositive(cfg, l.attempts + 1);
  }

  lemma PassLeavesNothingDue(cfg: Config, lines: map<LineId, Line>, id: nat, active: seq<string>,
                             answers: string -> Answer, now: Time)
    requires ValidConfig(cfg)
    ensures var after := Attempted(cfg, EnsureLines(lines, id, active), id, active, answers, now);
      && Covered(after, id, active)
      && forall c :: c in active && after[(id, c)].status == Pending ==>
           after[(id, c)].next.Some? && after[(id, c)].next.value > now
  {
    var before := EnsureLines(lines, id, active);
    var after := Attempted(cfg, before, id, active, answers, now);
    forall c | c in active && after[(id, c)].status == Pending
      ensures after[(id, c)].next.Some? && after[(id, c)].next.value > now
    {
      if LineDue(before[(id, c)], now) {
        RecordedWakes(cfg, before[(id, c)], answers(c), now);
      }
    }
  }

  /**
   After a pass the row is the priority summary of its active lines, and a
   pending row wakes up exactly when its first pending line does: in the
   future, and no channel misses its turn.
   */
  lemma PassSummary(cfg: Config, db: Store, id: nat, active: seq<string>, answers: string -> Answer, now: Time)
    requires ValidConfig(cfg) && id < |db.alerts| && active != []
    ensures var after := Deliver(cfg, db, id, active, answers, now);
      var a := after.alerts[id];
      && Covered(after.lines, id, active)
      && a.delivery == (if SomeLineIs(after.lines, id, active, Pending) then Pending
                        else if SomeLineIs(after.lines, id, active, NoChannel) then NoChannel
                        else if SomeLineIs(after.lines, id, active, Failed) then Failed else Sent)
      && (a.delivery == Pending <==> a.next.Some?)
      && (a.delivery == Pending ==>
            && a.next.value > now
            && (exists c :: c in active && Wakes(after.lines, id, c, a.next.value))
            && (forall c, at :: c in active && Wakes(after.lines, id, c, at) ==> a.next.value <= at))
  {
    var after := Attempted(cfg, EnsureLines(db.lines, id, active), id, active, answers, now);
    PassLeavesNothingDue(cfg, db.lines, id, active, answers, now);
    TallyFlags(after, id, active);
    TallyNext(after, id, active);
    var t := TallyOf(after, id, active);
    if t.pending {
      var c :| c in active && after[(id, c)].status == Pending && after[(id, c)].next == t.next;
      assert Wakes(after, id, c, t.next.value);
    }
  }

  /** A pass attempts exactly the due lines of the active channels and touches no other line. */
  lemma PassTouchesOnlyDue(cfg: Config, db: Store, id: nat, active: seq<string>,
                           answers: string -> Answer, now: Time, k: LineId)
    requires id < |db.alerts| && active != [] && k in Deliver(cfg, db, id, active, answers, now).lines
    ensures var l := if k in db.lines then db.lines[k] else FreshLine();
      Deliver(cfg, db, id, active, answers, now).lines[k] ==
        if k.0 == id && k.1 in active && LineDue(l, now) then RecordResult(cfg, l, answers(k.1), now) else l
  {
  }
}

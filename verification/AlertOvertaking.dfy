/**
 The converse of the cooldown theorem: whenever a delivery overtakes an open
 incident of its key, the run can go on to a second delivery within the
 cooldown, on the same channel. The rest of the batch and the rows that are due
 before that incident fall out of the queue while no channel is active.
 */
module AlertOvertaking {
  import opened Basics
  import opened AlertModel
  import opened AlertMachine
  import opened AlertCore
  import opened AlertCooldown

  // ----- a claim always exists

  lemma {:induction false} OldestOf(alerts: seq<Alert>, s: set<nat>) returns (m: nat)
    requires s != {} && forall i :: i in s ==> i < |alerts|
    ensures m in s && forall i :: i in s && i != m ==> Before(alerts, m, i)
    decreases s
  {
    var x :| x in s;
    m := x;
    if s - {x} != {} {
      var n := OldestOf(alerts, s - {x});
      if Before(alerts, n, x) {
        m := n;
      }
      assert Before(alerts, n, x) || Before(alerts, x, n);
    }
    assert forall i :: i in s && i != x ==> i in s - {x};
  }

  /** The oldest of a set of rows, in order, and at most `n` of them. */
  lemma {:induction false} OldestFirst(alerts: seq<Alert>, s: set<nat>, n: nat) returns (ids: seq<nat>)
    requires forall i :: i in s ==> i < |alerts|
    ensures |ids| <= n && forall k :: 0 <= k < |ids| ==> ids[k] in s
    ensures forall k, l :: 0 <= k < l < |ids| ==> Before(alerts, ids[k], ids[l])
    ensures forall i :: i in s && i !in ids ==> |ids| == n && forall k :: 0 <= k < |ids| ==> Before(alerts, ids[k], i)
    decreases n
  {
    if n == 0 || s == {} {
      ids := [];
    } else {
      var m := OldestOf(alerts, s);
      var rest := OldestFirst(alerts, s - {m}, n - 1);
      ids := [m] + rest;
    }
  }

  lemma ClaimExists(cfg: Config, alerts: seq<Alert>, now: Time) returns (ids: seq<nat>)
    ensures ClaimOf(cfg, alerts, ids, now)
  {
    var due := set i: nat | i < |alerts| && AlertDue(alerts[i], now);
    ids := OldestFirst(alerts, due, cfg.batch);
  }

  // ----- a second delivery within the cooldown

  /** Row `j` can be delivered at `t` on the channel of send `x` of its incident, within the cooldown. */
  ghost predicate Threat(cfg: Config, w: World, x: nat, j: nat, t: Time) {
    && Core(cfg, w) && x < |w.sends| && w.sends[x].id < |w.db.alerts| && j < |w.db.alerts|
    && w.clock <= t < w.sends[x].at + cfg.cooldown
    && w.db.alerts[w.sends[x].id].key == w.db.alerts[j].key && IsIncident(w.db.alerts[j])
    && w.db.alerts[j].status != Resolved && w.db.alerts[j].delivery == Pending
    && (j, w.sends[x].channel) !in w.db.lines
    && (j in w.inflight || AlertDue(w.db.alerts[j], t))
  }

  /** The rows still to be claimed or delivered at `t`. */
  function Waiting(w: World, t: Time): set<nat> {
    set i: nat | i < |w.db.alerts| && (i in w.inflight || AlertDue(w.db.alerts[i], t))
  }

  function ServeOn(channels: seq<string>, t: Time): Step {
    DeliverStep(channels, _ => Delivered, t)
  }

  lemma Fewer(a: set<nat>, b: set<nat>, x: nat)
    requires a <= b && x in b && x !in a
    ensures |a| < |b|
  {
    SubsetCardinality(a, b - {x});
  }

  /** The world after a pass over the first row of the batch with no channel active. */
  function Without(w: World, t: Time): World
    requires w.inflight != [] && w.inflight[0] < |w.db.alerts|
  {
    var id := w.inflight[0];
    w.(clock := t, inflight := w.inflight[1..],
       db := w.db.(alerts := w.db.alerts[id := WithoutChannel(w.db.alerts[id], t)]))
  }

  /** With no channel active the first row of the batch falls out of the queue and nothing is sent. */
  lemma EmptyPass(cfg: Config, w: World, t: Time)
    requires w.inflight != [] && w.inflight[0] < |w.db.alerts| && w.clock <= t
    ensures Enabled(cfg, w, ServeOn([], t)) && !Overtakes(cfg, w, ServeOn([], t))
    ensures Apply(cfg, w, ServeOn([], t)) == Without(w, t)
  {
    assert SentBy(w.db, w.inflight[0], [], _ => Delivered, t) == [];
    assert w.sends + SendsTo(w.inflight[0], [], t) == w.sends;
  }

  lemma FewerWait(w: World, t: Time)
    requires w.inflight != [] && BatchOk(w.db.alerts, w.inflight)
    ensures |Waiting(Without(w, t), t)| < |Waiting(w, t)|
  {
    var v, id := Without(w, t), w.inflight[0];
    forall i | i in Waiting(v, t) ensures i in Waiting(w, t) && i != id {
    }
    Fewer(Waiting(v, t), Waiting(w, t), id);
  }

  lemma FallsOut(cfg: Config, w: World, x: nat, j: nat, t: Time)
    requires ValidConfig(cfg) && Threat(cfg, w, x, j, t) && w.inflight != [] && w.inflight[0] != j
    ensures Threat(cfg, Without(w, t), x, j, t)
  {
    EmptyPass(cfg, w, t);
    StepKeepsCore(cfg, w, ServeOn([], t));
  }

  lemma NoMoreWait(cfg: Config, w: World, t: Time, ids: seq<nat>)
    requires w.inflight == [] && ClaimOf(cfg, w.db.alerts, ids, t) && w.clock <= t
    ensures |Waiting(Apply(cfg, w, ClaimStep(ids, t)), t)| <= |Waiting(w, t)|
  {
    SubsetCardinality(Waiting(Apply(cfg, w, ClaimStep(ids, t)), t), Waiting(w, t));
  }

  /** A claim takes some of the waiting rows, and loses none. */
  lemma ClaimKeepsThreat(cfg: Config, w: World, x: nat, j: nat, t: Time, ids: seq<nat>)
    requires ValidConfig(cfg) && Threat(cfg, w, x, j, t) && w.inflight == [] && ClaimOf(cfg, w.db.alerts, ids, t)
    ensures Threat(cfg, Apply(cfg, w, ClaimStep(ids, t)), x, j, t) && ids != []
  {
    StepKeepsCore(cfg, w, ClaimStep(ids, t));
  }

  /** A pass over a row without a line on the channel reaches the channel. */
  lemma FreshLineIsServed(db: Store, j: nat, c: string, t: Time)
    requires (j, c) !in db.lines
    ensures SentBy(db, j, [c], _ => Delivered, t) == [c]
  {
    var before := EnsureLines(db.lines, j, [c]);
    assert c in [c];
    assert before[(j, c)] == FreshLine();
    assert DeliveredOn(before, j, [c][..0], _ => Delivered, t) == [];
  }

  /** The second delivery. */
  lemma StrikesTwice(cfg: Config, w: World, x: nat, j: nat, t: Time)
    requires Threat(cfg, w, x, j, t) && w.inflight != [] && w.inflight[0] == j
    ensures var step := ServeOn([w.sends[x].channel], t);
      Enabled(cfg, w, step) && !Overtakes(cfg, w, step) && !Spaced(cfg, Apply(cfg, w, step))
  {
    var c := w.sends[x].channel;
    var step := ServeOn([c], t);
    FreshLineIsServed(w.db, j, c, t);
    var v, y := Apply(cfg, w, step), |w.sends|;
    assert v.sends[x] == w.sends[x] && v.sends[y] == Send(j, c, t);
    assert SameIncident(v, v.sends[x], v.sends[y]);
  }

  predicate AllAt(steps: seq<Step>, t: Time) {
    forall k :: 0 <= k < |steps| ==> steps[k].at == t
  }

  /** The run goes on, overtaking nothing more, to two deliveries within the cooldown. */
  ghost predicate BreaksAt(cfg: Config, w: World, rest: seq<Step>, t: Time) {
    && AllAt(rest, t) && Admissible(cfg, w, rest) && NoOvertaking(cfg, w, rest)
    && !Spaced(cfg, Run(cfg, w, rest))
  }

  /** Prepending a step that overtakes nothing. */
  lemma Prepended(cfg: Config, w: World, step: Step, rest: seq<Step>, t: Time)
    requires step.at == t && Enabled(cfg, w, step) && !Overtakes(cfg, w, step)
    requires BreaksAt(cfg, Apply(cfg, w, step), rest, t)
    ensures BreaksAt(cfg, w, [step] + rest, t)
  {
    assert ([step] + rest)[1..] == rest;
  }

  lemma {:induction false} ThreatBreaks(cfg: Config, w: World, x: nat, j: nat, t: Time) returns (rest: seq<Step>)
    requires ValidConfig(cfg) && Threat(cfg, w, x, j, t)
    ensures BreaksAt(cfg, w, rest, t)
    decreases |Waiting(w, t)|, if w.inflight == [] then 1 else 0
  {
    if w.inflight == [] {
      var ids := ClaimExists(cfg, w.db.alerts, t);
      ClaimKeepsThreat(cfg, w, x, j, t, ids);
      NoMoreWait(cfg, w, t, ids);
      rest := ThreatBreaks(cfg, Apply(cfg, w, ClaimStep(ids, t)), x, j, t);
      Prepended(cfg, w, ClaimStep(ids, t), rest, t);
      rest := [ClaimStep(ids, t)] + rest;
    } else if w.inflight[0] == j {
      StrikesTwice(cfg, w, x, j, t);
      Prepended(cfg, w, ServeOn([w.sends[x].channel], t), [], t);
      rest := [ServeOn([w.sends[x].channel], t)] + [];
    } else {
      EmptyPass(cfg, w, t);
      FallsOut(cfg, w, x, j, t);
      FewerWait(w, t);
      rest := ThreatBreaks(cfg, Without(w, t), x, j, t);
      Prepended(cfg, w, ServeOn([], t), rest, t);
      rest := [ServeOn([], t)] + rest;
    }
  }

  /** An open incident of the key that the late send overtakes, and that is due by `t`. */
  predicate OvertakenBy(w: World, j: nat, t: Time) {
    && w.inflight != [] && w.inflight[0] < |w.db.alerts| && j < |w.db.alerts|
    && OpenFor(w.db.alerts[j], w.db.alerts[w.inflight[0]].key) && (w.db.alerts[j].next.None? || w.db.alerts[j].next.value <= t)
  }

  /** Right after the late send, the incident it overtook is a threat. */
  lemma OvertakenThreatens(cfg: Config, w: World, step: Step, j: nat, t: Time)
    requires ValidConfig(cfg) && Core(cfg, w) && BatchApart(w) && Enabled(cfg, w, step) && LateSend(w, step)
    requires OvertakenBy(w, j, t) && step.at <= t < step.at + cfg.cooldown
    ensures Threat(cfg, Apply(cfg, w, step), |w.sends|, j, t)
  {
    var id, v := w.inflight[0], Apply(cfg, w, step);
    StepKeepsCore(cfg, w, step);
    assert Beside(w, 0, j);
    assert v.sends[|w.sends|].id == id && v.sends[|w.sends|].at == step.at;
  }

  /** A late send that overtakes an incident can be followed by a second delivery at any time the incident is due. */
  lemma OvertakingBreaks(cfg: Config, w: World, step: Step, j: nat, t: Time) returns (rest: seq<Step>)
    requires ValidConfig(cfg) && Core(cfg, w) && BatchApart(w) && Enabled(cfg, w, step) && LateSend(w, step)
    requires OvertakenBy(w, j, t) && step.at <= t < step.at + cfg.cooldown
    ensures BreaksAt(cfg, Apply(cfg, w, step), rest, t)
  {
    OvertakenThreatens(cfg, w, step, j, t);
    rest := ThreatBreaks(cfg, Apply(cfg, w, step), |w.sends|, j, t);
  }

  /** Some way to go on ends in two deliveries within the cooldown, without overtaking anything more. */
  ghost predicate CanBreak(cfg: Config, w: World) {
    exists rest :: Admissible(cfg, w, rest) && NoOvertaking(cfg, w, rest) && !Spaced(cfg, Run(cfg, w, rest))
  }

  lemma OvertakingCanBreak(cfg: Config, w: World, step: Step)
    requires ValidConfig(cfg) && cfg.cooldown > 0 && Core(cfg, w) && BatchApart(w)
    requires Enabled(cfg, w, step) && Overtakes(cfg, w, step)
    ensures CanBreak(cfg, Apply(cfg, w, step))
  {
    var j: nat :| j < |w.db.alerts| && OpenFor(w.db.alerts[j], w.db.alerts[w.inflight[0]].key)
                  && DueBefore(w.db.alerts[j], step.at + cfg.cooldown);
    var next := w.db.alerts[j].next;
    var t := if next.Some? && next.value > step.at then next.value else step.at;
    var rest := OvertakingBreaks(cfg, w, step, j, t);
  }

  /** From a guarded world, a step makes a break of the cooldown possible exactly when it overtakes an incident. */
  lemma BreakableIffOvertakes(cfg: Config, w: World, step: Step)
    requires ValidConfig(cfg) && cfg.cooldown > 0 && Core(cfg, w) && Guarded(cfg, w) && Enabled(cfg, w, step)
    ensures CanBreak(cfg, Apply(cfg, w, step)) <==> Overtakes(cfg, w, step)
  {
    var v := Apply(cfg, w, step);
    if Overtakes(cfg, w, step) {
      OvertakingCanBreak(cfg, w, step);
    } else {
      StepKeepsCore(cfg, w, step);
      StepKeepsSpacing(cfg, w, step);
      forall rest | Admissible(cfg, v, rest) && NoOvertaking(cfg, v, rest) ensures Spaced(cfg, Run(cfg, v, rest)) {
        RunKeepsSpacing(cfg, v, rest);
      }
    }
  }
}

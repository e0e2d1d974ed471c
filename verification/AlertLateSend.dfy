/**
 A run, from empty tables, in which a late delivery overtakes the next incident
 of its key and breaks the cooldown.
 */
module AlertLateSend {
  import opened Basics
  import opened AlertModel
  import opened AlertMachine
  import opened AlertCooldown

  /** Prepending one step to a run, with what it does to the no-late-send condition. */
  lemma RunFrom(cfg: Config, w: World, step: Step, next: World, rest: seq<Step>, last: World)
    requires Enabled(cfg, w, step) && next == Apply(cfg, w, step)
    requires Admissible(cfg, next, rest) && Run(cfg, next, rest) == last
    ensures Admissible(cfg, w, [step] + rest) && Run(cfg, w, [step] + rest) == last
    ensures NoOvertaking(cfg, w, [step] + rest) <==> !Overtakes(cfg, w, step) && NoOvertaking(cfg, next, rest)
  {
  }

  function SentRow(a: Alert, t: Time): Alert {
    a.(delivery := Sent, attempts := 1, next := None, lastAttempt := Some(t), lastNotified := Some(t))
  }

  /** The single-channel pass over a fresh row, in closed form. */
  lemma FirstDelivery(cfg: Config, db: Store, id: nat, channel: string, t: Time)
    requires id < |db.alerts| && (id, channel) !in db.lines && db.alerts[id].lastError == ""
    ensures Deliver(cfg, db, id, [channel], _ => Delivered, t)
         == Store(db.alerts[id := SentRow(db.alerts[id], t)], db.lines[(id, channel) := Line(Sent, 1, None, Some(t), "")])
    ensures SentBy(db, id, [channel], _ => Delivered, t) == [channel]
  {
    var before := EnsureLines(db.lines, id, [channel]);
    assert channel in [channel];
    assert before[(id, channel)] == FreshLine();
    var after := Attempted(cfg, before, id, [channel], _ => Delivered, t);
    assert after == db.lines[(id, channel) := Line(Sent, 1, None, Some(t), "")];
    assert [channel][..0] == [];
    assert DeliveredOn(before, id, [], _ => Delivered, t) == [];
    assert TallyOf(after, id, []) == Tally(0, "", None, None, false, false, false);
    assert TallyOf(after, id, [channel]) == AddLine(TallyOf(after, id, []), after[(id, channel)]);
  }

  // The run in which a row is resolved and raised again while its delivery is under way.

  function LeasedRow(cfg: Config, a: Alert, t: Time): Alert {
    a.(lastAttempt := Some(t), next := Some(t + cfg.lease))
  }

  function ClosedRow(a: Alert, t: Time): Alert {
    a.(status := Resolved, resolvedAt := Some(t))
  }

  function LateRow(e: Entry, t: Time): Alert {
    NewIncident(e.key, e.text, t, t)
  }

  function SentLine(t: Time): Line {
    Line(Sent, 1, None, Some(t), "")
  }

  function DeliverOn(channel: string, t: Time): Step {
    DeliverStep([channel], _ => Delivered, t)
  }

  function RaisedWorld(e: Entry, t: Time): World {
    World(t, Store([LateRow(e, t)], map[]), [], [], map[])
  }

  function ClaimedWorld(cfg: Config, e: Entry, t: Time): World {
    World(t, Store([LeasedRow(cfg, LateRow(e, t), t)], map[]), [0], [], map[])
  }

  function ResolvedWorld(cfg: Config, e: Entry, t: Time): World {
    World(t, Store([ClosedRow(LeasedRow(cfg, LateRow(e, t), t), t)], map[]), [0], [], map[])
  }

  function RaisedAgainWorld(cfg: Config, e: Entry, t: Time): World {
    World(t, Store([ClosedRow(LeasedRow(cfg, LateRow(e, t), t), t), LateRow(e, t)], map[]), [0], [], map[])
  }

  function LateWorld(cfg: Config, e: Entry, channel: string, t: Time): World {
    World(t,
      Store([SentRow(ClosedRow(LeasedRow(cfg, LateRow(e, t), t), t), t), LateRow(e, t)],
            map[(0, channel) := SentLine(t)]),
      [], [Send(0, channel, t)], map[])
  }

  function ClaimedAgainWorld(cfg: Config, e: Entry, channel: string, t: Time, u: Time): World {
    var w := LateWorld(cfg, e, channel, t);
    World(u, w.db.(alerts := [w.db.alerts[0], LeasedRow(cfg, LateRow(e, t), u)]), [1], w.sends, map[])
  }

  function TwiceWorld(cfg: Config, e: Entry, channel: string, t: Time, u: Time): World {
    var w := LateWorld(cfg, e, channel, t);
    World(u,
      Store([w.db.alerts[0], SentRow(LeasedRow(cfg, LateRow(e, t), u), u)], w.db.lines[(1, channel) := SentLine(u)]),
      [], w.sends + [Send(1, channel, u)], map[])
  }

  lemma RaisedIsNext(cfg: Config, e: Entry, t: Time)
    requires Accepted(e)
    ensures Apply(cfg, Empty(t), EnqueueStep(e, t)) == RaisedWorld(e, t)
  {
  }

  lemma ClaimedIsNext(cfg: Config, e: Entry, t: Time)
    requires ValidConfig(cfg)
    ensures Enabled(cfg, RaisedWorld(e, t), ClaimStep([0], t))
    ensures Apply(cfg, RaisedWorld(e, t), ClaimStep([0], t)) == ClaimedWorld(cfg, e, t)
  {
    assert ClaimOf(cfg, RaisedWorld(e, t).db.alerts, [0], t);
    assert Lease(cfg, RaisedWorld(e, t).db, [0], t).alerts == ClaimedWorld(cfg, e, t).db.alerts;
  }

  lemma ResolvedIsNext(cfg: Config, e: Entry, t: Time)
    ensures Apply(cfg, ClaimedWorld(cfg, e, t), ResolveStep(0, t)) == ResolvedWorld(cfg, e, t)
  {
  }

  lemma RaisedAgainIsNext(cfg: Config, e: Entry, t: Time)
    requires Accepted(e)
    ensures Apply(cfg, ResolvedWorld(cfg, e, t), EnqueueStep(e, t)) == RaisedAgainWorld(cfg, e, t)
  {
  }

  /** The one-channel pass over a fresh row, seen as a change of worlds. */
  lemma DeliveryWorld(cfg: Config, w: World, channel: string, t: Time)
    requires w.clock == t && |w.inflight| == 1 && w.inflight[0] < |w.db.alerts|
    requires (w.inflight[0], channel) !in w.db.lines && w.db.alerts[w.inflight[0]].lastError == ""
    ensures var id := w.inflight[0];
      && Enabled(cfg, w, DeliverOn(channel, t)) && SentBy(w.db, id, [channel], _ => Delivered, t) == [channel]
      && Apply(cfg, w, DeliverOn(channel, t)) == World(t,
           Store(w.db.alerts[id := SentRow(w.db.alerts[id], t)], w.db.lines[(id, channel) := SentLine(t)]),
           [], w.sends + [Send(id, channel, t)], w.recoveryOf)
  {
    var id := w.inflight[0];
    FirstDelivery(cfg, w.db, id, channel, t);
    assert SendsTo(id, [channel], t) == [Send(id, channel, t)];
    assert w.inflight[1..] == [];
  }

  lemma LateIsNext(cfg: Config, e: Entry, channel: string, t: Time)
    ensures Enabled(cfg, RaisedAgainWorld(cfg, e, t), DeliverOn(channel, t))
    ensures Apply(cfg, RaisedAgainWorld(cfg, e, t), DeliverOn(channel, t)) == LateWorld(cfg, e, channel, t)
    ensures !IsRecoveryKey(e.key) ==> LateSend(RaisedAgainWorld(cfg, e, t), DeliverOn(channel, t))
  {
    var w, v := RaisedAgainWorld(cfg, e, t), LateWorld(cfg, e, channel, t);
    DeliveryWorld(cfg, w, channel, t);
    assert w.db.alerts[0 := SentRow(w.db.alerts[0], t)] == v.db.alerts;
    assert w.sends + [Send(0, channel, t)] == v.sends;
  }

  /** It overtakes the row raised since. */
  lemma LateOvertakes(cfg: Config, e: Entry, channel: string, t: Time)
    requires cfg.cooldown > 0 && LateSend(RaisedAgainWorld(cfg, e, t), DeliverOn(channel, t))
    ensures Overtakes(cfg, RaisedAgainWorld(cfg, e, t), DeliverOn(channel, t))
  {
    var w := RaisedAgainWorld(cfg, e, t);
    assert OpenFor(w.db.alerts[1], w.db.alerts[w.inflight[0]].key) && w.db.alerts[1].next == Some(t);
  }

  lemma ClaimedAgainIsNext(cfg: Config, e: Entry, channel: string, t: Time, u: Time)
    requires ValidConfig(cfg) && t <= u
    ensures Enabled(cfg, LateWorld(cfg, e, channel, t), ClaimStep([1], u))
    ensures Apply(cfg, LateWorld(cfg, e, channel, t), ClaimStep([1], u)) == ClaimedAgainWorld(cfg, e, channel, t, u)
  {
    var w := LateWorld(cfg, e, channel, t);
    assert ClaimOf(cfg, w.db.alerts, [1], u);
    assert Lease(cfg, w.db, [1], u).alerts == ClaimedAgainWorld(cfg, e, channel, t, u).db.alerts;
  }

  lemma TwiceIsNext(cfg: Config, e: Entry, channel: string, t: Time, u: Time)
    ensures Enabled(cfg, ClaimedAgainWorld(cfg, e, channel, t, u), DeliverOn(channel, u))
    ensures Apply(cfg, ClaimedAgainWorld(cfg, e, channel, t, u), DeliverOn(channel, u)) == TwiceWorld(cfg, e, channel, t, u)
  {
    var w := ClaimedAgainWorld(cfg, e, channel, t, u);
    DeliveryWorld(cfg, w, channel, u);
    assert w.db.alerts[1 := SentRow(w.db.alerts[1], u)] == TwiceWorld(cfg, e, channel, t, u).db.alerts;
  }

  lemma TwiceIsTooSoon(cfg: Config, e: Entry, channel: string, t: Time, u: Time)
    requires u < t + cfg.cooldown && !IsRecoveryKey(e.key)
    ensures !Spaced(cfg, TwiceWorld(cfg, e, channel, t, u))
  {
    var w := TwiceWorld(cfg, e, channel, t, u);
    assert w.sends[0] == Send(0, channel, t) && w.sends[1] == Send(1, channel, u);
    assert SameIncident(w, w.sends[0], w.sends[1]);
  }

  /**
   Overtaking happens, and the cooldown is then not kept. A row is claimed,
   resolved and raised again before its delivery; it reaches the channel, and
   so does the row raised since, at any later round within the cooldown.
   */
  lemma LateSendBreaksCooldown(cfg: Config, e: Entry, channel: string, t: Time, u: Time) returns (steps: seq<Step>)
    requires ValidConfig(cfg) && t <= u < t + cfg.cooldown && Accepted(e) && !IsRecoveryKey(e.key)
    ensures Admissible(cfg, Empty(t), steps) && !NoOvertaking(cfg, Empty(t), steps)
    ensures !Spaced(cfg, Run(cfg, Empty(t), steps))
  {
    var last := TwiceWorld(cfg, e, channel, t, u);
    TwiceIsNext(cfg, e, channel, t, u);
    RunFrom(cfg, ClaimedAgainWorld(cfg, e, channel, t, u), DeliverOn(channel, u), last, [], last);
    steps := [DeliverOn(channel, u)] + [];
    ClaimedAgainIsNext(cfg, e, channel, t, u);
    RunFrom(cfg, LateWorld(cfg, e, channel, t), ClaimStep([1], u), ClaimedAgainWorld(cfg, e, channel, t, u), steps, last);
    steps := [ClaimStep([1], u)] + steps;
    LateIsNext(cfg, e, channel, t);
    LateOvertakes(cfg, e, channel, t);
    RunFrom(cfg, RaisedAgainWorld(cfg, e, t), DeliverOn(channel, t), LateWorld(cfg, e, channel, t), steps, last);
    steps := [DeliverOn(channel, t)] + steps;
    RaisedAgainIsNext(cfg, e, t);
    RunFrom(cfg, ResolvedWorld(cfg, e, t), EnqueueStep(e, t), RaisedAgainWorld(cfg, e, t), steps, last);
    steps := [EnqueueStep(e, t)] + steps;
    ResolvedIsNext(cfg, e, t);
    RunFrom(cfg, ClaimedWorld(cfg, e, t), ResolveStep(0, t), ResolvedWorld(cfg, e, t), steps, last);
    steps := [ResolveStep(0, t)] + steps;
    ClaimedIsNext(cfg, e, t);
    RunFrom(cfg, RaisedWorld(e, t), ClaimStep([0], t), ClaimedWorld(cfg, e, t), steps, last);
    steps := [ClaimStep([0], t)] + steps;
    RaisedIsNext(cfg, e, t);
    RunFrom(cfg, Empty(t), EnqueueStep(e, t), RaisedWorld(e, t), steps, last);
    steps := [EnqueueStep(e, t)] + steps;
    TwiceIsTooSoon(cfg, e, channel, t, u);
  }
}

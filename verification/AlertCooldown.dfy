/**
 The cooldown over whole runs: two successful deliveries for one incident key
 on one channel are at least `cooldown` apart, as long as no late delivery
 overtakes the next incident of its key. Late is the delivery of a row that was
 resolved while it waited in the dispatcher's batch; it overtakes an incident
 that was raised in the meantime and is due within the cooldown.
 */
module AlertCooldown {
  import opened Basics
  import opened AlertModel
  import opened AlertMachine
  import opened AlertCore

  /** A row resolved between its claim and its delivery still reaches a channel. */
  predicate LateSend(w: World, step: Step) {
    && step.DeliverStep? && w.inflight != [] && w.inflight[0] < |w.db.alerts|
    && w.db.alerts[w.inflight[0]].status == Resolved
    && !IsRecoveryKey(w.db.alerts[w.inflight[0]].key)
    && SentBy(w.db, w.inflight[0], step.active, step.answers, step.at) != []
  }

  /** A late send while an incident of its key is open that may be delivered within the cooldown. */
  predicate Overtakes(cfg: Config, w: World, step: Step) {
    && LateSend(w, step)
    && exists j :: 0 <= j < |w.db.alerts| && OpenFor(w.db.alerts[j], w.db.alerts[w.inflight[0]].key)
                   && DueBefore(w.db.alerts[j], step.at + cfg.cooldown)
  }

  predicate DueBefore(a: Alert, t: Time) {
    a.next.None? || a.next.value < t
  }

  ghost predicate NoOvertaking(cfg: Config, w: World, steps: seq<Step>)
    requires Admissible(cfg, w, steps)
    decreases |steps|
  {
    steps == [] || (!Overtakes(cfg, w, steps[0]) && NoOvertaking(cfg, Apply(cfg, w, steps[0]), steps[1..]))
  }

  predicate IsIncident(a: Alert) {
    !IsRecoveryKey(a.key)
  }

  /** Send `s` cannot be followed too soon by a delivery of row `i` on its channel. */
  predicate Waits(cfg: Config, w: World, i: nat, s: Send)
    requires i < |w.db.alerts|
  {
    var a := w.db.alerts[i];
    || w.clock >= s.at + cfg.cooldown
    || (s.id != i && i !in w.inflight && a.delivery == Pending
        && a.next.Some? && a.next.value >= s.at + cfg.cooldown)
    || (s.id == i && (i, s.channel) in w.db.lines && w.db.lines[(i, s.channel)].status == Sent)
  }

  /** Row `i` may still be delivered: it is open, or waits in the batch. */
  predicate Deliverable(w: World, i: nat)
    requires i < |w.db.alerts|
  {
    (w.db.alerts[i].status != Resolved || i in w.inflight) && IsIncident(w.db.alerts[i])
  }

  predicate Gated(cfg: Config, w: World) {
    forall i, x :: 0 <= i < |w.db.alerts| && 0 <= x < |w.sends| && w.sends[x].id < |w.db.alerts|
                   && Deliverable(w, i)
                   && w.db.alerts[w.sends[x].id].key == w.db.alerts[i].key
                   ==> Waits(cfg, w, i, w.sends[x])
  }

  /** Two deliveries for one incident key on one channel. */
  predicate SameIncident(w: World, s: Send, t: Send) {
    && s.id < |w.db.alerts| && t.id < |w.db.alerts|
    && w.db.alerts[s.id].key == w.db.alerts[t.id].key && IsIncident(w.db.alerts[s.id])
    && s.channel == t.channel
  }

  predicate Spaced(cfg: Config, w: World) {
    forall x, y :: 0 <= x < y < |w.sends| && SameIncident(w, w.sends[x], w.sends[y])
                   ==> w.sends[y].at - w.sends[x].at >= cfg.cooldown
  }

  // ----- the batch and the incidents raised since it was claimed

  /** Row `j` has not been touched by the dispatcher. */
  predicate Untouched(w: World, j: nat)
    requires j < |w.db.alerts|
  {
    && j !in w.inflight && w.db.alerts[j].delivery == Pending && w.db.alerts[j].next.Some?
    && forall k :: k in w.db.lines ==> k.0 != j
  }

  /** The incidents of a batch have different keys. */
  predicate KeysApart(w: World) {
    forall k, l :: 0 <= k < l < |w.inflight| && w.inflight[k] < |w.db.alerts| && w.inflight[l] < |w.db.alerts|
                   && IsIncident(w.db.alerts[w.inflight[k]])
                   ==> w.db.alerts[w.inflight[k]].key != w.db.alerts[w.inflight[l]].key
  }

  /** Row `j` is open beside an incident of the batch, at position `k`. */
  predicate Beside(w: World, k: nat, j: nat) {
    && k < |w.inflight| && w.inflight[k] < |w.db.alerts| && IsIncident(w.db.alerts[w.inflight[k]])
    && j < |w.db.alerts| && j != w.inflight[k] && OpenFor(w.db.alerts[j], w.db.alerts[w.inflight[k]].key)
  }

  /** An open row beside an incident of the batch was raised since the claim. */
  ghost predicate RaisedSince(w: World) {
    forall k: nat, j: nat :: Beside(w, k, j) ==> Untouched(w, j)
  }

  ghost predicate BatchApart(w: World) {
    KeysApart(w) && RaisedSince(w)
  }

  /** Due incidents are open, so a key has at most one. */
  lemma ClaimedKeysApart(cfg: Config, w: World, step: Step)
    requires Enabled(cfg, w, step) && step.ClaimStep? && OneLivePerKey(w.db.alerts)
    ensures KeysApart(Apply(cfg, w, step))
  {
    var ids, alerts, v := step.ids, w.db.alerts, Apply(cfg, w, step);
    forall k, l | 0 <= k < l < |ids| && IsIncident(alerts[ids[k]]) ensures alerts[ids[k]].key != alerts[ids[l]].key {
      assert AlertDue(alerts[ids[k]], step.at) && AlertDue(alerts[ids[l]], step.at);
      assert Before(alerts, ids[k], ids[l]);
      assert ids[k] < ids[l] || ids[l] < ids[k];
    }
    assert forall k :: 0 <= k < |ids| ==> v.db.alerts[ids[k]].key == alerts[ids[k]].key;
  }

  lemma KeysStayApart(cfg: Config, w: World, step: Step)
    requires Enabled(cfg, w, step) && KeysApart(w) && BatchOk(w.db.alerts, w.inflight) && OneLivePerKey(w.db.alerts)
    requires Grows(w.db, Apply(cfg, w, step).db)
    ensures KeysApart(Apply(cfg, w, step))
  {
    var v := Apply(cfg, w, step);
    if step.ClaimStep? {
      ClaimedKeysApart(cfg, w, step);
    } else {
      assert forall k :: 0 <= k < |w.inflight| ==>
        RowGrows(w.db.alerts[w.inflight[k]], v.db.alerts[w.inflight[k]]);
    }
  }

  lemma RaisedRowIsUntouched(cfg: Config, w: World, e: Entry, at: Time, k: nat, j: nat)
    requires at >= w.clock && RaisedSince(w) && BatchOk(w.db.alerts, w.inflight) && LinesOk(cfg, w.db)
    requires Beside(Apply(cfg, w, EnqueueStep(e, at)), k, j)
    ensures Untouched(Apply(cfg, w, EnqueueStep(e, at)), j)
  {
    if j < |w.db.alerts| {
      assert Beside(w, k, j);
    }
  }

  lemma PassLeavesUntouched(cfg: Config, w: World, step: Step, k: nat, j: nat)
    requires Enabled(cfg, w, step) && step.DeliverStep? && RaisedSince(w) && KeysApart(w)
    requires Beside(Apply(cfg, w, step), k, j)
    ensures Untouched(Apply(cfg, w, step), j)
  {
    assert w.inflight[1..][k] == w.inflight[k + 1];
    assert Beside(w, k + 1, j);
  }

  lemma QuietUntouched(cfg: Config, w: World, step: Step, k: nat, j: nat)
    requires Enabled(cfg, w, step) && (step.RecoveredStep? || step.AckStep? || step.ResolveStep?)
    requires RaisedSince(w) && BatchOk(w.db.alerts, w.inflight) && Beside(Apply(cfg, w, step), k, j)
    ensures Untouched(Apply(cfg, w, step), j)
  {
    assert Beside(w, k, j);
  }

  /** A batch is claimed when no other row of its incidents is open. */
  lemma ClaimedAlone(cfg: Config, w: World, step: Step, k: nat, j: nat)
    requires Enabled(cfg, w, step) && step.ClaimStep? && OneLivePerKey(w.db.alerts)
    ensures !Beside(Apply(cfg, w, step), k, j)
  {
  }

  lemma BatchStaysApart(cfg: Config, w: World, step: Step)
    requires Enabled(cfg, w, step) && Core(cfg, w) && BatchApart(w)
    ensures BatchApart(Apply(cfg, w, step))
  {
    var v := Apply(cfg, w, step);
    StepGrows(cfg, w, step);
    KeysStayApart(cfg, w, step);
    forall k: nat, j: nat | Beside(v, k, j) ensures Untouched(v, j) {
      match step {
        case EnqueueStep(e, at) => RaisedRowIsUntouched(cfg, w, e, at, k, j);
        case DeliverStep(_, _, _) => PassLeavesUntouched(cfg, w, step, k, j);
        case ClaimStep(_, _) => ClaimedAlone(cfg, w, step, k, j);
        case RecoveredStep(_, _, _, _) => QuietUntouched(cfg, w, step, k, j);
        case AckStep(_, _) => QuietUntouched(cfg, w, step, k, j);
        case ResolveStep(_, _) => QuietUntouched(cfg, w, step, k, j);
        case _ =>
      }
    }
  }

  // ----- the gate, step by step

  /** A step of any other kind does not shorten the wait of a row that may still be delivered. */
  lemma QuietWaits(cfg: Config, w: World, step: Step, i: nat, s: Send)
    requires Enabled(cfg, w, step) && !step.DeliverStep? && !step.EnqueueStep?
    requires i < |w.db.alerts| && Waits(cfg, w, i, s)
    ensures i < |Apply(cfg, w, step).db.alerts|
    requires Deliverable(w, i)
    ensures Deliverable(Apply(cfg, w, step), i) ==> Waits(cfg, Apply(cfg, w, step), i, s)
  {
  }

  /** The pairs of `v` that need to wait are pairs of `w`: rows only grow, and so do their keys' histories. */
  lemma GatedKept(cfg: Config, w: World, step: Step)
    requires Enabled(cfg, w, step) && !step.DeliverStep? && !step.EnqueueStep?
    requires Gated(cfg, w) && SendsOk(w.db, w.sends) && Grows(w.db, Apply(cfg, w, step).db)
    requires BatchOk(w.db.alerts, w.inflight)
    ensures Gated(cfg, Apply(cfg, w, step))
  {
    var v := Apply(cfg, w, step);
    assert v.sends == w.sends;
    forall i, x | 0 <= i < |v.db.alerts| && 0 <= x < |v.sends| && v.sends[x].id < |v.db.alerts|
                  && Deliverable(v, i)
                  && v.db.alerts[v.sends[x].id].key == v.db.alerts[i].key
      ensures Waits(cfg, v, i, v.sends[x])
    {
      OnlyEnqueueOpens(cfg, w, step, i);
      assert RowGrows(w.db.alerts[w.sends[x].id], v.db.alerts[w.sends[x].id]);
      assert Waits(cfg, w, i, w.sends[x]);
      QuietWaits(cfg, w, step, i, w.sends[x]);
    }
  }

  /** An incident that may be delivered is there because it was raised, not by any other step. */
  lemma OnlyEnqueueOpens(cfg: Config, w: World, step: Step, i: nat)
    requires Enabled(cfg, w, step) && !step.EnqueueStep? && BatchOk(w.db.alerts, w.inflight)
    requires i < |Apply(cfg, w, step).db.alerts| && Deliverable(Apply(cfg, w, step), i)
    ensures i < |w.db.alerts| && Deliverable(w, i)
    ensures w.db.alerts[i].key == Apply(cfg, w, step).db.alerts[i].key
  {
  }

  /** A new row waits out the cooldown of every earlier delivery of its key. */
  lemma NewRowWaits(cfg: Config, w: World, e: Entry, at: Time, s: Send)
    requires at >= w.clock && Accepted(e) && LiveIncident(w.db.alerts, e.key, at - cfg.window).None?
    requires s.id < |w.db.alerts| && w.db.alerts[s.id].key == e.key
    requires w.db.alerts[s.id].lastNotified.Some? && s.at <= w.db.alerts[s.id].lastNotified.value
    requires forall k :: 0 <= k < |w.inflight| ==> w.inflight[k] < |w.db.alerts|
    ensures Waits(cfg, Apply(cfg, w, EnqueueStep(e, at)), |w.db.alerts|, s)
  {
  }

  /** A renotified row was last delivered at least a cooldown ago, on every channel. */
  lemma RenotifiedElapsed(cfg: Config, w: World, i: nat, x: nat, at: Time)
    requires i < |w.db.alerts| && x < |w.sends| && at >= w.clock
    requires SendsOk(w.db, w.sends) && BatchOk(w.db.alerts, w.inflight)
    requires MustWarn(cfg, w.db.alerts[i], at) && Waits(cfg, w, i, w.sends[x])
    ensures at >= w.sends[x].at + cfg.cooldown
  {
  }

  /** Raising an alert does not shorten the wait of a row that was already there. */
  lemma OldRowWaits(cfg: Config, w: World, e: Entry, at: Time, i: nat, x: nat)
    requires SendsOk(w.db, w.sends) && BatchOk(w.db.alerts, w.inflight) && at >= w.clock
    requires i < |w.db.alerts| && x < |w.sends| && Waits(cfg, w, i, w.sends[x])
    ensures Deliverable(Apply(cfg, w, EnqueueStep(e, at)), i) ==>
            Waits(cfg, Apply(cfg, w, EnqueueStep(e, at)), i, w.sends[x])
  {
    var live := LiveIncident(w.db.alerts, e.key, at - cfg.window);
    if Accepted(e) && live == Some(i) && MustWarn(cfg, w.db.alerts[i], at) {
      RenotifiedElapsed(cfg, w, i, x, at);
    }
  }

  lemma EnqueueGated(cfg: Config, w: World, e: Entry, at: Time)
    requires SendsOk(w.db, w.sends) && BatchOk(w.db.alerts, w.inflight) && Gated(cfg, w) && at >= w.clock
    ensures Gated(cfg, Apply(cfg, w, EnqueueStep(e, at)))
  {
    var v := Apply(cfg, w, EnqueueStep(e, at));
    forall i, x | 0 <= i < |v.db.alerts| && 0 <= x < |v.sends| && v.sends[x].id < |v.db.alerts|
                  && Deliverable(v, i)
                  && v.db.alerts[v.sends[x].id].key == v.db.alerts[i].key
      ensures Waits(cfg, v, i, v.sends[x])
    {
      assert v.sends == w.sends;
      assert w.db.alerts[w.sends[x].id].key == v.db.alerts[w.sends[x].id].key;
      if i == |w.db.alerts| {
        NewRowWaits(cfg, w, e, at, w.sends[x]);
      } else {
        assert Waits(cfg, w, i, w.sends[x]);
        OldRowWaits(cfg, w, e, at, i, x);
      }
    }
  }

  /** When the delivery of row `i` reaches a channel, every earlier delivery there is a cooldown old. */
  lemma DeliveryElapsed(cfg: Config, w: World, step: Step, x: nat, c: string)
    requires Enabled(cfg, w, step) && step.DeliverStep? && Core(cfg, w) && Gated(cfg, w)
    requires x < |w.sends| && w.sends[x].channel == c && IsIncident(w.db.alerts[w.inflight[0]])
    requires w.db.alerts[w.sends[x].id].key == w.db.alerts[w.inflight[0]].key
    requires c in SentBy(w.db, w.inflight[0], step.active, step.answers, step.at)
    ensures step.at >= w.sends[x].at + cfg.cooldown
  {
    var id := w.inflight[0];
    DeliveredOnMembers(EnsureLines(w.db.lines, id, step.active), id, step.active, step.answers, step.at);
    assert Deliverable(w, id);
    assert Waits(cfg, w, id, w.sends[x]);
    if w.sends[x].id == id {
      assert w.db.lines[(id, c)].status == Pending;
    }
  }

  /** A pass does not shorten the wait of any row behind an earlier delivery. */
  lemma DeliverWaits(cfg: Config, w: World, step: Step, i: nat, s: Send)
    requires Enabled(cfg, w, step) && step.DeliverStep? && BatchOk(w.db.alerts, w.inflight)
    requires i < |w.db.alerts| && Waits(cfg, w, i, s)
    ensures Waits(cfg, Apply(cfg, w, step), i, s)
  {
  }

  /** The row that was just delivered to a channel is behind a served line. */
  lemma JustSentWaits(cfg: Config, w: World, step: Step, y: nat)
    requires Enabled(cfg, w, step) && step.DeliverStep? && |w.sends| <= y < |Apply(cfg, w, step).sends|
    ensures Apply(cfg, w, step).sends[y].id == w.inflight[0]
    ensures Waits(cfg, Apply(cfg, w, step), w.inflight[0], Apply(cfg, w, step).sends[y])
  {
    var id := w.inflight[0];
    var before := EnsureLines(w.db.lines, id, step.active);
    DeliveredOnMembers(before, id, step.active, step.answers, step.at);
    var c := SentBy(w.db, id, step.active, step.answers, step.at)[y - |w.sends|];
    assert Apply(cfg, w, step).sends[y] == Send(id, c, step.at);
    assert c in SentBy(w.db, id, step.active, step.answers, step.at);
  }

  /** Any other row of the key is in no batch and waits out the cooldown, unless this delivery overtakes it. */
  lemma OtherRowWaits(cfg: Config, w: World, step: Step, i: nat, y: nat)
    requires Enabled(cfg, w, step) && step.DeliverStep? && |w.sends| <= y < |Apply(cfg, w, step).sends|
    requires BatchOk(w.db.alerts, w.inflight) && BatchApart(w) && OneLivePerKey(w.db.alerts) && !Overtakes(cfg, w, step)
    requires i < |w.db.alerts| && i != w.inflight[0] && Deliverable(w, i)
    requires w.db.alerts[i].key == w.db.alerts[w.inflight[0]].key
    ensures Waits(cfg, Apply(cfg, w, step), i, Apply(cfg, w, step).sends[y])
  {
    var id := w.inflight[0];
    assert i !in w.inflight;
    assert Beside(w, 0, i);
    assert LateSend(w, step);
  }

  lemma DeliverGated(cfg: Config, w: World, step: Step)
    requires Enabled(cfg, w, step) && step.DeliverStep? && BatchOk(w.db.alerts, w.inflight) && Gated(cfg, w)
    requires SendsOk(w.db, w.sends) && OneLivePerKey(w.db.alerts) && BatchApart(w) && !Overtakes(cfg, w, step)
    requires Grows(w.db, Apply(cfg, w, step).db)
    ensures Gated(cfg, Apply(cfg, w, step))
  {
    var v, id := Apply(cfg, w, step), w.inflight[0];
    forall i, x | 0 <= i < |v.db.alerts| && 0 <= x < |v.sends| && v.sends[x].id < |v.db.alerts|
                  && Deliverable(v, i)
                  && v.db.alerts[v.sends[x].id].key == v.db.alerts[i].key
      ensures Waits(cfg, v, i, v.sends[x])
    {
      OnlyEnqueueOpens(cfg, w, step, i);
      if x < |w.sends| {
        assert v.sends[x] == w.sends[x];
        assert RowGrows(w.db.alerts[w.sends[x].id], v.db.alerts[w.sends[x].id]);
        assert Waits(cfg, w, i, w.sends[x]);
        DeliverWaits(cfg, w, step, i, w.sends[x]);
      } else {
        JustSentWaits(cfg, w, step, x);
        assert RowGrows(w.db.alerts[id], v.db.alerts[id]);
        if i != id {
          OtherRowWaits(cfg, w, step, i, x);
        }
      }
    }
  }

  lemma SameIncidentGrows(w: World, v: World, x: nat, y: nat)
    requires SendsOk(w.db, w.sends) && Grows(w.db, v.db) && x < |w.sends| <= |v.sends| && y < |w.sends|
    requires v.sends[x] == w.sends[x] && v.sends[y] == w.sends[y] && SameIncident(v, v.sends[x], v.sends[y])
    ensures SameIncident(w, w.sends[x], w.sends[y])
  {
  }

  /** Every channel of the pass was last served for this incident a cooldown ago. */
  predicate PassFar(cfg: Config, w: World, id: nat, channels: seq<string>, at: Time) {
    forall x, c :: 0 <= x < |w.sends| && c in channels && SameIncident(w, w.sends[x], Send(id, c, at))
                   ==> at - w.sends[x].at >= cfg.cooldown
  }

  lemma DeliverFar(cfg: Config, w: World, step: Step)
    requires Enabled(cfg, w, step) && step.DeliverStep? && Core(cfg, w) && Gated(cfg, w)
    ensures var id := w.inflight[0];
      PassFar(cfg, w, id, SentBy(w.db, id, step.active, step.answers, step.at), step.at)
  {
    var id := w.inflight[0];
    forall x, c | 0 <= x < |w.sends| && c in SentBy(w.db, id, step.active, step.answers, step.at)
                  && SameIncident(w, w.sends[x], Send(id, c, step.at))
      ensures step.at - w.sends[x].at >= cfg.cooldown
    {
      DeliveryElapsed(cfg, w, step, x, c);
    }
  }

  lemma AppendSpaced(cfg: Config, w: World, v: World, id: nat, channels: seq<string>, at: Time)
    requires SendsOk(w.db, w.sends) && Spaced(cfg, w) && Grows(w.db, v.db) && id < |w.db.alerts|
    requires Distinct(channels) && v.sends == w.sends + SendsTo(id, channels, at)
    requires PassFar(cfg, w, id, channels, at)
    ensures Spaced(cfg, v)
  {
    forall x, y | 0 <= x < y < |v.sends| && SameIncident(v, v.sends[x], v.sends[y])
      ensures v.sends[y].at - v.sends[x].at >= cfg.cooldown
    {
      if x < |w.sends| {
        assert RowGrows(w.db.alerts[w.sends[x].id], v.db.alerts[w.sends[x].id]);
        if y >= |w.sends| {
          assert v.sends[y] == Send(id, channels[y - |w.sends|], at);
          assert RowGrows(w.db.alerts[id], v.db.alerts[id]);
        } else {
          SameIncidentGrows(w, v, x, y);
        }
      }
    }
  }

  lemma DeliverSpaced(cfg: Config, w: World, step: Step)
    requires Enabled(cfg, w, step) && step.DeliverStep? && SendsOk(w.db, w.sends) && Spaced(cfg, w)
    requires Grows(w.db, Apply(cfg, w, step).db)
    requires var id := w.inflight[0];
      PassFar(cfg, w, id, SentBy(w.db, id, step.active, step.answers, step.at), step.at)
    ensures Spaced(cfg, Apply(cfg, w, step))
  {
    var id := w.inflight[0];
    DeliveredOnMembers(EnsureLines(w.db.lines, id, step.active), id, step.active, step.answers, step.at);
    AppendSpaced(cfg, w, Apply(cfg, w, step), id, SentBy(w.db, id, step.active, step.answers, step.at), step.at);
  }

  lemma QuietSpaced(cfg: Config, w: World, v: World)
    requires Spaced(cfg, w) && SendsOk(w.db, w.sends) && Grows(w.db, v.db) && v.sends == w.sends
    ensures Spaced(cfg, v)
  {
  }

  /** What keeps deliveries apart, and that they are. */
  ghost predicate Guarded(cfg: Config, w: World) {
    Gated(cfg, w) && BatchApart(w) && Spaced(cfg, w)
  }

  /** Every step that overtakes no incident keeps deliveries apart. */
  lemma StepKeepsSpacing(cfg: Config, w: World, step: Step)
    requires Enabled(cfg, w, step) && Core(cfg, w) && Guarded(cfg, w) && !Overtakes(cfg, w, step)
    ensures Guarded(cfg, Apply(cfg, w, step))
  {
    StepGrows(cfg, w, step);
    BatchStaysApart(cfg, w, step);
    if step.DeliverStep? {
      DeliverGated(cfg, w, step);
      DeliverFar(cfg, w, step);
      DeliverSpaced(cfg, w, step);
    } else {
      if step.EnqueueStep? {
        EnqueueGated(cfg, w, step.entry, step.at);
      } else {
        GatedKept(cfg, w, step);
      }
      QuietSpaced(cfg, w, Apply(cfg, w, step));
    }
  }

  lemma {:induction false} RunKeepsSpacing(cfg: Config, w: World, steps: seq<Step>)
    requires ValidConfig(cfg) && Admissible(cfg, w, steps) && NoOvertaking(cfg, w, steps)
    requires Core(cfg, w) && Guarded(cfg, w)
    ensures Core(cfg, Run(cfg, w, steps)) && Guarded(cfg, Run(cfg, w, steps))
    decreases |steps|
  {
    if steps != [] {
      StepKeepsCore(cfg, w, steps[0]);
      StepKeepsSpacing(cfg, w, steps[0]);
      RunKeepsSpacing(cfg, Apply(cfg, w, steps[0]), steps[1..]);
    }
  }
}

/**
 The alert queue as a state machine: the tables, the clock, the batch the
 dispatcher holds in memory, and the history of successful deliveries.
 Producers, operators and the dispatcher interleave freely; claiming a batch
 and delivering its rows are separate steps.
 */
module AlertMachine {
  import opened Basics
  import opened AlertModel

  /** One successful delivery. */
  datatype Send = Send(id: nat, channel: string, at: Time)

  datatype World = World(
    clock: Time,
    db: Store,
    inflight: seq<nat>,
    sends: seq<Send>,
    recoveryOf: map<nat, nat>)

  datatype Step =
    | EnqueueStep(entry: Entry, at: Time)
    | RecoveredStep(key: string, text: string, enabled: bool, at: Time)
    | AckStep(id: nat, at: Time)
    | ResolveStep(id: nat, at: Time)
    | DismissStep(at: Time)
    | ResumeStep(health: Health, at: Time)
    | ClaimStep(ids: seq<nat>, at: Time)
    | DeliverStep(active: seq<string>, answers: string -> Answer, at: Time)
    | RestartStep(at: Time)

  function Empty(clock: Time): World {
    World(clock, Store([], map[]), [], [], map[])
  }

  /** Time never runs backwards; the dispatcher finishes a batch before its next round. */
  predicate Enabled(cfg: Config, w: World, step: Step) {
    && step.at >= w.clock
    && match step
       case DismissStep(_) => w.inflight == []
       case ResumeStep(_, _) => w.inflight == []
       case ClaimStep(ids, at) => w.inflight == [] && ClaimOf(cfg, w.db.alerts, ids, at)
       case DeliverStep(active, _, _) => w.inflight != [] && w.inflight[0] < |w.db.alerts| && Distinct(active)
       case _ => true
  }

  function SendsTo(id: nat, channels: seq<string>, at: Time): (r: seq<Send>)
    ensures |r| == |channels|
  {
    seq(|channels|, k requires 0 <= k < |channels| => Send(id, channels[k], at))
  }

  /** The unresolved, announced row whose recovery is being sent. */
  ghost function AnnouncedRow(alerts: seq<Alert>, key: string): (i: nat)
    requires Announced(alerts, key)
    ensures i < |alerts| && OpenFor(alerts[i], key) && alerts[i].lastNotified.Some?
  {
    var i: nat :| i < |alerts| && OpenFor(alerts[i], key) && alerts[i].lastNotified.Some?;
    i
  }

  ghost function Apply(cfg: Config, w: World, step: Step): World
    requires Enabled(cfg, w, step)
  {
    var v := w.(clock := step.at);
    match step
    case EnqueueStep(e, at) => v.(db := Enqueue(cfg, w.db, e, at))
    case RecoveredStep(key, text, enabled, at) =>
      v.(db := Recovered(w.db, key, text, enabled, at),
         recoveryOf := if SendsRecovery(w.db.alerts, key, text, enabled)
                       then w.recoveryOf[|w.db.alerts| := AnnouncedRow(w.db.alerts, key)] else w.recoveryOf)
    case AckStep(id, _) => v.(db := Acknowledge(w.db, id))
    case ResolveStep(id, at) => v.(db := ResolveByHand(w.db, id, at))
    case DismissStep(_) => v.(db := DismissResolved(w.db))
    case ResumeStep(health, at) => v.(db := ResumeStuck(cfg, w.db, health, at))
    case ClaimStep(ids, at) => v.(db := Lease(cfg, w.db, ids, at), inflight := ids)
    case DeliverStep(active, answers, at) =>
      v.(db := Deliver(cfg, w.db, w.inflight[0], active, answers, at),
         inflight := w.inflight[1..],
         sends := w.sends + SendsTo(w.inflight[0], SentBy(w.db, w.inflight[0], active, answers, at), at))
    case RestartStep(_) => v.(db := w.db.(alerts := CloseDuplicates(w.db.alerts)), inflight := [])
  }

  /** A run of the machine: every step is enabled when it is taken. */
  ghost predicate Admissible(cfg: Config, w: World, steps: seq<Step>)
    decreases |steps|
  {
    steps == [] || (Enabled(cfg, w, steps[0]) && Admissible(cfg, Apply(cfg, w, steps[0]), steps[1..]))
  }

  ghost function Run(cfg: Config, w: World, steps: seq<Step>): World
    requires Admissible(cfg, w, steps)
    decreases |steps|
  {
    if steps == [] then w else Run(cfg, Apply(cfg, w, steps[0]), steps[1..])
  }

  // ----- what every run keeps

  function Count(sends: seq<Send>, k: LineId): nat {
    if sends == [] then 0
    else
      var x := sends[|sends| - 1];
      Count(sends[..|sends| - 1], k) + if (x.id, x.channel) == k then 1 else 0
  }

  predicate OneLivePerKey(alerts: seq<Alert>) {
    forall i, j :: 0 <= i < j < |alerts| && alerts[i].key == alerts[j].key && alerts[j].status != Resolved
                   ==> alerts[i].status == Resolved
  }

  predicate LineOk(cfg: Config, l: Line) {
    && l.attempts <= cfg.maxAttempts
    && (l.status == Pending ==> l.attempts < cfg.maxAttempts)
    && (l.status != Pending ==> l.next.None?)
  }

  predicate LinesOk(cfg: Config, db: Store) {
    forall k :: k in db.lines ==>
      && k.0 < |db.alerts| && LineOk(cfg, db.lines[k])
      && (db.lines[k].status == Sent ==> db.alerts[k.0].lastNotified.Some?)
      && (db.lines[k].status == Dismissed ==> db.alerts[k.0].delivery == Dismissed)
  }

  predicate AlertsOk(alerts: seq<Alert>, clock: Time) {
    forall i :: 0 <= i < |alerts| ==>
      && (alerts[i].lastNotified.Some? ==> alerts[i].lastNotified.value <= clock)
      && (alerts[i].delivery == Sent ==> alerts[i].lastNotified.Some?)
  }

  /** Every recorded delivery belongs to a row that remembers it. */
  predicate SendsOk(db: Store, sends: seq<Send>) {
    forall x :: 0 <= x < |sends| ==>
      && sends[x].id < |db.alerts| && (sends[x].id, sends[x].channel) in db.lines
      && db.alerts[sends[x].id].lastNotified.Some?
      && sends[x].at <= db.alerts[sends[x].id].lastNotified.value
  }

  /** What a line may have delivered: one more than the renotifications once its announcement is settled. */
  function Quota(a: Alert, l: Line): nat {
    a.renotifyCount + if l.status in {Sent, Dismissed} then 1 else 0
  }

  predicate CountsOk(db: Store, sends: seq<Send>) {
    forall k :: k in db.lines && k.0 < |db.alerts| ==> Count(sends, k) <= Quota(db.alerts[k.0], db.lines[k])
  }

  predicate BatchOk(alerts: seq<Alert>, inflight: seq<nat>) {
    && (forall k :: 0 <= k < |inflight| ==> inflight[k] < |alerts| && alerts[inflight[k]].delivery == Pending)
    && (forall k, l :: 0 <= k < l < |inflight| ==> inflight[k] != inflight[l])
  }

  /** Row `i` was announced and then resolved, and `r` is the recovery notice of its key. */
  predicate RecoveryFor(alerts: seq<Alert>, r: nat, i: nat) {
    && i < r < |alerts|
    && alerts[r].key == alerts[i].key + RECOVERY_SUFFIX
    && alerts[i].status == Resolved && alerts[i].lastNotified.Some?
  }

  predicate RecoveriesOk(alerts: seq<Alert>, recoveryOf: map<nat, nat>) {
    && (forall r :: r in recoveryOf ==> RecoveryFor(alerts, r, recoveryOf[r]))
    && (forall r, q :: r in recoveryOf && q in recoveryOf && r != q ==> recoveryOf[r] != recoveryOf[q])
  }

  predicate Core(cfg: Config, w: World) {
    && LinesOk(cfg, w.db)
    && AlertsOk(w.db.alerts, w.clock)
    && SendsOk(w.db, w.sends)
    && CountsOk(w.db, w.sends)
    && OneLivePerKey(w.db.alerts)
    && BatchOk(w.db.alerts, w.inflight)
    && RecoveriesOk(w.db.alerts, w.recoveryOf)
  }

  lemma NoRowsIsCore(cfg: Config, w: World)
    requires w.db.alerts == [] && w.db.lines == map[]
    requires w.sends == [] && w.inflight == [] && w.recoveryOf == map[]
    ensures Core(cfg, w)
  {
  }

  lemma {:induction false} NoSendNoCount(sends: seq<Send>, k: LineId)
    requires forall x :: 0 <= x < |sends| ==> (sends[x].id, sends[x].channel) != k
    ensures Count(sends, k) == 0
  {
    if sends != [] {
      NoSendNoCount(sends[..|sends| - 1], k);
    }
  }

  /** Appending the deliveries of one pass counts each of its channels once. */
  lemma {:induction false} CountAppend(sends: seq<Send>, id: nat, channels: seq<string>, at: Time, k: LineId)
    requires Distinct(channels)
    ensures Count(sends + SendsTo(id, channels, at), k)
         == Count(sends, k) + if k.0 == id && k.1 in channels then 1 else 0
  {
    if channels == [] {
      assert sends + SendsTo(id, channels, at) == sends;
    } else {
      var n := |channels| - 1;
      var all := sends + SendsTo(id, channels, at);
      assert all[..|all| - 1] == sends + SendsTo(id, channels[..n], at);
      assert all[|all| - 1] == Send(id, channels[n], at);
      assert channels == channels[..n] + [channels[n]];
      CountAppend(sends, id, channels[..n], at, k);
    }
  }

  /** The channels of a pass are those whose line was due and whose answer was success. */
  lemma {:induction false} DeliveredOnMembers(lines: map<LineId, Line>, id: nat, active: seq<string>,
                                              answers: string -> Answer, now: Time)
    requires Distinct(active)
    ensures Distinct(DeliveredOn(lines, id, active, answers, now))
    ensures forall c :: c in DeliveredOn(lines, id, active, answers, now) <==>
              c in active && (id, c) in lines && LineDue(lines[(id, c)], now) && answers(c) == Delivered
  {
    if active != [] {
      var n := |active| - 1;
      DeliveredOnMembers(lines, id, active[..n], answers, now);
      assert active == active[..n] + [active[n]];
      assert active[n] !in active[..n];
    }
  }
}

/**
 The two tables of the alert queue and every statement that changes them, as
 functions from the old tables to the new ones. Row ids are positions in
 `alerts`; a delivery line is keyed by (alert id, channel name), which is the
 table's unique index.
 */
module AlertModel {
  import opened Basics

  datatype Status = Open | Acked | Resolved

  datatype Delivery = Pending | Sent | Failed | NoChannel | Dismissed

  datatype Alert = Alert(
    key: string,
    text: string,
    status: Status,
    delivery: Delivery,
    attempts: nat,
    next: Option<Time>,
    lastAttempt: Option<Time>,
    lastError: string,
    createdAt: Time,
    lastSeen: Option<Time>,
    lastNotified: Option<Time>,
    resolvedAt: Option<Time>,
    renotifyCount: nat)

  datatype Line = Line(
    status: Delivery,
    attempts: nat,
    next: Option<Time>,
    lastAttempt: Option<Time>,
    lastError: string)

  type LineId = (nat, string)

  datatype Store = Store(alerts: seq<Alert>, lines: map<LineId, Line>)

  /** What a channel answers to one delivery. */
  datatype Answer = Delivered | Unconfigured(reason: string) | Refused(reason: string)

  datatype Config = Config(
    cooldown: nat, window: nat, maxAttempts: nat, base: nat, cap: nat, lease: nat, batch: nat)

  predicate ValidConfig(cfg: Config) {
    1 <= cfg.maxAttempts && 1 <= cfg.base <= cfg.cap && 1 <= cfg.batch
  }

  datatype Entry = Entry(key: string, text: string, belowMinimum: bool)

  datatype ChannelState = Off | Degraded | Working

  datatype Health = Health(state: ChannelState, checkedAt: Option<Time>)

  const RECOVERY_SUFFIX := ":recuperacao"
  const SEEN_EVERY: Time := 60_000_000_000
  const NO_CHANNEL_ERROR := "canal de alerta n\U{e3}o configurado"

  predicate IsRecoveryKey(key: string) {
    |key| >= |RECOVERY_SUFFIX| && key[|key| - |RECOVERY_SUFFIX|..] == RECOVERY_SUFFIX
  }

  /** COALESCE(last_seen_at, created_at) */
  function Seen(a: Alert): Time {
    if a.lastSeen.Some? then a.lastSeen.value else a.createdAt
  }

  // ----- retry delay

  function Pow2(n: nat): nat {
    if n == 0 then 1 else 2 * Pow2(n - 1)
  }

  function Min(a: int, b: int): int {
    if a <= b then a else b
  }

  /** The wait after the n-th failed attempt. */
  function RetryDelay(cfg: Config, attempts: nat): nat {
    if attempts <= 1 then cfg.base else Min(cfg.base * Pow2(attempts - 1), cfg.cap)
  }

  // ----- one delivery line

  predicate LineDue(l: Line, now: Time) {
    l.status == Pending && (l.next.None? || l.next.value <= now)
  }

  function FreshLine(): Line {
    Line(Pending, 0, None, None, "")
  }

  function RecordResult(cfg: Config, l: Line, answer: Answer, now: Time): Line {
    match answer
    case Unconfigured(reason) =>
      l.(status := NoChannel, next := None, lastAttempt := Some(now), lastError := reason)
    case Refused(reason) =>
      var n := l.attempts + 1;
      if n >= cfg.maxAttempts then
        Line(Failed, n, None, Some(now), reason)
      else
        Line(Pending, n, Some(now + RetryDelay(cfg, n)), Some(now), reason)
    case Delivered =>
      Line(Sent, l.attempts + 1, None, Some(now), "")
  }

  // ----- one delivery pass

  predicate Distinct(s: seq<string>) {
    forall i, j :: 0 <= i < j < |s| ==> s[i] != s[j]
  }

  function EnsureLines(lines: map<LineId, Line>, id: nat, active: seq<string>): map<LineId, Line> {
    (map c | c in active :: (id, c) := FreshLine()) + lines
  }

  function Attempted(cfg: Config, lines: map<LineId, Line>, id: nat, active: seq<string>,
                     answers: string -> Answer, now: Time): map<LineId, Line>
  {
    map k | k in lines ::
      if k.0 == id && k.1 in active && LineDue(lines[k], now)
      then RecordResult(cfg, lines[k], answers(k.1), now) else lines[k]
  }

  /** The channels this pass delivers to, in the order of `active`. */
  function DeliveredOn(lines: map<LineId, Line>, id: nat, active: seq<string>,
                       answers: string -> Answer, now: Time): (r: seq<string>)
  {
    if active == [] then []
    else
      var c := active[|active| - 1];
      DeliveredOn(lines, id, active[..|active| - 1], answers, now)
      + if (id, c) in lines && LineDue(lines[(id, c)], now) && answers(c) == Delivered then [c] else []
  }

  /** What `consolidar` accumulates over the active channels. */
  datatype Tally = Tally(
    attempts: nat, lastError: string, next: Option<Time>, lastAttempt: Option<Time>,
    pending: bool, failed: bool, noChannel: bool)

  function Earlier(t: Option<Time>, u: Option<Time>): Option<Time> {
    if t.Some? && (u.None? || t.value < u.value) then t else u
  }

  function Later(t: Option<Time>, u: Option<Time>): Option<Time> {
    if t.Some? && (u.None? || t.value > u.value) then t else u
  }

  function AddLine(t: Tally, l: Line): Tally {
    Tally(
      if l.attempts > t.attempts then l.attempts else t.attempts,
      if l.lastError != "" && t.lastError == "" then l.lastError else t.lastError,
      if l.status == Pending then Earlier(l.next, t.next) else t.next,
      Later(l.lastAttempt, t.lastAttempt),
      t.pending || l.status == Pending,
      t.failed || l.status == Failed,
      t.noChannel || l.status == NoChannel)
  }

  function TallyOf(lines: map<LineId, Line>, id: nat, active: seq<string>): Tally {
    if active == [] then Tally(0, "", None, None, false, false, false)
    else
      var t := TallyOf(lines, id, active[..|active| - 1]);
      var k := (id, active[|active| - 1]);
      if k in lines then AddLine(t, lines[k]) else t
  }

  function Outcome(t: Tally): Delivery {
    if t.pending then Pending else if t.noChannel then NoChannel else if t.failed then Failed else Sent
  }

  function Consolidated(a: Alert, t: Tally, deliveredNow: bool, now: Time): Alert {
    a.(delivery := Outcome(t),
       attempts := t.attempts,
       lastError := t.lastError,
       next := if t.pending && t.next.None? then Some(now) else t.next,
       lastAttempt := if t.lastAttempt.Some? then t.lastAttempt else a.lastAttempt,
       lastNotified := if deliveredNow then Some(now) else a.lastNotified)
  }

  function WithoutChannel(a: Alert, now: Time): Alert {
    a.(delivery := NoChannel, lastAttempt := Some(now), next := None, lastError := NO_CHANNEL_ERROR)
  }

  /** `entregarAlerta`: one pass of alert `id` over the active channels. */
  function Deliver(cfg: Config, db: Store, id: nat, active: seq<string>,
                   answers: string -> Answer, now: Time): Store
    requires id < |db.alerts|
  {
    if active == [] then
      db.(alerts := db.alerts[id := WithoutChannel(db.alerts[id], now)])
    else
      var before := EnsureLines(db.lines, id, active);
      var after := Attempted(cfg, before, id, active, answers, now);
      var delivered := DeliveredOn(before, id, active, answers, now) != [];
      Store(db.alerts[id := Consolidated(db.alerts[id], TallyOf(after, id, active), delivered, now)], after)
  }

  /** The channels that receive alert `id` in the pass. */
  function SentBy(db: Store, id: nat, active: seq<string>, answers: string -> Answer, now: Time): seq<string> {
    DeliveredOn(EnsureLines(db.lines, id, active), id, active, answers, now)
  }

  // ----- the incident's life

  /** The newest unresolved row of `key` seen since `cutoff`, if any. */
  function LiveIncident(alerts: seq<Alert>, key: string, cutoff: Time): (r: Option<nat>)
    ensures r.Some? ==> r.value < |alerts| && OpenFor(alerts[r.value], key) && Seen(alerts[r.value]) >= cutoff
    ensures forall i :: 0 <= i < |alerts| && OpenFor(alerts[i], key) && Seen(alerts[i]) >= cutoff
                        ==> r.Some? && i <= r.value
  {
    if alerts == [] then None
    else
      var n := |alerts| - 1;
      if OpenFor(alerts[n], key) && Seen(alerts[n]) >= cutoff then Some(n)
      else LiveIncident(alerts[..n], key, cutoff)
  }

  /** MAX(last_notified_at) over the rows of `key`. */
  function LastNotice(alerts: seq<Alert>, key: string): (r: Option<Time>)
    ensures forall i :: 0 <= i < |alerts| && alerts[i].key == key && alerts[i].lastNotified.Some?
                        ==> r.Some? && alerts[i].lastNotified.value <= r.value
    ensures r.Some? ==> exists i :: 0 <= i < |alerts| && alerts[i].key == key && alerts[i].lastNotified == r
  {
    if alerts == [] then None
    else
      var n := |alerts| - 1;
      var rest := LastNotice(alerts[..n], key);
      if alerts[n].key == key then Later(alerts[n].lastNotified, rest) else rest
  }

  function Close(a: Alert): Alert {
    a.(status := Resolved, resolvedAt := Some(Seen(a)))
  }

  /** `substituirAntigos` for one key: every unresolved row but `keep` is closed. */
  function CloseOthers(alerts: seq<Alert>, key: string, keep: nat): (r: seq<Alert>)
    ensures |r| == |alerts|
  {
    seq(|alerts|, i requires 0 <= i < |alerts| =>
      if alerts[i].key == key && i != keep && alerts[i].status != Resolved then Close(alerts[i]) else alerts[i])
  }

  predicate HasNewer(alerts: seq<Alert>, i: nat)
    requires i < |alerts|
  {
    exists j :: i < j < |alerts| && alerts[j].key == alerts[i].key && alerts[j].status != Resolved
  }

  /** `fecharDuplicados` */
  function CloseDuplicates(alerts: seq<Alert>): (r: seq<Alert>)
    ensures |r| == |alerts|
  {
    seq(|alerts|, i requires 0 <= i < |alerts| =>
      if alerts[i].status != Resolved && HasNewer(alerts, i) then Close(alerts[i]) else alerts[i])
  }

  function Reopened(l: Line): Line {
    l.(status := Pending, attempts := 0, next := None, lastError := "")
  }

  /** `reabrirLinhas` */
  function ReopenLines(lines: map<LineId, Line>, id: nat): map<LineId, Line> {
    map k | k in lines :: if k.0 == id then Reopened(lines[k]) else lines[k]
  }

  predicate MustWarn(cfg: Config, a: Alert, now: Time) {
    a.status == Open && a.delivery == Sent
    && (a.lastNotified.None? || now - a.lastNotified.value >= cfg.cooldown)
  }

  function Warned(a: Alert, e: Entry, now: Time): Alert {
    a.(lastSeen := Some(now), text := e.text, delivery := Pending, attempts := 0,
       next := Some(now), lastError := "", renotifyCount := a.renotifyCount + 1)
  }

  /** `renotificar` */
  function Renotify(cfg: Config, db: Store, i: nat, e: Entry, now: Time): Store
    requires i < |db.alerts|
  {
    var a := db.alerts[i];
    if MustWarn(cfg, a, now) then
      Store(db.alerts[i := Warned(a, e, now)], ReopenLines(db.lines, i))
    else if a.lastSeen.None? || now - a.lastSeen.value >= SEEN_EVERY then
      db.(alerts := db.alerts[i := a.(lastSeen := Some(now))])
    else db
  }

  /** When the first attempt of a new row of `key` may happen. */
  function FirstAttempt(cfg: Config, alerts: seq<Alert>, key: string, now: Time): Time {
    var last := LastNotice(alerts, key);
    if last.Some? && now - last.value < cfg.cooldown then last.value + cfg.cooldown else now
  }

  function NewIncident(key: string, text: string, now: Time, next: Time): Alert {
    Alert(key, text, Open, Pending, 0, Some(next), None, "", now, Some(now), None, None, 0)
  }

  predicate Accepted(e: Entry) {
    e.key != "" && e.text != "" && !e.belowMinimum
  }

  /** `Enqueue` */
  function Enqueue(cfg: Config, db: Store, e: Entry, now: Time): Store {
    if !Accepted(e) then db
    else
      var live := LiveIncident(db.alerts, e.key, now - cfg.window);
      if live.Some? then Renotify(cfg, db, live.value, e, now)
      else
        var row := NewIncident(e.key, e.text, now, FirstAttempt(cfg, db.alerts, e.key, now));
        db.(alerts := CloseOthers(db.alerts + [row], e.key, |db.alerts|))
  }

  predicate OpenFor(a: Alert, key: string) {
    a.key == key && a.status != Resolved
  }

  /** Some unresolved row of `key` has been announced. */
  predicate Announced(alerts: seq<Alert>, key: string) {
    exists i :: 0 <= i < |alerts| && OpenFor(alerts[i], key) && alerts[i].lastNotified.Some?
  }

  function ResolveKey(alerts: seq<Alert>, key: string, now: Time): (r: seq<Alert>)
    ensures |r| == |alerts|
  {
    seq(|alerts|, i requires 0 <= i < |alerts| =>
      if OpenFor(alerts[i], key) then alerts[i].(status := Resolved, resolvedAt := Some(now)) else alerts[i])
  }

  function RecoveryRow(key: string, text: string, now: Time): Alert {
    Alert(key + RECOVERY_SUFFIX, text, Resolved, Pending, 0, Some(now), None, "",
          now, Some(now), None, Some(now), 0)
  }

  predicate SendsRecovery(alerts: seq<Alert>, key: string, text: string, enabled: bool) {
    Announced(alerts, key) && enabled && text != ""
  }

  /** `Recovered` */
  function Recovered(db: Store, key: string, text: string, enabled: bool, now: Time): Store {
    var closed := ResolveKey(db.alerts, key, now);
    db.(alerts := if SendsRecovery(db.alerts, key, text, enabled)
                  then closed + [RecoveryRow(key, text, now)] else closed)
  }

  /** `alertAckHandler` and `alertResolveHandler`; a resolved or unknown row is refused. */
  function Acknowledge(db: Store, id: nat): Store {
    if id < |db.alerts| && db.alerts[id].status != Resolved
    then db.(alerts := db.alerts[id := db.alerts[id].(status := Acked)]) else db
  }

  function ResolveByHand(db: Store, id: nat, now: Time): Store {
    if id < |db.alerts| && db.alerts[id].status != Resolved
    then db.(alerts := db.alerts[id := db.alerts[id].(status := Resolved, resolvedAt := Some(now))]) else db
  }

  // ----- the dispatcher

  predicate Dismissable(a: Alert) {
    a.status == Resolved && a.delivery == Pending && !IsRecoveryKey(a.key)
  }

  function DismissTo(a: Alert): Delivery {
    if a.lastNotified.None? then Dismissed else Sent
  }

  /** `dispensarResolvidos` */
  function DismissResolved(db: Store): Store {
    Store(
      seq(|db.alerts|, i requires 0 <= i < |db.alerts| =>
        var a := db.alerts[i];
        if Dismissable(a) then a.(delivery := DismissTo(a), next := None) else a),
      map k | k in db.lines ::
        if k.0 < |db.alerts| && Dismissable(db.alerts[k.0]) && db.lines[k].status == Pending
        then db.lines[k].(status := DismissTo(db.alerts[k.0]), next := None) else db.lines[k])
  }

  predicate Fresh(cfg: Config, a: Alert, now: Time) {
    a.status == Open && Seen(a) >= now - cfg.window
  }

  predicate StuckWithoutChannel(cfg: Config, a: Alert, health: Health, now: Time) {
    health.state != Off && Fresh(cfg, a, now) && a.delivery == NoChannel
  }

  predicate StuckFailed(cfg: Config, a: Alert, health: Health, now: Time) {
    health.state == Working && health.checkedAt.Some? && Fresh(cfg, a, now) && a.delivery == Failed
    && a.lastAttempt.Some? && a.lastAttempt.value < health.checkedAt.value
  }

  predicate Stuck(cfg: Config, a: Alert, health: Health, now: Time) {
    StuckWithoutChannel(cfg, a, health, now) || StuckFailed(cfg, a, health, now)
  }

  function Resume(a: Alert): Alert {
    a.(delivery := Pending, next := None, lastError := "")
  }

  /** `retomarPresos` */
  function ResumeStuck(cfg: Config, db: Store, health: Health, now: Time): Store {
    Store(
      seq(|db.alerts|, i requires 0 <= i < |db.alerts| =>
        if Stuck(cfg, db.alerts[i], health, now) then Resume(db.alerts[i]) else db.alerts[i]),
      map k | k in db.lines ::
        if k.0 < |db.alerts| && Stuck(cfg, db.alerts[k.0], health, now)
           && db.lines[k].status in {NoChannel, Failed}
        then Reopened(db.lines[k]) else db.lines[k])
  }

  /** `pendentesVencidos` */
  predicate AlertDue(a: Alert, now: Time) {
    a.delivery == Pending && (a.next.None? || a.next.value <= now)
    && (a.status != Resolved || IsRecoveryKey(a.key))
  }

  /** ORDER BY created_at, id */
  predicate Before(alerts: seq<Alert>, i: nat, j: nat)
    requires i < |alerts| && j < |alerts|
  {
    alerts[i].createdAt < alerts[j].createdAt || (alerts[i].createdAt == alerts[j].createdAt && i < j)
  }

  /** `ids` is what the claiming query returns: the oldest due rows, at most a batch of them. */
  predicate ClaimOf(cfg: Config, alerts: seq<Alert>, ids: seq<nat>, now: Time) {
    && |ids| <= cfg.batch
    && (forall k :: 0 <= k < |ids| ==> ids[k] < |alerts| && AlertDue(alerts[ids[k]], now))
    && (forall k, l :: 0 <= k < l < |ids| ==> Before(alerts, ids[k], ids[l]))
    && (forall i :: 0 <= i < |alerts| && AlertDue(alerts[i], now) && i !in ids ==>
          |ids| == cfg.batch && forall k :: 0 <= k < |ids| ==> Before(alerts, ids[k], i))
  }

  /** `claimBatch` */
  function Lease(cfg: Config, db: Store, ids: seq<nat>, now: Time): Store {
    db.(alerts := seq(|db.alerts|, i requires 0 <= i < |db.alerts| =>
      if i in ids then db.alerts[i].(lastAttempt := Some(now), next := Some(now + cfg.lease)) else db.alerts[i]))
  }
}

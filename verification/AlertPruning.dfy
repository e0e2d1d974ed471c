/**
 What retention does to the memory of the queue. Deleting old rows can forget
 the last announcement of a key, and then the next incident of the key does not
 wait for it.
 */
module AlertPruning {
  import opened Basics
  import opened AlertModel

  /** `pruneAlerts` may delete the row. */
  predicate Prunable(a: Alert, cutoff: Time) {
    a.createdAt < cutoff && a.status != Open && (a.status == Resolved || a.delivery == Sent)
  }

  /** The rows that are left. */
  function Without(alerts: seq<Alert>, gone: set<nat>): seq<Alert> {
    if alerts == [] then []
    else
      var n: nat := |alerts| - 1;
      if n in gone then Without(alerts[..n], gone) else Without(alerts[..n], gone) + [alerts[n]]
  }

  /** Row `i` announced the key at `t`. */
  predicate Announces(alerts: seq<Alert>, i: nat, key: string, t: Time) {
    i < |alerts| && alerts[i].key == key && alerts[i].lastNotified == Some(t)
  }

  /** A deleted row announced the key within the cooldown, later than every row that is left. */
  ghost predicate Forgets(cfg: Config, alerts: seq<Alert>, gone: set<nat>, key: string, now: Time) {
    exists i: nat, t: Time :: i in gone && Announces(alerts, i, key, t) && now - t < cfg.cooldown
      && forall k: nat, u: Time :: k !in gone && Announces(alerts, k, key, u) ==> u < t
  }

  /** The last announcement of the key among the rows that are left. */
  lemma {:induction false} LastLeft(alerts: seq<Alert>, gone: set<nat>, key: string)
    ensures var last := LastNotice(Without(alerts, gone), key);
      && (forall k: nat, u: Time :: k !in gone && Announces(alerts, k, key, u) ==> last.Some? && u <= last.value)
      && (last.Some? ==> exists k: nat :: k !in gone && Announces(alerts, k, key, last.value))
  {
    if alerts != [] {
      var n: nat := |alerts| - 1;
      LastLeft(alerts[..n], gone, key);
      var before, left := LastNotice(Without(alerts[..n], gone), key), Without(alerts, gone);
      if n !in gone {
        assert left[..|left| - 1] == Without(alerts[..n], gone);
        assert alerts[n].lastNotified.Some? ==> Announces(alerts, n, key, alerts[n].lastNotified.value) || alerts[n].key != key;
      }
      if before.Some? {
        var k: nat :| k !in gone && Announces(alerts[..n], k, key, before.value);
        assert Announces(alerts, k, key, before.value);
      }
      forall k: nat, u: Time | k !in gone && Announces(alerts, k, key, u)
        ensures LastNotice(left, key).Some? && u <= LastNotice(left, key).value
      {
        if k < n {
          assert Announces(alerts[..n], k, key, u);
        }
      }
    }
  }

  /** What is forgotten is the last announcement, and it was within the cooldown. */
  predicate LosesLast(cfg: Config, all: Option<Time>, left: Option<Time>, now: Time) {
    all.Some? && now - all.value < cfg.cooldown && (left.None? || left.value < all.value)
  }

  lemma LastIsKept(alerts: seq<Alert>, gone: set<nat>, key: string)
    ensures var all, left := LastNotice(alerts, key), LastNotice(Without(alerts, gone), key);
      left.Some? ==> all.Some? && left.value <= all.value
  {
    LastLeft(alerts, gone, key);
  }

  lemma ForgetsLast(cfg: Config, alerts: seq<Alert>, gone: set<nat>, key: string, now: Time)
    ensures LosesLast(cfg, LastNotice(alerts, key), LastNotice(Without(alerts, gone), key), now)
       <==> Forgets(cfg, alerts, gone, key, now)
  {
    var all, left := LastNotice(alerts, key), LastNotice(Without(alerts, gone), key);
    LastLeft(alerts, gone, key);
    if LosesLast(cfg, all, left, now) {
      LastLeft(alerts, {}, key);
      NothingGone(alerts);
      var i: nat :| Announces(alerts, i, key, all.value);
      assert i in gone;
    }
    if Forgets(cfg, alerts, gone, key, now) {
      var i: nat, t: Time :| i in gone && Announces(alerts, i, key, t) && now - t < cfg.cooldown
        && forall k: nat, u: Time :: k !in gone && Announces(alerts, k, key, u) ==> u < t;
      if left.Some? {
        var k: nat :| k !in gone && Announces(alerts, k, key, left.value);
      }
    }
  }

  /** A deletion lets the next incident of a key go out earlier exactly when it forgets its last announcement. */
  lemma EarlierIffForgotten(cfg: Config, alerts: seq<Alert>, gone: set<nat>, key: string, now: Time)
    ensures FirstAttempt(cfg, Without(alerts, gone), key, now) <= FirstAttempt(cfg, alerts, key, now)
    ensures FirstAttempt(cfg, Without(alerts, gone), key, now) < FirstAttempt(cfg, alerts, key, now)
       <==> Forgets(cfg, alerts, gone, key, now)
  {
    LastIsKept(alerts, gone, key);
    ForgetsLast(cfg, alerts, gone, key, now);
  }

  lemma {:induction false} NothingGone(alerts: seq<Alert>)
    ensures Without(alerts, {}) == alerts
  {
    if alerts != [] {
      NothingGone(alerts[..|alerts| - 1]);
    }
  }

  /** It happens: an old incident, renotified and resolved just now, may be deleted, and its key raised at once. */
  lemma RecentNoticeIsPrunable(cfg: Config, a: Alert, cutoff: Time, now: Time)
    requires cfg.cooldown > 0 && Prunable(a, cutoff) && a.lastNotified == Some(now)
    ensures FirstAttempt(cfg, [a], a.key, now) == now + cfg.cooldown
    ensures FirstAttempt(cfg, Without([a], {0}), a.key, now) == now
  {
    assert [a][..0] == [];
    assert LastNotice([a][..0], a.key) == None;
    assert Without([a], {0}) == Without([a][..0], {0});
  }
}

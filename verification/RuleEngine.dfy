/**
 The rule engine: how long a target has been in breach of a rule, when the
 rule fires, and when a recovery is announced, over any history of rounds.
 */
module RuleEngine {
  import opened Basics

  const SECOND: Time := 1_000_000_000

  /** `required` is how long a breach must last; `tick` is the interval of the rounds. */
  datatype Rule = Rule(operator: string, threshold: real, required: Time, tick: Time)

  /** How old the last breach may be for a new one to continue it. */
  function BreachGap(tick: Time): Time {
    if 2 * tick > 90 * SECOND then 2 * tick else 90 * SECOND
  }

  predicate Violates(value: real, operator: string, threshold: real) {
    if operator == ">" then value > threshold
    else if operator == "<" then value < threshold
    else false
  }

  /** One round as one target sees it: no reading, or a value; and what the queue would answer. */
  datatype Sight = Sight(at: Time, value: Option<real>, accepted: bool)

  predicate Breaks(rule: Rule, s: Sight) {
    s.value.Some? && Violates(s.value.value, rule.operator, rule.threshold)
  }

  predicate Settles(rule: Rule, s: Sight) {
    s.value.Some? && !Violates(s.value.value, rule.operator, rule.threshold)
  }

  /** The stored state of a target; a zero first breach is none. */
  datatype State = State(first: Option<Time>, last: Time, active: bool)

  const CALM := State(None, 0, false)

  function BreachStart(rule: Rule, st: State, now: Time): Time {
    if st.first.None? || now - st.last > BreachGap(rule.tick) then now else st.first.value
  }

  predicate Fires(rule: Rule, st: State, s: Sight) {
    Breaks(rule, s) && s.at - BreachStart(rule, st, s.at) >= rule.required
  }

  /** The queue is told that the target is in breach, and takes it. */
  predicate Announces(rule: Rule, st: State, s: Sight) {
    Fires(rule, st, s) && s.accepted
  }

  /** The queue is told that the target recovered. */
  predicate Recovers(rule: Rule, st: State, s: Sight) {
    Settles(rule, s) && st.active
  }

  function After(rule: Rule, st: State, s: Sight): State {
    if Breaks(rule, s) then
      State(Some(BreachStart(rule, st, s.at)), s.at, st.active || Announces(rule, st, s))
    else if Settles(rule, s) && (st.active || st.first.Some?) then CALM
    else st
  }

  /** The states of a target over its rounds, from calm. */
  predicate IsRun(rule: Rule, states: seq<State>, sights: seq<Sight>) {
    && |states| == |sights| + 1 && states[0] == CALM
    && (forall k :: 0 <= k < |sights| ==> states[k + 1] == After(rule, states[k], sights[k]))
    && (forall i, j :: 0 <= i < j < |sights| ==> sights[i].at <= sights[j].at)
  }

  // ----- persistence

  /** Rounds `a` and `b` are consecutive breaches: none between them. */
  predicate NextBreach(rule: Rule, sights: seq<Sight>, a: nat, b: nat)
    requires a < b < |sights|
  {
    && Breaks(rule, sights[a]) && Breaks(rule, sights[b])
    && forall i :: a < i < b ==> !Breaks(rule, sights[i])
  }

  /** From round `j` to round `n` the target stays in breach: nothing settles it and no gap is too long. */
  predicate Chain(rule: Rule, sights: seq<Sight>, j: nat, n: nat) {
    && j <= n < |sights| && Breaks(rule, sights[j]) && Breaks(rule, sights[n])
    && (forall i :: j <= i <= n ==> !Settles(rule, sights[i]))
    && (forall a, b :: j <= a < b <= n && NextBreach(rule, sights, a, b) ==> sights[b].at - sights[a].at <= BreachGap(rule.tick))
  }

  predicate AllSilent(sights: seq<Sight>, from: nat, to: nat)
    requires to <= |sights|
  {
    forall i :: from <= i < to ==> sights[i].value.None?
  }

  /** `start` to `last` is the longest chain that is still open before round `k`. */
  predicate OpenChain(rule: Rule, sights: seq<Sight>, k: nat, start: nat, last: nat) {
    && start <= last < k <= |sights|
    && Chain(rule, sights, start, last) && AllSilent(sights, last + 1, k)
    && forall i :: 0 <= i < start ==> !Chain(rule, sights, i, last)
  }

  /** Before round `k` no breach is open: each has been settled. */
  predicate Settled(rule: Rule, sights: seq<Sight>, k: nat)
    requires k <= |sights|
  {
    forall i :: 0 <= i < k && Breaks(rule, sights[i]) ==> exists j :: i < j < k && Settles(rule, sights[j])
  }

  lemma ChainShortens(rule: Rule, sights: seq<Sight>, i: nat, last: nat, n: nat)
    requires i <= last <= n < |sights| && Breaks(rule, sights[last])
    ensures Chain(rule, sights, i, n) ==> Chain(rule, sights, i, last)
  {
  }

  lemma ChainGrows(rule: Rule, sights: seq<Sight>, n: nat, start: nat, last: nat)
    requires OpenChain(rule, sights, n, start, last) && n < |sights| && Breaks(rule, sights[n])
    requires sights[n].at - sights[last].at <= BreachGap(rule.tick)
    ensures OpenChain(rule, sights, n + 1, start, n)
  {
    forall i | 0 <= i < start ensures !Chain(rule, sights, i, n) {
      ChainShortens(rule, sights, i, last, n);
    }
    forall a, b | start <= a < b <= n && NextBreach(rule, sights, a, b)
      ensures sights[b].at - sights[a].at <= BreachGap(rule.tick)
    {
      if b == n {
        assert a <= last;
      }
    }
  }

  lemma ChainBreaks(rule: Rule, sights: seq<Sight>, n: nat, start: nat, last: nat)
    requires OpenChain(rule, sights, n, start, last) && n < |sights| && Breaks(rule, sights[n])
    requires sights[n].at - sights[last].at > BreachGap(rule.tick)
    ensures OpenChain(rule, sights, n + 1, n, n)
  {
  }

  lemma ChainStarts(rule: Rule, sights: seq<Sight>, n: nat)
    requires n < |sights| && Settled(rule, sights, n) && Breaks(rule, sights[n])
    ensures OpenChain(rule, sights, n + 1, n, n)
  {
  }

  /** The stored state is that of this open chain. */
  predicate Marks(rule: Rule, st: State, sights: seq<Sight>, k: nat, start: nat, last: nat) {
    && OpenChain(rule, sights, k, start, last)
    && st.first == Some(sights[start].at) && st.last == sights[last].at
  }

  /** The stored state says which chain is open: its start and its last breach, or that there is none. */
  ghost predicate Tells(rule: Rule, st: State, sights: seq<Sight>, k: nat) {
    && k <= |sights|
    && (st.first.None? ==> Settled(rule, sights, k))
    && (st.first.Some? ==> exists start: nat, last: nat :: Marks(rule, st, sights, k, start, last))
  }

  lemma OpenNext(rule: Rule, st: State, sights: seq<Sight>, k: nat, start: nat, last: nat)
    requires k < |sights| && Marks(rule, st, sights, k, start, last)
    ensures Tells(rule, After(rule, st, sights[k]), sights, k + 1)
  {
    var s, after := sights[k], After(rule, st, sights[k]);
    if Breaks(rule, s) {
      if s.at - st.last > BreachGap(rule.tick) {
        ChainBreaks(rule, sights, k, start, last);
        assert Marks(rule, after, sights, k + 1, k, k);
      } else {
        ChainGrows(rule, sights, k, start, last);
        assert Marks(rule, after, sights, k + 1, start, k);
      }
    } else if Settles(rule, s) {
      assert Settled(rule, sights, k + 1);
    } else {
      assert Marks(rule, after, sights, k + 1, start, last);
    }
  }

  lemma SettledNext(rule: Rule, st: State, sights: seq<Sight>, k: nat)
    requires k < |sights| && Settled(rule, sights, k) && st.first.None?
    ensures Tells(rule, After(rule, st, sights[k]), sights, k + 1)
  {
    if Breaks(rule, sights[k]) {
      ChainStarts(rule, sights, k);
      assert Marks(rule, After(rule, st, sights[k]), sights, k + 1, k, k);
    } else {
      assert Settled(rule, sights, k + 1);
    }
  }

  lemma TellsNext(rule: Rule, st: State, sights: seq<Sight>, k: nat)
    requires k < |sights| && Tells(rule, st, sights, k)
    ensures Tells(rule, After(rule, st, sights[k]), sights, k + 1)
  {
    if st.first.Some? {
      var start: nat, last: nat :| Marks(rule, st, sights, k, start, last);
      OpenNext(rule, st, sights, k, start, last);
    } else {
      SettledNext(rule, st, sights, k);
    }
  }

  lemma {:induction false} RunTells(rule: Rule, states: seq<State>, sights: seq<Sight>, k: nat)
    requires IsRun(rule, states, sights) && k <= |sights|
    ensures Tells(rule, states[k], sights, k)
  {
    if k > 0 {
      RunTells(rule, states, sights, k - 1);
      TellsNext(rule, states[k - 1], sights, k - 1);
    }
  }

  /** A chain of breaches that ends now and is long enough. */
  predicate Persists(rule: Rule, sights: seq<Sight>, n: nat)
    requires n < |sights|
  {
    exists j :: 0 <= j <= n && Chain(rule, sights, j, n) && sights[n].at - sights[j].at >= rule.required
  }

  lemma StartsLater(rule: Rule, sights: seq<Sight>, n: nat, start: nat, j: nat)
    requires OpenChain(rule, sights, n + 1, start, n) && Chain(rule, sights, j, n)
    requires forall i, k :: 0 <= i < k < |sights| ==> sights[i].at <= sights[k].at
    ensures sights[start].at <= sights[j].at
  {
  }

  lemma LastIsNow(rule: Rule, sights: seq<Sight>, n: nat, start: nat, last: nat)
    requires OpenChain(rule, sights, n + 1, start, last) && n < |sights| && Breaks(rule, sights[n])
    ensures last == n
  {
  }

  /** The longest chain that ends now decides: every other one starts later. */
  lemma LongestDecides(rule: Rule, st: State, sights: seq<Sight>, n: nat)
    requires n < |sights| && Breaks(rule, sights[n]) && Tells(rule, st, sights, n + 1) && st.first.Some?
    requires forall i, j :: 0 <= i < j < |sights| ==> sights[i].at <= sights[j].at
    ensures sights[n].at - st.first.value >= rule.required <==> Persists(rule, sights, n)
  {
    var start: nat, last: nat :| Marks(rule, st, sights, n + 1, start, last);
    LastIsNow(rule, sights, n, start, last);
    if Persists(rule, sights, n) {
      var j: nat :| j <= n && Chain(rule, sights, j, n) && sights[n].at - sights[j].at >= rule.required;
      StartsLater(rule, sights, n, start, j);
    } else {
      assert Chain(rule, sights, start, n);
    }
  }

  /** The rule fires for a target exactly when the breach has persisted for as long as the rule requires. */
  lemma FiresIffPersists(rule: Rule, states: seq<State>, sights: seq<Sight>, n: nat)
    requires IsRun(rule, states, sights) && n < |sights|
    ensures Fires(rule, states[n], sights[n]) <==> Persists(rule, sights, n)
  {
    if Breaks(rule, sights[n]) {
      RunTells(rule, states, sights, n + 1);
      LongestDecides(rule, states[n + 1], sights, n);
    }
  }

  // ----- announcements and recoveries

  /** Some breach was announced since the last settled reading before round `k`. */
  predicate AnnouncedSince(rule: Rule, states: seq<State>, sights: seq<Sight>, k: nat)
    requires k <= |sights| < |states|
  {
    exists c :: 0 <= c < k && Announces(rule, states[c], sights[c])
             && forall i :: c <= i < k ==> !Settles(rule, sights[i])
  }

  lemma {:induction false} ActiveIffAnnounced(rule: Rule, states: seq<State>, sights: seq<Sight>, k: nat)
    requires IsRun(rule, states, sights) && k <= |sights|
    ensures states[k].active <==> AnnouncedSince(rule, states, sights, k)
  {
    if k > 0 {
      ActiveIffAnnounced(rule, states, sights, k - 1);
      if AnnouncedSince(rule, states, sights, k - 1) && !Settles(rule, sights[k - 1]) {
        var c :| 0 <= c < k - 1 && Announces(rule, states[c], sights[c])
                 && forall i :: c <= i < k - 1 ==> !Settles(rule, sights[i]);
        assert forall i :: c <= i < k ==> !Settles(rule, sights[i]);
      }
      if Announces(rule, states[k - 1], sights[k - 1]) {
        assert forall i :: k - 1 <= i < k ==> !Settles(rule, sights[i]);
      }
    }
  }

  /** A recovery is told exactly when a breach announced since the last settled reading is settled. */
  lemma RecoversIffAnnounced(rule: Rule, states: seq<State>, sights: seq<Sight>, n: nat)
    requires IsRun(rule, states, sights) && n < |sights|
    ensures Recovers(rule, states[n], sights[n]) <==>
            Settles(rule, sights[n]) && AnnouncedSince(rule, states, sights, n)
  {
    ActiveIffAnnounced(rule, states, sights, n);
  }

  /** Between two recoveries of a target a new breach was announced. */
  lemma OneRecoveryPerPeriod(rule: Rule, states: seq<State>, sights: seq<Sight>, a: nat, b: nat)
    requires IsRun(rule, states, sights) && a < b < |sights|
    requires Recovers(rule, states[a], sights[a]) && Recovers(rule, states[b], sights[b])
    ensures exists c :: a < c < b && Announces(rule, states[c], sights[c])
  {
    ActiveIffAnnounced(rule, states, sights, b);
    var c :| 0 <= c < b && Announces(rule, states[c], sights[c])
             && forall i :: c <= i < b ==> !Settles(rule, sights[i]);
    assert c > a;
  }

  // ----- readings, by value

  /** A reading breaks a rule on its own side of the threshold, and the threshold itself settles. */
  lemma BreaksSays(rule: Rule, s: Sight)
    ensures Breaks(rule, s) ==> s.value.Some? && (rule.operator == ">" || rule.operator == "<")
    ensures s.value.Some? && rule.operator == ">" ==> (Breaks(rule, s) <==> s.value.value > rule.threshold)
    ensures s.value.Some? && rule.operator == "<" ==> (Breaks(rule, s) <==> s.value.value < rule.threshold)
    ensures Settles(rule, s) <==> s.value.Some? && !Breaks(rule, s)
    ensures s.value == Some(rule.threshold) ==> Settles(rule, s)
  {
  }

  /** A breach continues one at most ninety seconds old, or two rounds if those are longer. */
  lemma GapSays(tick: Time)
    ensures BreachGap(tick) >= 90_000_000_000 && BreachGap(tick) >= 2 * tick
    ensures BreachGap(tick) == 90_000_000_000 || BreachGap(tick) == 2 * tick
  {
  }

  /** A rule that asks for no duration fires on the first breach; one that does never fires on it. */
  lemma FirstBreach(rule: Rule, states: seq<State>, sights: seq<Sight>, n: nat)
    requires IsRun(rule, states, sights) && n < |sights| && Breaks(rule, sights[n])
    requires forall i :: 0 <= i < n ==> !Breaks(rule, sights[i])
    ensures Fires(rule, states[n], sights[n]) <==> rule.required <= 0
  {
    FiresIffPersists(rule, states, sights, n);
    assert Chain(rule, sights, n, n);
  }

  /** Without a reading nothing is told and nothing changes. */
  lemma SilenceChangesNothing(rule: Rule, st: State, s: Sight)
    requires s.value.None?
    ensures After(rule, st, s) == st && !Fires(rule, st, s) && !Recovers(rule, st, s)
  {
  }

  // ----- one evaluation of one rule

  function StateOf(states: map<string, State>, target: string): State {
    if target in states then states[target] else CALM
  }

  /** What the round shows of a target: its recent metric, if it has one. */
  function SightOf(values: map<string, real>, accepts: string -> bool, target: string, now: Time): Sight {
    Sight(now, if target in values then Some(values[target]) else None, accepts(target))
  }

  predicate FiresFor(rule: Rule, states: map<string, State>, values: map<string, real>, accepts: string -> bool,
                     t: string, now: Time)
  {
    Fires(rule, StateOf(states, t), SightOf(values, accepts, t, now))
  }

  predicate RecoversFor(rule: Rule, states: map<string, State>, values: map<string, real>, accepts: string -> bool,
                        t: string, now: Time)
  {
    Recovers(rule, StateOf(states, t), SightOf(values, accepts, t, now))
  }

  /** The state of a target after the round; a rule whose parent is down is not evaluated. */
  function Evaluated(rule: Rule, parentUp: bool, targets: seq<string>, states: map<string, State>,
                     values: map<string, real>, accepts: string -> bool, t: string, now: Time): State
  {
    var st := StateOf(states, t);
    if parentUp && t in targets then After(rule, st, SightOf(values, accepts, t, now)) else st
  }

  /** What the round does about one target. */
  datatype Effect = Nothing | Breach(state: State, fires: bool) | Settle(clears: bool, recovers: bool)

  predicate IsEffect(rule: Rule, states: map<string, State>, s: Sight, t: string, e: Effect) {
    match e
    case Nothing => s.value.None?
    case Breach(state, fires) =>
      Breaks(rule, s) && state == After(rule, StateOf(states, t), s) && fires == Fires(rule, StateOf(states, t), s)
    case Settle(clears, recovers) =>
      && Settles(rule, s) && recovers == Recovers(rule, StateOf(states, t), s)
      && clears == (t in states && (states[t].active || states[t].first.Some?))
  }

  function Written(states: map<string, State>, breaches: map<string, State>, settled: set<string>, t: string): State {
    if t in settled then CALM else if t in breaches then breaches[t] else StateOf(states, t)
  }

  class Engine {
    /** The stored states, by target. */
    var states: map<string, State>

    /** The body of the loop of `evaluate`. */
    method Consider(rule: Rule, target: string, values: map<string, real>, accepts: string -> bool, now: Time)
      returns (e: Effect)
      ensures IsEffect(rule, states, SightOf(values, accepts, target, now), target, e)
      ensures e.Nothing? <==> target !in values
      ensures target in values && rule.operator == ">" ==> (e.Breach? <==> values[target] > rule.threshold)
      ensures target in values && rule.operator == "<" ==> (e.Breach? <==> values[target] < rule.threshold)
    {
      if target !in values {
        return Nothing;
      }
      var value := values[target];
      var has := target in states;
      var st := if has then states[target] else CALM;
      if !Violates(value, rule.operator, rule.threshold) {
        return Settle(has && (st.active || st.first.Some?), has && st.active);
      }
      var first := BreachStart(rule, st, now);
      var active, fires := has && st.active, now - first >= rule.required;
      if fires && accepts(target) {
        active := true;
      }
      return Breach(State(Some(first), now, active), fires);
    }

    /**
     The loop of `evaluate` over the targets of one rule: breaches and settled
     targets are collected against the states loaded first, and written last.
     */
    method Evaluate(rule: Rule, parentUp: bool, targets: seq<string>, values: map<string, real>,
                    accepts: string -> bool, now: Time)
      returns (fired: bool, recovered: seq<string>)
      modifies this
      ensures forall t :: StateOf(states, t) == Evaluated(rule, parentUp, targets, old(states), values, accepts, t, now)
      ensures fired <==> exists t :: t in targets && parentUp && FiresFor(rule, old(states), values, accepts, t, now)
      ensures forall t :: t in recovered <==>
                (t in targets && parentUp && RecoversFor(rule, old(states), values, accepts, t, now))
      ensures !parentUp ==> !fired && recovered == [] && states == old(states)
      ensures forall t :: t !in targets || t !in values ==> StateOf(states, t) == StateOf(old(states), t)
    {
      fired, recovered := false, [];
      if !parentUp {
        return;
      }
      var breaches: map<string, State> := map[];
      var settled: set<string> := {};
      for i := 0 to |targets|
        invariant states == old(states)
        invariant forall t :: t in breaches ==>
          t in targets && breaches[t] == Evaluated(rule, true, targets, states, values, accepts, t, now)
        invariant forall t :: t in settled ==>
          t in targets && CALM == Evaluated(rule, true, targets, states, values, accepts, t, now)
        invariant forall j :: 0 <= j < i && targets[j] !in breaches && targets[j] !in settled ==>
          StateOf(states, targets[j]) == Evaluated(rule, true, targets, states, values, accepts, targets[j], now)
        invariant fired <==> exists j :: 0 <= j < i && FiresFor(rule, states, values, accepts, targets[j], now)
        invariant forall t :: t in recovered ==>
          t in targets && RecoversFor(rule, states, values, accepts, t, now)
        invariant forall j :: 0 <= j < i && RecoversFor(rule, states, values, accepts, targets[j], now) ==>
          targets[j] in recovered
      {
        var target := targets[i];
        var e := Consider(rule, target, values, accepts, now);
        match e {
          case Nothing =>
          case Breach(state, fires) =>
            breaches := breaches[target := state];
            fired := fired || fires;
          case Settle(clears, recovers) =>
            if clears {
              settled := settled + {target};
            }
            if recovers {
              recovered := recovered + [target];
            }
        }
      }
      assert forall t :: t in targets ==> exists j :: 0 <= j < |targets| && targets[j] == t;
      Write(breaches, settled);
    }

    /** `flushBreaches` and `flushSettled` */
    method Write(breaches: map<string, State>, settled: set<string>)
      modifies this
      ensures forall t :: StateOf(states, t) == Written(old(states), breaches, settled, t)
    {
      states := states + breaches;
      states := map t | t in states :: if t in settled then CALM else states[t];
    }
  }
}

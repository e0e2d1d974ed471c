/**
 The election of the main load balancer of a group: a strict leader takes over
 only after beating the incumbent beyond a margin for a number of rounds in a
 row. A run feeds each round the roles the one before stored. The
 floating-point margin `1 + pct/100` is written in integers.
 */
module Election {
  import opened Basics

  datatype Role = Main | Reserve | Neither

  /** What a round sees of a member. */
  datatype Sight = Sight(candidate: bool, requests: nat)

  datatype Member = Member(id: string, seen: Sight, role: Role)

  datatype Decision = Decision(roles: map<string, Role>, main: string, previous: string, challenges: nat)

  datatype Rules = Rules(rounds: nat, marginPct: nat)

  predicate Distinct(ms: seq<Member>) {
    && (forall i :: 0 <= i < |ms| ==> ms[i].id != "")
    && (forall i, j :: 0 <= i < j < |ms| ==> ms[i].id != ms[j].id)
  }

  function Sights(ms: seq<Member>): (r: seq<Sight>)
    ensures |r| == |ms|
  {
    seq(|ms|, i requires 0 <= i < |ms| => ms[i].seen)
  }

  // ----- the strict leader

  /** Member `i` is a candidate with traffic and strictly more of it than every other candidate. */
  predicate Leads(round: seq<Sight>, i: nat)
    requires i < |round|
  {
    && round[i].candidate && round[i].requests > 0
    && forall j :: 0 <= j < |round| && j != i && round[j].candidate ==> round[j].requests < round[i].requests
  }

  predicate IsLeader(round: seq<Sight>, leader: Option<nat>) {
    match leader
    case Some(i) => i < |round| && Leads(round, i)
    case None => forall i :: 0 <= i < |round| ==> !Leads(round, i)
  }

  /** `liderUnico`: one pass that keeps the two largest candidates seen. */
  method StrictLeader(round: seq<Sight>) returns (leader: Option<nat>)
    ensures IsLeader(round, leader)
  {
    var first: Option<nat>, second: Option<nat> := None, None;
    for i := 0 to |round|
      invariant first.Some? ==> first.value < i && round[first.value].candidate
      invariant second.Some? ==> first.Some? && second.value < i && second.value != first.value
      invariant second.Some? ==>
        round[second.value].candidate && round[second.value].requests <= round[first.value].requests
      invariant forall j :: 0 <= j < i && round[j].candidate ==>
        first.Some? && round[j].requests <= round[first.value].requests
      invariant forall j :: 0 <= j < i && round[j].candidate && j != first.value ==>
        second.Some? && round[j].requests <= round[second.value].requests
    {
      if !round[i].candidate {
        continue;
      }
      if first.None? || round[i].requests > round[first.value].requests {
        second := first;
        first := Some(i);
        continue;
      }
      if second.None? || round[i].requests > round[second.value].requests {
        second := Some(i);
      }
    }
    if first.None? || round[first.value].requests == 0 {
      return None;
    }
    if second.Some? && round[second.value].requests == round[first.value].requests {
      assert !Leads(round, first.value);
      return None;
    }
    return first;
  }

  lemma LeaderIsUnique(round: seq<Sight>, i: nat, j: nat)
    requires i < |round| && j < |round| && Leads(round, i) && Leads(round, j)
    ensures i == j
  {
  }

  ghost function Leader(round: seq<Sight>): (r: Option<nat>)
    ensures IsLeader(round, r)
  {
    if exists i: nat :: i < |round| && Leads(round, i) then
      var i: nat :| i < |round| && Leads(round, i);
      Some(i)
    else None
  }

  // ----- one round

  /** The stored main; if several are stored, the last one listed. */
  function MainOf(roles: seq<Role>): (r: Option<nat>)
    ensures r.Some? ==> r.value < |roles| && roles[r.value] == Main
    ensures forall i :: 0 <= i < |roles| && roles[i] == Main ==> r.Some? && i <= r.value
  {
    if roles == [] then None
    else if roles[|roles| - 1] == Main then Some(|roles| - 1)
    else MainOf(roles[..|roles| - 1])
  }

  predicate AnyCandidate(round: seq<Sight>) {
    exists i :: 0 <= i < |round| && round[i].candidate
  }

  predicate AnyTraffic(round: seq<Sight>) {
    exists i :: 0 <= i < |round| && round[i].candidate && round[i].requests > 0
  }

  /** `leader` has more traffic than the margin allows over `incumbent`. */
  predicate Beats(rules: Rules, leader: Sight, incumbent: Sight) {
    leader.requests * 100 > incumbent.requests * (100 + rules.marginPct)
  }

  /** Who is main after a round, and how many challenges in a row there have been. */
  datatype Verdict = Verdict(main: Option<nat>, challenges: nat)

  ghost function Judge(rules: Rules, round: seq<Sight>, inc: Option<nat>, challenges: nat): (v: Verdict)
    requires inc.Some? ==> inc.value < |round|
    ensures v.main.Some? ==> v.main.value < |round|
  {
    var valid := inc.Some? && round[inc.value].candidate;
    if !AnyCandidate(round) then Verdict(None, 0)
    else if !AnyTraffic(round) then
      if valid || inc.None? then Verdict(inc, 0)
      else if challenges + 1 < rules.rounds then Verdict(inc, challenges + 1)
      else Verdict(None, 0)
    else
      match Leader(round)
      case None => Verdict(if valid then inc else None, 0)
      case Some(l) =>
        if valid && (l == inc.value || !Beats(rules, round[l], round[inc.value])) then Verdict(inc, 0)
        else if challenges + 1 >= rules.rounds then Verdict(Some(l), 0)
        else Verdict(inc, challenges + 1)
  }

  function RoleAfter(m: Sight, isMain: bool): Role {
    if isMain then Main else if m.candidate then Reserve else Neither
  }

  // ----- `decidir`

  function Candidates(ms: seq<Member>): nat {
    if ms == [] then 0
    else Candidates(ms[..|ms| - 1]) + if ms[|ms| - 1].seen.candidate then 1 else 0
  }

  function Traffic(ms: seq<Member>): nat {
    if ms == [] then 0
    else Traffic(ms[..|ms| - 1]) + if ms[|ms| - 1].seen.candidate then ms[|ms| - 1].seen.requests else 0
  }

  /** The last member stored as main. */
  function Incumbent(ms: seq<Member>): Option<nat> {
    if ms == [] then None
    else if ms[|ms| - 1].role == Main then Some(|ms| - 1)
    else Incumbent(ms[..|ms| - 1])
  }

  /** The roles before a main is named. */
  function Ranks(ms: seq<Member>): map<string, Role> {
    if ms == [] then map[]
    else Ranks(ms[..|ms| - 1])[ms[|ms| - 1].id := RoleAfter(ms[|ms| - 1].seen, false)]
  }

  lemma {:induction false} SumsSay(ms: seq<Member>)
    ensures Candidates(ms) > 0 <==> exists i :: 0 <= i < |ms| && ms[i].seen.candidate
    ensures Traffic(ms) > 0 <==> exists i :: 0 <= i < |ms| && ms[i].seen.candidate && ms[i].seen.requests > 0
  {
    if ms != [] {
      var n := |ms| - 1;
      SumsSay(ms[..n]);
      assert ms == ms[..n] + [ms[n]];
    }
  }

  lemma SightsSay(ms: seq<Member>)
    ensures AnyCandidate(Sights(ms)) <==> exists i :: 0 <= i < |ms| && ms[i].seen.candidate
    ensures AnyTraffic(Sights(ms)) <==> exists i :: 0 <= i < |ms| && ms[i].seen.candidate && ms[i].seen.requests > 0
  {
    forall i | 0 <= i < |ms| ensures Sights(ms)[i] == ms[i].seen {
    }
    if i: nat :| i < |ms| && ms[i].seen.candidate && ms[i].seen.requests > 0 {
      assert Sights(ms)[i].candidate;
    }
    if i: nat :| i < |ms| && ms[i].seen.candidate {
      assert Sights(ms)[i].candidate;
    }
  }

  lemma {:induction false} RanksSay(ms: seq<Member>, id: string)
    requires Distinct(ms)
    ensures id in Ranks(ms) <==> exists i :: 0 <= i < |ms| && ms[i].id == id
    ensures forall i :: 0 <= i < |ms| && ms[i].id == id ==> Ranks(ms)[id] == RoleAfter(ms[i].seen, false)
  {
    if ms != [] {
      var n := |ms| - 1;
      RanksSay(ms[..n], id);
      assert ms == ms[..n] + [ms[n]];
    }
  }

  function RolesOf(ms: seq<Member>): (r: seq<Role>)
    ensures |r| == |ms|
  {
    seq(|ms|, i requires 0 <= i < |ms| => ms[i].role)
  }

  lemma {:induction false} IncumbentIsMain(ms: seq<Member>)
    ensures Incumbent(ms) == MainOf(RolesOf(ms))
  {
    if ms != [] {
      var n := |ms| - 1;
      IncumbentIsMain(ms[..n]);
      assert RolesOf(ms[..n]) == RolesOf(ms)[..n];
    }
  }

  /** The first loop of `decidir`: roles without a main, the incumbent, and how much there is to decide on. */
  method Survey(ms: seq<Member>) returns (roles: map<string, Role>, inc: Option<nat>, candidates: nat, total: nat)
    ensures roles == Ranks(ms) && inc == Incumbent(ms)
    ensures candidates == Candidates(ms) && total == Traffic(ms)
  {
    roles, inc, candidates, total := map[], None, 0, 0;
    for i := 0 to |ms|
      invariant roles == Ranks(ms[..i]) && inc == Incumbent(ms[..i])
      invariant candidates == Candidates(ms[..i]) && total == Traffic(ms[..i])
    {
      assert ms[..i + 1][..i] == ms[..i];
      roles := roles[ms[i].id := Neither];
      if ms[i].role == Main {
        inc := Some(i);
      }
      if ms[i].seen.candidate {
        candidates := candidates + 1;
        total := total + ms[i].seen.requests;
        roles := roles[ms[i].id := Reserve];
      }
    }
    assert ms[..|ms|] == ms;
  }

  /** The switch of `decidir`. */
  method Choose(round: seq<Sight>, inc: Option<nat>, candidates: nat, total: nat, challenges: nat, rules: Rules)
    returns (main: Option<nat>, n: nat)
    requires inc.Some? ==> inc.value < |round|
    requires (candidates > 0 <==> AnyCandidate(round)) && (total > 0 <==> AnyTraffic(round))
    ensures Verdict(main, n) == Judge(rules, round, inc, challenges)
  {
    var valid := inc.Some? && round[inc.value].candidate;
    main, n := None, challenges;
    if candidates == 0 {
      n := 0;
    } else if total == 0 {
      if valid {
        return inc, 0;
      }
      if inc.None? {
        return None, 0;
      }
      n := n + 1;
      if n < rules.rounds {
        return inc, n;
      }
      n := 0;
    } else {
      var leader := StrictLeader(round);
      if leader.Some? {
        LeaderIsUnique(round, leader.value, Leader(round).value);
      }
      if leader.None? {
        n := 0;
        if valid {
          main := inc;
        }
      } else if valid && leader == inc {
        main, n := inc, 0;
      } else if valid && round[leader.value].requests * 100 <= round[inc.value].requests * (100 + rules.marginPct) {
        main, n := inc, 0;
      } else {
        n := n + 1;
        if n >= rules.rounds {
          return leader, 0;
        }
        main := inc;
      }
    }
  }

  function IdOf(ms: seq<Member>, m: Option<nat>): string
    requires m.Some? ==> m.value < |ms|
  {
    if m.Some? then ms[m.value].id else ""
  }

  /** Member `i` has the role it should. */
  predicate RoleIs(ms: seq<Member>, main: Option<nat>, roles: map<string, Role>, i: nat)
    requires i < |ms|
  {
    ms[i].id in roles && roles[ms[i].id] == RoleAfter(ms[i].seen, main == Some(i))
  }

  /** Naming one main changes its role and no other. */
  lemma NamingMain(ms: seq<Member>, main: Option<nat>, i: nat)
    requires Distinct(ms) && (main.Some? ==> main.value < |ms|) && i < |ms|
    ensures RoleIs(ms, main, if main.Some? then Ranks(ms)[ms[main.value].id := Main] else Ranks(ms), i)
  {
    RanksSay(ms, ms[i].id);
  }

  function RoleOf(d: Decision, id: string): Role {
    if id in d.roles then d.roles[id] else Neither
  }

  /** `decidir` */
  method Decide(ms: seq<Member>, challenges: nat, rules: Rules) returns (d: Decision)
    requires Distinct(ms) && rules.rounds >= 1
    ensures var v := Judge(rules, Sights(ms), MainOf(RolesOf(ms)), challenges);
      && d.main == IdOf(ms, v.main) && d.challenges == v.challenges
      && d.previous == IdOf(ms, MainOf(RolesOf(ms)))
      && (forall i :: 0 <= i < |ms| ==> RoleIs(ms, v.main, d.roles, i))
    ensures (forall i :: 0 <= i < |ms| ==> !ms[i].seen.candidate) ==>
      d.main == "" && d.challenges == 0 && forall i :: 0 <= i < |ms| ==> RoleOf(d, ms[i].id) == Neither
  {
    IncumbentIsMain(ms);
    SumsSay(ms);
    var roles, inc, candidates, total := Survey(ms);
    SightsSay(ms);
    var main, n := Choose(Sights(ms), inc, candidates, total, challenges, rules);
    if main.Some? {
      roles := roles[ms[main.value].id := Main];
    }
    forall i | 0 <= i < |ms| ensures RoleIs(ms, main, roles, i) {
      NamingMain(ms, main, i);
    }
    d := Decision(roles, IdOf(ms, main), IdOf(ms, inc), n);
    if forall i :: 0 <= i < |ms| ==> !ms[i].seen.candidate {
      assert !AnyCandidate(Sights(ms));
      forall i | 0 <= i < |ms| ensures RoleOf(d, ms[i].id) == Neither {
        assert RoleIs(ms, main, roles, i);
      }
    }
  }

  // ----- whole runs

  /** The stored state of a group of fixed members. */
  datatype Group = Group(roles: seq<Role>, challenges: nat)

  /** `aplicar`: the decision of the round is what is stored. */
  ghost function Round(rules: Rules, g: Group, round: seq<Sight>): (r: Group)
    requires |g.roles| == |round|
    ensures |r.roles| == |round|
  {
    var v := Judge(rules, round, MainOf(g.roles), g.challenges);
    Group(seq(|round|, i requires 0 <= i < |round| => RoleAfter(round[i], v.main == Some(i))), v.challenges)
  }

  /** A run: each state is what the round before it stored. */
  ghost predicate IsRun(rules: Rules, states: seq<Group>, rounds: seq<seq<Sight>>) {
    && |states| == |rounds| + 1
    && (forall k :: 0 <= k < |rounds| ==> |states[k].roles| == |rounds[k]|)
    && (forall k :: 0 <= k < |rounds| ==> states[k + 1] == Round(rules, states[k], rounds[k]))
  }

  /** Whatever was stored, after a round the stored main is the verdict's, and it is the only one. */
  lemma OneMain(rules: Rules, g: Group, round: seq<Sight>)
    requires |g.roles| == |round|
    ensures var after := Round(rules, g, round);
      && MainOf(after.roles) == Judge(rules, round, MainOf(g.roles), g.challenges).main
      && forall i :: 0 <= i < |round| ==> (after.roles[i] == Main <==> MainOf(after.roles) == Some(i))
  {
    var v := Judge(rules, round, MainOf(g.roles), g.challenges);
    var after := Round(rules, g, round);
    assert v.main.Some? ==> after.roles[v.main.value] == Main;
  }

  /** In this round `p` is no candidate, or a strict leader beats it beyond the margin. */
  ghost predicate Challenged(rules: Rules, round: seq<Sight>, p: nat)
    requires p < |round|
  {
    || !round[p].candidate
    || exists l :: 0 <= l < |round| && Leads(round, l) && Beats(rules, round[l], round[p])
  }

  /** What one verdict says about the incumbent and the count of challenges. */
  lemma VerdictSays(rules: Rules, round: seq<Sight>, inc: Option<nat>, challenges: nat)
    requires rules.rounds >= 1 && (inc.Some? ==> inc.value < |round|)
    ensures var v := Judge(rules, round, inc, challenges);
      && (v.challenges > 0 ==> v.main == inc && v.challenges == challenges + 1)
      && (v.challenges > 0 && inc.Some? ==> Challenged(rules, round, inc.value))
      && (inc.Some? && v.main != inc ==> Challenged(rules, round, inc.value))
      && (inc.Some? && v.main.Some? && v.main != inc ==>
            challenges + 1 >= rules.rounds && Leads(round, v.main.value))
      && (inc.Some? && round[inc.value].candidate && v.main != inc ==>
            v.main.Some? && Beats(rules, round[v.main.value], round[inc.value]))
  {
  }

  /** The round found `p` as main and challenged it. */
  ghost predicate ChallengedIn(rules: Rules, g: Group, round: seq<Sight>, p: nat) {
    |g.roles| == |round| && p < |round| && MainOf(g.roles) == Some(p) && Challenged(rules, round, p)
  }

  /** One round: what a change of main, or one more challenge, says about it. */
  lemma RoundChallenges(rules: Rules, g: Group, round: seq<Sight>)
    requires rules.rounds >= 1 && |g.roles| == |round|
    ensures var after := Round(rules, g, round);
      var p, q := MainOf(g.roles), MainOf(after.roles);
      && (after.challenges > 0 ==> q == p && after.challenges == g.challenges + 1)
      && (p.Some? && (after.challenges > 0 || q != p) ==> ChallengedIn(rules, g, round, p.value))
      && (p.Some? && q.Some? && q != p ==> g.challenges + 1 >= rules.rounds && Leads(round, q.value))
  {
    OneMain(rules, g, round);
    VerdictSays(rules, round, MainOf(g.roles), g.challenges);
  }

  /** The count of challenges is a count of consecutive rounds that challenged the present main. */
  lemma {:induction false} ChallengesCount(rules: Rules, states: seq<Group>, rounds: seq<seq<Sight>>, k: nat, p: nat)
    requires rules.rounds >= 1 && IsRun(rules, states, rounds) && states[0].challenges == 0 && k <= |rounds|
    ensures states[k].challenges <= k
    ensures MainOf(states[k].roles) == Some(p) ==>
      forall j :: k - states[k].challenges <= j < k ==> ChallengedIn(rules, states[j], rounds[j], p)
  {
    if k > 0 {
      ChallengesCount(rules, states, rounds, k - 1, p);
      RoundChallenges(rules, states[k - 1], rounds[k - 1]);
    }
  }

  /** From state `k` to the next the main changes from `p` to `q`. */
  predicate GivesWay(states: seq<Group>, k: nat, p: nat, q: nat) {
    p != q && k + 1 < |states| && MainOf(states[k].roles) == Some(p) && MainOf(states[k + 1].roles) == Some(q)
  }

  /**
   A main gives way to another only after the configured number of rounds in a
   row, the last one included, in which it was main and was challenged; the
   new main strictly leads in the round that names it.
   */
  lemma ChangeIsEarned(rules: Rules, states: seq<Group>, rounds: seq<seq<Sight>>, k: nat, p: nat, q: nat)
    requires rules.rounds >= 1 && IsRun(rules, states, rounds) && states[0].challenges == 0
    requires GivesWay(states, k, p, q)
    ensures rules.rounds <= k + 1
    ensures forall j :: k + 1 - rules.rounds <= j <= k ==> ChallengedIn(rules, states[j], rounds[j], p)
    ensures k < |rounds| && q < |rounds[k]| && Leads(rounds[k], q)
  {
    ChallengesCount(rules, states, rounds, k, p);
    RoundChallenges(rules, states[k], rounds[k]);
  }

  /** A main that is still a candidate is only ever replaced by a member that beats it beyond the margin. */
  lemma CandidateMainStands(rules: Rules, g: Group, round: seq<Sight>, p: nat)
    requires rules.rounds >= 1 && |g.roles| == |round| && p < |round|
    requires MainOf(g.roles) == Some(p) && round[p].candidate
    ensures var main := MainOf(Round(rules, g, round).roles);
      main.Some? && (main.value == p
                     || round[main.value].requests * 100 > round[p].requests * (100 + rules.marginPct))
  {
    OneMain(rules, g, round);
    VerdictSays(rules, round, Some(p), g.challenges);
  }

  /** `l` strictly leads, and no candidate incumbent is within the margin of it. */
  ghost predicate Wins(rules: Rules, round: seq<Sight>, inc: Option<nat>, l: nat)
    requires l < |round| && (inc.Some? ==> inc.value < |round|)
  {
    && Leads(round, l)
    && (inc.None? || inc.value == l || !round[inc.value].candidate || Beats(rules, round[l], round[inc.value]))
  }

  ghost predicate WinsIn(rules: Rules, g: Group, round: seq<Sight>, l: nat) {
    |g.roles| == |round| && l < |round| && Wins(rules, round, MainOf(g.roles), l)
  }

  /** `l` is main, or has at least `n` challenges and not yet enough. */
  predicate Ahead(rules: Rules, g: Group, l: nat, n: nat) {
    MainOf(g.roles) == Some(l) || n <= g.challenges < rules.rounds
  }

  ghost predicate WinningStep(rules: Rules, g: Group, round: seq<Sight>, after: Group, l: nat) {
    WinsIn(rules, g, round, l) && after == Round(rules, g, round)
  }

  /** From state `k` to the next, `l` is main or gains a challenge. */
  ghost predicate Climbs(rules: Rules, states: seq<Group>, k: nat, l: nat) {
    && k + 1 < |states| && Ahead(rules, states[k + 1], l, 1)
    && forall n: nat :: Ahead(rules, states[k], l, n) ==> Ahead(rules, states[k + 1], l, n + 1)
  }

  /** A member that wins a round climbs. */
  lemma WinningRound(rules: Rules, states: seq<Group>, round: seq<Sight>, k: nat, l: nat)
    requires rules.rounds >= 1 && k + 1 < |states| && WinningStep(rules, states[k], round, states[k + 1], l)
    ensures Climbs(rules, states, k, l)
  {
    LeaderIsUnique(round, l, Leader(round).value);
    OneMain(rules, states[k], round);
  }

  /** A member that climbs round after round is main, or is that many challenges ahead. */
  lemma {:induction false} ClimbsAddUp(rules: Rules, states: seq<Group>, k: nat, n: nat, l: nat)
    requires n >= 1 && k + n < |states|
    requires forall j :: k <= j < k + n ==> Climbs(rules, states, j, l)
    ensures Ahead(rules, states[k + n], l, n)
    decreases n
  {
    assert Climbs(rules, states, k + n - 1, l);
    if n > 1 {
      ClimbsAddUp(rules, states, k, n - 1, l);
    }
  }

  /** A strict leader beyond the margin for the configured number of rounds is main by the last one. */
  lemma LeaderTakesOver(rules: Rules, states: seq<Group>, rounds: seq<seq<Sight>>, k: nat, l: nat)
    requires rules.rounds >= 1 && IsRun(rules, states, rounds) && k + rules.rounds <= |rounds|
    requires forall j :: k <= j < k + rules.rounds ==> WinsIn(rules, states[j], rounds[j], l)
    ensures MainOf(states[k + rules.rounds].roles) == Some(l)
  {
    forall j | k <= j < k + rules.rounds ensures Climbs(rules, states, j, l) {
      WinningRound(rules, states, rounds[j], j, l);
    }
    ClimbsAddUp(rules, states, k, rules.rounds, l);
  }

  /** A main stays main as long as it strictly leads. */
  lemma LeadingMainStays(rules: Rules, g: Group, round: seq<Sight>, l: nat)
    requires |g.roles| == |round| && l < |round| && MainOf(g.roles) == Some(l) && Leads(round, l)
    ensures MainOf(Round(rules, g, round).roles) == Some(l) && Round(rules, g, round).challenges == 0
  {
    OneMain(rules, g, round);
    LeaderIsUnique(round, l, Leader(round).value);
  }

  // ----- rounds without a verdict for the main

  /** No candidate has more traffic than `i`, which has some. */
  predicate Tops(round: seq<Sight>, i: nat) {
    && i < |round| && round[i].candidate && round[i].requests > 0
    && forall k :: 0 <= k < |round| && round[k].candidate ==> round[k].requests <= round[i].requests
  }

  /** Two candidates share the most traffic. */
  predicate Tied(round: seq<Sight>) {
    exists i: nat, j: nat :: i < j < |round| && Tops(round, i) && Tops(round, j)
  }

  predicate NoTraffic(round: seq<Sight>) {
    forall i :: 0 <= i < |round| && round[i].candidate ==> round[i].requests == 0
  }

  lemma TiedHasNoLeader(round: seq<Sight>)
    requires Tied(round)
    ensures AnyCandidate(round) && AnyTraffic(round) && Leader(round).None?
  {
    var i: nat, j: nat :| i < j < |round| && Tops(round, i) && Tops(round, j);
  }

  /** Every role after a round: the main, and of the rest the candidates in reserve. */
  lemma RolesSay(rules: Rules, g: Group, round: seq<Sight>, i: nat)
    requires |g.roles| == |round| && i < |round|
    ensures var after := Round(rules, g, round);
      after.roles[i] == if MainOf(after.roles) == Some(i) then Main else if round[i].candidate then Reserve else Neither
  {
    OneMain(rules, g, round);
  }

  /** Without candidates nobody is main, nobody is in reserve and no challenge is counted. */
  lemma NoCandidateNoMain(rules: Rules, g: Group, round: seq<Sight>)
    requires |g.roles| == |round| && forall i :: 0 <= i < |round| ==> !round[i].candidate
    ensures var after := Round(rules, g, round);
      MainOf(after.roles) == None && after.challenges == 0 && forall i :: 0 <= i < |round| ==> after.roles[i] == Neither
  {
    OneMain(rules, g, round);
  }

  /** In a tie a main that is still a candidate stays; any other term ends at once. */
  lemma TieEndsInvalidTerm(rules: Rules, g: Group, round: seq<Sight>)
    requires |g.roles| == |round| && Tied(round)
    ensures var p, after := MainOf(g.roles), Round(rules, g, round);
      && after.challenges == 0
      && MainOf(after.roles) == if p.Some? && round[p.value].candidate then p else None
  {
    TiedHasNoLeader(round);
    OneMain(rules, g, round);
  }

  /**
   Candidates without traffic: a candidate main stays unchallenged, a group
   without a main stays without one, and a main that is no candidate goes only
   with the last allowed challenge.
   */
  lemma NoTrafficSays(rules: Rules, g: Group, round: seq<Sight>)
    requires rules.rounds >= 1 && |g.roles| == |round| && NoTraffic(round)
    requires exists i :: 0 <= i < |round| && round[i].candidate
    ensures var p, after := MainOf(g.roles), Round(rules, g, round);
      && (p.None? ==> MainOf(after.roles) == None && after.challenges == 0)
      && (p.Some? && round[p.value].candidate ==> MainOf(after.roles) == p && after.challenges == 0)
      && (p.Some? && !round[p.value].candidate && g.challenges + 1 < rules.rounds ==>
            MainOf(after.roles) == p && after.challenges == g.challenges + 1)
      && (p.Some? && !round[p.value].candidate && g.challenges + 1 >= rules.rounds ==>
            MainOf(after.roles) == None && after.challenges == 0)
  {
    assert !AnyTraffic(round);
    OneMain(rules, g, round);
  }

  /**
   With a strict leader: it stays if it is main; a candidate main within the
   margin stays unchallenged; any other main, or none, is challenged, and the
   leader takes over with the last challenge.
   */
  lemma LeaderSays(rules: Rules, g: Group, round: seq<Sight>, l: nat)
    requires rules.rounds >= 1 && |g.roles| == |round| && l < |round|
    requires round[l].candidate && round[l].requests > 0
    requires forall j :: 0 <= j < |round| && j != l && round[j].candidate ==> round[j].requests < round[l].requests
    ensures var p, after := MainOf(g.roles), Round(rules, g, round);
      var holds := p.Some? && round[p.value].candidate
        && (p.value == l || round[l].requests * 100 <= round[p.value].requests * (100 + rules.marginPct));
      && (holds ==> MainOf(after.roles) == p && after.challenges == 0)
      && (!holds && g.challenges + 1 >= rules.rounds ==> MainOf(after.roles) == Some(l) && after.challenges == 0)
      && (!holds && g.challenges + 1 < rules.rounds ==> MainOf(after.roles) == p && after.challenges == g.challenges + 1)
  {
    VerdictOnLeader(rules, round, MainOf(g.roles), g.challenges, l);
    OneMain(rules, g, round);
  }

  lemma VerdictOnLeader(rules: Rules, round: seq<Sight>, inc: Option<nat>, challenges: nat, l: nat)
    requires l < |round| && Leads(round, l) && (inc.Some? ==> inc.value < |round|)
    ensures Judge(rules, round, inc, challenges) ==
      if inc.Some? && round[inc.value].candidate
         && (inc.value == l || round[l].requests * 100 <= round[inc.value].requests * (100 + rules.marginPct))
      then Verdict(inc, 0)
      else if challenges + 1 >= rules.rounds then Verdict(Some(l), 0) else Verdict(inc, challenges + 1)
  {
    LeaderIsUnique(round, l, Leader(round).value);
    assert AnyTraffic(round) && AnyCandidate(round);
  }

  /** A round is without candidates, without traffic, tied, or has a strict leader. */
  lemma RoundsAreCovered(round: seq<Sight>)
    ensures (forall i :: 0 <= i < |round| ==> !round[i].candidate) || NoTraffic(round) || Tied(round)
         || exists l: nat :: l < |round| && Leads(round, l)
  {
    if !NoTraffic(round) {
      var i := TopOf(round);
      if !Leads(round, i) {
        var j: nat :| j < |round| && j != i && round[j].candidate && round[j].requests >= round[i].requests;
        assert Tops(round, j);
      }
    }
  }

  /** If there is traffic, some candidate has the most. */
  lemma {:induction false} TopOf(round: seq<Sight>) returns (i: nat)
    requires !NoTraffic(round)
    ensures Tops(round, i)
  {
    var n := |round| - 1;
    var last := round[n];
    if NoTraffic(round[..n]) {
      i := n;
      assert forall k :: 0 <= k < n ==> round[..n][k] == round[k];
    } else {
      i := TopOf(round[..n]);
      assert forall k :: 0 <= k < n ==> round[..n][k] == round[k];
      if last.candidate && last.requests > round[i].requests {
        i := n;
      }
    }
  }

  /** Member `p` is no candidate in the round, which leads from one state to the next. */
  ghost predicate Absent(rules: Rules, g: Group, round: seq<Sight>, after: Group, p: nat) {
    |g.roles| == |round| && p < |round| && !round[p].candidate && after == Round(rules, g, round)
  }

  /** `p` is not main, or has at least `n` challenges and not yet enough. */
  predicate Wanes(rules: Rules, g: Group, p: nat, n: nat) {
    MainOf(g.roles) != Some(p) || n <= g.challenges < rules.rounds
  }

  /** From state `k` to the next, `p` is not main or is challenged once more. */
  ghost predicate Sinks(rules: Rules, states: seq<Group>, k: nat, p: nat) {
    && k + 1 < |states| && Wanes(rules, states[k + 1], p, 1)
    && forall n: nat :: Wanes(rules, states[k], p, n) ==> Wanes(rules, states[k + 1], p, n + 1)
  }

  lemma AbsentSinks(rules: Rules, states: seq<Group>, round: seq<Sight>, k: nat, p: nat)
    requires rules.rounds >= 1 && k + 1 < |states| && Absent(rules, states[k], round, states[k + 1], p)
    ensures Sinks(rules, states, k, p)
  {
    OneMain(rules, states[k], round);
  }

  lemma {:induction false} SinksAddUp(rules: Rules, states: seq<Group>, k: nat, n: nat, p: nat)
    requires n >= 1 && k + n < |states|
    requires forall j :: k <= j < k + n ==> Sinks(rules, states, j, p)
    ensures Wanes(rules, states[k + n], p, n)
    decreases n
  {
    assert Sinks(rules, states, k + n - 1, p);
    if n > 1 {
      SinksAddUp(rules, states, k, n - 1, p);
    }
  }

  /** A member that is no candidate for the configured number of rounds in a row is not main after the last one. */
  lemma AbsentMainLeaves(rules: Rules, states: seq<Group>, rounds: seq<seq<Sight>>, k: nat, p: nat)
    requires rules.rounds >= 1 && IsRun(rules, states, rounds) && k + rules.rounds <= |rounds|
    requires forall j :: k <= j < k + rules.rounds ==> p < |rounds[j]| && !rounds[j][p].candidate
    ensures MainOf(states[k + rules.rounds].roles) != Some(p)
  {
    forall j | k <= j < k + rules.rounds ensures Sinks(rules, states, j, p) {
      AbsentSinks(rules, states, rounds[j], j, p);
    }
    SinksAddUp(rules, states, k, rules.rounds, p);
  }
}

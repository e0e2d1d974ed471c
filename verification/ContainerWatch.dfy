/**
 The watch over a host's containers: restart loops told from the restart
 counts of successive samples, and one incident per container that is opened,
 kept and closed.
 */
module ContainerWatch {
  import opened Basics

  const STABLE_SAMPLES := 3
  const GROWTHS_FOR_LOOP := 2

  // ----- restart loops, from the counts of one container since it appeared

  datatype Restarts = Restarts(count: Option<int>, growths: nat, stable: nat, looping: bool)

  const NEW := Restarts(None, 0, 0, false)

  predicate Grew(r: Restarts, count: int) {
    r.count.Some? && count > r.count.value
  }

  /** `registrarReinicios` on one inspected sample. */
  function Note(r: Restarts, count: int): Restarts {
    if Grew(r, count) then Restarts(Some(count), r.growths + 1, 0, r.looping || r.growths + 1 >= GROWTHS_FOR_LOOP)
    else if r.growths == 0 then r.(count := Some(count))
    else if r.stable + 1 >= STABLE_SAMPLES then Restarts(Some(count), 0, 0, false)
    else r.(count := Some(count), stable := r.stable + 1)
  }

  predicate IsRun(states: seq<Restarts>, counts: seq<int>) {
    && |states| == |counts| + 1 && states[0] == NEW
    && forall k :: 0 <= k < |counts| ==> states[k + 1] == Note(states[k], counts[k])
  }

  predicate Growth(counts: seq<int>, i: int) {
    0 < i < |counts| && counts[i] > counts[i - 1]
  }

  /** Three samples in a row without growth, the first of them at `k`. */
  predicate Quiet(counts: seq<int>, k: int) {
    !Growth(counts, k) && !Growth(counts, k + 1) && !Growth(counts, k + 2)
  }

  /** After sample `i`, and before sample `n`, there are three quiet samples in a row. */
  predicate QuietAfter(counts: seq<int>, i: int, n: nat) {
    exists k :: i < k < n - 2 && Quiet(counts, k)
  }

  /** Two growths with no three quiet samples in a row after the first of them. */
  predicate Loops(counts: seq<int>, n: nat) {
    exists i, j :: 0 < i < j < n && Growth(counts, i) && Growth(counts, j) && !QuietAfter(counts, i, n)
  }

  /** `f` is the first growth that no quiet stretch has followed; `r` counts from it. */
  predicate Episode(r: Restarts, counts: seq<int>, n: nat, f: int) {
    && 0 < f < n - r.stable && Growth(counts, f) && !QuietAfter(counts, f, n)
    && (forall i :: 0 < i < f && Growth(counts, i) ==> QuietAfter(counts, i, n))
    && (r.looping <==> r.growths >= GROWTHS_FOR_LOOP)
    && (r.growths == 1 ==> forall j :: f < j < n ==> !Growth(counts, j))
    && (r.growths > 1 ==> exists j :: f < j < n && Growth(counts, j))
    && r.stable < STABLE_SAMPLES && Growth(counts, n - 1 - r.stable)
    && (forall k :: n - r.stable <= k < n ==> !Growth(counts, k))
  }

  /** What the stored numbers say about the first `n` samples. */
  predicate Tells(r: Restarts, counts: seq<int>, n: nat) {
    && n <= |counts|
    && r.count == (if n == 0 then None else Some(counts[n - 1]))
    && (r.growths == 0 ==>
          && !r.looping && r.stable == 0
          && forall i :: 0 < i < n && Growth(counts, i) ==> QuietAfter(counts, i, n))
    && (r.growths > 0 ==> exists f :: 0 < f < n && Episode(r, counts, n, f))
  }

  lemma QuietLater(counts: seq<int>, i: int, n: nat)
    requires QuietAfter(counts, i, n)
    ensures QuietAfter(counts, i, n + 1)
  {
  }

  /** A growth ends every quiet stretch that was still short. */
  lemma GrowthNotQuiet(counts: seq<int>, i: int, n: nat)
    requires Growth(counts, n) && QuietAfter(counts, i, n + 1)
    ensures QuietAfter(counts, i, n)
  {
  }

  lemma NoteStarts(r: Restarts, counts: seq<int>, n: nat)
    requires n < |counts| && Tells(r, counts, n) && r.growths == 0
    ensures Tells(Note(r, counts[n]), counts, n + 1)
  {
    forall i | 0 < i < n && Growth(counts, i) ensures QuietAfter(counts, i, n + 1) {
      QuietLater(counts, i, n);
    }
    if Growth(counts, n) {
      assert Episode(Note(r, counts[n]), counts, n + 1, n);
    }
  }

  lemma NoteGrows(r: Restarts, counts: seq<int>, n: nat, f: int)
    requires n < |counts| && Tells(r, counts, n) && r.growths > 0 && Episode(r, counts, n, f) && Growth(counts, n)
    ensures Tells(Note(r, counts[n]), counts, n + 1)
  {
    forall i | 0 < i < f && Growth(counts, i) ensures QuietAfter(counts, i, n + 1) {
      QuietLater(counts, i, n);
    }
    if QuietAfter(counts, f, n + 1) {
      GrowthNotQuiet(counts, f, n);
    }
    assert Episode(Note(r, counts[n]), counts, n + 1, f);
  }

  lemma NoteCalms(r: Restarts, counts: seq<int>, n: nat, f: int)
    requires n < |counts| && Tells(r, counts, n) && r.growths > 0 && Episode(r, counts, n, f) && !Growth(counts, n)
    ensures Tells(Note(r, counts[n]), counts, n + 1)
  {
    var after := Note(r, counts[n]);
    forall i | 0 < i < f && Growth(counts, i) ensures QuietAfter(counts, i, n + 1) {
      QuietLater(counts, i, n);
    }
    if r.stable + 1 >= STABLE_SAMPLES {
      assert Quiet(counts, n - 2);
      forall i | 0 < i < n + 1 && Growth(counts, i) ensures QuietAfter(counts, i, n + 1) {
        assert i < n - 2 < n + 1 - 2;
      }
    } else {
      assert Episode(after, counts, n + 1, f);
    }
  }

  lemma NoteTells(r: Restarts, counts: seq<int>, n: nat)
    requires n < |counts| && Tells(r, counts, n)
    ensures Tells(Note(r, counts[n]), counts, n + 1)
  {
    if r.growths == 0 {
      NoteStarts(r, counts, n);
    } else {
      var f :| 0 < f < n && Episode(r, counts, n, f);
      if Growth(counts, n) {
        NoteGrows(r, counts, n, f);
      } else {
        NoteCalms(r, counts, n, f);
      }
    }
  }

  lemma {:induction false} RunTells(states: seq<Restarts>, counts: seq<int>, n: nat)
    requires IsRun(states, counts) && n <= |counts|
    ensures Tells(states[n], counts, n)
  {
    if n > 0 {
      RunTells(states, counts, n - 1);
      NoteTells(states[n - 1], counts, n - 1);
    }
  }

  /** A container is taken for restarting in a loop exactly when its samples say so. */
  lemma LoopingIffLoops(states: seq<Restarts>, counts: seq<int>, n: nat)
    requires IsRun(states, counts) && n <= |counts|
    ensures states[n].looping <==> Loops(counts, n)
  {
    var r := states[n];
    RunTells(states, counts, n);
    if r.growths > 0 {
      var f :| 0 < f < n && Episode(r, counts, n, f);
      if r.looping {
        var j :| f < j < n && Growth(counts, j);
      }
    }
  }

  // ----- containers that never leave the created state

  /** The stored numbers of samples in which a container was seen as created, one after the other. */
  predicate CreatedRun(counts: seq<nat>, samples: seq<Container>) {
    && |counts| == |samples| + 1 && counts[0] == 0
    && forall k :: 0 <= k < |samples| ==> counts[k + 1] == CreatedAfter(counts[k], samples[k])
  }

  /** A container is down for being stuck in creation exactly from its third created sample in a row on. */
  lemma {:induction false} StuckInCreation(counts: seq<nat>, samples: seq<Container>, n: nat)
    requires CreatedRun(counts, samples) && n <= |samples|
    ensures counts[n] <= n
    ensures forall k :: n - counts[n] <= k < n ==> samples[k].state == "created"
    ensures counts[n] < n ==> samples[n - counts[n] - 1].state != "created"
  {
    if n > 0 {
      StuckInCreation(counts, samples, n - 1);
    }
  }

  lemma CreatedIsDownFromThird(counts: seq<nat>, samples: seq<Container>, n: nat, restarts: Restarts, grew: bool, insp: Option<Inspection>)
    requires CreatedRun(counts, samples) && n < |samples| && samples[n].state == "created"
    ensures Judge(samples[n], counts[n + 1], restarts, grew, insp) ==
      if n >= 2 && samples[n - 1].state == "created" && samples[n - 2].state == "created" then Down else Unsaid
  {
    StuckInCreation(counts, samples, n + 1);
  }

  // ----- the incidents of a host

  /** What is told about an item: that it is down, or that it is back. */
  datatype Event = Opened(item: string) | Closed(item: string)

  function AfterEvent(open: set<string>, e: Event): set<string> {
    if e.Opened? then open + {e.item} else open - {e.item}
  }

  function AfterEvents(open: set<string>, events: seq<Event>): set<string> {
    if events == [] then open
    else AfterEvent(AfterEvents(open, events[..|events| - 1]), events[|events| - 1])
  }

  /** Nothing is told to be back that was not told to be down. */
  predicate Legal(open: set<string>, events: seq<Event>) {
    if events == [] then true
    else
      var before, e := events[..|events| - 1], events[|events| - 1];
      Legal(open, before) && (e.Closed? ==> e.item in AfterEvents(open, before))
  }

  lemma EventAdded(open: set<string>, events: seq<Event>, e: Event)
    ensures AfterEvents(open, events + [e]) == AfterEvent(AfterEvents(open, events), e)
    ensures Legal(open, events + [e]) <==>
            Legal(open, events) && (e.Closed? ==> e.item in AfterEvents(open, events))
  {
  }

  lemma {:induction false} EventsJoin(open: set<string>, a: seq<Event>, b: seq<Event>)
    ensures AfterEvents(open, a + b) == AfterEvents(AfterEvents(open, a), b)
    ensures Legal(open, a + b) <==> Legal(open, a) && Legal(AfterEvents(open, a), b)
  {
    if b == [] {
      assert a + b == a;
    } else {
      var n := |b| - 1;
      EventsJoin(open, a, b[..n]);
      assert a + b == (a + b[..n]) + [b[n]];
      EventAdded(open, a + b[..n], b[n]);
    }
  }

  datatype Container = Container(id: string, name: string, state: string)

  datatype Inspection = Inspection(restarts: Option<int>, oomKilled: Option<bool>, health: string)

  /** What a sample says about a container: it is down, it is up, or neither. */
  datatype Verdict = Down | Up | Unsaid

  function Judge(c: Container, created: nat, restarts: Restarts, grew: bool, insp: Option<Inspection>): Verdict {
    if c.state == "" then Unsaid
    else if c.state == "created" then if created >= STABLE_SAMPLES then Down else Unsaid
    else if c.state != "running" then Down
    else if restarts.looping then Down
    else if grew && insp.Some? && insp.value.oomKilled == Some(true) then Down
    else if insp.Some? && insp.value.health == "unhealthy" then Down
    else Up
  }

  /** No other container of the sample has the id or the name of this one. */
  predicate Alone(ps: seq<Container>, i: nat)
    requires i < |ps|
  {
    forall j :: 0 <= j < |ps| && j != i ==> ps[i].id != ps[j].id && ps[i].name != ps[j].name
  }

  class Watch {
    var counts: map<string, int>
    var growths: map<string, nat>
    var stable: map<string, nat>
    var looping: set<string>
    var created: map<string, nat>
    var open: set<string>

    constructor (open: set<string>)
      ensures this.open == open && forall id :: RestartsOf(id) == NEW && CreatedOf(id) == 0
    {
      counts, growths, stable, looping, created := map[], map[], map[], {}, map[];
      this.open := open;
    }

    function RestartsOf(id: string): Restarts
      reads this`counts, this`growths, this`stable, this`looping
    {
      Restarts(if id in counts then Some(counts[id]) else None,
               if id in growths then growths[id] else 0,
               if id in stable then stable[id] else 0,
               id in looping)
    }

    /** Nothing speaks against a running container: no restart loop, no kill for memory, no failed health check. */
    predicate Sound(c: Container, insp: Option<Inspection>, grew: bool)
      requires grew ==> insp.Some?
      reads this`looping
    {
      && c.id !in looping && !(grew && insp.value.oomKilled == Some(true))
      && !(insp.Some? && insp.value.health == "unhealthy")
    }

    function CreatedOf(id: string): nat
      reads this`created
    {
      if id in created then created[id] else 0
    }

    /** `registrarReinicios` */
    method Record(id: string, insp: Option<Inspection>) returns (grew: bool)
      modifies this`counts, this`growths, this`stable, this`looping
      ensures forall k :: k != id ==> RestartsOf(k) == old(RestartsOf(k))
      ensures RestartsOf(id) == RestartsAfter(old(RestartsOf(id)), insp)
      ensures grew <==> insp.Some? && insp.value.restarts.Some? && Grew(old(RestartsOf(id)), insp.value.restarts.value)
    {
      if insp.None? || insp.value.restarts.None? {
        return false;
      }
      var count := insp.value.restarts.value;
      var before := RestartsOf(id);
      counts := counts[id := count];
      if before.count.Some? && count > before.count.value {
        growths := growths[id := before.growths + 1];
        stable := stable[id := 0];
        if growths[id] >= GROWTHS_FOR_LOOP {
          looping := looping + {id};
        }
        return true;
      }
      if before.growths == 0 {
        return false;
      }
      stable := stable[id := before.stable + 1];
      if stable[id] >= STABLE_SAMPLES {
        looping := looping - {id};
        stable := stable - {id};
        growths := growths - {id};
      }
      return false;
    }

    /** `incidentes.abrir`: an open item is told again. */
    method Open(item: string) returns (events: seq<Event>)
      modifies this`open
      ensures events == [Opened(item)] && open == old(open) + {item}
      ensures open == AfterEvents(old(open), events) && Legal(old(open), events)
    {
      open := open + {item};
      EventAdded(old(open), [], Opened(item));
      assert [] + [Opened(item)] == [Opened(item)];
      return [Opened(item)];
    }

    /** `incidentes.fechar`: only an open item is told to be back. */
    method Close(item: string) returns (events: seq<Event>)
      modifies this`open
      ensures events == (if item in old(open) then [Closed(item)] else [])
      ensures open == old(open) - {item}
      ensures open == AfterEvents(old(open), events) && Legal(old(open), events)
    {
      if item !in open {
        return [];
      }
      open := open - {item};
      EventAdded(old(open), [], Closed(item));
      assert [] + [Closed(item)] == [Closed(item)];
      return [Closed(item)];
    }

    /** The switch of `observe` on the state of a container. */
    method Weigh(c: Container, insp: Option<Inspection>, grew: bool) returns (v: Verdict)
      requires grew ==> insp.Some?
      ensures v == Judge(c, CreatedOf(c.id), RestartsOf(c.id), grew, insp)
      ensures v == Up <==> c.state == "running" && Sound(c, insp, grew)
      ensures v == Unsaid <==> c.state == "" || (c.state == "created" && CreatedOf(c.id) < STABLE_SAMPLES)
    {
      if c.state == "" {
        return Unsaid;
      }
      if c.state == "created" {
        return if CreatedOf(c.id) >= STABLE_SAMPLES then Down else Unsaid;
      }
      if c.state != "running" || c.id in looping {
        return Down;
      }
      if grew && insp.value.oomKilled == Some(true) {
        return Down;
      }
      return if insp.Some? && insp.value.health == "unhealthy" then Down else Up;
    }

    method CountCreated(c: Container)
      modifies this`created
      ensures forall k :: k != c.id ==> CreatedOf(k) == old(CreatedOf(k))
      ensures CreatedOf(c.id) == CreatedAfter(old(CreatedOf(c.id)), c)
    {
      if c.state == "created" {
        created := created[c.id := CreatedOf(c.id) + 1];
      } else {
        created := created - {c.id};
      }
    }

    /** The part of `observe` about one container. */
    method ObserveOne(c: Container, insp: Option<Inspection>) returns (events: seq<Event>, v: Verdict)
      modifies this
      ensures forall k :: k != c.id ==> RestartsOf(k) == old(RestartsOf(k)) && CreatedOf(k) == old(CreatedOf(k))
      ensures RestartsOf(c.id) == RestartsAfter(old(RestartsOf(c.id)), insp)
      ensures CreatedOf(c.id) == CreatedAfter(old(CreatedOf(c.id)), c)
      ensures v == VerdictOn(old(RestartsOf(c.id)), old(CreatedOf(c.id)), c, insp)
      ensures open == OpenAfter(old(open), c.name, v)
      ensures open == AfterEvents(old(open), events) && Legal(old(open), events)
    {
      events := [];
      var grew := Record(c.id, insp);
      CountCreated(c);
      v := Weigh(c, insp, grew);
      match v {
        case Down => events := Open(c.name);
        case Up => events := Close(c.name);
        case Unsaid =>
      }
    }

    /** `esquecerRemovidos`: everything about a container that is gone is forgotten at once. */
    method Forget(ps: seq<Container>) returns (events: seq<Event>)
      modifies this
      ensures ps == [] ==> events == [] && unchanged(this)
      ensures ps != [] ==> open == set n | n in old(open) && Listed(ps, n)
      ensures ps != [] ==> forall k ::
        if Present(ps, k) then RestartsOf(k) == old(RestartsOf(k)) && CreatedOf(k) == old(CreatedOf(k))
        else RestartsOf(k) == NEW && CreatedOf(k) == 0
      ensures open == AfterEvents(old(open), events) && Legal(old(open), events)
    {
      events := [];
      if ps == [] {
        return;
      }
      var names := set c | c in ps :: c.name;
      var ids := set c | c in ps :: c.id;
      events := CloseAbsent(names);
      counts := map k | k in counts && k in ids :: counts[k];
      growths := map k | k in growths && k in ids :: growths[k];
      stable := map k | k in stable && k in ids :: stable[k];
      created := map k | k in created && k in ids :: created[k];
      looping := set k | k in looping && k in ids;
    }

    /**
     `observe`: every container of a sample is weighed against what was stored
     about it, its incident opened or closed by the verdict, and whatever is
     gone is forgotten. What is told is always legal.
     */
    method Observe(ps: seq<Container>, inspections: map<string, Inspection>) returns (events: seq<Event>)
      modifies this
      ensures open == AfterEvents(old(open), events) && Legal(old(open), events)
      ensures forall i :: 0 <= i < |ps| && Alone(ps, i) ==>
                var c, insp := ps[i], InspectionOf(inspections, ps[i].id);
                var v := VerdictOn(old(RestartsOf(c.id)), old(CreatedOf(c.id)), c, insp);
                && RestartsOf(c.id) == RestartsAfter(old(RestartsOf(c.id)), insp)
                && CreatedOf(c.id) == CreatedAfter(old(CreatedOf(c.id)), c)
                && (c.name in open <==> v == Down || (v == Unsaid && c.name in old(open)))
      ensures ps != [] ==> forall n :: n in open ==> Listed(ps, n)
      ensures ps != [] ==> forall k :: !Present(ps, k) ==> RestartsOf(k) == NEW && CreatedOf(k) == 0
    {
      events := [];
      for i := 0 to |ps|
        invariant open == AfterEvents(old(open), events) && Legal(old(open), events)
        invariant forall j :: i <= j < |ps| && Alone(ps, j) ==>
          && RestartsOf(ps[j].id) == old(RestartsOf(ps[j].id)) && CreatedOf(ps[j].id) == old(CreatedOf(ps[j].id))
          && (ps[j].name in open <==> ps[j].name in old(open))
        invariant forall j :: 0 <= j < i && Alone(ps, j) ==>
          var c, insp := ps[j], InspectionOf(inspections, ps[j].id);
          var v := VerdictOn(old(RestartsOf(c.id)), old(CreatedOf(c.id)), c, insp);
          && RestartsOf(c.id) == RestartsAfter(old(RestartsOf(c.id)), insp)
          && CreatedOf(c.id) == CreatedAfter(old(CreatedOf(c.id)), c)
          && (c.name in open <==> v == Down || (v == Unsaid && c.name in old(open)))
      {
        var told, v := ObserveOne(ps[i], InspectionOf(inspections, ps[i].id));
        EventsJoin(old(open), events, told);
        events := events + told;
      }
      var gone := Forget(ps);
      EventsJoin(old(open), events, gone);
      events := events + gone;
    }

    /** The incidents of names that are no longer there are closed. */
    method CloseAbsent(names: set<string>) returns (events: seq<Event>)
      modifies this`open
      ensures open == set n | n in old(open) && n in names
      ensures open == AfterEvents(old(open), events) && Legal(old(open), events)
    {
      events := [];
      var todo := open;
      while todo != {}
        invariant todo <= open && open == set n | n in old(open) && (n in names || n in todo)
        invariant open == AfterEvents(old(open), events) && Legal(old(open), events)
        decreases todo
      {
        var n :| n in todo;
        todo := todo - {n};
        if n !in names {
          var told := Close(n);
          EventsJoin(old(open), events, told);
          events := events + told;
        }
      }
    }
  }

  function OpenAfter(open: set<string>, name: string, v: Verdict): set<string> {
    match v
    case Down => open + {name}
    case Up => open - {name}
    case Unsaid => open
  }

  predicate Listed(ps: seq<Container>, name: string) {
    exists c :: c in ps && c.name == name
  }

  predicate Present(ps: seq<Container>, id: string) {
    exists c :: c in ps && c.id == id
  }

  function InspectionOf(inspections: map<string, Inspection>, id: string): Option<Inspection> {
    if id in inspections then Some(inspections[id]) else None
  }

  function RestartsAfter(r: Restarts, insp: Option<Inspection>): Restarts {
    if insp.Some? && insp.value.restarts.Some? then Note(r, insp.value.restarts.value) else r
  }

  function CreatedAfter(n: nat, c: Container): nat {
    if c.state == "created" then n + 1 else 0
  }

  /** The verdict of a sample on a container, from what was stored about it before. */
  function VerdictOn(r: Restarts, n: nat, c: Container, insp: Option<Inspection>): Verdict {
    var grew := insp.Some? && insp.value.restarts.Some? && Grew(r, insp.value.restarts.value);
    Judge(c, CreatedAfter(n, c), RestartsAfter(r, insp), grew, insp)
  }
}

/**
 The log writer: a bounded queue, a batch with a deadline, and retries through
 an outage. The database is a script of answers followed by one answer for
 ever, so every run in which its behaviour changes finitely often is covered.
 Producers go on saving while an insert is under way.
 */
module LogWriter {
  import opened Basics

  const BATCH := 200
  const SECOND: Time := 1_000_000_000
  const FIRST_WAIT: Time := SECOND
  const LONGEST_WAIT: Time := 30 * SECOND

  type Entry = string

  /** What one insert gets: success, or an error, with what the liveness probe then says. */
  datatype Answer = Ok | Err(noBank: bool, down: bool)

  datatype Bank = Bank(script: seq<Answer>, rest: Answer)

  function Now(b: Bank): Answer {
    if b.script == [] then b.rest else b.script[0]
  }

  function Later(b: Bank): Bank {
    if b.script == [] then b else b.(script := b.script[1..])
  }

  /** What becomes of a line that was taken from the queue. */
  datatype Fate = Stored | Lost | Refused

  function All(n: nat, f: Fate): (r: seq<Fate>)
    ensures |r| == n
  {
    seq(n, _ => f)
  }

  /** The lines with one fate, in order. */
  function Select(lines: seq<Entry>, fates: seq<Fate>, f: Fate): seq<Entry>
    requires |lines| == |fates|
  {
    if lines == [] then []
    else
      var rest := Select(lines[..|lines| - 1], fates[..|fates| - 1], f);
      if fates[|fates| - 1] == f then rest + [lines[|lines| - 1]] else rest
  }

  // ----- what one batch comes to

  datatype Outcome = Outcome(fates: seq<Fate>, bank: Bank, inserts: nat, waits: seq<Time>)

  function NextWait(wait: Time): Time {
    if wait >= LONGEST_WAIT then wait
    else if wait * 2 > LONGEST_WAIT then LONGEST_WAIT else wait * 2
  }

  function Before(o: Outcome, inserts: nat, waits: seq<Time>): Outcome {
    o.(inserts := inserts + o.inserts, waits := waits + o.waits)
  }

  /** The lines of a refused batch, one insert each. */
  function OneByOne(n: nat, b: Bank): Outcome {
    if n == 0 then Outcome([], b, 0, [])
    else
      var o := OneByOne(n - 1, b);
      Outcome(o.fates + [if Now(o.bank) == Ok then Stored else Refused], Later(o.bank), o.inserts + 1, [])
  }

  /** `write`, on a batch of `n` lines. */
  function Written(n: nat, b: Bank, max: nat): Outcome
    decreases |b.script|, if b.rest.Err? && b.rest.down then 3 else 1, 0
  {
    match Now(b)
    case Ok => Outcome(All(n, Stored), Later(b), 1, [])
    case Err(noBank, down) =>
      if noBank then Outcome(All(n, Lost), Later(b), 1, [])
      else if down then Before(Resent(n, Later(b), max, 1, FIRST_WAIT), 1, [])
      else Before(OneByOne(n, Later(b)), 1, [])
  }

  /** `reenviar`, from its attempt number `attempt` on. */
  function Resent(n: nat, b: Bank, max: nat, attempt: nat, wait: Time): Outcome
    decreases |b.script|, 2, max - attempt
  {
    if attempt >= max then Outcome(All(n, Lost), b, 0, [])
    else
      match Now(b)
      case Ok => Outcome(All(n, Stored), Later(b), 1, [wait])
      case Err(_, down) =>
        if down then Before(Resent(n, Later(b), max, attempt + 1, NextWait(wait)), 1, [wait])
        else Before(Written(n, Later(b), max), 1, [wait])
  }

  lemma {:induction false} OneByOneFates(n: nat, b: Bank)
    ensures |OneByOne(n, b).fates| == n && Lost !in OneByOne(n, b).fates
    ensures OneByOne(n, b).inserts == n
  {
    if n > 0 {
      OneByOneFates(n - 1, b);
    }
  }

  /** Every line of a batch has exactly one fate. */
  lemma {:induction false} WrittenFates(n: nat, b: Bank, max: nat)
    ensures |Written(n, b, max).fates| == n
    decreases |b.script|, if b.rest.Err? && b.rest.down then 3 else 1, 0
  {
    if Now(b).Err? && !Now(b).noBank {
      if Now(b).down {
        ResentFates(n, Later(b), max, 1, FIRST_WAIT);
      } else {
        OneByOneFates(n, Later(b));
      }
    }
  }

  lemma {:induction false} ResentFates(n: nat, b: Bank, max: nat, attempt: nat, wait: Time)
    ensures |Resent(n, b, max, attempt, wait).fates| == n
    decreases |b.script|, 2, max - attempt
  {
    if attempt < max && Now(b).Err? {
      if Now(b).down {
        ResentFates(n, Later(b), max, attempt + 1, NextWait(wait));
      } else {
        WrittenFates(n, Later(b), max);
      }
    }
  }

  /** `rest` is what is left of `all` after some inserts and waits. */
  predicate ToGo(all: Outcome, rest: Outcome, inserts: int, waited: seq<Time>) {
    && all.fates == rest.fates && all.bank == rest.bank
    && all.inserts == inserts + rest.inserts && all.waits == waited + rest.waits
  }

  /** The first insert of a batch, whatever it gets. */
  lemma FirstTry(n: nat, b: Bank, max: nat)
    ensures match Now(b)
      case Ok => ToGo(Written(n, b, max), Outcome(All(n, Stored), Later(b), 0, []), 1, [])
      case Err(noBank, down) =>
        if noBank then ToGo(Written(n, b, max), Outcome(All(n, Lost), Later(b), 0, []), 1, [])
        else if down then ToGo(Written(n, b, max), Resent(n, Later(b), max, 1, FIRST_WAIT), 1, [])
        else ToGo(Written(n, b, max), OneByOne(n, Later(b)), 1, []) && OneByOne(n, Later(b)).waits == []
  {
  }

  /** How the loop of a resend ends. */
  datatype Stop = Success | OtherError | GaveUp

  /** What is left to do after that end. */
  function AfterStop(end: Stop, n: nat, b: Bank, max: nat): Outcome {
    match end
    case Success => Outcome(All(n, Stored), b, 0, [])
    case OtherError => Written(n, b, max)
    case GaveUp => Outcome(All(n, Lost), b, 0, [])
  }

  /** One more attempt of a resend, whatever it gets. */
  lemma AnotherTry(all: Outcome, n: nat, b: Bank, max: nat, attempt: nat, wait: Time, inserts: int, waited: seq<Time>)
    requires attempt < max && ToGo(all, Resent(n, b, max, attempt, wait), inserts, waited)
    ensures match Now(b)
      case Ok => ToGo(all, Outcome(All(n, Stored), Later(b), 0, []), inserts + 1, waited + [wait])
      case Err(_, down) =>
        if down then ToGo(all, Resent(n, Later(b), max, attempt + 1, NextWait(wait)), inserts + 1, waited + [wait])
        else ToGo(all, Written(n, Later(b), max), inserts + 1, waited + [wait])
  {
  }

  // ----- what becomes of a batch, by what the database answers

  /** The first answers settle a batch at once: accepted is stored whole, without a database it is lost whole. */
  lemma FirstAnswerSays(n: nat, b: Bank, max: nat)
    ensures Now(b) == Ok ==>
      Written(n, b, max) == Outcome(seq(n, _ => Stored), Later(b), 1, [])
    ensures Now(b).Err? && Now(b).noBank ==>
      Written(n, b, max) == Outcome(seq(n, _ => Lost), Later(b), 1, [])
  {
  }

  /** The answer to the `i`-th next insert. */
  function NthAnswer(b: Bank, i: nat): Answer {
    if i < |b.script| then b.script[i] else b.rest
  }

  function Skip(b: Bank, i: nat): Bank {
    b.(script := if i <= |b.script| then b.script[i..] else [])
  }

  lemma SkipLater(b: Bank, i: nat)
    ensures Later(Skip(b, i)) == Skip(b, i + 1) && Now(Skip(b, i)) == NthAnswer(b, i)
  {
  }

  lemma {:induction false} OneByOneSays(n: nat, b: Bank)
    ensures var o := OneByOne(n, b);
      && o.bank == Skip(b, n) && o.waits == [] && |o.fates| == n
      && forall i :: 0 <= i < n ==> o.fates[i] == if NthAnswer(b, i) == Ok then Stored else Refused
  {
    if n > 0 {
      OneByOneSays(n - 1, b);
      SkipLater(b, n - 1);
    }
  }

  /**
   A batch the database refuses is inserted line by line: each line is stored or
   refused by the answer to its own insert, and none is lost.
   */
  lemma RefusedIsOneByOne(n: nat, b: Bank, max: nat)
    requires Now(b).Err? && !Now(b).noBank && !Now(b).down
    ensures var o := Written(n, b, max);
      && |o.fates| == n && o.inserts == n + 1 && o.waits == []
      && forall i :: 0 <= i < n ==> o.fates[i] == if NthAnswer(b, i + 1) == Ok then Stored else Refused
  {
    OneByOneSays(n, Later(b));
    OneByOneFates(n, Later(b));
    assert forall i :: 0 <= i < n ==> NthAnswer(Later(b), i) == NthAnswer(b, i + 1);
  }

  /** The database is out of reach for the next `k` inserts and then accepts one. */
  predicate OutFor(b: Bank, k: nat) {
    && (forall i :: 0 <= i < k ==> NthAnswer(b, i) == Err(false, true))
    && NthAnswer(b, k) == Ok
  }

  lemma {:induction false} ResentRecovers(n: nat, b: Bank, max: nat, attempt: nat, k: nat)
    requires attempt >= 1 && OutFor(b, k) && attempt + k < max
    ensures var o := Resent(n, b, max, attempt, WaitAt(attempt - 1));
      && o.fates == All(n, Stored) && o.inserts == k + 1 && |o.waits| == k + 1
    decreases k
  {
    assert NthAnswer(b, 0) == Now(b);
    if k > 0 {
      assert forall i :: 0 <= i < k ==> NthAnswer(Later(b), i) == NthAnswer(b, i + 1);
      assert NthAnswer(Later(b), k - 1) == NthAnswer(b, k);
      ResentRecovers(n, Later(b), max, attempt + 1, k - 1);
    }
  }

  /** An outage shorter than the allowed inserts loses nothing: the batch is stored, once, by the insert after it. */
  lemma ShortOutageLosesNothing(n: nat, b: Bank, max: nat, k: nat)
    requires OutFor(b, k) && 0 < k < max
    ensures Written(n, b, max).fates == All(n, Stored) && Written(n, b, max).inserts == k + 1
    ensures |Written(n, b, max).waits| == k
  {
    assert NthAnswer(b, 0) == Now(b);
    assert forall i :: 0 <= i < k - 1 ==> NthAnswer(Later(b), i) == NthAnswer(b, i + 1);
    assert NthAnswer(Later(b), k - 1) == NthAnswer(b, k);
    ResentRecovers(n, Later(b), max, 1, k - 1);
  }

  // ----- a total outage

  /** Every insert from here on fails with the bank out of reach. */
  predicate Out(b: Bank) {
    b.rest == Err(false, true) && forall i :: 0 <= i < |b.script| ==> b.script[i] == Err(false, true)
  }

  function WaitAt(i: nat): Time {
    if i == 0 then FIRST_WAIT else NextWait(WaitAt(i - 1))
  }

  lemma {:induction false} ResentOut(n: nat, b: Bank, max: nat, attempt: nat)
    requires Out(b) && 1 <= attempt <= max
    ensures var o := Resent(n, b, max, attempt, WaitAt(attempt - 1));
      && o.fates == All(n, Lost) && o.inserts == max - attempt
      && |o.waits| == max - attempt
      && forall i :: 0 <= i < |o.waits| ==> o.waits[i] == WaitAt(attempt - 1 + i)
    decreases max - attempt
  {
    if attempt < max {
      ResentOut(n, Later(b), max, attempt + 1);
    }
  }

  /** A total outage costs exactly the allowed number of inserts per batch, and the whole batch. */
  lemma OutageCost(n: nat, b: Bank, max: nat)
    requires Out(b) && max >= 1
    ensures var o := Written(n, b, max);
      && o.fates == All(n, Lost) && o.inserts == max && |o.waits| == max - 1
      && forall i :: 0 <= i < |o.waits| ==> o.waits[i] == WaitAt(i)
  {
    ResentOut(n, Later(b), max, 1);
  }

  function Pow2(n: nat): nat {
    if n == 0 then 1 else 2 * Pow2(n - 1)
  }

  /** The waits double from one second up to the cap. */
  lemma {:induction false} WaitsDouble(i: nat)
    ensures WaitAt(i) == if Pow2(i) <= 30 then 1_000_000_000 * Pow2(i) else 30_000_000_000
  {
    if i > 0 {
      WaitsDouble(i - 1);
    }
  }

  // ----- the writer

  lemma {:induction false} SelectAppend(a: seq<Entry>, f: seq<Fate>, b: seq<Entry>, g: seq<Fate>, x: Fate)
    requires |a| == |f| && |b| == |g|
    ensures Select(a + b, f + g, x) == Select(a, f, x) + Select(b, g, x)
  {
    if b == [] {
      assert a + b == a && f + g == f;
    } else {
      var n := |b| - 1;
      SelectAppend(a, f, b[..n], g[..n], x);
      assert (a + b)[..|a + b| - 1] == a + b[..n];
      assert (f + g)[..|f + g| - 1] == f + g[..n];
    }
  }

  lemma {:induction false} SelectAll(lines: seq<Entry>, f: Fate, x: Fate)
    ensures Select(lines, All(|lines|, f), x) == if f == x then lines else []
  {
    if lines != [] {
      var n := |lines| - 1;
      SelectAll(lines[..n], f, x);
      assert All(|lines|, f)[..n] == All(n, f);
      assert lines == lines[..n] + [lines[n]];
    }
  }

  /** Every line has one of the three fates. */
  lemma {:induction false} FatesPartition(lines: seq<Entry>, fates: seq<Fate>)
    requires |lines| == |fates|
    ensures |lines| == |Select(lines, fates, Stored)| + |Select(lines, fates, Lost)| + |Select(lines, fates, Refused)|
  {
    if lines != [] {
      FatesPartition(lines[..|lines| - 1], fates[..|fates| - 1]);
    }
  }

  /** What a refused batch leaves in the table. */
  function PlacedEach(lines: seq<Entry>, b: Bank): seq<Entry> {
    if lines == [] then []
    else
      var n := |lines| - 1;
      if Now(OneByOne(n, b).bank) == Ok then PlacedEach(lines[..n], b) + [lines[n]] else PlacedEach(lines[..n], b)
  }

  lemma PlacedNext(lines: seq<Entry>, i: nat, b: Bank)
    requires i < |lines|
    ensures OneByOne(i + 1, b).bank == Later(OneByOne(i, b).bank)
    ensures PlacedEach(lines[..i + 1], b)
         == PlacedEach(lines[..i], b) + if Now(OneByOne(i, b).bank) == Ok then [lines[i]] else []
  {
    assert lines[..i + 1][..i] == lines[..i];
  }

  lemma {:induction false} PlacedIsSelected(lines: seq<Entry>, b: Bank)
    ensures |OneByOne(|lines|, b).fates| == |lines|
    ensures Select(lines, OneByOne(|lines|, b).fates, Stored) == PlacedEach(lines, b)
    ensures Select(lines, OneByOne(|lines|, b).fates, Lost) == []
  {
    if lines != [] {
      var n := |lines| - 1;
      PlacedIsSelected(lines[..n], b);
      var fates := OneByOne(n, b).fates;
      assert OneByOne(|lines|, b).fates[..n] == fates;
    }
  }

  class Writer {
    const size: nat
    const max: nat
    var queue: seq<Entry>
    var buf: seq<Entry>
    var armed: bool
    var lost: nat
    var bank: Bank
    var table: seq<Entry>
    var inserts: nat
    /** What the producers save during each of the next inserts. */
    var arrivals: seq<seq<Entry>>
    ghost var saved: nat
    ghost var done: seq<Entry>
    ghost var fates: seq<Fate>
    ghost var dropped: nat
    ghost var slept: seq<Time>

    /** The lines accepted into the queue so far, in order. */
    ghost function Accepted(): seq<Entry>
      reads this
    {
      done + buf + queue
    }

    /** Every accepted line is done with, in the batch or in the queue; the table and the count say how. */
    ghost predicate Kept()
      reads this
    {
      && |queue| <= size && max >= 1
      && |done| == |fates|
      && table == Select(done, fates, Stored)
      && lost == dropped + |Select(done, fates, Lost)|
      && saved == |Accepted()| + dropped
    }

    /** Between two events: a batch in waiting is short of full and has a deadline. */
    ghost predicate Valid()
      reads this
    {
      Kept() && |buf| < 200 && (buf != [] <==> armed)
    }

    constructor (size: nat, max: nat, bank: Bank, arrivals: seq<seq<Entry>>)
      requires max >= 1
      ensures Valid() && Accepted() == [] && saved == 0 && this.size == size && this.max == max
    {
      this.size, this.max, this.bank, this.arrivals := size, max, bank, arrivals;
      saved := 0;
      queue, buf, armed, lost, table, inserts := [], [], false, 0, [], 0;
      done, fates, dropped, slept := [], [], 0, [];
    }

    /**
     `save`, at any time: a line goes to the end of the queue, or is counted as
     lost when the queue is full. Nothing the writer works on is touched.
     */
    method Save(e: Entry)
      requires |queue| <= size
      modifies this`queue, this`lost, this`dropped, this`saved
      ensures |queue| <= size && saved == old(saved) + 1
      ensures if |old(queue)| < size then queue == old(queue) + [e] && dropped == old(dropped)
              else queue == old(queue) && dropped == old(dropped) + 1
      ensures lost - dropped == old(lost) - old(dropped)
      ensures old(Valid()) ==> Valid()
    {
      if |queue| < size {
        queue := queue + [e];
      } else {
        lost, dropped := lost + 1, dropped + 1;
      }
      saved := saved + 1;
    }

    /** Producers have saved since: the queue has only grown at its end, and every line saved is in it or dropped. */
    twostate predicate Arrived()
      reads this
    {
      && |queue| <= size && old(queue) <= queue && dropped >= old(dropped)
      && saved - |queue| - dropped == old(saved) - |old(queue)| - old(dropped)
      && |arrivals| <= |old(arrivals)| && (|arrivals| == |old(arrivals)| ==> queue == old(queue))
    }

    /** What the producers save during one insert. */
    method Arrive()
      requires |queue| <= size
      modifies this`queue, this`lost, this`dropped, this`saved, this`arrivals
      ensures Arrived() && lost - dropped == old(lost) - old(dropped)
    {
      if arrivals == [] {
        return;
      }
      var lines := arrivals[0];
      arrivals := arrivals[1..];
      for i := 0 to |lines|
        invariant |queue| <= size && old(queue) <= queue && dropped >= old(dropped) && arrivals == old(arrivals)[1..]
        invariant saved - |queue| - dropped == old(saved) - |old(queue)| - old(dropped)
        invariant lost - dropped == old(lost) - old(dropped)
      {
        Save(lines[i]);
      }
    }

    method Insert(batch: seq<Entry>) returns (a: Answer)
      requires |queue| <= size
      modifies this`bank, this`table, this`inserts, this`queue, this`lost, this`dropped, this`saved, this`arrivals
      ensures Arrived() && lost - dropped == old(lost) - old(dropped)
      ensures a == Now(old(bank)) && bank == Later(old(bank)) && inserts == old(inserts) + 1
      ensures table == if a == Ok then old(table) + batch else old(table)
    {
      a := Now(bank);
      bank := Later(bank);
      inserts := inserts + 1;
      Arrive();
      if a == Ok {
        table := table + batch;
      }
    }

    /** A whole batch lost, or stored, seen line by line. */
    lemma WholeBatch(batch: seq<Entry>)
      ensures Select(batch, All(|batch|, Stored), Stored) == batch && Select(batch, All(|batch|, Stored), Lost) == []
      ensures Select(batch, All(|batch|, Lost), Lost) == batch && Select(batch, All(|batch|, Lost), Stored) == []
    {
      SelectAll(batch, Stored, Stored);
      SelectAll(batch, Stored, Lost);
      SelectAll(batch, Lost, Stored);
      SelectAll(batch, Lost, Lost);
    }

    /** The loop over the lines of a batch the database refused. */
    method InsertEach(batch: seq<Entry>) returns (ghost fs: seq<Fate>)
      requires |queue| <= size
      modifies this`bank, this`table, this`inserts, this`queue, this`lost, this`dropped, this`saved, this`arrivals
      ensures Arrived() && lost - dropped == old(lost) - old(dropped)
      ensures var o := OneByOne(|batch|, old(bank));
        fs == o.fates && bank == o.bank && inserts == old(inserts) + o.inserts
      ensures |fs| == |batch| && Select(batch, fs, Lost) == []
      ensures table == old(table) + Select(batch, fs, Stored)
    {
      ghost var b := bank;
      for i := 0 to |batch|
        invariant bank == OneByOne(i, b).bank && inserts == old(inserts) + i
        invariant Arrived() && lost - dropped == old(lost) - old(dropped)
        invariant table == old(table) + PlacedEach(batch[..i], b)
      {
        PlacedNext(batch, i, b);
        assert batch[i..i + 1] == [batch[i]];
        var _ := Insert(batch[i..i + 1]);
      }
      assert batch[..|batch|] == batch;
      PlacedIsSelected(batch, b);
      OneByOneFates(|batch|, b);
      fs := OneByOne(|batch|, b).fates;
    }

    /** `write` */
    method Write(batch: seq<Entry>) returns (ghost fs: seq<Fate>)
      requires |queue| <= size
      modifies this`bank, this`table, this`inserts, this`slept, this`queue, this`lost, this`dropped, this`saved, this`arrivals
      ensures Arrived()
      ensures var o := Written(|batch|, old(bank), max);
        fs == o.fates && bank == o.bank && inserts == old(inserts) + o.inserts && slept == old(slept) + o.waits
      ensures |fs| == |batch|
      ensures table == old(table) + Select(batch, fs, Stored)
      ensures lost - dropped == old(lost) - old(dropped) + |Select(batch, fs, Lost)|
      decreases |bank.script|, if bank.rest.Err? && bank.rest.down then 3 else 1
    {
      FirstTry(|batch|, bank, max);
      var a := Insert(batch);
      assert slept + [] == slept;
      if a == Ok {
        WholeBatch(batch);
        return All(|batch|, Stored);
      }
      if a.noBank {
        WholeBatch(batch);
        lost := lost + |batch|;
        return All(|batch|, Lost);
      }
      if a.down {
        fs := Resend(batch);
        return;
      }
      fs := InsertEach(batch);
    }

    /** The loop of `reenviar`: wait and insert again until something other than an outage happens. */
    method Retry(batch: seq<Entry>) returns (end: Stop, ghost waited: seq<Time>)
      requires |queue| <= size
      modifies this`bank, this`table, this`inserts, this`slept, this`queue, this`lost, this`dropped, this`saved, this`arrivals
      ensures Arrived() && lost - dropped == old(lost) - old(dropped)
      ensures slept == old(slept) + waited
      ensures table == if end == Success then old(table) + batch else old(table)
      ensures ToGo(Resent(|batch|, old(bank), max, 1, FIRST_WAIT), AfterStop(end, |batch|, bank, max),
                   inserts - old(inserts), waited)
      ensures |bank.script| <= |old(bank).script| && bank.rest == old(bank).rest
      ensures end == OtherError && |bank.script| == |old(bank).script| ==> bank.rest.Err? && !bank.rest.down
    {
      var wait := FIRST_WAIT;
      var attempt := 1;
      waited := [];
      ghost var n, o := |batch|, Resent(|batch|, bank, max, 1, FIRST_WAIT);
      while attempt < max
        invariant attempt >= 1 && table == old(table)
        invariant |bank.script| <= |old(bank).script| && bank.rest == old(bank).rest
        invariant ToGo(o, Resent(n, bank, max, attempt, wait), inserts - old(inserts), waited)
        invariant slept == old(slept) + waited
        invariant Arrived() && lost - dropped == old(lost) - old(dropped)
        decreases max - attempt
      {
        AnotherTry(o, n, bank, max, attempt, wait, inserts - old(inserts), waited);
        slept, waited := slept + [wait], waited + [wait];
        var a := Insert(batch);
        if a == Ok {
          return Success, waited;
        }
        if !a.down {
          return OtherError, waited;
        }
        wait := NextWait(wait);
        attempt := attempt + 1;
      }
      return GaveUp, waited;
    }

    /** `reenviar` */
    method Resend(batch: seq<Entry>) returns (ghost fs: seq<Fate>)
      requires |queue| <= size
      modifies this`bank, this`table, this`inserts, this`slept, this`queue, this`lost, this`dropped, this`saved, this`arrivals
      ensures Arrived()
      ensures var o := Resent(|batch|, old(bank), max, 1, FIRST_WAIT);
        fs == o.fates && bank == o.bank && inserts == old(inserts) + o.inserts && slept == old(slept) + o.waits
      ensures |fs| == |batch|
      ensures table == old(table) + Select(batch, fs, Stored)
      ensures lost - dropped == old(lost) - old(dropped) + |Select(batch, fs, Lost)|
      decreases |bank.script|, 2
    {
      WholeBatch(batch);
      var end, waited := Retry(batch);
      ghost var rest := AfterStop(end, |batch|, bank, max);
      assert old(slept) + (waited + rest.waits) == (old(slept) + waited) + rest.waits;
      match end {
        case Success => fs := All(|batch|, Stored);
        case OtherError => fs := Write(batch);
        case GaveUp =>
          lost := lost + |batch|;
          fs := All(|batch|, Lost);
      }
    }

    /** The batch goes out: each of its lines meets its fate, in order. */
    method WriteOut()
      requires Kept() && |buf| <= BATCH
      modifies this
      ensures Valid() && buf == [] && !armed && Arrived()
      ensures done == old(done) + old(buf) && |fates| == |old(fates)| + |old(buf)| && old(fates) <= fates
      ensures inserts - old(inserts) == if old(buf) == [] then 0 else Written(|old(buf)|, old(bank), max).inserts
    {
      if |buf| > 0 {
        ghost var fs := Write(buf);
        SelectAppend(done, fates, buf, fs, Stored);
        SelectAppend(done, fates, buf, fs, Lost);
        done, fates := done + buf, fates + fs;
        buf := [];
      }
      armed := false;
    }

    /** What is accepted stays accepted, in its order, and what is done stays done. */
    twostate predicate Grown()
      reads this
    {
      && old(Accepted()) <= Accepted() && old(fates) <= fates && saved >= old(saved)
      && |arrivals| <= |old(arrivals)|
    }

    /** The next line of the queue joins the batch, which goes out when it is full. */
    method Take()
      requires Valid() && queue != []
      modifies this
      ensures Valid() && Grown() && old(queue)[1..] <= queue
      ensures |arrivals| == |old(arrivals)| ==> queue == old(queue)[1..]
      ensures buf == if |old(buf)| + 1 < 200 then old(buf) + [old(queue)[0]] else []
      ensures done == if |old(buf)| + 1 < 200 then old(done) else old(done) + old(buf) + [old(queue)[0]]
    {
      var e := queue[0];
      queue := queue[1..];
      if |buf| == 0 {
        armed := true;
      }
      buf := buf + [e];
      assert done + buf + queue == old(done + buf + queue);
      if |buf| >= BATCH {
        label Full:
        WriteOut();
        MovedOut(old@Full(done), old@Full(buf), old@Full(queue), queue);
      }
    }

    /** A batch that is done, and a queue that has grown. */
    lemma MovedOut(before: seq<Entry>, batch: seq<Entry>, waiting: seq<Entry>, after: seq<Entry>)
      requires waiting <= after
      ensures before + batch + waiting <= (before + batch) + [] + after
    {
    }

    /** The deadline of the batch: whatever is in it goes out. */
    method Tick()
      requires Valid() && armed
      modifies this
      ensures Valid() && buf == [] && Grown() && done == old(done + buf) && old(queue) <= queue
    {
      WriteOut();
      MovedOut(old(done), old(buf), old(queue), queue);
    }

    /** `flush`: when it returns, every line accepted before it was called has met its fate. */
    method Flush()
      requires Valid()
      modifies this
      ensures Valid() && buf == [] && Grown() && old(Accepted()) <= done
    {
      while queue != []
        invariant Valid() && Grown()
        decreases |arrivals|, |queue|
      {
        Take();
      }
      assert Accepted() == done + buf;
      label Drained:
      WriteOut();
      MovedOut(old@Drained(done), old@Drained(buf), [], queue);
    }

    /**
     No line vanishes: lines saved are those in the table, those counted lost,
     those refused one by one, those in the batch and those in the queue.
     */
    lemma Conservation()
      requires Valid()
      ensures saved == |Accepted()| + dropped
           == |table| + lost + |Select(done, fates, Refused)| + |buf| + |queue|
      ensures done <= Accepted()
    {
      FatesPartition(done, fates);
    }
  }
}

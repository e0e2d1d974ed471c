/**
 Open ports of a host: the normal form in which a list is stored, its printer
 and parser, and the classification by port.
 */
module Ports {
  import opened Basics

  const MAX_STORED := 128
  const MAX_INT := 0x7fff_ffff_ffff_ffff

  predicate IsPort(p: int) {
    1 <= p <= 65535
  }

  // ----- the normal form

  predicate StrictlyUp(s: seq<int>) {
    forall i, j :: 0 <= i < j < |s| ==> s[i] < s[j]
  }

  /** The distinct ports of a list. */
  function PortSet(list: seq<int>): set<int> {
    set p | p in list && IsPort(p)
  }

  /** The distinct ports of a list below one of them. */
  function Below(list: seq<int>, p: int): set<int> {
    set q | q in list && IsPort(q) && q < p
  }

  /** The smallest `MAX_STORED` distinct ports of the list, in order. */
  predicate IsNormal(out: seq<int>, list: seq<int>) {
    && StrictlyUp(out)
    && |out| == (if |PortSet(list)| > MAX_STORED then MAX_STORED else |PortSet(list)|)
    && (forall p :: p in out ==> p in list && IsPort(p))
    && (forall p, q :: p in list && IsPort(p) && p !in out && q in out ==> q < p)
  }

  function Members(s: seq<int>): set<int> {
    set p | p in s
  }

  lemma {:induction false} MembersSize(s: seq<int>)
    requires StrictlyUp(s)
    ensures |Members(s)| == |s|
  {
    if s == [] {
      assert Members(s) == {};
    } else {
      var last := s[|s| - 1];
      var init := s[..|s| - 1];
      assert s == init + [last];
      MembersSize(init);
      assert Members(s) == Members(init) + {last};
      assert last !in Members(init);
    }
  }

  lemma Fewer(a: set<int>, b: set<int>)
    requires a <= b
    ensures |a| <= |b| && (|a| == |b| ==> a == b)
  {
    assert b == a + (b - a);
    if |b - a| == 0 {
      assert b - a == {};
    }
  }

  /** A port is stored exactly when fewer than `MAX_STORED` distinct ports of the list are below it. */
  lemma StoredIff(out: seq<int>, list: seq<int>, p: int)
    requires IsNormal(out, list) && p in list && IsPort(p)
    ensures p in out <==> |Below(list, p)| < MAX_STORED
  {
    if p in out {
      var i :| 0 <= i < |out| && out[i] == p;
      var init := out[..i];
      MembersSize(init);
      forall q | q in Below(list, p) ensures q in Members(init) {
        var k :| 0 <= k < |out| && out[k] == q;
        assert k < i;
        assert init[k] == q;
      }
      Fewer(Below(list, p), Members(init));
    } else {
      MembersSize(out);
      Fewer(Members(out), PortSet(list));
      assert p in PortSet(list) && p !in Members(out);
      Fewer(Members(out), Below(list, p));
    }
  }

  lemma {:induction false} SameMembersSameSeq(a: seq<int>, b: seq<int>)
    requires StrictlyUp(a) && StrictlyUp(b)
    requires forall p :: p in a <==> p in b
    ensures a == b
  {
    assert b != [] ==> b[0] in b;
    if a != [] {
      assert a[0] in a;
      assert b[0] in a;
      var i :| 0 <= i < |a| && a[i] == b[0];
      var j :| 0 <= j < |b| && b[j] == a[0];
      assert a[0] == b[0];
      forall p ensures p in a[1..] <==> p in b[1..] {
        RestMember(a, p);
        RestMember(b, p);
      }
      SameMembersSameSeq(a[1..], b[1..]);
    }
  }

  lemma RestMember(s: seq<int>, p: int)
    requires StrictlyUp(s) && s != []
    ensures p in s[1..] <==> p in s && p != s[0]
  {
  }

  /** A list has one normal form. */
  lemma NormalIsUnique(a: seq<int>, b: seq<int>, list: seq<int>)
    requires IsNormal(a, list) && IsNormal(b, list)
    ensures a == b
  {
    forall p ensures p in a <==> p in b {
      if p in list && IsPort(p) {
        StoredIff(a, list, p);
        StoredIff(b, list, p);
      }
    }
    SameMembersSameSeq(a, b);
  }

  /** The normal form is its own normal form. */
  lemma NormalIsStable(out: seq<int>, list: seq<int>)
    requires IsNormal(out, list)
    ensures IsNormal(out, out)
  {
    MembersSize(out);
    assert PortSet(out) == Members(out);
  }

  /** Lists with the same ports have the same normal form, whatever their order, repetitions and other numbers. */
  lemma NormalDependsOnPorts(out: seq<int>, list: seq<int>, other: seq<int>)
    requires IsNormal(out, list) && PortSet(list) == PortSet(other)
    ensures IsNormal(out, other)
  {
    forall p ensures p in list && IsPort(p) <==> p in other && IsPort(p) {
      assert p in PortSet(list) <==> p in PortSet(other);
    }
  }

  predicate Sorted(s: seq<int>) {
    forall i, j :: 0 <= i < j < |s| ==> s[i] <= s[j]
  }

  function PutAt(s: seq<int>, k: nat, x: int): seq<int>
    requires k <= |s|
  {
    s[..k] + [x] + s[k..]
  }

  lemma PutAtSorts(s: seq<int>, k: nat, x: int)
    requires k <= |s| && Sorted(s)
    requires (k > 0 ==> s[k - 1] <= x) && (k < |s| ==> x <= s[k])
    ensures Sorted(PutAt(s, k, x))
  {
  }

  lemma PutAtAdds(s: seq<int>, k: nat, x: int)
    requires k <= |s|
    ensures multiset(PutAt(s, k, x)) == multiset(s) + multiset{x}
  {
    assert s == s[..k] + s[k..];
  }

  method Sort(s: seq<int>) returns (r: seq<int>)
    ensures Sorted(r) && multiset(r) == multiset(s)
  {
    r := [];
    for i := 0 to |s|
      invariant Sorted(r) && multiset(r) == multiset(s[..i])
    {
      assert s[..i + 1] == s[..i] + [s[i]];
      var k := |r|;
      while k > 0 && r[k - 1] > s[i]
        invariant 0 <= k <= |r|
        invariant k < |r| ==> s[i] <= r[k]
      {
        k := k - 1;
      }
      PutAtSorts(r, k, s[i]);
      PutAtAdds(r, k, s[i]);
      r := PutAt(r, k, s[i]);
    }
    assert s[..|s|] == s;
  }

  predicate Distinct(s: seq<int>) {
    forall i, j :: 0 <= i < j < |s| ==> s[i] != s[j]
  }

  lemma {:induction false} DistinctCounts(s: seq<int>, x: int)
    requires Distinct(s)
    ensures multiset(s)[x] <= 1
  {
    if s != [] {
      var n := |s| - 1;
      assert s == s[..n] + [s[n]];
      DistinctCounts(s[..n], x);
      if s[n] == x {
        assert x !in s[..n];
        assert x !in multiset(s[..n]);
      }
    }
  }

  lemma RepeatCounts(s: seq<int>, i: nat, j: nat)
    requires i < j < |s| && s[i] == s[j]
    ensures multiset(s)[s[i]] >= 2
  {
    assert s == s[..j] + s[j..];
    assert s[..j][i] in multiset(s[..j]) && s[j..][0] in multiset(s[j..]);
  }

  lemma SortedDistinctIsUp(s: seq<int>, r: seq<int>)
    requires Distinct(s) && Sorted(r) && multiset(r) == multiset(s)
    ensures StrictlyUp(r) && Members(r) == Members(s)
  {
    forall i, j | 0 <= i < j < |r| ensures r[i] < r[j] {
      if r[i] == r[j] {
        DistinctCounts(s, r[i]);
        RepeatCounts(r, i, j);
      }
    }
    forall p ensures p in r <==> p in s {
      assert p in multiset(r) <==> p in multiset(s);
    }
  }

  /** Sorted distinct ports, cut at the limit, are the normal form. */
  lemma CutIsNormal(all: seq<int>, list: seq<int>)
    requires StrictlyUp(all) && Members(all) == PortSet(list)
    ensures IsNormal(if |all| > MAX_STORED then all[..MAX_STORED] else all, list)
  {
    MembersSize(all);
    var out := if |all| > MAX_STORED then all[..MAX_STORED] else all;
    forall p | p in out ensures p in list && IsPort(p) {
      assert p in Members(all);
    }
    forall p, q | p in list && IsPort(p) && p !in out && q in out ensures q < p {
      assert p in Members(all);
      var i :| 0 <= i < |all| && all[i] == p;
      var j :| 0 <= j < |out| && out[j] == q;
      if i < |out| {
        assert out[i] == p;
      }
    }
  }

  /** `NormalizarPortas`: one pass that drops what is no port or was seen, then a sort and a cut. */
  method Normalize(list: seq<int>) returns (out: seq<int>)
    ensures IsNormal(out, list)
  {
    var seen: set<int> := {};
    out := [];
    for i := 0 to |list|
      invariant seen == PortSet(list[..i]) == Members(out)
      invariant Distinct(out)
    {
      assert list[..i + 1] == list[..i] + [list[i]];
      var p := list[i];
      if p < 1 || p > 65535 || p in seen {
        continue;
      }
      seen := seen + {p};
      assert p !in Members(out);
      out := out + [p];
    }
    assert list[..|list|] == list;
    var sorted := Sort(out);
    SortedDistinctIsUp(out, sorted);
    CutIsNormal(sorted, list);
    out := sorted;
    if |out| > MAX_STORED {
      out := out[..MAX_STORED];
    }
  }

  /** Only ports of the list are stored, and of a list below the limit all of them. */
  lemma NormalSays(out: seq<int>, list: seq<int>, p: int)
    requires IsNormal(out, list)
    ensures p in out ==> p in list && 1 <= p <= 65535
    ensures |out| < 128 && p in list && 1 <= p <= 65535 ==> p in out
    ensures |out| <= 128
  {
    MembersSize(out);
    Fewer(Members(out), PortSet(list));
    assert p in list && IsPort(p) ==> p in PortSet(list);
    assert p in Members(out) <==> p in out;
  }

  // ----- numbers as text

  predicate IsDigit(c: char) {
    '0' <= c <= '9'
  }

  predicate AllDigits(s: string) {
    forall i :: 0 <= i < |s| ==> IsDigit(s[i])
  }

  function DigitOf(n: nat): char
    requires n < 10
  {
    "0123456789"[n]
  }

  function ValueOf(c: char): nat
    requires IsDigit(c)
  {
    c as int - '0' as int
  }

  function Number(s: string): nat
    requires AllDigits(s)
  {
    if s == "" then 0 else Number(s[..|s| - 1]) * 10 + ValueOf(s[|s| - 1])
  }

  /** Decimal digits without leading zeros. */
  function Itoa(n: nat): string {
    if n < 10 then [DigitOf(n)] else Itoa(n / 10) + [DigitOf(n % 10)]
  }

  /** An optional sign and digits, within 64 bits. */
  function Atoi(s: string): Option<int> {
    var negative := s != "" && s[0] == '-';
    var digits := if s != "" && (s[0] == '-' || s[0] == '+') then s[1..] else s;
    if digits == "" || !AllDigits(digits) then None
    else
      var n: int := Number(digits);
      if negative then (if n <= MAX_INT + 1 then Some(-n) else None)
      else if n <= MAX_INT then Some(n)
      else None
  }

  lemma DigitValue(n: nat)
    requires n < 10
    ensures IsDigit(DigitOf(n)) && ValueOf(DigitOf(n)) == n
  {
  }

  lemma {:induction false} NumberOfItoa(n: nat)
    ensures Itoa(n) != "" && AllDigits(Itoa(n)) && Number(Itoa(n)) == n
  {
    DigitValue(n % 10);
    if n < 10 {
      assert Itoa(n)[..0] == "";
    } else {
      NumberOfItoa(n / 10);
      assert Itoa(n)[..|Itoa(n)| - 1] == Itoa(n / 10);
    }
  }

  lemma AtoiOfItoa(n: nat)
    requires n <= MAX_INT
    ensures Atoi(Itoa(n)) == Some(n)
  {
    NumberOfItoa(n);
    assert IsDigit(Itoa(n)[0]);
  }

  // ----- lists as text

  /** White space, as Unicode defines it. */
  predicate IsSpace(c: char) {
    || '\t' <= c <= '\r' || c == ' ' || c == '\U{85}' || c == '\U{A0}' || c == '\U{1680}'
    || '\U{2000}' <= c <= '\U{200A}' || c == '\U{2028}' || c == '\U{2029}'
    || c == '\U{202F}' || c == '\U{205F}' || c == '\U{3000}'
  }

  function TrimLeft(s: string): string {
    if s != "" && IsSpace(s[0]) then TrimLeft(s[1..]) else s
  }

  function TrimRight(s: string): string {
    if s != "" && IsSpace(s[|s| - 1]) then TrimRight(s[..|s| - 1]) else s
  }

  function TrimSpace(s: string): string {
    TrimRight(TrimLeft(s))
  }

  /** The position of the first comma, or the length. */
  function Comma(s: string): (k: nat)
    ensures k <= |s| && (k < |s| ==> s[k] == ',')
    ensures forall i :: 0 <= i < k ==> s[i] != ','
  {
    if s == "" || s[0] == ',' then 0 else 1 + Comma(s[1..])
  }

  /** The pieces between commas; a text without one is a single piece. */
  function Split(s: string): seq<string>
    decreases |s|
  {
    var k := Comma(s);
    if k == |s| then [s] else [s[..k]] + Split(s[k + 1..])
  }

  function Join(parts: seq<string>): string {
    if parts == [] then ""
    else if |parts| == 1 then parts[0]
    else parts[0] + "," + Join(parts[1..])
  }

  /** What one piece contributes: its number if it is a port, nothing otherwise. */
  function PortIn(part: string): seq<int> {
    var n := Atoi(TrimSpace(part));
    if n.Some? && IsPort(n.value) then [n.value] else []
  }

  function PortsIn(parts: seq<string>): seq<int> {
    if parts == [] then [] else PortIn(parts[0]) + PortsIn(parts[1..])
  }

  function Parsed(raw: string): seq<int> {
    PortsIn(Split(raw))
  }

  predicate AllPorts(ports: seq<int>) {
    forall i :: 0 <= i < |ports| ==> IsPort(ports[i])
  }

  function Numerals(ports: seq<int>): seq<string>
    requires AllPorts(ports)
  {
    seq(|ports|, i requires 0 <= i < |ports| => Itoa(ports[i]))
  }

  function Printed(ports: seq<int>): string
    requires AllPorts(ports)
  {
    Join(Numerals(ports))
  }

  lemma PortsInCons(part: string, rest: seq<string>)
    ensures PortsIn([part] + rest) == PortIn(part) + PortsIn(rest)
  {
  }

  lemma Regroup<T>(a: seq<T>, b: seq<T>, c: seq<T>)
    ensures a + (b + c) == (a + b) + c
  {
  }

  lemma {:induction false} PortsInAppend(a: seq<string>, b: seq<string>)
    ensures PortsIn(a + b) == PortsIn(a) + PortsIn(b)
  {
    if a == [] {
      assert a + b == b;
    } else {
      var part, rest := a[0], a[1..];
      PortsInAppend(rest, b);
      assert a == [part] + rest;
      Regroup([part], rest, b);
      PortsInCons(part, rest + b);
      PortsInCons(part, rest);
      Regroup(PortIn(part), PortsIn(rest), PortsIn(b));
    }
  }

  lemma FirstComma(s: string, k: nat)
    requires k <= |s| && (k < |s| ==> s[k] == ',')
    requires forall i :: 0 <= i < k ==> s[i] != ','
    ensures Comma(s) == k
  {
  }

  lemma FirstPiece(head: string, rest: string)
    requires ',' !in head
    ensures Split(head + "," + rest) == [head] + Split(rest)
  {
    var s := head + "," + rest;
    FirstComma(s, |head|);
    assert s[..|head|] == head && s[|head| + 1..] == rest;
  }

  lemma WholePiece(s: string)
    requires ',' !in s
    ensures Split(s) == [s]
  {
  }

  lemma PieceMore(head: string, rest: string, b: string)
    requires ',' !in head && Split(rest + "," + b) == Split(rest) + Split(b)
    ensures Split((head + "," + rest) + "," + b) == Split(head + "," + rest) + Split(b)
  {
    assert (head + "," + rest) + "," + b == head + "," + (rest + "," + b);
    FirstPiece(head, rest + "," + b);
    FirstPiece(head, rest);
    Regroup([head], Split(rest), Split(b));
  }

  lemma {:induction false} SplitJoins(a: string, b: string)
    ensures Split(a + "," + b) == Split(a) + Split(b)
    decreases |a|
  {
    var k := Comma(a);
    if k == |a| {
      FirstPiece(a, b);
      WholePiece(a);
    } else {
      var head, rest := a[..k], a[k + 1..];
      assert a == head + "," + rest;
      SplitJoins(rest, b);
      PieceMore(head, rest, b);
    }
  }

  /** Two lists joined by a comma read as the first list followed by the second. */
  lemma ParsedJoins(a: string, b: string)
    ensures Parsed(a + "," + b) == Parsed(a) + Parsed(b)
  {
    SplitJoins(a, b);
    PortsInAppend(Split(a), Split(b));
  }

  lemma DigitsStayWhole(s: string)
    requires s != "" && AllDigits(s)
    ensures TrimSpace(s) == s && Split(s) == [s]
  {
  }

  lemma ParsedNumeral(p: int)
    requires IsPort(p)
    ensures Parsed(Itoa(p)) == [p]
  {
    NumberOfItoa(p);
    AtoiOfItoa(p);
    DigitsStayWhole(Itoa(p));
    assert PortsIn([Itoa(p)]) == PortIn(Itoa(p)) + PortsIn([]);
  }

  /** What was printed is read back: any list of ports, in any order, with repetitions. */
  lemma {:induction false} ParsedPrinted(ports: seq<int>)
    requires AllPorts(ports)
    ensures Parsed(Printed(ports)) == ports
  {
    if ports == [] {
      FirstComma("", 0);
    } else {
      var p, rest := ports[0], ports[1..];
      ParsedNumeral(p);
      assert Numerals(ports)[1..] == Numerals(rest);
      if rest == [] {
        assert ports == [p];
      } else {
        ParsedPrinted(rest);
        ParsedJoins(Itoa(p), Printed(rest));
      }
    }
  }

  /** Different lists of ports are printed differently. */
  lemma PrintedIsInjective(a: seq<int>, b: seq<int>)
    requires AllPorts(a) && AllPorts(b)
    requires Printed(a) == Printed(b)
    ensures a == b
  {
    ParsedPrinted(a);
    ParsedPrinted(b);
  }

  predicate Blank(s: string) {
    forall i :: 0 <= i < |s| ==> s[i] == ' ' || s[i] == '\t' || s[i] == '\n'
  }

  lemma {:induction false} LeftBlankGoes(pad: string, s: string)
    requires Blank(pad) && (s != "" ==> !IsSpace(s[0]))
    ensures TrimLeft(pad + s) == s
  {
    if pad == "" {
      assert pad + s == s;
    } else {
      LeftBlankGoes(pad[1..], s);
      assert (pad + s)[1..] == pad[1..] + s;
    }
  }

  lemma {:induction false} RightBlankGoes(s: string, pad: string)
    requires Blank(pad) && (s != "" ==> !IsSpace(s[|s| - 1]))
    ensures TrimRight(s + pad) == s
  {
    if pad == "" {
      assert s + pad == s;
    } else {
      var n := |pad| - 1;
      RightBlankGoes(s, pad[..n]);
      assert (s + pad)[..|s + pad| - 1] == s + pad[..n];
    }
  }

  /** Blanks around a piece do not matter. */
  lemma PaddedReads(left: string, s: string, right: string)
    requires Blank(left) && Blank(right) && s != "" && !IsSpace(s[0]) && !IsSpace(s[|s| - 1])
    ensures PortIn(left + s + right) == PortIn(s)
  {
    assert left + s + right == left + (s + right);
    LeftBlankGoes(left, s + right);
    RightBlankGoes(s, right);
    LeftBlankGoes("", s);
    RightBlankGoes(s, "");
    assert "" + s == s && s + "" == s;
  }

  lemma SignStays(sign: string, s: string)
    requires |sign| == 1 && !IsSpace(sign[0]) && s != "" && AllDigits(s)
    ensures TrimSpace(sign + s) == sign + s
  {
    assert (sign + s)[0] == sign[0] && IsDigit((sign + s)[|s|]);
  }

  lemma AtoiOfSigned(n: nat)
    requires n <= MAX_INT
    ensures var m: int := n; Atoi("+" + Itoa(n)) == Some(m) && Atoi("-" + Itoa(n)) == Some(-m)
  {
    NumberOfItoa(n);
    assert ("+" + Itoa(n))[1..] == Itoa(n) && ("-" + Itoa(n))[1..] == Itoa(n);
  }

  /** A plus sign does not matter; a minus sign leaves no port. */
  lemma SignedReads(p: int)
    requires 1 <= p <= 65535
    ensures PortIn("+" + Itoa(p)) == [p] && PortIn("-" + Itoa(p)) == []
  {
    NumberOfItoa(p);
    SignStays("+", Itoa(p));
    SignStays("-", Itoa(p));
    AtoiOfSigned(p);
  }

  /** Nor do leading zeros. */
  lemma ZeroReads(p: int)
    requires 1 <= p <= 65535
    ensures PortIn("0" + Itoa(p)) == [p]
  {
    NumberOfItoa(p);
    LeadingZero(Itoa(p));
    SignStays("0", Itoa(p));
    assert ("0" + Itoa(p))[0] == '0';
  }

  lemma {:induction false} LeadingZero(s: string)
    requires AllDigits(s)
    ensures AllDigits("0" + s) && Number("0" + s) == Number(s)
  {
    if s == "" {
      assert "0" + s == "0";
      assert "0"[..0] == "";
    } else {
      var n := |s| - 1;
      LeadingZero(s[..n]);
      assert ("0" + s)[..|s|] == "0" + s[..n];
    }
  }

  /** A number that is no port contributes nothing. */
  lemma OutOfRangeReads(n: nat)
    requires n == 0 || 65535 < n <= MAX_INT
    ensures PortIn(Itoa(n)) == []
  {
    NumberOfItoa(n);
    AtoiOfItoa(n);
    DigitsStayWhole(Itoa(n));
  }

  /** Everything read is a port, whatever the text. */
  lemma {:induction false} ParsedArePorts(parts: seq<string>)
    ensures AllPorts(PortsIn(parts)) && forall i :: 0 <= i < |PortsIn(parts)| ==> 1 <= PortsIn(parts)[i] <= 65535
  {
    if parts != [] {
      ParsedArePorts(parts[1..]);
    }
  }

  /** `JoinPorts`: the text reads back as the normal form of the list. */
  method JoinPorts(ports: seq<int>) returns (raw: string)
    ensures IsNormal(Parsed(raw), ports)
    ensures raw == Printed(Parsed(raw))
  {
    var normal := Normalize(ports);
    assert forall i :: 0 <= i < |normal| ==> normal[i] in normal;
    var parts := new string[|normal|];
    for i := 0 to |normal|
      invariant parts[..i] == Numerals(normal)[..i]
    {
      parts[i] := Itoa(normal[i]);
    }
    assert parts[..] == Numerals(normal);
    raw := Join(parts[..]);
    ParsedPrinted(normal);
  }

  /** `ParsePorts`: the ports in the pieces, in their order; everything else is skipped. */
  method ParsePorts(raw: string) returns (ports: seq<int>)
    ensures ports == Parsed(raw)
    ensures AllPorts(ports)
  {
    var parts := Split(raw);
    ports := [];
    for i := 0 to |parts|
      invariant ports + PortsIn(parts[i..]) == Parsed(raw)
    {
      assert parts[i..][0] == parts[i] && parts[i..][1..] == parts[i + 1..];
      var n := Atoi(TrimSpace(parts[i]));
      ghost var later := PortsIn(parts[i + 1..]);
      assert ports + (PortIn(parts[i]) + later) == (ports + PortIn(parts[i])) + later;
      if n.Some? && n.value > 0 && n.value < 65536 {
        ports := ports + [n.value];
      } else {
        assert ports + [] == ports;
      }
    }
    ParsedArePorts(parts);
    assert ports + [] == ports;
  }

  // ----- classification

  datatype Kind = Printer | Windows | Nas | Linux | WebDevice | Unknown

  datatype Fingerprint = Fingerprint(port: int, kind: Kind)

  const FINGERPRINTS := [
    Fingerprint(9100, Printer), Fingerprint(515, Printer), Fingerprint(631, Printer),
    Fingerprint(5000, Nas),
    Fingerprint(3389, Windows), Fingerprint(445, Windows), Fingerprint(139, Windows), Fingerprint(135, Windows),
    Fingerprint(22, Linux),
    Fingerprint(443, WebDevice), Fingerprint(80, WebDevice)
  ]

  /** The kind of the first fingerprint from `i` on whose port is open. */
  function KindFrom(i: nat, open: set<int>): Kind
    requires i <= |FINGERPRINTS|
    decreases |FINGERPRINTS| - i
  {
    if i == |FINGERPRINTS| then Unknown
    else if FINGERPRINTS[i].port in open then FINGERPRINTS[i].kind
    else KindFrom(i + 1, open)
  }

  function KindOf(open: set<int>): Kind {
    KindFrom(0, open)
  }

  /** An open port tells its kind. */
  predicate Shows(p: int, kind: Kind) {
    exists i :: 0 <= i < |FINGERPRINTS| && FINGERPRINTS[i] == Fingerprint(p, kind)
  }

  /** `DeviceType`. */
  method DeviceType(ports: seq<int>) returns (kind: Kind)
    ensures kind == KindOf(Members(ports))
  {
    var open: set<int> := {};
    for i := 0 to |ports|
      invariant open == Members(ports[..i])
    {
      assert ports[..i + 1] == ports[..i] + [ports[i]];
      open := open + {ports[i]};
    }
    assert ports[..|ports|] == ports;
    for i := 0 to |FINGERPRINTS|
      invariant KindOf(open) == KindFrom(i, open)
    {
      if FINGERPRINTS[i].port in open {
        return FINGERPRINTS[i].kind;
      }
    }
    return Unknown;
  }

  /** What a single open port shows. */
  lemma {:induction false} SinglePorts(p: int)
    ensures KindOf({p}) ==
      if p in {9100, 515, 631} then Printer
      else if p == 5000 then Nas
      else if p in {3389, 445, 139, 135} then Windows
      else if p == 22 then Linux
      else if p in {443, 80} then WebDevice
      else Unknown
  {
    KindsInTable(p, 0);
  }

  lemma {:induction false} KindsInTable(p: int, i: nat)
    requires i <= |FINGERPRINTS|
    ensures KindFrom(i, {p}) == Unknown || exists j :: i <= j < |FINGERPRINTS| && FINGERPRINTS[j] == Fingerprint(p, KindFrom(i, {p}))
    ensures KindFrom(i, {p}) == Unknown ==> forall j :: i <= j < |FINGERPRINTS| ==> FINGERPRINTS[j].port != p
    decreases |FINGERPRINTS| - i
  {
    if i < |FINGERPRINTS| {
      KindsInTable(p, i + 1);
      assert FINGERPRINTS[i].port == p ==> FINGERPRINTS[i] == Fingerprint(p, KindFrom(i, {p}));
    }
  }

  function Place(kind: Kind): nat {
    match kind
    case Printer => 0
    case Nas => 1
    case Windows => 2
    case Linux => 3
    case WebDevice => 4
    case Unknown => 5
  }

  /** The table lists the kinds one after the other. */
  lemma KindsInOrder(i: nat, j: nat)
    requires i <= j < |FINGERPRINTS|
    ensures Place(FINGERPRINTS[i].kind) <= Place(FINGERPRINTS[j].kind) < Place(Unknown)
    ensures IsPort(FINGERPRINTS[j].port)
  {
  }

  /** The answer's place is the least of the places of the open fingerprints. */
  lemma {:induction false} KindIsLeast(i: nat, open: set<int>)
    requires i <= |FINGERPRINTS|
    ensures forall j :: i <= j < |FINGERPRINTS| && FINGERPRINTS[j].port in open ==> Place(KindFrom(i, open)) <= Place(FINGERPRINTS[j].kind)
    ensures KindFrom(i, open) == Unknown
         || exists j :: i <= j < |FINGERPRINTS| && FINGERPRINTS[j].port in open && FINGERPRINTS[j].kind == KindFrom(i, open)
    decreases |FINGERPRINTS| - i
  {
    if i < |FINGERPRINTS| {
      forall j | i <= j < |FINGERPRINTS| ensures Place(FINGERPRINTS[i].kind) <= Place(FINGERPRINTS[j].kind) {
        KindsInOrder(i, j);
      }
      KindIsLeast(i + 1, open);
    }
  }

  lemma SamePlace(a: Kind, b: Kind)
    requires Place(a) == Place(b)
    ensures a == b
  {
  }

  /** Of fewer open ports the kind stays exactly when one of those that show it stays. */
  lemma KindStaysIff(open: set<int>, fewer: set<int>)
    requires fewer <= open
    ensures KindOf(fewer) == KindOf(open) <==> KindOf(open) == Unknown || exists p :: p in fewer && Shows(p, KindOf(open))
  {
    var kind := KindOf(open);
    KindIsLeast(0, open);
    KindIsLeast(0, fewer);
    if kind != Unknown && KindOf(fewer) == kind {
      var j :| 0 <= j < |FINGERPRINTS| && FINGERPRINTS[j].port in fewer && FINGERPRINTS[j].kind == kind;
      assert FINGERPRINTS[j] == Fingerprint(FINGERPRINTS[j].port, kind);
      assert Shows(FINGERPRINTS[j].port, kind);
    }
    if exists p :: p in fewer && Shows(p, kind) {
      var p :| p in fewer && Shows(p, kind);
      var i :| 0 <= i < |FINGERPRINTS| && FINGERPRINTS[i] == Fingerprint(p, kind);
      assert FINGERPRINTS[i].port in fewer;
      if KindOf(fewer) != Unknown {
        var j :| 0 <= j < |FINGERPRINTS| && FINGERPRINTS[j].port in fewer && FINGERPRINTS[j].kind == KindOf(fewer);
        assert FINGERPRINTS[j].port in open;
        SamePlace(KindOf(fewer), kind);
      } else {
        KindsInOrder(0, i);
      }
    }
  }

  /**
   Storing the ports keeps the kind of the host exactly when the kind was
   unknown or one of the ports that show it has fewer than `MAX_STORED`
   distinct ports below it.
   */
  lemma StoredKindIff(ports: seq<int>, stored: seq<int>)
    requires IsNormal(stored, ports)
    ensures KindOf(Members(stored)) == KindOf(Members(ports))
       <==> (KindOf(Members(ports)) == Unknown
             || exists p :: p in ports && Shows(p, KindOf(Members(ports))) && |Below(ports, p)| < MAX_STORED)
  {
    var kind := KindOf(Members(ports));
    forall p | p in Members(stored) ensures p in Members(ports) {
      assert p in stored;
    }
    KindStaysIff(Members(ports), Members(stored));
    forall p | p in ports && Shows(p, kind) ensures p in stored <==> |Below(ports, p)| < MAX_STORED {
      var i :| 0 <= i < |FINGERPRINTS| && FINGERPRINTS[i] == Fingerprint(p, kind);
      KindsInOrder(i, i);
      StoredIff(stored, ports, p);
    }
  }

  /** With at most `MAX_STORED` distinct ports nothing is cut, and the kind always survives. */
  lemma FewPortsKeepKind(ports: seq<int>, stored: seq<int>)
    requires IsNormal(stored, ports) && |PortSet(ports)| <= MAX_STORED
    ensures KindOf(Members(stored)) == KindOf(Members(ports))
  {
    var kind := KindOf(Members(ports));
    KindIsLeast(0, Members(ports));
    if kind != Unknown {
      var j :| 0 <= j < |FINGERPRINTS| && FINGERPRINTS[j].port in Members(ports) && FINGERPRINTS[j].kind == kind;
      var p := FINGERPRINTS[j].port;
      KindsInOrder(j, j);
      assert FINGERPRINTS[j] == Fingerprint(p, kind);
      assert p in ports && Shows(p, kind);
      Fewer(Below(ports, p), PortSet(ports) - {p});
      assert p in PortSet(ports);
      StoredKindIff(ports, stored);
    }
  }

  function FirstPorts(): seq<int> {
    seq(MAX_STORED, i => i + 1)
  }

  /** A printer with the first `MAX_STORED` ports open besides 9100 is stored as something else. */
  lemma PrinterIsLost()
    ensures IsNormal(FirstPorts(), FirstPorts() + [9100])
    ensures KindOf(Members(FirstPorts() + [9100])) == Printer
    ensures KindOf(Members(FirstPorts())) != Printer
  {
    var all := FirstPorts() + [9100];
    forall p | p in Members(all) ensures p in PortSet(all) {
      var i :| 0 <= i < |all| && all[i] == p;
    }
    assert Members(all) == PortSet(all);
    CutIsNormal(all, all);
    assert all[..MAX_STORED] == FirstPorts();
    assert all[MAX_STORED] == 9100;
    assert FINGERPRINTS[0].port in Members(all);
    KindIsLeast(0, Members(FirstPorts()));
    assert FINGERPRINTS[0].kind == FINGERPRINTS[1].kind == FINGERPRINTS[2].kind == Printer;
    if KindOf(Members(FirstPorts())) == Printer {
      var j :| 0 <= j < |FINGERPRINTS| && FINGERPRINTS[j].port in Members(FirstPorts()) && FINGERPRINTS[j].kind == Printer;
      assert FINGERPRINTS[j].port <= MAX_STORED;
      PrintersAreHigh(j);
    }
  }

  lemma PrintersAreHigh(j: nat)
    requires j < |FINGERPRINTS| && FINGERPRINTS[j].kind == Printer
    ensures FINGERPRINTS[j].port > MAX_STORED
  {
  }
}

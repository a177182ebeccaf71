/** The automaton of ext/utils/outbound_utils.c, IPv4 and port states, and the language it accepts. */
module FlowGrammar {
  import opened Decimal

  /** State numbers are those of the generated code; 0 is its error state. SIX stands for all the states
      that only texts beginning with an IPv6 address reach. */
  const SIX: nat := 999

  predicate Between(lo: char, c: char, hi: char) { lo <= c <= hi }

  predicate IsHexOrColon(c: char) { Between('A', c, 'F') || Between('a', c, 'f') || c == ':' }

  /** A first octet may still turn out to be the first group of an IPv6 address. */
  function First(four: nat, c: char): nat {
    if four != 0 then four else if IsHexOrColon(c) || IsDigit(c) then SIX else 0
  }

  function Next(cs: nat, c: char): nat {
    match cs
    case 1 => First(if c == '0' then 2 else if c == '1' then 159 else if c == '2' then 162 else if Between('3', c, '9') then 165 else 0, c)
    case 2 => First(if c == '.' then 3 else 0, c)
    case 159 => First(if c == '.' then 3 else if IsDigit(c) then 160 else 0, c)
    case 160 => First(if c == '.' then 3 else if IsDigit(c) then 161 else 0, c)
    case 161 => First(if c == '.' then 3 else 0, c)
    case 162 => First(if c == '.' then 3 else if c == '5' then 163 else if Between('0', c, '4') then 160 else if Between('6', c, '9') then 164 else 0, c)
    case 163 => First(if c == '.' then 3 else if Between('0', c, '5') then 161 else 0, c)
    case 164 => First(if c == '.' then 3 else 0, c)
    case 165 => First(if c == '.' then 3 else if IsDigit(c) then 164 else 0, c)
    case 3 => if c == '0' then 4 else if c == '1' then 21 else if c == '2' then 23 else if Between('3', c, '9') then 22 else 0
    case 4 => if c == '.' then 5 else 0
    case 21 => if c == '.' then 5 else if IsDigit(c) then 22 else 0
    case 22 => if c == '.' then 5 else if IsDigit(c) then 4 else 0
    case 23 => if c == '.' then 5 else if c == '5' then 24 else if Between('6', c, '9') then 4 else if Between('0', c, '4') then 22 else 0
    case 24 => if c == '.' then 5 else if Between('0', c, '5') then 4 else 0
    case 5 => if c == '0' then 6 else if c == '1' then 17 else if c == '2' then 19 else if Between('3', c, '9') then 18 else 0
    case 6 => if c == '.' then 7 else 0
    case 17 => if c == '.' then 7 else if IsDigit(c) then 18 else 0
    case 18 => if c == '.' then 7 else if IsDigit(c) then 6 else 0
    case 19 => if c == '.' then 7 else if c == '5' then 20 else if Between('6', c, '9') then 6 else if Between('0', c, '4') then 18 else 0
    case 20 => if c == '.' then 7 else if Between('0', c, '5') then 6 else 0
    case 7 => if c == '0' then 8 else if c == '1' then 13 else if c == '2' then 15 else if Between('3', c, '9') then 14 else 0
    case 8 => if c == '_' then 9 else 0
    case 13 => if c == '_' then 9 else if IsDigit(c) then 14 else 0
    case 14 => if c == '_' then 9 else if IsDigit(c) then 8 else 0
    case 15 => if c == '_' then 9 else if c == '5' then 16 else if Between('6', c, '9') then 8 else if Between('0', c, '4') then 14 else 0
    case 16 => if c == '_' then 9 else if Between('0', c, '5') then 8 else 0
    case 9 => if c == '0' then 10 else if c == '6' then 187 else if Between('7', c, '9') then 186 else if Between('1', c, '5') then 185 else 0
    case 10 => if c == '0' then 11 else if Between('1', c, '9') then 184 else 0
    case 11 => if c == '0' then 12 else if Between('1', c, '9') then 183 else 0
    case 12 => if Between('1', c, '9') then 182 else 0
    case 183 => if IsDigit(c) then 182 else 0
    case 184 => if IsDigit(c) then 183 else 0
    case 185 => if IsDigit(c) then 186 else 0
    case 186 => if IsDigit(c) then 184 else 0
    case 187 => if c == '5' then 188 else if Between('6', c, '9') then 184 else if Between('0', c, '4') then 186 else 0
    case 188 => if c == '5' then 189 else if Between('6', c, '9') then 183 else if Between('0', c, '4') then 184 else 0
    case 189 => if c == '3' then 190 else if Between('4', c, '9') then 182 else if Between('0', c, '2') then 183 else 0
    case 190 => if Between('0', c, '5') then 182 else 0
    case _ => if cs == SIX then SIX else 0
  }

  predicate Final(cs: nat) { 182 <= cs <= 190 }

  predicate PortState(cs: nat) { 9 <= cs <= 12 || Final(cs) }

  function Run(cs: nat, s: string): nat
    decreases |s|
  {
    if s == [] then cs else Run(Next(cs, s[0]), s[1..])
  }

  predicate Accepts(s: string) { Final(Run(1, s)) }

  // ---- Ports ----

  /** A port: 1..65535 in at most five digits, at most four when the first is a zero. */
  predicate IsPort(s: string) {
    && IsDigits(s) && 1 <= |s| <= 5 && (|s| == 5 ==> s[0] != '0')
    && 1 <= Value(s) <= 65535
  }

  predicate UpTo(s: string, n: nat) { IsDigits(s) && |s| <= n }

  /** What may follow in each port state. */
  predicate PortRest(cs: nat, s: string) {
    match cs
    case 9 => |s| > 0 && (
        || (s[0] == '0' && PortRest10(s[1..]))
        || (Between('1', s[0], '5') && UpTo(s[1..], 4))
        || (s[0] == '6' && PortRest187(s[1..]))
        || (Between('7', s[0], '9') && UpTo(s[1..], 3)))
    case 10 => PortRest10(s)
    case 11 => PortRest11(s)
    case 12 => PortRest12(s)
    case 182 => s == []
    case 183 => UpTo(s, 1)
    case 184 => UpTo(s, 2)
    case 185 => UpTo(s, 4)
    case 186 => UpTo(s, 3)
    case 187 => PortRest187(s)
    case 188 => PortRest188(s)
    case 189 => PortRest189(s)
    case 190 => PortRest190(s)
    case _ => false
  }

  predicate PortRest12(s: string) { |s| == 1 && Between('1', s[0], '9') }
  predicate PortRest11(s: string) {
    |s| > 0 && ((s[0] == '0' && PortRest12(s[1..])) || (Between('1', s[0], '9') && UpTo(s[1..], 1)))
  }
  predicate PortRest10(s: string) {
    |s| > 0 && ((s[0] == '0' && PortRest11(s[1..])) || (Between('1', s[0], '9') && UpTo(s[1..], 2)))
  }
  predicate PortRest190(s: string) { s == [] || (|s| == 1 && Between('0', s[0], '5')) }
  predicate PortRest189(s: string) {
    s == [] || (Between('0', s[0], '2') && UpTo(s[1..], 1)) || (s[0] == '3' && PortRest190(s[1..]))
      || (Between('4', s[0], '9') && s[1..] == [])
  }
  predicate PortRest188(s: string) {
    s == [] || (Between('0', s[0], '4') && UpTo(s[1..], 2)) || (s[0] == '5' && PortRest189(s[1..]))
      || (Between('6', s[0], '9') && UpTo(s[1..], 1))
  }
  predicate PortRest187(s: string) {
    s == [] || (Between('0', s[0], '4') && UpTo(s[1..], 3)) || (s[0] == '5' && PortRest188(s[1..]))
      || (Between('6', s[0], '9') && UpTo(s[1..], 2))
  }

  lemma UpToStep(s: string, n: nat)
    requires |s| > 0
    ensures UpTo(s, n + 1) <==> IsDigit(s[0]) && UpTo(s[1..], n)
    ensures !UpTo(s, 0)
  {}

  lemma LeadStep(cs: nat, s: string)
    requires 9 <= cs <= 12 && |s| > 0
    ensures PortRest(cs, s) <==> PortRest(Next(cs, s[0]), s[1..])
    ensures PortState(Next(cs, s[0])) || Next(cs, s[0]) == 0
  {}

  lemma CountStep(cs: nat, s: string)
    requires 182 <= cs <= 186 && |s| > 0
    ensures PortRest(cs, s) <==> PortRest(Next(cs, s[0]), s[1..])
    ensures PortState(Next(cs, s[0])) || Next(cs, s[0]) == 0
  {
    UpToStep(s, 0);
    UpToStep(s, 1);
    UpToStep(s, 2);
    UpToStep(s, 3);
  }

  lemma BoundStep(cs: nat, s: string)
    requires 187 <= cs <= 190 && |s| > 0
    ensures PortRest(cs, s) <==> PortRest(Next(cs, s[0]), s[1..])
    ensures PortState(Next(cs, s[0])) || Next(cs, s[0]) == 0
  {}

  lemma PortStep(cs: nat, s: string)
    requires PortState(cs) && |s| > 0
    ensures PortRest(cs, s) <==> PortRest(Next(cs, s[0]), s[1..])
    ensures PortState(Next(cs, s[0])) || Next(cs, s[0]) == 0
  {
    hide PortRest, Next;
    if cs <= 12 { LeadStep(cs, s); } else if cs <= 186 { CountStep(cs, s); } else { BoundStep(cs, s); }
  }

  lemma {:induction false} ErrorStays(s: string)
    ensures Run(0, s) == 0 && Run(SIX, s) == SIX
  {
    if s != [] {
      ErrorStays(s[1..]);
    }
  }

  lemma {:induction false} PortRun(cs: nat, s: string)
    requires PortState(cs)
    ensures Final(Run(cs, s)) <==> PortRest(cs, s)
    decreases |s|
  {
    if s != [] {
      PortStep(cs, s);
      if Next(cs, s[0]) == 0 {
        ErrorStays(s[1..]);
      } else {
        PortRun(Next(cs, s[0]), s[1..]);
      }
    }
  }

  lemma ValueSnoc(s: string, d: char)
    requires IsDigits(s) && IsDigit(d)
    ensures IsDigits(s + [d]) && Value(s + [d]) == Value(s) * 10 + (d - '0') as nat
  {
    assert (s + [d])[..|s|] == s;
  }

  lemma ValueConsSnoc(c: char, u: string, d: char, p: nat)
    requires IsDigit(c) && IsDigits(u) && IsDigit(d)
    requires Value([c] + u) == (c - '0') as nat * p + Value(u)
    ensures IsDigits(u + [d]) && Value([c] + (u + [d])) == (c - '0') as nat * (10 * p) + Value(u + [d])
  {
    hide Value;
    assert [c] + (u + [d]) == [c] + u + [d];
    ValueSnoc(u, d);
    ValueSnoc([c] + u, d);
    var k := (c - '0') as nat;
    assert k * (10 * p) == k * p * 10;
  }

  lemma {:induction false} ValueCons(c: char, s: string)
    requires IsDigit(c) && IsDigits(s) && |s| <= 4
    ensures Value([c] + s) == (c - '0') as nat * Pow10(|s|) + Value(s)
    decreases |s|
  {
    assert Value("") == 0;
    hide Value;
    if s == [] {
      ValueSnoc("", c);
      assert "" + [c] == [c] + s;
    } else {
      var u, d := s[..|s| - 1], s[|s| - 1];
      ValueCons(c, u);
      ValueConsSnoc(c, u, d, Pow10(|u|));
      assert s == u + [d];
    }
  }

  function Pow10(n: nat): nat
    requires n <= 4
  {
    if n == 0 then 1 else if n == 1 then 10 else if n == 2 then 100 else if n == 3 then 1000 else 10000
  }

  lemma ValueBound(s: string)
    requires IsDigits(s) && |s| <= 4
    ensures Value(s) < Pow10(|s|)
    decreases |s|
  {
    if s != [] { ValueBound(s[..|s| - 1]); }
  }

  lemma Head(s: string)
    requires IsDigits(s) && 0 < |s| <= 5
    ensures IsDigits(s[1..]) && Value(s) == (s[0] - '0') as nat * Pow10(|s| - 1) + Value(s[1..])
    ensures Value(s[1..]) < Pow10(|s| - 1)
  {
    assert s == [s[0]] + s[1..];
    ValueCons(s[0], s[1..]);
    ValueBound(s[1..]);
  }

  lemma Rest190Meaning(s: string)
    ensures PortRest190(s) <==> UpTo(s, 1) && Value(s) <= 5
  {
    if |s| == 1 { assert s[..0] == []; }
  }

  lemma Rest189Meaning(s: string)
    ensures PortRest189(s) <==> UpTo(s, 2) && (|s| < 2 || Value(s) <= 35)
  {
    if s != [] {
      Rest190Meaning(s[1..]);
      UpToStep(s, 1);
      if UpTo(s, 2) { Head(s); }
    }
  }

  lemma Rest188Meaning(s: string)
    ensures PortRest188(s) <==> UpTo(s, 3) && (|s| < 3 || Value(s) <= 535)
  {
    if s != [] {
      Rest189Meaning(s[1..]);
      UpToStep(s, 2);
      if UpTo(s, 3) { Head(s); }
    }
  }

  lemma Rest187Meaning(s: string)
    ensures PortRest187(s) <==> UpTo(s, 4) && (|s| < 4 || Value(s) <= 5535)
  {
    if s != [] {
      Rest188Meaning(s[1..]);
      UpToStep(s, 3);
      if UpTo(s, 4) { Head(s); }
    }
  }

  lemma Rest12Meaning(s: string)
    ensures PortRest12(s) <==> UpTo(s, 1) && s != [] && Value(s) >= 1
  {
    if |s| == 1 { assert s[..0] == []; }
  }

  lemma Rest11Meaning(s: string)
    ensures PortRest11(s) <==> UpTo(s, 2) && s != [] && Value(s) >= 1
  {
    if s != [] {
      Rest12Meaning(s[1..]);
      UpToStep(s, 1);
      if UpTo(s, 2) { Head(s); }
    }
  }

  lemma Rest10Meaning(s: string)
    ensures PortRest10(s) <==> UpTo(s, 3) && s != [] && Value(s) >= 1
  {
    if s != [] {
      Rest11Meaning(s[1..]);
      UpToStep(s, 2);
      if UpTo(s, 3) { Head(s); }
    }
  }

  lemma StartsWithZero(s: string)
    requires s != [] && s[0] == '0'
    ensures PortRest10(s[1..]) <==> IsPort(s)
  {
    hide PortRest10, Value;
    Rest10Meaning(s[1..]);
    UpToStep(s, 3);
    if UpTo(s, 4) { Head(s); }
  }

  lemma StartsWithSix(s: string)
    requires s != [] && s[0] == '6'
    ensures PortRest187(s[1..]) <==> IsPort(s)
  {
    hide PortRest187, Value;
    Rest187Meaning(s[1..]);
    UpToStep(s, 4);
    if UpTo(s, 5) { Head(s); }
  }

  lemma StartsOtherwise(s: string)
    requires s != [] && Between('1', s[0], '9') && s[0] != '6'
    ensures UpTo(s[1..], if s[0] < '6' then 4 else 3) <==> IsPort(s)
  {
    hide Value;
    UpToStep(s, if s[0] < '6' then 4 else 3);
    UpToStep(s, 4);
    if UpTo(s, 5) { Head(s); }
  }

  /** The port states accept exactly the ports. */
  lemma PortsExactly(s: string)
    ensures Final(Run(9, s)) <==> IsPort(s)
  {
    PortRun(9, s);
    if s != [] {
      hide PortRest10, PortRest187, Value, Run;
      if s[0] == '0' { StartsWithZero(s); }
      else if s[0] == '6' { StartsWithSix(s); }
      else if Between('1', s[0], '9') { StartsOtherwise(s); }
    }
  }

  // ---- Octets ----

  /** How far an octet has been read: what its digits so far allow. */
  datatype Place = Start | Done | One | Two | More | TwoFive | Bad

  predicate IsOctet(w: string) {
    IsDigits(w) && 1 <= |w| <= 3 && (|w| > 1 ==> w[0] != '0') && Value(w) <= 255
  }

  function PlaceOf(w: string): Place
    requires IsDigits(w)
  {
    if |w| == 0 then Start
    else if |w| == 1 then
      if w[0] == '0' then Done else if w[0] == '1' then One else if w[0] == '2' then Two else More
    else if |w| == 2 then
      if w[0] == '0' then Bad else if w[0] == '1' then More
      else if w[0] == '2' then (if w[1] == '5' then TwoFive else if w[1] < '5' then More else Done)
      else Done
    else if |w| == 3 then
      if w[0] == '1' then Done
      else if w[0] == '2' then (if w[1] < '5' || (w[1] == '5' && w[2] <= '5') then Done else Bad)
      else Bad
    else Bad
  }

  lemma ValueShort(w: string)
    requires IsDigits(w) && 1 <= |w| <= 3
    ensures |w| == 1 ==> Value(w) == (w[0] - '0') as nat
    ensures |w| == 2 ==> Value(w) == (w[0] - '0') as nat * 10 + (w[1] - '0') as nat
    ensures |w| == 3 ==> Value(w) == (w[0] - '0') as nat * 100 + (w[1] - '0') as nat * 10 + (w[2] - '0') as nat
  {
    Head(w);
    if |w| == 1 {
      assert w[1..] == [];
    } else {
      Head(w[1..]);
      if |w| == 2 { assert w[1..][1..] == []; } else {
        Head(w[1..][1..]);
        assert w[1..][1..][1..] == [];
      }
    }
  }

  lemma PlaceMeaning(w: string)
    requires IsDigits(w)
    ensures IsOctet(w) <==> PlaceOf(w) != Start && PlaceOf(w) != Bad
  {
    if 1 <= |w| <= 3 { ValueShort(w); }
  }

  function NextPlace(p: Place, c: char): Place {
    match p
    case Start => if c == '0' then Done else if c == '1' then One else if c == '2' then Two else More
    case One => More
    case Two => if c == '5' then TwoFive else if c < '5' then More else Done
    case More => Done
    case TwoFive => if c <= '5' then Done else Bad
    case _ => Bad
  }

  lemma PlaceStep(w: string, c: char)
    requires IsDigits(w) && IsDigit(c)
    ensures IsDigits(w + [c]) && PlaceOf(w + [c]) == NextPlace(PlaceOf(w), c)
  {}

  /** The states of octet n (1 to 4) at each place. */
  predicate At(cs: nat, n: nat, p: Place) {
    match p
    case Start => (n == 1 && cs == 1) || (n == 2 && cs == 3) || (n == 3 && cs == 5) || (n == 4 && cs == 7)
    case Done => (n == 1 && cs in {2, 161, 164}) || (n == 2 && cs == 4) || (n == 3 && cs == 6) || (n == 4 && cs == 8)
    case One => (n == 1 && cs == 159) || (n == 2 && cs == 21) || (n == 3 && cs == 17) || (n == 4 && cs == 13)
    case Two => (n == 1 && cs == 162) || (n == 2 && cs == 23) || (n == 3 && cs == 19) || (n == 4 && cs == 15)
    case More => (n == 1 && cs in {160, 165}) || (n == 2 && cs == 22) || (n == 3 && cs == 18) || (n == 4 && cs == 14)
    case TwoFive => (n == 1 && cs == 163) || (n == 2 && cs == 24) || (n == 3 && cs == 20) || (n == 4 && cs == 16)
    case Bad => cs == 0 || cs == SIX
  }

  function Separator(n: nat): char { if n == 4 then '_' else '.' }

  function AfterOctet(n: nat): nat { if n == 1 then 3 else if n == 2 then 5 else if n == 3 then 7 else 9 }

  lemma OctetDigit(cs: nat, n: nat, p: Place, c: char)
    requires 1 <= n <= 4 && At(cs, n, p) && IsDigit(c)
    ensures At(Next(cs, c), n, NextPlace(p, c))
  {}

  lemma OctetOther(cs: nat, n: nat, p: Place, c: char)
    requires 1 <= n <= 4 && At(cs, n, p) && !IsDigit(c)
    ensures c == Separator(n) && p != Start && p != Bad ==> Next(cs, c) == AfterOctet(n)
    ensures c != Separator(n) || p == Start || p == Bad ==> Next(cs, c) == 0 || Next(cs, c) == SIX
  {}

  function LeadDigits(s: string): (k: nat)
    ensures k <= |s| && IsDigits(s[..k]) && (k < |s| ==> !IsDigit(s[k]))
  {
    if s == [] || !IsDigit(s[0]) then 0
    else
      var k := 1 + LeadDigits(s[1..]);
      assert s[..k] == [s[0]] + s[1..][..k - 1];
      k
  }

  /** Octet n, of which w has been read, and everything behind it. */
  predicate Address(n: nat, w: string, s: string)
    requires 1 <= n <= 4 && IsDigits(w)
    decreases 4 - n
  {
    var k := LeadDigits(s);
    k < |s| && s[k] == Separator(n) && IsOctet(w + s[..k])
    && if n == 4 then IsPort(s[k + 1..]) else Address(n + 1, "", s[k + 1..])
  }

  lemma {:induction false} OctetRun(cs: nat, n: nat, w: string, s: string)
    requires 1 <= n <= 4 && IsDigits(w) && At(cs, n, PlaceOf(w))
    ensures Final(Run(cs, s)) <==> Address(n, w, s)
    decreases 4 - n, |s|
  {
    if s != [] {
      var cs' := Next(cs, s[0]);
      if IsDigit(s[0]) {
        OctetDigit(cs, n, PlaceOf(w), s[0]);
        PlaceStep(w, s[0]);
        OctetRun(cs', n, w + [s[0]], s[1..]);
        AddressDigit(n, w, s);
      } else {
        OctetOther(cs, n, PlaceOf(w), s[0]);
        PlaceMeaning(w);
        assert w + s[..0] == w;
        if cs' == 0 || cs' == SIX {
          ErrorStays(s[1..]);
        } else if n == 4 {
          PortsExactly(s[1..]);
        } else {
          OctetRun(cs', n + 1, "", s[1..]);
        }
      }
    } else {
      assert !Final(cs);
    }
  }

  lemma AddressDigit(n: nat, w: string, s: string)
    requires 1 <= n <= 4 && IsDigits(w) && s != [] && IsDigit(s[0])
    ensures IsDigits(w + [s[0]]) && (Address(n, w, s) <==> Address(n, w + [s[0]], s[1..]))
  {
    var k := LeadDigits(s[1..]);
    assert LeadDigits(s) == k + 1;
    assert w + s[..k + 1] == w + [s[0]] + s[1..][..k];
    if k + 1 < |s| {
      assert s[1..][k] == s[k + 1];
      assert s[1..][k + 1..] == s[k + 2..];
    }
  }

  /** The automaton accepts, by its IPv4 states, exactly four canonical octets and a port. */
  lemma AcceptsExactlyAddresses(s: string)
    ensures Accepts(s) <==> Address(1, "", s)
  {
    OctetRun(1, 1, "", s);
  }
}

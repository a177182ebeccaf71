/** `outbound_udp_flow_token_parser_execute`, and the lookup of a flow by its token. */
module FlowParser {
  import opened Wrappers
  import opened Bytes
  import opened Decimal
  import opened FlowGrammar
  import opened FlowToken

  // ---- What is accepted, as text ----

  /** Dotted decimal. */
  function Dotted(os: seq<byte>): string
    requires |os| > 0
  {
    if |os| == 1 then Text(os[0]) else Text(os[0]) + "." + Dotted(os[1..])
  }

  lemma {:induction false} Canonical(w: string)
    requires IsDigits(w) && |w| >= 1 && (|w| > 1 ==> w[0] != '0')
    ensures w == Text(Value(w)) && (|w| > 1 ==> Value(w) > 0)
    decreases |w|
  {
    var u, d := w[..|w| - 1], (w[|w| - 1] - '0') as nat;
    assert w == u + [Digit(d)];
    if |w| == 1 {
      assert Value(u) == 0;
    } else {
      Canonical(u);
      if |w| == 2 { assert u == [w[0]]; assert u[..0] == []; assert Value(u) == (w[0] - '0') as nat; }
      assert Value(u) > 0;
      assert Value(w) / 10 == Value(u) && Value(w) % 10 == d;
    }
  }

  lemma TextLength(n: nat)
    ensures n < 1000 ==> |Text(n)| <= 3
    ensures n < 100000 ==> |Text(n)| <= 5
  {
    TextShrinks(n);
    TextShrinks(n / 10);
    TextShrinks(n / 10 / 10);
    TextShrinks(n / 10 / 10 / 10);
    TextShrinks(n / 10 / 10 / 10 / 10);
  }

  lemma TextShrinks(n: nat)
    ensures |Text(n)| == if n < 10 then 1 else |Text(n / 10)| + 1
  {}

  lemma OctetText(o: byte)
    ensures IsOctet(Text(o))
  {
    hide Text, Value;
    TextIsDigits(o);
    TextLength(o);
    NoLeadingZero(o);
  }

  lemma NoLeadingZero(n: nat)
    ensures IsDigits(Text(n)) && (|Text(n)| > 1 ==> Text(n)[0] != '0')
  {
    TextIsDigits(n);
  }

  lemma PortText(p: nat)
    ensures IsPort(Text(p)) <==> 1 <= p <= 65535
  {
    hide Text, Value;
    TextIsDigits(p);
    TextLength(p);
    NoLeadingZero(p);
  }

  lemma LeadDigitsAre(w: string, c: char, t: string)
    requires IsDigits(w) && !IsDigit(c)
    ensures LeadDigits(w + [c] + t) == |w| && (w + [c] + t)[..|w|] == w && (w + [c] + t)[|w| + 1..] == t
  {
    hide LeadDigits;
    var s, k := w + [c] + t, LeadDigits(w + [c] + t);
    assert s[|w|] == c;
    assert forall i :: 0 <= i < |w| ==> s[i] == w[i];
    assert forall i :: 0 <= i < k ==> s[..k][i] == s[i];
    assert k <= |w|;
    assert k >= |w|;
  }

  /** Octets n to 4 printed, `_`, and any text behind. */
  lemma {:induction false} AddressOfText(n: nat, os: seq<byte>, t: string)
    requires 1 <= n <= 4 && |os| == 5 - n
    ensures Address(n, "", Dotted(os) + "_" + t) <==> IsPort(t)
    decreases 4 - n
  {
    hide LeadDigits, IsOctet, IsPort, Text;
    var w := Text(os[0]);
    OctetText(os[0]);
    TextIsDigits(os[0]);
    assert "" + w == w;
    if n == 4 {
      LeadDigitsAre(w, '_', t);
    } else {
      var rest := Dotted(os[1..]) + "_" + t;
      assert Dotted(os) + "_" + t == w + ['.'] + rest;
      LeadDigitsAre(w, '.', rest);
      AddressOfText(n + 1, os[1..], t);
    }
  }

  lemma FirstIsOctet(n: nat, s: string)
    requires 1 <= n <= 4 && Address(n, "", s)
    ensures IsDigits(s[..LeadDigits(s)]) && Value(s[..LeadDigits(s)]) <= 255
  {
    assert "" + s[..LeadDigits(s)] == s[..LeadDigits(s)];
  }

  /** The octets of an accepted address, and the text of its port. */
  function OctetsOf(n: nat, s: string): seq<byte>
    requires 1 <= n <= 4 && Address(n, "", s)
    decreases 4 - n
  {
    var k := LeadDigits(s);
    FirstIsOctet(n, s);
    [Value(s[..k])] + if n == 4 then [] else OctetsOf(n + 1, s[k + 1..])
  }

  function PortOf(n: nat, s: string): string
    requires 1 <= n <= 4 && Address(n, "", s)
    decreases 4 - n
  {
    if n == 4 then s[LeadDigits(s) + 1..] else PortOf(n + 1, s[LeadDigits(s) + 1..])
  }

  lemma FirstOctet(n: nat, s: string)
    requires 1 <= n <= 4 && Address(n, "", s)
    ensures var k := LeadDigits(s);
      && k < |s| && IsDigits(s[..k]) && s[..k] == Text(Value(s[..k]))
      && s == s[..k] + [Separator(n)] + s[k + 1..]
  {
    hide LeadDigits, IsPort, Text, Value;
    var k := LeadDigits(s);
    var w := s[..k];
    assert "" + w == w;
    Canonical(w);
    assert s == w + [s[k]] + s[k + 1..];
  }

  /** One unfolding, for the last octet and for the others. */
  lemma LastOctetStep(s: string)
    requires Address(4, "", s)
    ensures var k := LeadDigits(s);
      && k < |s| && IsDigits(s[..k]) && Value(s[..k]) <= 255
      && OctetsOf(4, s) == [Value(s[..k])] && PortOf(4, s) == s[k + 1..] && IsPort(s[k + 1..])
  {
    hide IsOctet, IsPort, Value, IsDigits;
    FirstIsOctet(4, s);
  }

  lemma OctetsStep(n: nat, s: string)
    requires 1 <= n < 4 && Address(n, "", s)
    ensures var k := LeadDigits(s);
      && k < |s| && IsDigits(s[..k]) && Value(s[..k]) <= 255 && Address(n + 1, "", s[k + 1..])
      && OctetsOf(n, s) == [Value(s[..k])] + OctetsOf(n + 1, s[k + 1..])
      && PortOf(n, s) == PortOf(n + 1, s[k + 1..])
  {
    hide IsOctet, IsPort, Value, IsDigits;
    FirstIsOctet(n, s);
  }

  lemma DottedCons(o: byte, os: seq<byte>)
    ensures Dotted([o]) == Text(o)
    ensures os != [] ==> Dotted([o] + os) == Text(o) + "." + Dotted(os)
  {
    assert ([o] + os)[1..] == os;
  }

  /** Nothing but canonical addresses is accepted. */
  lemma {:induction false} AddressShape(n: nat, s: string)
    requires 1 <= n <= 4 && Address(n, "", s)
    ensures |OctetsOf(n, s)| == 5 - n && IsPort(PortOf(n, s))
    ensures s == Dotted(OctetsOf(n, s)) + "_" + PortOf(n, s)
    decreases 4 - n
  {
    hide LeadDigits, IsPort, Text, Value, IsDigits, IsOctet, Address, OctetsOf, PortOf, Dotted;
    var k := LeadDigits(s);
    FirstOctet(n, s);
    if n < 4 {
      OctetsStep(n, s);
      AddressShape(n + 1, s[k + 1..]);
      DottedCons(Value(s[..k]), OctetsOf(n + 1, s[k + 1..]));
    } else {
      LastOctetStep(s);
      DottedCons(Value(s[..k]), []);
    }
  }

  // ---- The parser ----

  /** Its answer: an IPv4 flow, `false`, or whatever the IPv6 states make of the text. */
  datatype Parsed = V4(ip: string, port: nat) | Invalid | ByV6States

  function Parse(s: string): Parsed {
    if Accepts(s) then
      AcceptsExactlyAddresses(s);
      AddressShape(1, s);
      V4(Dotted(OctetsOf(1, s)), Value(PortOf(1, s)))
    else if Run(1, s) == SIX then ByV6States
    else Invalid
  }

  predicate OctetState(cs: nat) { 1 <= cs <= 8 || 13 <= cs <= 24 || 159 <= cs <= 165 }

  lemma OctetStep(cs: nat, c: char)
    requires OctetState(cs)
    ensures var next := Next(cs, c);
      next == 0 || next == SIX || (OctetState(next) && next != 1 && c != '_') || (next == 9 && c == '_')
  {}

  lemma PortDigit(cs: nat, c: char)
    requires PortState(cs) && Next(cs, c) != 0
    ensures PortState(Next(cs, c)) && Next(cs, c) != 9 && IsDigit(c)
    ensures Final(cs) ==> Final(Next(cs, c))
  {}

  lemma {:induction false} RunSnoc(cs: nat, s: string, c: char)
    ensures Run(cs, s + [c]) == Next(Run(cs, s), c)
    decreases |s|
  {
    if s != [] {
      assert (s + [c])[1..] == s[1..] + [c];
      RunSnoc(Next(cs, s[0]), s[1..], c);
    } else {
      assert s + [c] == [c];
      assert Run(Next(cs, c), [c][1..]) == Next(cs, c);
    }
  }

  lemma {:induction false} RunConcat(cs: nat, s: string, t: string)
    ensures Run(cs, s + t) == Run(Run(cs, s), t)
    decreases |s|
  {
    if s == [] {
      assert s + t == t;
    } else {
      assert (s + t)[1..] == s[1..] + t;
      RunConcat(Next(cs, s[0]), s[1..], t);
    }
  }

  /** The state before character p. */
  function StateAt(s: string, p: nat): nat
    requires p <= |s|
  {
    Run(1, s[..p])
  }

  lemma StateStep(s: string, p: nat)
    requires p < |s|
    ensures StateAt(s, p + 1) == Next(StateAt(s, p), s[p])
  {
    hide Next, Run;
    assert s[..p + 1] == s[..p] + [s[p]];
    RunSnoc(1, s[..p], s[p]);
  }

  lemma StateEnds(s: string)
    ensures StateAt(s, 0) == 1 && StateAt(s, |s|) == Run(1, s) && Marked(s, 0, 1, 0)
  {
    assert s[..|s|] == s;
  }

  lemma Doomed(s: string, k: nat)
    requires k <= |s| && StateAt(s, k) == 0
    ensures Run(1, s) == 0
  {
    assert s == s[..k] + s[k..];
    RunConcat(1, s[..k], s[k..]);
    ErrorStays(s[k..]);
  }

  /** The first underscore splits an accepted text. */
  lemma SplitUnique(ip: string, port: string, os: seq<byte>, port': string)
    requires |os| > 0 && ip + "_" + port == Dotted(os) + "_" + port'
    requires '_' !in ip
    ensures ip == Dotted(os) && port == port'
  {
    hide Dotted;
    var s, d := ip + "_" + port, Dotted(os);
    NoUnderscore(os);
    assert s[|ip|] == '_' && s[|d|] == '_';
    assert forall i :: 0 <= i < |ip| ==> s[i] == ip[i] && s[i] != '_';
    assert forall i :: 0 <= i < |d| ==> s[i] == d[i] && s[i] != '_';
    assert s[..|ip|] == ip && s[..|d|] == d;
    assert s[|ip| + 1..] == port && s[|d| + 1..] == port';
  }

  lemma {:induction false} NoUnderscore(os: seq<byte>)
    requires |os| > 0
    ensures '_' !in Dotted(os)
  {
    TextIsDigits(os[0]);
    if |os| > 1 {
      NoUnderscore(os[1..]);
    }
  }

  lemma ParseAccepted(s: string)
    requires Accepts(s)
    ensures Address(1, "", s) && |OctetsOf(1, s)| == 4 && IsPort(PortOf(1, s))
    ensures s == Dotted(OctetsOf(1, s)) + "_" + PortOf(1, s)
    ensures Parse(s) == V4(Dotted(OctetsOf(1, s)), Value(PortOf(1, s)))
  {
    hide Accepts, Dotted, IsPort, Address;
    AcceptsExactlyAddresses(s);
    AddressShape(1, s);
  }

  lemma ParseRejected(s: string)
    ensures Accepts(s) <==> Final(Run(1, s))
    ensures !Accepts(s) ==> Parse(s) == if Run(1, s) == SIX then ByV6States else Invalid
  {}

  /** What the marks of the parser amount to. */
  lemma MarksGiveParse(str: string, k: nat)
    requires k < |str| && str[k] == '_' && '_' !in str[..k] && IsDigits(str[k + 1..])
    requires Accepts(str)
    ensures Parse(str) == V4(str[..k], Value(str[k + 1..])) && IsPort(str[k + 1..])
  {
    hide Accepts, Parse, Address, OctetsOf, PortOf, Dotted, IsPort, Value;
    ParseAccepted(str);
    assert str == str[..k] + "_" + str[k + 1..];
    SplitUnique(str[..k], str[k + 1..], OctetsOf(1, str), PortOf(1, str));
  }

  predicate KnownState(cs: nat) { cs == SIX || OctetState(cs) || PortState(cs) }

  /** Up to p, where the state is cs, the address is still being read or ended at `ipLen`. */
  predicate Marked(str: string, p: nat, cs: nat, ipLen: nat)
    requires p <= |str|
  {
    && (OctetState(cs) ==> '_' !in str[..p])
    && (PortState(cs) ==>
          && ipLen < p && str[ipLen] == '_' && '_' !in str[..ipLen]
          && IsDigits(str[ipLen + 1..p]) && (cs == 9 <==> p == ipLen + 1))
  }

  lemma MarkedStep(str: string, p: nat, cs: nat, ipLen: nat)
    requires p < |str| && KnownState(cs) && Marked(str, p, cs, ipLen)
    ensures var next := Next(cs, str[p]);
      next != 0 ==>
        && KnownState(next) && next != 1 && (Final(cs) ==> Final(next))
        && Marked(str, p + 1, next, if next == 9 then p else ipLen)
        && (PortState(next) && next != 9 <==> PortState(cs))
  {
    hide Next;
    var next := Next(cs, str[p]);
    assert str[..p + 1] == str[..p] + [str[p]];
    if cs == SIX {
      SixStays(str[p]);
    } else if OctetState(cs) {
      OctetStep(cs, str[p]);
    } else if next != 0 {
      PortDigit(cs, str[p]);
      assert str[ipLen + 1..p + 1] == str[ipLen + 1..p] + [str[p]];
    }
  }

  lemma SixStays(c: char)
    ensures Next(SIX, c) == SIX
  {}

  method ParseFlowToken(str: string) returns (r: Parsed)
    ensures r == Parse(str)
  {
    hide StateAt, Next, Run, Address, Parse, Accepts, Marked, IsPort, IsDigits, Value;
    var cs, p, finished := 1, 0, false;
    var ipS, ipLen, portS, portLen := 0, 0, 0, 0;
    StateEnds(str);
    while p < |str| && cs != 0
      invariant 0 <= p <= |str| && 0 <= ipLen && ipS == 0 && (cs == 1 ==> p == 0)
      invariant cs == 0 ==> p < |str| && Run(1, str) == 0
      invariant cs != 0 ==> StateAt(str, p) == cs && KnownState(cs) && Marked(str, p, cs, ipLen)
      invariant PortState(cs) && cs != 9 ==> portS == ipLen + 1
      invariant cs != 0 ==> (finished <==> Final(cs))
      invariant Final(cs) ==> portLen == p - portS
      decreases |str| - p, cs
    {
      var next := Next(cs, str[p]);
      StateStep(str, p);
      MarkedStep(str, p, cs, ipLen);
      if next == 0 {
        Doomed(str, p + 1);
        cs := 0;
      } else {
        if cs == 1 { ipS := p; }
        if next == 9 { ipLen := p - ipS; }
        if cs == 9 { MarkedAtNine(str, p, ipLen); portS := p; }
        if Final(next) {
          portLen := p - portS + 1;
          finished := true;
        }
        cs, p := next, p + 1;
      }
    }
    ParseRejected(str);
    if finished && p == |str| {
      ParseAtEnd(str, cs, ipLen);
      assert str[portS..portS + portLen] == str[ipLen + 1..];
      var port := StrToInt(str[portS..portS + portLen]);
      r := V4(str[ipS..ipS + ipLen], port);
    } else {
      r := if cs == SIX then ByV6States else Invalid;
    }
  }

  lemma MarkedAtNine(str: string, p: nat, ipLen: nat)
    requires p <= |str| && Marked(str, p, 9, ipLen)
    ensures p == ipLen + 1
  {}

  lemma ParseAtEnd(str: string, cs: nat, ipLen: nat)
    requires Run(1, str) == cs && Final(cs) && Marked(str, |str|, cs, ipLen)
    ensures ipLen < |str| && IsDigits(str[ipLen + 1..]) && Value(str[ipLen + 1..]) <= 65535
    ensures Parse(str) == V4(str[..ipLen], Value(str[ipLen + 1..]))
  {
    hide Next, Run, Address, Parse, Accepts, Value;
    ParseRejected(str);
    assert str[ipLen + 1..|str|] == str[ipLen + 1..];
    MarksGiveParse(str, ipLen);
  }

  // ---- Lookup ----

  /** A flow found by `get_outbound_connection`: the UDP server with an address, a tampered token
      (`false`), or what the table of connections holds. */
  datatype Flow<C> = Udp4(ip: string, port: nat) | Udp6 | Tampered | Table(connection: Option<C>)

  function Find<C>(table: map<string, C>, token: string): Flow<C> {
    if token != "" && token[0] == '_' then
      match Parse(Payload(token))
      case V4(ip, port) => Udp4(ip, port)
      case ByV6States => Udp6
      case Invalid => Tampered
    else Table(if token in table then Some(table[token]) else None)
  }

  /** The round trip: the address and port of an IPv4 flow come back, for exactly the ports 1 to 65535. */
  lemma FlowRoundTrip<C>(table: map<string, C>, os: seq<byte>, port: nat)
    requires |os| == 4
    ensures Narrow(Dotted(os))
    ensures Find(table, Token(Dotted(os), port)) == Udp4(Dotted(os), port) <==> 1 <= port <= 65535
    ensures !(1 <= port <= 65535) ==> !Find(table, Token(Dotted(os), port)).Udp4?
  {
    hide Parse, Token, Payload;
    DottedNarrow(os);
    TokenDecoded(Dotted(os), port);
    ParsePrinted(os, port);
    TokenMark(Dotted(os), port);
  }

  lemma TokenMark(ip: string, port: nat)
    requires Narrow(ip)
    ensures Token(ip, port) != "" && Token(ip, port)[0] == '_'
  {}

  lemma ParsePrinted(os: seq<byte>, port: nat)
    requires |os| == 4
    ensures Parse(IpPort(Dotted(os), port)) == V4(Dotted(os), port) <==> 1 <= port <= 65535
    ensures !(1 <= port <= 65535) ==> !Parse(IpPort(Dotted(os), port)).V4?
  {
    hide Text, Value, Dotted, Accepts, IsPort;
    var ip, t := Dotted(os), Text(port);
    var s := IpPort(ip, port);
    TextIsDigits(port);
    AddressOfText(1, os, t);
    PortText(port);
    AcceptsExactlyAddresses(s);
    NoUnderscore(os);
    assert s[..|ip|] == ip && s[|ip|] == '_' && s[|ip| + 1..] == t;
    if 1 <= port <= 65535 {
      MarksGiveParse(s, |ip|);
    }
  }

  lemma {:induction false} DottedNarrow(os: seq<byte>)
    requires |os| > 0
    ensures Narrow(Dotted(os)) && forall c :: c in Dotted(os) ==> AddressChar(c)
  {
    TextIsDigits(os[0]);
    if |os| > 1 {
      DottedNarrow(os[1..]);
    }
  }

  lemma PortInRange(p: string)
    requires IsPort(p)
    ensures IsDigits(p) && 1 <= Value(p) <= 65535
  {}

  /** Whatever token a peer sends, an IPv4 flow found by it has a canonical address and a port in range. */
  lemma FoundFlowsAreAddresses<C>(table: map<string, C>, token: string)
    requires Find(table, token).Udp4?
    ensures var f := Find(table, token);
      1 <= f.port <= 65535 && exists os: seq<byte> :: |os| == 4 && f.ip == Dotted(os)
  {
    hide Accepts, Dotted, OctetsOf, PortOf, Address, Value, Payload;
    var s := Payload(token);
    ParseAccepted(s);
    var os := OctetsOf(1, s);
    assert |os| == 4 && Find(table, token).ip == Dotted(os);
    PortInRange(PortOf(1, s));
  }

  // ---- The table of connections ----

  predicate IsHex(s: string) { forall c :: c in s ==> '0' <= c <= '9' || 'a' <= c <= 'f' }

  class TransportManager<C> {
    /** `@outbound_connections` */
    var outboundConnections: map<string, C>

    method GetOutboundConnection(flowToken: string) returns (f: Flow<C>)
      ensures f == Find(outboundConnections, flowToken)
    {
      if flowToken != "" && flowToken[0] == '_' {
        var parsed := ParseFlowToken(Payload(flowToken));
        match parsed {
          case V4(ip, port) => f := Udp4(ip, port);
          case ByV6States => f := Udp6;
          case Invalid => f := Tampered;
        }
      } else {
        f := Table(if flowToken in outboundConnections then Some(outboundConnections[flowToken]) else None);
      }
    }

    /** random stands for the ten hexadecimal digits drawn by `SecureRandom.hex(5)`. */
    method AddOutboundConnection(connection: C, random: string) returns (token: string)
      requires |random| == 10 && IsHex(random)
      modifies this
      ensures token == random && outboundConnections == old(outboundConnections)[token := connection]
      ensures Find(outboundConnections, token) == Table(Some(connection))
      ensures forall t :: t != token ==> Find(outboundConnections, t) == Find(old(outboundConnections), t)
    {
      token := random;
      assert token[0] in token;
      outboundConnections := outboundConnections[token := connection];
    }

    method DeleteOutboundConnection(token: string)
      modifies this
      ensures outboundConnections == old(outboundConnections) - {token}
      ensures IsHex(token) ==> Find(outboundConnections, token) == Table(None)
      ensures forall t :: t != token ==> Find(outboundConnections, t) == Find(old(outboundConnections), t)
    {
      outboundConnections := outboundConnections - {token};
      assert token != "" ==> token[0] in token;
    }
  }
}

/** The token of a UDP flow (section 5.3 of RFC 5626): printed, and taken apart again. */
module FlowToken {
  import opened Bytes
  import opened Decimal
  import Base64

  /** `"#{ip}_#{port}"` */
  function IpPort(ip: string, port: nat): string { ip + "_" + Text(port) }

  /** The characters of a Ruby string without multibyte characters. */
  predicate Narrow(s: string) { forall i :: 0 <= i < |s| ==> s[i] as int < 256 }

  function ToBytes(s: string): seq<byte>
    requires Narrow(s)
  {
    seq(|s|, i requires 0 <= i < |s| => s[i] as int)
  }

  function FromBytes(b: seq<byte>): string { seq(|b|, i requires 0 <= i < |b| => b[i] as char) }

  lemma BytesRoundTrip(s: string)
    requires Narrow(s)
    ensures FromBytes(ToBytes(s)) == s
  {}

  /** `gsub` of one character by another. */
  function Subst(s: string, x: char, y: char): (r: string)
    ensures |r| == |s|
  {
    seq(|s|, i requires 0 <= i < |s| => if s[i] == x then y else s[i])
  }

  /** `connection_outbound_flow_token` of a request received over UDP. */
  function Token(ip: string, port: nat): string
    requires Narrow(ip)
  {
    NarrowIpPort(ip, port);
    "_" + Subst(Base64.Encode(ToBytes(IpPort(ip, port))), '=', '-')
  }

  /** `Base64.decode64 flow_token.gsub(/-/,"=")` */
  function Payload(token: string): string { FromBytes(Base64.Decode(Subst(token, '-', '='))) }

  lemma NarrowIpPort(ip: string, port: nat)
    requires Narrow(ip)
    ensures Narrow(IpPort(ip, port))
  {
    TextIsDigits(port);
  }

  // ---- Alphabet ----

  predicate Plain(c: char) { c == '=' || Base64.SymbolValue(c).Some? }

  lemma SymbolPlain(v: Base64.Sextet)
    ensures Plain(Base64.Symbol(v)) && Base64.Symbol(v) != '-'
  {
    Base64.SymbolRoundTrip(v);
  }

  lemma {:induction false} EncodePlain(b: seq<byte>)
    ensures forall c :: c in Base64.Encode(b) ==> Plain(c) && c != '-'
    decreases |b|
  {
    assert Plain('=');
    hide Base64.Symbol, Base64.S1, Base64.S2, Base64.S3, Base64.S4, Plain;
    if |b| > 0 {
      SymbolPlain(Base64.S1(b[0]));
      SymbolPlain(Base64.S2(b[0], if |b| > 1 then b[1] else 0));
      if |b| > 1 {
        SymbolPlain(Base64.S3(b[1], if |b| > 2 then b[2] else 0));
        if |b| > 2 {
          SymbolPlain(Base64.S4(b[2]));
          EncodePlain(b[3..]);
        }
      }
    }
  }

  lemma SubstBack(s: string)
    requires '-' !in s
    ensures Subst(Subst(s, '=', '-'), '-', '=') == s
  {
    var t := Subst(Subst(s, '=', '-'), '-', '=');
    forall i | 0 <= i < |s| ensures t[i] == s[i] {
      assert s[i] in s;
    }
  }

  lemma SkipsUnderscore(s: string)
    ensures Base64.Decode("_" + s) == Base64.Decode(s)
  {
    assert ("_" + s)[1..] == s;
  }

  /** Decoding a UDP token gives back the text it was made from. */
  lemma TokenDecoded(ip: string, port: nat)
    requires Narrow(ip)
    ensures Payload(Token(ip, port)) == IpPort(ip, port)
  {
    hide Base64.Encode, Base64.Decode;
    var s := IpPort(ip, port);
    NarrowIpPort(ip, port);
    var e := Base64.Encode(ToBytes(s));
    EncodePlain(ToBytes(s));
    SubstBack(e);
    assert Subst("_" + Subst(e, '=', '-'), '-', '=') == "_" + e;
    SkipsUnderscore(e);
    Base64.RoundTrip(ToBytes(s));
    BytesRoundTrip(s);
  }

  lemma PortHasNoUnderscore(ip: string, port: nat, i: nat)
    requires i < |IpPort(ip, port)|
    ensures i > |ip| ==> IpPort(ip, port)[i] != '_'
  {
    TextIsDigits(port);
    if i > |ip| {
      assert IpPort(ip, port)[i] == Text(port)[i - |ip| - 1];
    }
  }

  lemma IpPortUnique(ip: string, port: nat, ip': string, port': nat)
    requires IpPort(ip, port) == IpPort(ip', port')
    ensures ip == ip' && port == port'
  {
    var s, t, t' := IpPort(ip, port), Text(port), Text(port');
    assert s[|ip|] == '_' && s[|ip'|] == '_';
    assert |s| == |ip| + 1 + |t| && |s| == |ip'| + 1 + |t'|;
    PortHasNoUnderscore(ip, port, |ip'|);
    PortHasNoUnderscore(ip', port', |ip|);
    assert s[..|ip|] == ip && s[..|ip'|] == ip';
    assert s[|ip| + 1..] == t && s[|ip'| + 1..] == t';
    TextUnique(port, port');
  }

  /** The comparison of `loose_route`: two UDP tokens are equal exactly when the flows are the same,
      whatever the addresses (IPv4 or IPv6 text) and ports. */
  lemma TokenDecidesFlow(ip: string, port: nat, ip': string, port': nat)
    requires Narrow(ip) && Narrow(ip')
    ensures Token(ip, port) == Token(ip', port') <==> ip == ip' && port == port'
  {
    if Token(ip, port) == Token(ip', port') {
      TokenDecoded(ip, port);
      TokenDecoded(ip', port');
      IpPortUnique(ip, port, ip', port');
    }
  }

  // ---- The token as a URI parameter value ----

  /** `[_\-0-9A-Za-z]` */
  predicate TokenChar(c: char) {
    c == '_' || c == '-' || '0' <= c <= '9' || 'A' <= c <= 'Z' || 'a' <= c <= 'z'
  }

  /** Digits, the dot, the colon, hexadecimal letters and the underscore. */
  predicate AddressByte(b: byte) {
    b == 0x2E || 0x30 <= b <= 0x3A || 0x41 <= b <= 0x46 || 0x61 <= b <= 0x66 || b == 0x5F
  }

  /** The third symbol is the close one: an underscore can bring it to 61, and `+` is 62. */
  lemma SextetsStayBelow62(a: byte, b: byte, c: byte)
    requires AddressByte(a) && (b == 0 || AddressByte(b)) && (c == 0 || AddressByte(c))
    ensures Base64.S1(a) < 62 && Base64.S2(a, b) < 62 && Base64.S3(b, c) < 62 && Base64.S4(c) < 62
  {}

  lemma LowSymbol(v: Base64.Sextet)
    requires v < 62
    ensures TokenChar(Base64.Symbol(v))
  {}

  predicate OfToken(s: string) { forall c :: c in s ==> c == '=' || TokenChar(c) }

  lemma {:induction false} EncodeAddress(b: seq<byte>)
    requires forall x :: x in b ==> AddressByte(x)
    ensures OfToken(Base64.Encode(b))
    decreases |b|
  {
    hide Base64.Symbol, Base64.S1, Base64.S2, Base64.S3, Base64.S4, TokenChar, AddressByte;
    if |b| > 0 {
      var b1, b2 := if |b| > 1 then b[1] else 0, if |b| > 2 then b[2] else 0;
      SextetsStayBelow62(b[0], b1, b2);
      LowSymbol(Base64.S1(b[0]));
      LowSymbol(Base64.S2(b[0], b1));
      LowSymbol(Base64.S3(b1, b2));
      LowSymbol(Base64.S4(b2));
      if |b| > 2 {
        EncodeAddress(b[3..]);
      }
    }
  }

  predicate AddressChar(c: char) {
    c == '.' || c == ':' || IsDigit(c) || 'a' <= c <= 'f' || 'A' <= c <= 'F'
  }

  /** The Base64 text of an IPv4 or IPv6 flow holds neither `+` nor `/`: the token lies in `[_\-0-9A-Za-z]+`. */
  lemma TokenAlphabet(ip: string, port: nat)
    requires forall c :: c in ip ==> AddressChar(c)
    ensures Narrow(ip) && |Token(ip, port)| > 0 && forall c :: c in Token(ip, port) ==> TokenChar(c)
  {
    hide Base64.Encode;
    forall i | 0 <= i < |ip| ensures ip[i] as int < 256 {
      assert ip[i] in ip;
    }
    var s := IpPort(ip, port);
    NarrowIpPort(ip, port);
    TextIsDigits(port);
    forall x | x in ToBytes(s) ensures AddressByte(x) {
      var i :| 0 <= i < |s| && x == s[i] as int;
      if i < |ip| {
        assert ip[i] in ip;
      } else if i > |ip| {
        assert s[i] == Text(port)[i - |ip| - 1];
      }
    }
    EncodeAddress(ToBytes(s));
    var e := Base64.Encode(ToBytes(s));
    forall c | c in Token(ip, port) ensures TokenChar(c) {
      if c != '_' {
        var i :| 0 <= i < |e| && c == Subst(e, '=', '-')[i];
        assert e[i] in e;
      }
    }
  }
}

/** Printed URIs read back: nothing of a URI is lost or confused by `to_s`. */
module UriText {
  import opened Wrappers
  import Decimal
  import opened Mangling

  /** Where the first of the given characters stands. */
  function Find(s: string, stop: set<char>): (n: nat)
    ensures n <= |s|
  {
    if s == "" || s[0] in stop then 0 else 1 + Find(s[1..], stop)
  }

  predicate Without(s: string, stop: set<char>) { forall c :: c in s ==> c !in stop }

  lemma {:induction false} FindAt(a: string, b: string, stop: set<char>)
    requires Without(a, stop) && (b == "" || b[0] in stop)
    ensures Find(a + b, stop) == |a| && (a + b)[..|a|] == a && (a + b)[|a|..] == b
  {
    if a == "" {
      assert a + b == b;
    } else {
      assert a[0] in a && (a + b)[1..] == a[1..] + b;
      forall c | c in a[1..] ensures c in a {}
      FindAt(a[1..], b, stop);
    }
  }

  // ---- Reading ----

  function ReadParam(item: string): Param {
    var k := Find(item, {'='});
    Param(item[..k], if k < |item| then Some(item[k + 1..]) else None)
  }

  function ReadParams(s: string): seq<Param>
    decreases |s|
  {
    if s == "" || s[0] != ';' then []
    else var n := Find(s[1..], {';'}); [ReadParam(s[1..][..n])] + ReadParams(s[1..][n..])
  }

  /** The length of a host: an IPv6 reference ends with its bracket. */
  function HostEnd(s: string): (n: nat)
    ensures n <= |s|
  {
    if s != "" && s[0] == '[' then var n := Find(s, {']'}); if n < |s| then n + 1 else n
    else Find(s, {':', ';', '?'})
  }

  /** Parameters and headers. */
  function ReadEnd(scheme: string, user: Option<string>, host: string, port: Option<nat>, s: string): Parts {
    var q := Find(s, {'?'});
    Sip(scheme, user, host, port, ReadParams(s[..q]), s[q..])
  }

  function ReadPort(s: string): Option<nat> {
    var n := Find(s, {';', '?'});
    if s != "" && s[0] == ':' && 0 < n && Decimal.IsDigits(s[1..n]) then Some(Decimal.Value(s[1..n])) else None
  }

  function ReadHost(scheme: string, user: Option<string>, s: string): Parts {
    var r := s[HostEnd(s)..];
    ReadEnd(scheme, user, s[..HostEnd(s)], ReadPort(r), if ReadPort(r).Some? then r[Find(r, {';', '?'})..] else r)
  }

  /** A SIP URI from its text. */
  function Read(s: string): Parts {
    var i := Find(s, {':'});
    if i == |s| then Other
    else
      var r := s[i + 1..];
      var j := Find(r, {'@'});
      if j < |r| then ReadHost(s[..i], Some(r[..j]), r[j + 1..]) else ReadHost(s[..i], None, r)
  }

  // ---- What a parsed SIP URI is made of (section 25.1 of RFC 3261) ----

  predicate GoodParam(p: Param) {
    Without(p.name, {';', '=', '?', '@'}) && (p.value.Some? ==> Without(p.value.value, {';', '?', '@'}))
  }

  predicate GoodHost(host: string) {
    if host != "" && host[0] == '[' then
      |host| > 1 && host[|host| - 1] == ']' && Without(host[..|host| - 1], {']', '@'})
    else Without(host, {':', ';', '?', '@'})
  }

  predicate Good(u: Parts) {
    && u.Sip? && Without(u.scheme, {':'}) && (u.user.Some? ==> Without(u.user.value, {'@'}))
    && GoodHost(u.host) && (forall p :: p in u.params ==> GoodParam(p))
    && (u.headers == "" || u.headers[0] == '?') && Without(u.headers, {'@'})
  }

  // ---- Reading what was printed ----

  function PrintParam(p: Param): string { p.name + if p.value.Some? then "=" + p.value.value else "" }

  lemma ParamReadsBack(p: Param)
    requires GoodParam(p)
    ensures ReadParam(PrintParam(p)) == p && Without(PrintParam(p), {';', '?', '@'})
  {
    hide Find;
    var b := if p.value.Some? then "=" + p.value.value else "";
    ParamWithout(p);
    assert Without(p.name, {'='});
    hide Without;
    FindAt(p.name, b, {'='});
    if p.value.Some? { assert b[1..] == p.value.value && PrintParam(p)[|p.name| + 1..] == b[1..]; }
  }

  lemma ParamWithout(p: Param)
    requires GoodParam(p)
    ensures Without(PrintParam(p), {';', '?', '@'})
  {
    if p.value.Some? {
      assert Without("=" + p.value.value, {';', '?', '@'});
      BothWithout(p.name, "=" + p.value.value, {';', '?', '@'});
    } else {
      assert PrintParam(p) == p.name;
    }
  }

  lemma ParamsFirst(ps: seq<Param>)
    requires ps != []
    ensures PrintParams(ps) == ";" + (PrintParam(ps[0]) + PrintParams(ps[1..]))
  {}

  lemma ParamsStart(ps: seq<Param>)
    ensures PrintParams(ps) == "" || PrintParams(ps)[0] == ';'
  {}

  lemma {:induction false} ParamsReadBack(ps: seq<Param>)
    requires forall p :: p in ps ==> GoodParam(p)
    ensures ReadParams(PrintParams(ps)) == ps && Without(PrintParams(ps), {'?', '@'})
  {
    if ps != [] {
      hide PrintParams, PrintParam, ReadParam, GoodParam, Find, Without;
      var item, rest := PrintParam(ps[0]), PrintParams(ps[1..]);
      ParamsFirst(ps);
      ParamReadsBack(ps[0]);
      ParamsStart(ps[1..]);
      ParamsReadBack(ps[1..]);
      assert (";" + (item + rest))[1..] == item + rest;
      AllWithout(item, rest);
      FindAt(item, rest, {';'});
    } else {
      NoParams();
    }
  }

  lemma AllWithout(item: string, rest: string)
    requires Without(item, {';', '?', '@'}) && Without(rest, {'?', '@'})
    ensures Without(";" + (item + rest), {'?', '@'}) && Without(item, {';'})
  {}

  lemma NoParams()
    ensures PrintParams([]) == "" && ReadParams("") == []
  {}

  lemma EndReadsBack(u: Parts)
    requires Good(u)
    ensures var e := PrintParams(u.params) + u.headers;
      && ReadEnd(u.scheme, u.user, u.host, u.port, e) == u
      && Without(e, {'@'}) && (e == "" || e[0] in {';', '?'})
  {
    hide PrintParams, GoodParam, ReadParams, GoodHost;
    ParamsReadBack(u.params);
    ParamsStart(u.params);
    FindAt(PrintParams(u.params), u.headers, {'?'});
  }

  function PrintPort(port: Option<nat>): string { if port.Some? then ":" + DecimalText(port.value) else "" }

  lemma DigitsOnly(t: string)
    requires Decimal.IsDigits(t)
    ensures Without(t, {';', '?', '@'})
  {}

  lemma PortReadsBack(port: Option<nat>, e: string)
    requires e == "" || e[0] in {';', '?'}
    ensures var r := PrintPort(port) + e;
      && ReadPort(r) == port && (if port.Some? then r[Find(r, {';', '?'})..] else r) == e
      && (r == "" || r[0] in {':', ';', '?'}) && Without(PrintPort(port), {'@'})
  {
    hide Find;
    var t, r := PrintPort(port), PrintPort(port) + e;
    if port.Some? {
      var digits := DecimalText(port.value);
      Decimal.TextIsDigits(port.value);
      DigitsOnly(digits);
      assert Without(t, {';', '?'}) && Without(t, {'@'});
      FindAt(t, e, {';', '?'});
      assert r[1..|t|] == digits;
    } else {
      assert r == e;
    }
  }

  lemma HostReadsBack(host: string, r: string)
    requires GoodHost(host) && (r == "" || r[0] in {':', ';', '?'})
    ensures HostEnd(host + r) == |host| && (host + r)[..|host|] == host && (host + r)[|host|..] == r
    ensures Without(host, {'@'})
  {
    hide Find;
    if host != "" && host[0] == '[' {
      var a := host[..|host| - 1];
      assert host == a + "]" && host + r == a + ("]" + r);
      FindAt(a, "]" + r, {']'});
    } else {
      FindAt(host, r, {':', ';', '?'});
    }
  }

  lemma BothWithout(a: string, b: string, stop: set<char>)
    requires Without(a, stop) && Without(b, stop)
    ensures Without(a + b, stop)
  {}

  lemma AfterUserReadsBack(u: Parts)
    requires Good(u)
    ensures var h := u.host + (PrintPort(u.port) + (PrintParams(u.params) + u.headers));
      ReadHost(u.scheme, u.user, h) == u && Without(h, {'@'})
  {
    hide ReadEnd, PrintParams, PrintPort, ReadPort, HostEnd, Find, GoodHost, GoodParam;
    var e := PrintParams(u.params) + u.headers;
    var r := PrintPort(u.port) + e;
    EndReadsBack(u);
    PortReadsBack(u.port, e);
    HostReadsBack(u.host, r);
    BothWithout(PrintPort(u.port), e, {'@'});
    BothWithout(u.host, r, {'@'});
  }

  lemma Printed(u: Parts)
    requires u.Sip?
    ensures Print(u) == u.scheme + (":" + ((if u.user.Some? then u.user.value + "@" else "")
      + (u.host + (PrintPort(u.port) + (PrintParams(u.params) + u.headers)))))
  {
    hide PrintParams;
  }

  /** Reading what `to_s` prints gives the URI back: scheme, user, host, port, the parameters in their order with or
      without values, and the headers. */
  lemma PrintReadsBack(u: Parts)
    requires Good(u)
    ensures Read(Print(u)) == u
  {
    hide ReadHost, Print, PrintPort, PrintParams, GoodHost, GoodParam, Find;
    var h := u.host + (PrintPort(u.port) + (PrintParams(u.params) + u.headers));
    var behind := (if u.user.Some? then u.user.value + "@" else "") + h;
    Printed(u);
    AfterUserReadsBack(u);
    FindAt(u.scheme, ":" + behind, {':'});
    assert Print(u)[|u.scheme| + 1..] == behind;
    if u.user.Some? {
      assert behind == u.user.value + ("@" + h);
      FindAt(u.user.value, "@" + h, {'@'});
      assert behind[|u.user.value| + 1..] == h;
    } else {
      assert behind == h && h + "" == h;
      FindAt(h, "", {'@'});
    }
  }

  /** So a mangled Contact and the one it was made of are never printed alike. */
  lemma PrintedOnce(u: Parts, v: Parts)
    requires Good(u) && Good(v) && Print(u) == Print(v)
    ensures u == v
  {
    PrintReadsBack(u);
    PrintReadsBack(v);
  }
}

/** The `ov-ob` parameter of a Contact URI: lib/oversip/modules/outbound_mangling.rb and the printer and
    parameters of lib/oversip/sip/uri.rb. */
module Mangling {
  import opened Wrappers
  import Decimal
  import opened FlowToken

  datatype Param = Param(name: string, value: Option<string>)

  /** A parsed URI. The user of a SIP URI is held as `escape_uri` prints it; Other is any unknown scheme. */
  datatype Parts =
    | Sip(scheme: string, user: Option<string>, host: string, port: Option<nat>, params: seq<Param>, headers: string)
    | Tel(number: string, params: seq<Param>)
    | Other

  function PrintParams(ps: seq<Param>): string {
    if ps == [] then ""
    else ";" + ps[0].name + (if ps[0].value.Some? then "=" + ps[0].value.value else "") + PrintParams(ps[1..])
  }

  function Head(u: Parts): string
    requires !u.Other?
  {
    match u
    case Sip(scheme, user, host, port, _, _) =>
      scheme + ":" + (if user.Some? then user.value + "@" else "") + host
        + (if port.Some? then ":" + DecimalText(port.value) else "")
    case Tel(number, _) => "tel:" + number
  }

  function DecimalText(n: nat): string { Decimal.Text(n) }

  function Tail(u: Parts): string
    requires !u.Other?
  {
    if u.Sip? then u.headers else ""
  }

  function Print(u: Parts): string
    requires !u.Other?
  {
    Head(u) + PrintParams(u.params) + Tail(u)
  }

  // ---- Parameters: a hash in insertion order ----

  predicate Has(ps: seq<Param>, k: string) { exists i :: 0 <= i < |ps| && ps[i].name == k }

  function Get(ps: seq<Param>, k: string): Option<string> {
    if ps == [] then None else if ps[0].name == k then ps[0].value else Get(ps[1..], k)
  }

  function Set(ps: seq<Param>, k: string, v: string): seq<Param> {
    if ps == [] then [Param(k, Some(v))]
    else if ps[0].name == k then [Param(k, Some(v))] + ps[1..]
    else [ps[0]] + Set(ps[1..], k, v)
  }

  function Del(ps: seq<Param>, k: string): seq<Param> {
    if ps == [] then [] else if ps[0].name == k then ps[1..] else [ps[0]] + Del(ps[1..], k)
  }

  lemma HasTail(ps: seq<Param>, k: string)
    requires ps != [] && !Has(ps, k)
    ensures ps[0].name != k && !Has(ps[1..], k)
  {
    forall i | 0 <= i < |ps| - 1 ensures ps[1..][i].name != k {
      assert ps[1..][i] == ps[i + 1];
    }
  }

  lemma {:induction false} SetAppends(ps: seq<Param>, k: string, v: string)
    requires !Has(ps, k)
    ensures Set(ps, k, v) == ps + [Param(k, Some(v))]
    decreases |ps|
  {
    if ps != [] {
      HasTail(ps, k);
      SetAppends(ps[1..], k, v);
    }
  }

  lemma {:induction false} LastFound(ps: seq<Param>, p: Param)
    requires !Has(ps, p.name)
    ensures Has(ps + [p], p.name) && Get(ps + [p], p.name) == p.value && Del(ps + [p], p.name) == ps
    decreases |ps|
  {
    var qs := ps + [p];
    assert qs[|ps|] == p;
    if ps != [] {
      HasTail(ps, p.name);
      LastFound(ps[1..], p);
      assert qs[1..] == ps[1..] + [p];
    }
  }

  /** A new parameter goes last; taking it out again restores the parameters and yields its value. */
  lemma SetThenDel(ps: seq<Param>, k: string, v: string)
    requires !Has(ps, k)
    ensures Set(ps, k, v) == ps + [Param(k, Some(v))]
    ensures Has(Set(ps, k, v), k) && Get(Set(ps, k, v), k) == Some(v) && Del(Set(ps, k, v), k) == ps
  {
    hide Set, Get, Del, Has;
    SetAppends(ps, k, v);
    LastFound(ps, Param(k, Some(v)));
  }

  lemma {:induction false} PrintLast(ps: seq<Param>, k: string, v: string)
    ensures PrintParams(ps + [Param(k, Some(v))]) == PrintParams(ps) + (";" + k + "=" + v)
    decreases |ps|
  {
    if ps == [] {
      assert ps + [Param(k, Some(v))] == [Param(k, Some(v))];
      assert PrintParams([Param(k, Some(v))][1..]) == "";
    } else {
      assert (ps + [Param(k, Some(v))])[1..] == ps[1..] + [Param(k, Some(v))];
      PrintLast(ps[1..], k, v);
    }
  }

  // ---- gsub /;ov-ob=[_\-0-9A-Za-z]+/, "" ----

  const MARK := ";ov-ob="

  predicate MatchAt(s: string) { |s| > 7 && s[..7] == MARK && TokenChar(s[7]) }

  /** Length of the longest prefix of token characters. */
  function Reach(s: string): (n: nat)
    ensures n <= |s|
  {
    if s == "" || !TokenChar(s[0]) then 0 else 1 + Reach(s[1..])
  }

  /** The text behind a match. */
  function After(s: string): (r: string)
    requires MatchAt(s)
    ensures |r| < |s|
  {
    s[7..][Reach(s[7..])..]
  }

  function Strip(s: string): string
    decreases |s|
  {
    if s == "" then "" else if MatchAt(s) then Strip(After(s)) else [s[0]] + Strip(s[1..])
  }

  predicate HasMatch(s: string) { s != "" && (MatchAt(s) || HasMatch(s[1..])) }

  lemma {:induction false} StripShrinks(s: string)
    ensures |Strip(s)| <= |s| && (|Strip(s)| == |s| <==> !HasMatch(s))
    ensures !HasMatch(s) ==> Strip(s) == s
    decreases |s|
  {
    if s != "" {
      if MatchAt(s) {
        StripShrinks(After(s));
      } else {
        StripShrinks(s[1..]);
      }
    }
  }

  predicate IsToken(t: string) { t != "" && forall c :: c in t ==> TokenChar(c) }

  lemma {:induction false} ReachToken(t: string, b: string)
    requires forall c :: c in t ==> TokenChar(c)
    ensures Reach(t + b) == |t| + Reach(b)
    decreases |t|
  {
    if t == "" {
      assert t + b == b;
    } else {
      assert t[0] in t;
      assert (t + b)[1..] == t[1..] + b;
      ReachToken(t[1..], b);
    }
  }

  lemma {:induction false} ReachStops(a: string, b: string)
    requires b != "" && !TokenChar(b[0])
    ensures Reach(a + b) == Reach(a)
  {
    if a == "" {
      assert a + b == b;
    } else {
      assert (a + b)[1..] == a[1..] + b;
      ReachStops(a[1..], b);
    }
  }

  /** No match begins in a text and ends in a parameter behind it: only the first character is a `;`. */
  lemma MatchStaysWithin(a: string, b: string)
    requires a != "" && b != "" && b[0] == ';'
    ensures MatchAt(a + b) <==> MatchAt(a)
  {
    var s := a + b;
    if |a| >= 8 {
      assert s[..7] == a[..7];
    } else if |s| > 7 {
      assert s[|a|] == ';';
      if |a| < 7 {
        assert s[..7][|a|] == ';' && MARK[|a|] != ';';
      }
    }
  }

  lemma StripStep(s: string)
    requires s != ""
    ensures MatchAt(s) ==> Strip(s) == Strip(After(s))
    ensures !MatchAt(s) ==> Strip(s) == [s[0]] + Strip(s[1..])
  {
    hide After;
  }

  lemma BehindMark(x: string)
    ensures (MARK + x)[..7] == MARK && (MARK + x)[7..] == x
  {}

  lemma MarkMatches(t: string, b: string)
    requires IsToken(t)
    ensures MatchAt(MARK + (t + b)) && After(MARK + (t + b)) == b[Reach(b)..]
  {
    hide TokenChar, Reach;
    BehindMark(t + b);
    assert t[0] in t && (MARK + (t + b))[7] == t[0];
    ReachToken(t, b);
    assert (t + b)[|t| + Reach(b)..] == b[Reach(b)..];
  }

  lemma StripHere(t: string, b: string)
    requires IsToken(t)
    ensures Strip(MARK + (t + b)) == Strip(b[Reach(b)..])
  {
    hide Strip, IsToken, MatchAt, Reach, After;
    MarkMatches(t, b);
    StripStep(MARK + (t + b));
  }

  /** A match at the front of a text is the same with a parameter behind it. */
  lemma AfterKeeps(a: string, p: string)
    requires a != "" && MatchAt(a) && p != "" && p[0] == ';'
    ensures MatchAt(a + p) && After(a + p) == After(a) + p
  {
    hide Reach;
    MatchStaysWithin(a, p);
    var r := a[7..];
    assert (a + p)[7..] == r + p;
    ReachStops(r, p);
    assert (r + p)[Reach(r)..] == r[Reach(r)..] + p;
  }

  lemma StripNothing(p: string)
    ensures "" + p == p && Strip("") == "" && Strip("") + Strip(p) == Strip(p)
  {}

  lemma StripUnmatched(a: string, p: string)
    requires a != "" && !MatchAt(a) && p != "" && p[0] == ';'
    ensures Strip(a + p) == [a[0]] + Strip(a[1..] + p) && Strip(a) == [a[0]] + Strip(a[1..])
  {
    hide Strip, MatchAt, After;
    MatchStaysWithin(a, p);
    StripStep(a);
    StripStep(a + p);
    assert (a + p)[1..] == a[1..] + p;
  }

  lemma StripMatched(a: string, p: string)
    requires a != "" && MatchAt(a) && p != "" && p[0] == ';'
    ensures Strip(a + p) == Strip(After(a) + p) && Strip(a) == Strip(After(a))
  {
    hide Strip, MatchAt, After;
    AfterKeeps(a, p);
    StripStep(a);
    StripStep(a + p);
  }

  lemma Associates(x: string, y: string, z: string)
    ensures x + (y + z) == x + y + z
  {}

  lemma {:induction false} StripBefore(a: string, p: string)
    requires p != "" && p[0] == ';'
    ensures Strip(a + p) == Strip(a) + Strip(p)
    decreases |a|
  {
    hide Strip, MatchAt, After;
    if a == "" {
      StripNothing(p);
    } else if MatchAt(a) {
      StripMatched(a, p);
      StripBefore(After(a), p);
    } else {
      StripUnmatched(a, p);
      StripBefore(a[1..], p);
      Associates([a[0]], Strip(a[1..]), Strip(p));
    }
  }

  /** Substitution in what stands before a token parameter and in what stands behind it go independently. */
  lemma StripToken(a: string, t: string, b: string)
    requires IsToken(t)
    ensures Strip(a + (MARK + t + b)) == Strip(a) + Strip(b[Reach(b)..])
  {
    hide Strip, Reach, TokenChar;
    assert MARK + t + b == MARK + (t + b);
    StripHere(t, b);
    StripBefore(a, MARK + (t + b));
  }

  function WithParams(u: Parts, ps: seq<Param>): (r: Parts)
    requires !u.Other?
    ensures !r.Other? && r.params == ps && Head(r) == Head(u) && Tail(r) == Tail(u)
  {
    match u
    case Sip(scheme, user, host, port, _, headers) => Sip(scheme, user, host, port, ps, headers)
    case Tel(number, _) => Tel(number, ps)
  }

  function With(u: Parts, t: string): Parts
    requires !u.Other?
  {
    WithParams(u, Set(u.params, "ov-ob", t))
  }

  /** The Contact of a response: what stands before, the URI, what stands behind. Stripping undoes the
      mangling exactly when no other `;ov-ob=` value is there to be stripped and the token ends where
      the parameter ends. */
  lemma StripRestoresIff(before: string, u: Parts, t: string, behind: string)
    requires !u.Other? && IsToken(t) && !Has(u.params, "ov-ob")
    ensures var a, b := before + (Head(u) + PrintParams(u.params)), Tail(u) + behind;
      Strip(before + Print(With(u, t)) + behind) == before + Print(u) + behind
      <==> !HasMatch(a) && !HasMatch(b) && (b == "" || !TokenChar(b[0]))
  {
    hide Strip, HasMatch, Head, Tail, PrintParams, TokenChar;
    var a, b := before + (Head(u) + PrintParams(u.params)), Tail(u) + behind;
    PrintedWith(before, u, t, behind);
    StripToken(a, t, b);
    var rest := b[Reach(b)..];
    StripShrinks(a);
    StripShrinks(rest);
    assert before + Print(u) + behind == a + b;
    ReachZero(b);
    if Reach(b) == 0 {
      assert rest == b;
    }
  }

  lemma ReachZero(b: string)
    ensures Reach(b) == 0 <==> b == "" || !TokenChar(b[0])
  {}

  lemma Regroup(a: string, b: string, c: string, d: string, e: string, f: string)
    ensures a + (b + (c + d) + e) + f == a + (b + c) + (d + (e + f))
  {}

  lemma PrintedWith(before: string, u: Parts, t: string, behind: string)
    requires !u.Other? && !Has(u.params, "ov-ob")
    ensures before + Print(With(u, t)) + behind
         == before + (Head(u) + PrintParams(u.params)) + (MARK + t + (Tail(u) + behind))
  {
    hide PrintParams, Head, Tail, Set, Get, Del, Has;
    SetThenDel(u.params, "ov-ob", t);
    PrintLast(u.params, "ov-ob", t);
    assert ";" + "ov-ob" + "=" == MARK;
    Regroup(before, Head(u), PrintParams(u.params), MARK + t, Tail(u), behind);
  }

  /** A UDP flow token always qualifies. */
  lemma UdpTokenIsToken(ip: string, port: nat)
    requires forall c :: c in ip ==> AddressChar(c)
    ensures Narrow(ip) && IsToken(Token(ip, port))
  {
    TokenAlphabet(ip, port);
  }

  // ---- The URI object and the two callbacks ----

  class Uri {
    /** The parsed parts, the printed text `@uri` and `@uri_modified`. */
    var parts: Parts
    var text: string
    var modified: bool

    /** A parsed URI prints as it was received until it is modified. */
    constructor (parts: Parts, text: string)
      ensures this.parts == parts && this.text == text && !modified
    {
      this.parts, this.text, this.modified := parts, text, false;
    }

    function Printed(): string
      reads this
    {
      if !modified || parts.Other? then text else Print(parts)
    }

    method ToS() returns (r: string)
      modifies this`text, this`modified
      ensures r == old(Printed()) && Printed() == r && text == r && !modified
    {
      if modified {
        match parts {
          case Sip(scheme, user, host, port, params, headers) =>
            text := scheme + ":";
            if user.Some? { text := text + (user.value + "@"); }
            text := text + host;
            if port.Some? { text := text + (":" + DecimalText(port.value)); }
            assert text == Head(parts);
            PrintInto();
            text := text + headers;
          case Tel(number, params) =>
            text := "tel:" + number;
            PrintInto();
          case Other =>
        }
        modified := false;
      }
      r := text;
    }

    /** The loop over `@params`. */
    method PrintInto()
      requires !parts.Other?
      modifies this`text
      ensures text == old(text) + PrintParams(parts.params)
    {
      var ps, i := parts.params, 0;
      while i < |ps|
        invariant 0 <= i <= |ps| && text + PrintParams(ps[i..]) == old(text) + PrintParams(ps)
        invariant parts == old(parts)
      {
        assert ps[i..][0] == ps[i] && ps[i..][1..] == ps[i + 1..];
        text := text + ";" + ps[i].name;
        if ps[i].value.Some? { text := text + ("=" + ps[i].value.value); }
        i := i + 1;
      }
    }

    method SetParam(k: string, v: string)
      modifies this`parts, this`modified
      ensures parts == if old(parts).Other? then Other else WithParams(old(parts), Set(old(parts).params, k, v))
      ensures modified == (old(modified) || !parts.Other?)
    {
      if !parts.Other? {
        parts := WithParams(parts, Set(parts.params, k, v));
        modified := true;
      }
    }

    /** nil and false are both None here, as for the callers. */
    method DelParam(k: string) returns (v: Option<string>)
      modifies this`parts, this`modified
      ensures parts == if old(parts).Other? then Other else WithParams(old(parts), Del(old(parts).params, k))
      ensures v == if old(parts).Other? then None else Get(old(parts).params, k)
      ensures modified == (old(modified) || (!parts.Other? && Has(old(parts).params, k)))
    {
      v := None;
      if !parts.Other? {
        if Has(parts.params, k) {
          v := Get(parts.params, k);
          parts := WithParams(parts, Del(parts.params, k));
          modified := true;
        } else {
          Absent(parts.params, k);
        }
      }
    }

    method HasParam(k: string) returns (b: bool)
      ensures b <==> !parts.Other? && Has(parts.params, k)
    {
      b := !parts.Other? && Has(parts.params, k);
    }
  }

  lemma {:induction false} Absent(ps: seq<Param>, k: string)
    ensures !Has(ps, k) ==> Del(ps, k) == ps && Get(ps, k) == None
    decreases |ps|
  {
    if ps != [] && !Has(ps, k) {
      assert ps[0].name != k;
      forall i | 0 <= i < |ps| - 1 ensures ps[1..][i].name != k {
        assert ps[1..][i] == ps[i + 1];
      }
      Absent(ps[1..], k);
    }
  }

  /** `add_outbound_to_contact` for one target: on further targets nothing is added again. */
  method AddOutboundToContact(contact: Uri, flowToken: string)
    modifies contact`parts, contact`modified
    ensures !old(contact.parts).Other? && !Has(old(contact.parts).params, "ov-ob") ==>
      contact.parts == With(old(contact.parts), flowToken) && contact.modified
      && Has(contact.parts.params, "ov-ob")
    ensures old(contact.parts).Other? || Has(old(contact.parts).params, "ov-ob") ==>
      contact.parts == old(contact.parts) && contact.modified == old(contact.modified)
  {
    var has := contact.HasParam("ov-ob");
    if !has {
      if !contact.parts.Other? { SetThenDel(contact.parts.params, "ov-ob", flowToken); }
      contact.SetParam("ov-ob", flowToken);
    }
  }

  /** What `extract_outbound_from_ruri` reads and sets on a request. */
  class Extraction {
    const ruri: Uri
    var incoming: bool
    var routeFlowToken: Option<string>

    constructor (ruri: Uri, incoming: bool, routeFlowToken: Option<string>)
      ensures this.ruri == ruri && this.incoming == incoming && this.routeFlowToken == routeFlowToken
    {
      this.ruri, this.incoming, this.routeFlowToken := ruri, incoming, routeFlowToken;
    }

    /** `extract_outbound_from_ruri`: the parameter goes in any case; its value is used only while no Route
        has asked for a flow. */
    method ExtractOutboundFromRuri() returns (extracted: bool)
      modifies this, ruri
      ensures ruri.parts == if old(ruri.parts).Other? then Other
                            else WithParams(old(ruri.parts), Del(old(ruri.parts).params, "ov-ob"))
      ensures var v := if old(ruri.parts).Other? then None else Get(old(ruri.parts).params, "ov-ob");
        && extracted == (!old(incoming) && v.Some?)
        && incoming == (old(incoming) || v.Some?)
        && routeFlowToken == if extracted then v else old(routeFlowToken)
    {
      extracted := false;
      if !incoming {
        var ovOb := ruri.DelParam("ov-ob");
        if ovOb.Some? {
          routeFlowToken := ovOb;
          incoming := true;
          extracted := true;
        }
      } else {
        var _ := ruri.DelParam("ov-ob");
      }
    }
  }

  /** A request for a URI that was mangled for the flow with flowToken: the token is taken as that of the
      request, unless a Route has named a flow, and the URI is again what it was without the parameter. */
  method ExtractMangled(ruri: Uri, u: Parts, flowToken: string, incoming: bool, routeFlowToken: Option<string>)
    returns (x: Extraction, extracted: bool)
    requires !u.Other? && !Has(u.params, "ov-ob") && ruri.parts == With(u, flowToken)
    modifies ruri
    ensures fresh(x) && ruri.parts == WithParams(u, u.params) && Print(ruri.parts) == Print(u)
    ensures extracted == !incoming && x.incoming
    ensures x.routeFlowToken == if incoming then routeFlowToken else Some(flowToken)
  {
    SetThenDel(u.params, "ov-ob", flowToken);
    x := new Extraction(ruri, incoming, routeFlowToken);
    extracted := x.ExtractOutboundFromRuri();
  }

  /** The response callback: every Contact value is stripped in place. */
  method StripContacts(contacts: array<string>)
    modifies contacts
    ensures forall i :: 0 <= i < contacts.Length ==> contacts[i] == Strip(old(contacts[i]))
  {
    for i := 0 to contacts.Length
      invariant forall j :: 0 <= j < i ==> contacts[j] == Strip(old(contacts[j]))
      invariant forall j :: i <= j < contacts.Length ==> contacts[j] == old(contacts[j])
    {
      contacts[i] := Strip(contacts[i]);
    }
  }
}

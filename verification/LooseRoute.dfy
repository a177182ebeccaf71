/** `loose_route` of lib/oversip/sip/core.rb: own Route values are taken off, and the direction of an
    Outbound flow (section 5.3 of RFC 5626) is told by comparing flow tokens. */
module LooseRoute {
  import opened Wrappers
  import opened FlowToken
  import opened FlowParser

  /** What is asked of a parsed Route: its `ovid` parameter and whether the value is this server's, whether
      its host is a local alias, its `ob` parameter and its user part. */
  datatype Route = Route(ovid: Option<bool>, local: bool, ob: bool, user: Option<string>)

  predicate Own(r: Route) { r.ovid == Some(true) || r.local }

  function OwnPrefix(rs: seq<Route>): (n: nat)
    ensures n <= |rs|
    ensures forall i :: 0 <= i < n ==> Own(rs[i])
    ensures n < |rs| ==> !Own(rs[n])
  {
    if rs == [] || !Own(rs[0]) then 0
    else
      var n := 1 + OwnPrefix(rs[1..]);
      assert forall i :: 1 <= i < n ==> rs[i] == rs[1..][i - 1];
      n
  }

  /** The latest Route is one of at most two, all own, and was made by a server that adds `ovid`. */
  predicate OutboundRoute(rs: seq<Route>) {
    1 <= OwnPrefix(rs) <= 2 && |rs| == OwnPrefix(rs) && rs[|rs| - 1].ovid.Some?
  }

  /** `outbound_route.user` of such a Route. */
  function RouteToken(rs: seq<Route>): Option<string> {
    if OutboundRoute(rs) then rs[|rs| - 1].user else None
  }

  predicate PreloadedOb(rs: seq<Route>) {
    exists i :: 0 <= i < OwnPrefix(rs) && rs[i].ovid != Some(true) && rs[i].ob
  }

  datatype Method = INVITE | REGISTER | SUBSCRIBE | REFER | OtherMethod

  predicate OutboundAware(m: Method) { m != OtherMethod }

  /** What the request says about itself that the Outbound tests read; listener says whether it came over UDP or
      by a connection that its peer opened. */
  datatype Facts = Facts(method_: Method, initial: bool, vias: nat, contactOb: bool, regId: bool, listener: bool)

  /** A request that no proxy in front of this server has handled. */
  predicate Direct(f: Facts) { f.initial && f.vias == 1 && OutboundAware(f.method_) }

  /** The flow a request came by: UDP with the source address, or a connection with its token in the outbound
      table. A connection that this server opened has no token (asking it raises in the original). */
  datatype Flow = Udp(ip: string, port: nat) | Connected(token: Option<string>)

  /** Table tokens are hexadecimal (`SecureRandom.hex(5)`). */
  predicate IsFlow(f: Flow) {
    match f
    case Udp(ip, _) => Narrow(ip)
    case Connected(token) => token.Some? ==> |token.value| == 10 && IsHex(token.value)
  }

  function OwnToken(f: Flow): Option<string>
    requires IsFlow(f)
  {
    match f case Udp(ip, port) => Some(Token(ip, port)) case Connected(token) => token
  }

  /** Over whatever transports, equal tokens are those of one flow: a UDP token begins with an underscore, which
      no table token does. */
  lemma TokenOfOneFlow(f: Flow, g: Flow)
    requires IsFlow(f) && IsFlow(g)
    ensures OwnToken(f) == OwnToken(g) <==> f == g
  {
    match (f, g)
    case (Udp(ip, port), Udp(ip', port')) => TokenDecidesFlow(ip, port, ip', port');
    case (Udp(ip, port), Connected(token)) => TableTokenIsNoUdpToken(ip, port, token);
    case (Connected(token), Udp(ip, port)) => TableTokenIsNoUdpToken(ip, port, token);
    case (Connected(_), Connected(_)) =>
  }

  lemma TableTokenIsNoUdpToken(ip: string, port: nat, token: Option<string>)
    requires Narrow(ip) && (token.Some? ==> |token.value| == 10 && IsHex(token.value))
    ensures token != Some(Token(ip, port))
  {
    if token.Some? {
      assert token.value[0] in token.value;
      assert Token(ip, port)[0] == '_';
    }
  }

  class Request {
    const facts: Facts
    const flow: Flow
    /** `@routes`, nil as None, and `@headers["Route"]`. */
    var routes: Option<seq<Route>>
    var routeHeader: seq<string>
    /** The memo `@connection_outbound_flow_token`. */
    var flowToken: Option<string>
    var routeFlowToken: Option<string>
    var incoming: bool
    /** `@force_outgoing_outbound`, and `@outgoing_outbound_requested`, nil as None. */
    var forced: bool
    var outgoing: Option<bool>

    ghost predicate Valid()
      reads this
    {
      && IsFlow(flow)
      && (flowToken.Some? ==> flowToken == OwnToken(flow))
      && (routes.Some? ==> |routes.value| == |routeHeader| > 0)
    }

    constructor (facts: Facts, flow: Flow, routes: seq<Route>, header: seq<string>)
      requires IsFlow(flow) && |routes| == |header|
      ensures Valid() && flowToken == None && !incoming && !forced && outgoing == None && routeHeader == header
      ensures this.facts == facts && this.flow == flow
      ensures this.routes == if routes == [] then None else Some(routes)
    {
      this.facts, this.flow := facts, flow;
      this.routes := if routes == [] then None else Some(routes);
      routeHeader, flowToken, routeFlowToken, incoming, forced, outgoing := header, None, None, false, false, None;
    }

    /** `@connection_outbound_flow_token ||= ...` */
    method ConnectionOutboundFlowToken() returns (t: Option<string>)
      requires Valid()
      modifies this`flowToken
      ensures Valid() && t == OwnToken(flow) && flowToken == t
    {
      if flowToken.None? {
        match flow {
          case Udp(ip, port) => flowToken := Some(Token(ip, port));
          case Connected(token) => flowToken := token;
        }
      }
      t := flowToken;
    }

    /** The first loop: how many Route values are this server's, and whether one of them that is so by its host
        carries `ob`. */
    method CountOwn(rs: seq<Route>) returns (removes: nat, preloadedOb: bool)
      ensures removes == OwnPrefix(rs) && preloadedOb == PreloadedOb(rs)
    {
      removes, preloadedOb := 0, false;
      while removes < |rs|
        invariant 0 <= removes <= |rs|
        invariant forall j :: 0 <= j < removes ==> Own(rs[j])
        invariant preloadedOb <==> exists j :: 0 <= j < removes && rs[j].ovid != Some(true) && rs[j].ob
      {
        var route := rs[removes];
        if route.ovid != Some(true) {
          if !route.local { break; }
          if route.ob { preloadedOb := true; }
        }
        removes := removes + 1;
      }
    }

    /** `fix_nat`, as far as Outbound is concerned: forced for direct requests only. */
    method FixNat()
      modifies this`forced
      ensures forced == (old(forced) || Direct(facts))
    {
      if facts.initial && facts.vias == 1 && OutboundAware(facts.method_) {
        forced := true;
      }
    }

    /** The test of `loose_route` for an outgoing request that asks for Outbound: never inside a dialog or by a
        connection this server opened; otherwise whenever it was forced, and if not, for a direct request with an
        `ob` on an own Route or on the Contact, or a REGISTER with a reg-id. */
    method AsksForOutbound(preloadedOb: bool) returns (asks: bool)
      ensures !facts.initial || !facts.listener ==> !asks
      ensures facts.initial && facts.listener && forced ==> asks
      ensures !forced && !Direct(facts) ==> !asks
      ensures Direct(facts) && facts.listener && !forced ==>
        (asks <==> preloadedOb || facts.contactOb || (facts.method_ == REGISTER && facts.regId))
    {
      if !facts.initial || !facts.listener {
        asks := false;
      } else if forced {
        asks := true;
      } else if facts.vias == 1 && OutboundAware(facts.method_) {
        asks := preloadedOb || facts.contactOb || (facts.method_ == REGISTER && facts.regId);
      } else {
        asks := false;
      }
    }

    /** `outgoing_outbound_requested?`: what `loose_route` found, if it was called; Routes do not count otherwise. */
    method OutgoingOutboundRequested() returns (asks: bool)
      modifies this`outgoing
      ensures outgoing == Some(asks) && (old(outgoing).Some? ==> outgoing == old(outgoing))
      ensures old(outgoing) == None && (!facts.initial || !facts.listener || (!forced && !Direct(facts))) ==> !asks
      ensures old(outgoing) == None && facts.initial && facts.listener && forced ==> asks
      ensures old(outgoing) == None && Direct(facts) && facts.listener && !forced ==>
        (asks <==> facts.contactOb || (facts.method_ == REGISTER && facts.regId))
    {
      if outgoing.None? {
        asks := AsksForOutbound(false);
        outgoing := Some(asks);
      }
      asks := outgoing.value;
    }

    method LooseRoute() returns (r: bool)
      requires Valid()
      modifies this`routes, this`routeHeader, this`routeFlowToken, this`incoming, this`outgoing
      ensures Valid()
      ensures var rs := if old(routes).Some? then old(routes).value else [];
        var n := OwnPrefix(rs);
        && routes == (if n == |rs| then None else Some(rs[n..]))
        && routeHeader == old(routeHeader)[if old(routes).Some? then n else 0..]
        && routeFlowToken == (if OutboundRoute(rs) then RouteToken(rs) else old(routeFlowToken))
        && incoming == (old(incoming) || TakenAsIncoming(rs, flowToken))
        && r == (if facts.initial then n < |rs| else n > 0)
      // Outgoing requests: in no case but these.
      ensures !facts.initial || !facts.listener ==> outgoing == Some(false)
      ensures facts.initial && facts.listener && forced ==> outgoing == Some(true)
      ensures !forced && !Direct(facts) ==> outgoing == Some(false)
      ensures Direct(facts) && facts.listener && !forced ==>
        var rs := if old(routes).Some? then old(routes).value else [];
        outgoing == Some((exists i :: 0 <= i < OwnPrefix(rs) && rs[i].ovid != Some(true) && rs[i].ob)
                         || facts.contactOb || (facts.method_ == REGISTER && facts.regId))
      // Incoming and in-dialog ones: one or two Routes, all own, the last with `ovid` and another flow's token.
      ensures var rs := if old(routes).Some? then old(routes).value else [];
        incoming && !old(incoming) <==>
          && !old(incoming) && 1 <= |rs| <= 2 && (forall i :: 0 <= i < |rs| ==> rs[i].ovid == Some(true) || rs[i].local)
          && rs[|rs| - 1].ovid.Some? && rs[|rs| - 1].user.Some? && rs[|rs| - 1].user != flowToken
    {
      hide Token, IsFlow, OwnToken, Direct;
      var rs := if routes.Some? then routes.value else [];
      var removes, preloadedOb := CountOwn(rs);
      var asks := AsksForOutbound(preloadedOb);
      outgoing := Some(asks);
      if (removes == 1 || removes == 2) && |rs| == removes && rs[removes - 1].ovid.Some? {
        routeFlowToken := rs[removes - 1].user;
        if routeFlowToken.Some? && routeFlowToken != flowToken {
          incoming := true;
        }
      }
      if routes.None? { return !facts.initial && removes > 0; }
      if removes != 0 {
        routeHeader := routeHeader[removes..];
        routes := if removes == |rs| then None else Some(rs[removes..]);
      }
      r := if !facts.initial then removes > 0 else routes.Some?;
    }
  }

  /** The test made on a Route whose user part is the token of some UDP flow. memo is the state of
      `@connection_outbound_flow_token`: None until the request was first asked for its own token. */
  predicate TakenAsIncoming(rs: seq<Route>, memo: Option<string>) {
    RouteToken(rs).Some? && RouteToken(rs) != memo
  }

  /** Meant is: the flow g whose token the Route holds is not the flow f by which the request came. That is what
      is computed exactly when the request was asked for its token before, or the flows do differ. */
  lemma DirectionIffTokenKnown(rs: seq<Route>, f: Flow, g: Flow, asked: bool)
    requires IsFlow(f) && IsFlow(g) && RouteToken(rs).Some? && RouteToken(rs) == OwnToken(g)
    ensures var memo := if asked then OwnToken(f) else None;
      (TakenAsIncoming(rs, memo) <==> f != g) <==> asked || f != g
  {
    TokenOfOneFlow(f, g);
  }

  /** Never asked for its token, a request is taken for an incoming one on its own flow. */
  method OwnFlowTakenAsIncoming() returns (q: Request)
    ensures fresh(q) && q.Valid() && q.incoming && q.flow.Udp?
    ensures q.routeFlowToken == OwnToken(q.flow)
  {
    var ip := "192.0.2.1";
    assert Narrow(ip);
    var r := Route(Some(true), false, true, Some(Token(ip, 5060)));
    var facts := Facts(REFER, false, 1, true, false, true);
    assert RouteToken([r]) == r.user by { assert OwnPrefix([r]) == 1; }
    q := new Request(facts, Udp(ip, 5060), [r], ["<sip:token@proxy;lr;ovid;ob>"]);
    var _ := q.LooseRoute();
  }
}

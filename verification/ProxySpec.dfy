/** A proxied INVITE: server transaction, proxy core and serial failover together (proxy.rb, client.rb). */
module ProxySpec {
  import opened Wrappers
  import opened ResponseCodes
  import Decimal
  import IS = InviteServer
  import opened Failover

  /** What the user's callbacks do with a response: nothing, drop it, or drop it and answer 199 (RFC 6228). */
  datatype Cb = Keep | Drop | DropWith199(text: string)

  /** The proxy core with its server transaction and its failover state. */
  datatype Proxy = Proxy(ist: IS.Ist, client: Client, canceled: bool, drop: bool, failover503: bool)

  function Render(code: nat, rest: string): string { "SIP/2.0 " + Decimal.Text(code) + " " + rest }

  /** `Request#reply_full` and `#reply`. */
  function Forward(p: Proxy, code: nat, rest: string): Proxy {
    p.(ist := IS.Reply(p.ist, code, Render(code, rest)))
  }

  /** `unless @drop_response ... else @drop_response = false` */
  function Deliver(p: Proxy, code: nat, rest: string): Proxy {
    if p.drop then p.(drop := false) else Forward(p, code, rest)
  }

  function RunCb(p: Proxy, code: nat, cb: Cb): Proxy {
    match cb
    case Keep => p
    case Drop => p.(drop := true)
    case DropWith199(text) =>
      if code >= 300 then p.(drop := true, ist := IS.Reply(p.ist, 199, text)) else p.(drop := true)
  }

  function Mask503(code: nat): nat { if code == 503 then 500 else code }

  function NoMoreTargets(p: Proxy, why: Why, cb: Cb): Proxy {
    if why.full.Some? then
      Deliver(RunCb(p, why.full.value.code, cb), Mask503(why.full.value.code), why.full.value.rest)
    else Deliver(RunCb(p, 0, cb), why.status, why.reason)
  }

  function NextTarget(p: Proxy, env: Env, why: Why, cb: Cb): Proxy {
    var (client, o) := TryNext(env, p.client, why);
    var p' := p.(client := client);
    if o.Launch? then p' else NoMoreTargets(p', o.why, cb)
  }

  function ReceiveResponse(p: Proxy, env: Env, code: nat, rest: string, cb: Cb): Proxy {
    if !IS.ValidResponse(p.ist.state, code) then Deliver(p, code, rest)
    else if code < 200 then Deliver(if p.canceled then p else RunCb(p, code, cb), code, rest)
    else if code < 300 then Deliver(RunCb(p, code, cb), code, rest)
    else if p.canceled then Deliver(p, code, rest)
    else if code == 503 && p.failover503 then NextTarget(p, env, Why(0, "", Some(Response(code, rest))), cb)
    else Deliver(RunCb(p, Mask503(code), cb), Mask503(code), rest)
  }

  function InviteTimeout(p: Proxy, cb: Cb): Proxy {
    var p' := RunCb(p, 0, cb);
    (if p'.drop then p' else Forward(p', 408, "INVITE Timeout")).(drop := true)
  }

  // ---- Runs ----

  datatype Event =
    | Resolve(dt: nat, resolution: Resolution, env: Env, cb: Cb)
    | DnsFailed(dt: nat, status: nat, reason: string, cb: Cb)
    | FromServer(dt: nat, code: nat, rest: string, env: Env, cb: Cb)
    | TargetFailed(dt: nat, why: Why, env: Env, cb: Cb)
    | InviteTimedOut(dt: nat, cb: Cb)
    | CancelIn(dt: nat, cb: Cb)
    | AbortRouting
    | Server(event: IS.Event)

  function Later(p: Proxy, dt: nat): Proxy { p.(ist := p.ist.(now := p.ist.now + dt)) }

  /** Any client transaction, present or past, may report at any time; the server transaction gets ACKs,
      retransmissions, timers and replies of its own. */
  function Step(p: Proxy, e: Event): Proxy {
    match e
    case Resolve(dt, r, env, cb) =>
      NextTarget(Later(p, dt).(client := Resolved(p.client, r)), env, NO_REASON, cb)
    case DnsFailed(dt, status, reason, cb) => Deliver(RunCb(Later(p, dt), 0, cb), status, reason)
    case FromServer(dt, code, rest, env, cb) => ReceiveResponse(Later(p, dt), env, code, rest, cb)
    case TargetFailed(dt, why, env, cb) => NextTarget(Later(p, dt), env, why, cb)
    case InviteTimedOut(dt, cb) => InviteTimeout(Later(p, dt), cb)
    case CancelIn(dt, cb) => RunCb(Later(p, dt).(canceled := true), 0, cb)
    case AbortRouting => p.(client := p.client.(aborted := true))
    case Server(ev) => p.(ist := IS.Step(p.ist, ev))
  }

  function Run(p: Proxy, es: seq<Event>): Proxy
    decreases |es|
  {
    if es == [] then p else Run(Step(p, es[0]), es[1..])
  }

  function Routed(udp: bool, now: nat, trying: string, failover503: bool): Proxy {
    Proxy(IS.Created(udp, now, trying), Client(None, 0, false, []), false, false, failover503)
  }

  // ---- Upstream ----

  lemma ForwardSpoken(p: Proxy, code: nat, rest: string)
    requires IS.Spoken(p.ist)
    ensures IS.Spoken(Forward(p, code, rest).ist)
  {
    IS.ReplySpoken(p.ist, code, Render(code, rest));
  }

  lemma RunCbSpoken(p: Proxy, code: nat, cb: Cb)
    requires IS.Spoken(p.ist)
    ensures IS.Spoken(RunCb(p, code, cb).ist)
  {
    if cb.DropWith199? { IS.ReplySpoken(p.ist, 199, cb.text); }
  }

  lemma DeliverSpoken(p: Proxy, code: nat, rest: string)
    requires IS.Spoken(p.ist)
    ensures IS.Spoken(Deliver(p, code, rest).ist)
  {
    hide IS.Spoken, IS.Reply;
    ForwardSpoken(p, code, rest);
  }

  lemma NoMoreSpoken(p: Proxy, why: Why, cb: Cb)
    requires IS.Spoken(p.ist)
    ensures IS.Spoken(NoMoreTargets(p, why, cb).ist)
  {
    hide IS.Spoken, IS.Reply, Deliver, RunCb;
    match why.full
    case Some(r) =>
      RunCbSpoken(p, r.code, cb);
      DeliverSpoken(RunCb(p, r.code, cb), Mask503(r.code), r.rest);
    case None =>
      RunCbSpoken(p, 0, cb);
      DeliverSpoken(RunCb(p, 0, cb), why.status, why.reason);
  }

  lemma NextTargetSpoken(p: Proxy, env: Env, why: Why, cb: Cb)
    requires IS.Spoken(p.ist)
    ensures IS.Spoken(NextTarget(p, env, why, cb).ist)
  {
    hide IS.Spoken, NoMoreTargets, TryNext;
    var (client, o) := TryNext(env, p.client, why);
    if o.NoMore? { NoMoreSpoken(p.(client := client), o.why, cb); }
  }

  lemma LaterSpoken(p: Proxy, dt: nat)
    requires IS.Spoken(p.ist)
    ensures IS.Spoken(Later(p, dt).ist)
  {
    IS.SilentSpoken(p.ist, Later(p, dt).ist);
  }

  lemma StepSpoken(p: Proxy, e: Event)
    requires IS.Spoken(p.ist)
    ensures IS.Spoken(Step(p, e).ist)
  {
    hide IS.Spoken, IS.Reply, NextTarget, IS.Step, Deliver, RunCb;
    match e
    case Resolve(dt, r, env, cb) =>
      LaterSpoken(p, dt);
      NextTargetSpoken(Later(p, dt).(client := Resolved(p.client, r)), env, NO_REASON, cb);
    case DnsFailed(dt, status, reason, cb) =>
      LaterSpoken(p, dt);
      RunCbSpoken(Later(p, dt), 0, cb);
      DeliverSpoken(RunCb(Later(p, dt), 0, cb), status, reason);
    case FromServer(dt, code, rest, env, cb) =>
      LaterSpoken(p, dt);
      var q := Later(p, dt);
      RunCbSpoken(q, code, cb);
      RunCbSpoken(q, Mask503(code), cb);
      DeliverSpoken(q, code, rest);
      DeliverSpoken(RunCb(q, code, cb), code, rest);
      DeliverSpoken(RunCb(q, Mask503(code), cb), Mask503(code), rest);
      NextTargetSpoken(q, env, Why(0, "", Some(Response(code, rest))), cb);
    case TargetFailed(dt, why, env, cb) =>
      LaterSpoken(p, dt);
      NextTargetSpoken(Later(p, dt), env, why, cb);
    case InviteTimedOut(dt, cb) =>
      LaterSpoken(p, dt);
      RunCbSpoken(Later(p, dt), 0, cb);
      ForwardSpoken(RunCb(Later(p, dt), 0, cb), 408, "INVITE Timeout");
    case CancelIn(dt, cb) =>
      LaterSpoken(p, dt);
      RunCbSpoken(Later(p, dt).(canceled := true), 0, cb);
    case AbortRouting =>
    case Server(ev) => IS.StepSpoken(p.ist, ev);
  }

  lemma {:induction false} RunSpoken(p: Proxy, es: seq<Event>)
    requires IS.Spoken(p.ist)
    ensures IS.Spoken(Run(p, es).ist)
    decreases |es|
  {
    if es != [] {
      hide IS.Spoken, Step;
      StepSpoken(p, es[0]);
      RunSpoken(Step(p, es[0]), es[1..]);
    }
  }

  /** Across any run of a proxied INVITE (failover over any resolutions, 503s, timeouts, failures, CANCELs,
      callbacks that drop responses) the new responses upstream are 1xx* followed by 2xx* or one single
      3xx-6xx; retransmissions repeat the last one, so after a 3xx-6xx only its bytes are sent. */
  lemma ProxiedInviteGrammar(udp: bool, now: nat, trying: string, failover503: bool, es: seq<Event>)
    ensures var sent := Run(Routed(udp, now, trying, failover503), es).ist.sent;
      && Grammar(IS.NewCodes(sent))
      && IS.Faithful(sent)
      && (forall j, k :: 0 <= j < k < |sent| && sent[j].New? && sent[j].code >= 300 ==> sent[k] == IS.Again(sent[j].text))
  {
    var p0 := Routed(udp, now, trying, failover503);
    IS.CreatedSpoken(udp, now, trying);
    RunSpoken(p0, es);
    IS.RefusalIsRepeated(Run(p0, es).ist.sent);
  }

  // ---- 503 stays inside ----

  predicate Own(why: Why) { why.status != 503 && why.full == None }

  ghost predicate OwnEnv(env: Env) { forall t :: t in env.blacklist ==> Own(env.blacklist[t]) }

  /** Events in which nobody but the servers contacted says 503. */
  ghost predicate Ordinary(e: Event) {
    match e
    case Resolve(_, _, env, _) => OwnEnv(env)
    case DnsFailed(_, status, _, _) => status != 503
    case FromServer(_, _, _, env, _) => OwnEnv(env)
    case TargetFailed(_, why, env, _) => Own(why) && OwnEnv(env)
    case Server(ev) => ev.Respond? ==> ev.code != 503
    case _ => true
  }

  predicate Hidden(p: Proxy) { 503 in IS.NewCodes(p.ist.sent) ==> p.canceled }

  lemma ReplyHidden(t: IS.Ist, code: nat, text: string)
    ensures var u := IS.Reply(t, code, text);
      503 in IS.NewCodes(u.sent) ==> code == 503 || 503 in IS.NewCodes(t.sent)
  {
    IS.SentSnoc(t.sent, IS.New(code, text));
  }

  lemma DeliverHidden(p: Proxy, seen: nat, cb: Cb, code: nat, rest: string)
    requires Hidden(p) && (code != 503 || p.canceled)
    ensures Hidden(Deliver(p, code, rest)) && Hidden(Deliver(RunCb(p, seen, cb), code, rest))
    ensures Hidden(RunCb(p, seen, cb))
  {
    hide IS.Reply, IS.NewCodes;
    if cb.DropWith199? { ReplyHidden(p.ist, 199, cb.text); }
    ReplyHidden(p.ist, code, Render(code, rest));
    ReplyHidden(RunCb(p, seen, cb).ist, code, Render(code, rest));
  }

  lemma NextTargetHidden(p: Proxy, env: Env, why: Why, cb: Cb)
    requires Hidden(p) && OwnEnv(env) && (Own(why) || why.full.Some?)
    ensures Hidden(NextTarget(p, env, why, cb))
  {
    hide Hidden, TryNext;
    OutcomeWhy(env, p.client, why);
    var (client, o) := TryNext(env, p.client, why);
    var p' := p.(client := client);
    SameUpstream(p, p');
    if o.NoMore? {
      if o.why.full.Some? {
        var r := o.why.full.value;
        DeliverHidden(p', r.code, cb, Mask503(r.code), r.rest);
      } else {
        DeliverHidden(p', 0, cb, o.why.status, o.why.reason);
      }
    }
  }

  lemma SameUpstream(p: Proxy, q: Proxy)
    requires Hidden(p) && q.ist.sent == p.ist.sent && (p.canceled ==> q.canceled)
    ensures Hidden(q)
  {}

  /** The reason reported is the caller's, a blacklist entry's, or the abort's. */
  lemma {:induction false} OutcomeWhy(env: Env, c: Client, why: Why)
    ensures var o := TryNext(env, c, why).1;
      o.NoMore? ==> o.why == why || o.why == ABORTED_WHY || exists t :: t in env.blacklist && o.why == env.blacklist[t]
    decreases Left(c)
  {
    if Remaining(c) == [] {
      NothingRemains(env, c, why);
    } else {
      var t, c1 := Remaining(c)[0], c.(num := c.num + 1);
      Advance(c, c.visits + [Skipped(t)]);
      if t in env.blacklist {
        OutcomeWhy(env, c1.(visits := c1.visits + [Skipped(t)]), env.blacklist[t]);
      } else if c.aborted || t in env.aborts {
        NothingRemains(env, c1.(aborted := false, goals := None, visits := c1.visits + [Aborted(t)]), ABORTED_WHY);
      }
    }
  }

  lemma StepHidden(p: Proxy, e: Event)
    requires Hidden(p) && Ordinary(e)
    ensures Hidden(Step(p, e))
  {
    hide Hidden, NextTarget, Deliver, RunCb, IS.Step, IS.Reply;
    match e
    case Resolve(dt, r, env, cb) =>
      var q := Later(p, dt).(client := Resolved(p.client, r));
      SameUpstream(p, q);
      NextTargetHidden(q, env, NO_REASON, cb);
    case DnsFailed(dt, status, reason, cb) =>
      SameUpstream(p, Later(p, dt));
      DeliverHidden(Later(p, dt), 0, cb, status, reason);
    case FromServer(dt, code, rest, env, cb) =>
      SameUpstream(p, Later(p, dt));
      FromServerHidden(Later(p, dt), env, code, rest, cb);
    case TargetFailed(dt, why, env, cb) =>
      SameUpstream(p, Later(p, dt));
      NextTargetHidden(Later(p, dt), env, why, cb);
    case InviteTimedOut(dt, cb) =>
      SameUpstream(p, Later(p, dt));
      TimeoutHidden(Later(p, dt), cb);
    case CancelIn(dt, cb) =>
      var q := Later(p, dt).(canceled := true);
      SameUpstream(p, q);
      DeliverHidden(q, 0, cb, 0, "");
    case AbortRouting => SameUpstream(p, Step(p, e));
    case Server(ev) => ServerHidden(p, ev);
  }

  lemma TimeoutHidden(p: Proxy, cb: Cb)
    requires Hidden(p)
    ensures Hidden(InviteTimeout(p, cb))
  {
    DeliverHidden(p, 0, cb, 408, "INVITE Timeout");
    ReplyHidden(RunCb(p, 0, cb).ist, 408, Render(408, "INVITE Timeout"));
  }

  lemma ServerHidden(p: Proxy, ev: IS.Event)
    requires Hidden(p) && (ev.Respond? ==> ev.code != 503)
    ensures Hidden(p.(ist := IS.Step(p.ist, ev)))
  {
    hide IS.NewCodes, IS.Step, IS.Reply;
    if ev.Respond? {
      var t := p.ist.(now := p.ist.now + ev.dt);
      assert IS.Step(p.ist, ev) == IS.Reply(t, ev.code, ev.text) by { RespondIsReply(p.ist, ev); }
      ReplyHidden(t, ev.code, ev.text);
    } else {
      OnlyRespondSaysNew(p.ist, ev);
    }
  }

  lemma RespondIsReply(t: IS.Ist, ev: IS.Event)
    requires ev.Respond?
    ensures IS.Step(t, ev) == IS.Reply(t.(now := t.now + ev.dt), ev.code, ev.text)
  {
    hide IS.Reply, IS.Ack, IS.Retransmit, IS.Fired, IS.Due;
  }

  lemma OnlyRespondSaysNew(t: IS.Ist, ev: IS.Event)
    requires !ev.Respond?
    ensures IS.NewCodes(IS.Step(t, ev).sent) == IS.NewCodes(t.sent)
  {
    hide IS.NewCodes, IS.Reply, IS.Ack, IS.Retransmit, IS.Fired;
    match ev
    case AckIn(dt) => AckSaysNothing(t.(now := t.now + dt));
    case InviteIn(dt) => RetransmitSaysNothingNew(t.(now := t.now + dt));
    case Fire(x) =>
      if IS.Due(t, x).Some? { FiredSaysNothingNew(t.(now := IS.Due(t, x).value), x); }
    case _ =>
  }

  lemma AckSaysNothing(t: IS.Ist)
    ensures IS.Ack(t).sent == t.sent
  {}

  lemma RetransmitSaysNothingNew(t: IS.Ist)
    ensures IS.NewCodes(IS.Retransmit(t).sent) == IS.NewCodes(t.sent)
  {
    hide IS.NewCodes;
    if t.last.Some? { IS.SentSnoc(t.sent, IS.Again(t.last.value)); }
  }

  lemma FiredSaysNothingNew(t: IS.Ist, x: IS.Timer)
    requires IS.Due(t, x).Some?
    ensures IS.NewCodes(IS.Fired(t, x).sent) == IS.NewCodes(t.sent)
  {
    hide IS.NewCodes, IS.Retransmit;
    RetransmitSaysNothingNew(t);
  }

  lemma FromServerHidden(p: Proxy, env: Env, code: nat, rest: string, cb: Cb)
    requires Hidden(p) && OwnEnv(env)
    ensures Hidden(ReceiveResponse(p, env, code, rest, cb))
  {
    hide Hidden, NextTarget, Deliver, RunCb;
    if !IS.ValidResponse(p.ist.state, code) {
      RefusedHidden(p, code, rest);
    } else if code == 503 && !p.canceled {
      NextTargetHidden(p, env, Why(0, "", Some(Response(code, rest))), cb);
      DeliverHidden(p, 500, cb, 500, rest);
    } else {
      DeliverHidden(p, code, cb, code, rest);
    }
  }

  /** What the server transaction does not let through changes nothing upstream. */
  lemma RefusedHidden(p: Proxy, code: nat, rest: string)
    requires Hidden(p) && !IS.ValidResponse(p.ist.state, code)
    ensures Hidden(Deliver(p, code, rest))
  {}

  lemma {:induction false} RunHidden(p: Proxy, es: seq<Event>)
    requires Hidden(p) && forall e :: e in es ==> Ordinary(e)
    ensures Hidden(Run(p, es))
    decreases |es|
  {
    if es != [] {
      hide Hidden, Step, Ordinary;
      StepHidden(p, es[0]);
      RunHidden(Step(p, es[0]), es[1..]);
    }
  }

  lemma RoutedHidden(udp: bool, now: nat, trying: string, failover503: bool)
    ensures Hidden(Routed(udp, now, trying, failover503))
  {
    hide IS.NewCodes;
    var t := Routed(udp, now, trying, failover503).ist;
    assert t.sent == [] + [IS.New(100, trying)];
    IS.SentSnoc([], IS.New(100, trying));
    NothingSaid();
  }

  lemma NothingSaid()
    ensures IS.NewCodes([]) == []
  {}

  /** A 503 of a server goes upstream as new response only after the caller has canceled (section 16.7 of
      RFC 3261 has it turned into 500, or failed over). */
  lemma ServiceUnavailableStaysInside(udp: bool, now: nat, trying: string, failover503: bool, es: seq<Event>)
    requires forall e :: e in es ==> Ordinary(e)
    ensures var p := Run(Routed(udp, now, trying, failover503), es);
      503 in IS.NewCodes(p.ist.sent) ==> p.canceled
  {
    hide Routed, Ordinary, Step, Run, IS.NewCodes;
    RoutedHidden(udp, now, trying, failover503);
    RunHidden(Routed(udp, now, trying, failover503), es);
  }

  /** The condition is exact: whatever the callbacks do, a 503 received while the server transaction is
      proceeding is passed on as 503 if and only if the call was canceled and no drop is pending. */
  lemma ServiceUnavailableIffCanceled(p: Proxy, env: Env, rest: string, cb: Cb)
    requires p.ist.state == IS.Proceeding && OwnEnv(env)
    requires 503 !in IS.NewCodes(p.ist.sent)
    ensures 503 in IS.NewCodes(ReceiveResponse(p, env, 503, rest, cb).ist.sent) <==> p.canceled && !p.drop
  {
    if p.canceled {
      IS.SentSnoc(p.ist.sent, IS.New(503, Render(503, rest)));
    } else {
      FromServerHidden(p, env, 503, rest, cb);
      CancelStays(p, env, rest, cb);
    }
  }

  lemma CancelStays(p: Proxy, env: Env, rest: string, cb: Cb)
    ensures ReceiveResponse(p, env, 503, rest, cb).canceled == p.canceled
  {
    hide TryNext, IS.Reply;
  }

  // ---- Failover in a run ----

  lemma {:induction false} RunInOrder(p: Proxy, es: seq<Event>, all: seq<Target>)
    requires InOrder(p.client, all) && forall e :: e in es ==> !e.Resolve?
    ensures InOrder(Run(p, es).client, all)
    decreases |es|
  {
    if es != [] {
      hide InOrder, Step;
      StepInOrder(p, es[0], all);
      RunInOrder(Step(p, es[0]), es[1..], all);
    }
  }

  lemma NextTargetClient(p: Proxy, env: Env, why: Why, cb: Cb)
    ensures NextTarget(p, env, why, cb).client == TryNext(env, p.client, why).0
  {
    hide TryNext, IS.Reply;
  }

  lemma OtherClient(p: Proxy, e: Event)
    requires !e.Resolve? && !e.FromServer? && !e.TargetFailed?
    ensures Step(p, e).client == if e.AbortRouting? then p.client.(aborted := true) else p.client
  {
    hide IS.Reply, IS.Step;
  }

  lemma ServerClient(p: Proxy, env: Env, code: nat, rest: string, cb: Cb)
    ensures ReceiveResponse(p, env, code, rest, cb).client
      in {p.client, TryNext(env, p.client, Why(0, "", Some(Response(code, rest)))).0}
  {
    hide IS.Reply, NextTarget, TryNext;
    NextTargetClient(p, env, Why(0, "", Some(Response(code, rest))), cb);
  }

  lemma AbortInOrder(c: Client, all: seq<Target>)
    requires InOrder(c, all)
    ensures InOrder(c.(aborted := true), all)
  {}

  lemma StepInOrder(p: Proxy, e: Event, all: seq<Target>)
    requires InOrder(p.client, all) && !e.Resolve?
    ensures InOrder(Step(p, e).client, all)
  {
    hide TryNext, NextTarget, InOrder, ReceiveResponse, IS.Step, IS.Reply, Deliver, RunCb, InviteTimeout, Added;
    match e
    case FromServer(dt, code, rest, env, cb) =>
      ServerClient(Later(p, dt), env, code, rest, cb);
      TryNextInOrder(env, p.client, Why(0, "", Some(Response(code, rest))), all);
    case TargetFailed(dt, why, env, cb) =>
      NextTargetClient(Later(p, dt), env, why, cb);
      TryNextInOrder(env, p.client, why, all);
    case _ =>
      OtherClient(p, e);
      AbortInOrder(p.client, all);
  }

  /** From a resolution on, over any sequence of outcomes, the targets used or skipped are each visited once
      and in list order, and together with those remaining they are the resolved list (or a beginning of it,
      if the user aborted routing). */
  lemma EachTargetOnceInOrder(p: Proxy, r: Resolution, dt: nat, env: Env, cb: Cb, es: seq<Event>)
    requires forall e :: e in es ==> !e.Resolve?
    ensures InOrder(Run(Step(p, Event.Resolve(dt, r, env, cb)), es).client, All(r))
  {
    var q := Later(p, dt).(client := Resolved(p.client, r));
    assert Names([]) == [] && All(r)[0..] == All(r);
    assert InOrder(q.client, All(r));
    TryNextInOrder(env, q.client, NO_REASON, All(r));
    NextTargetClient(q, env, NO_REASON, cb);
    RunInOrder(Step(p, Event.Resolve(dt, r, env, cb)), es, All(r));
  }
}

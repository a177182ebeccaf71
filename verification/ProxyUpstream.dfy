/** What the caller of a proxied INVITE is sent, event by event. */
module ProxyUpstream {
  import opened Wrappers
  import IS = InviteServer
  import opened InviteServerExact
  import opened Failover
  import opened ProxySpec

  type Answer = u: IS.Upstream | u.New? witness IS.New(100, "")

  /** The responses sent upstream by an event: the 199 of a callback that drops a final response, then the response
      itself unless it is dropped. */
  function Answers(p: Proxy, seen: nat, cb: Cb, code: nat, rest: string): seq<Answer> {
    (if cb.DropWith199? && seen >= 300 && p.ist.state == IS.Proceeding then [IS.New(199, cb.text)] else [])
    + (if Admits(p.ist.state, code) && !p.drop && cb == Keep then [IS.New(code, Render(code, rest))] else [])
  }

  /** The one drop that may be pending is used up; state and last response are those of what was sent. */
  predicate Answered(p: Proxy, q: Proxy, answers: seq<Answer>) {
    && q.ist.sent == p.ist.sent + answers
    && !q.drop && q.canceled == p.canceled && q.failover503 == p.failover503
    && q.ist.last == (if answers == [] then p.ist.last else Some(answers[|answers| - 1].text))
    && q.ist.state == if answers == [] then p.ist.state
                      else var code := answers[|answers| - 1].code;
                           if code < 200 then p.ist.state else if code < 300 then IS.Accepted else IS.Completed
  }

  lemma DeliverAnswers(p: Proxy, seen: nat, cb: Cb, code: nat, rest: string)
    ensures Answered(p, Deliver(RunCb(p, seen, cb), code, rest), Answers(p, seen, cb, code, rest))
    ensures Deliver(RunCb(p, seen, cb), code, rest).client == p.client
  {
    hide Render;
  }

  /** A 503 starts the failover if the proxy is set up for it, nobody canceled, and no final response went up. */
  predicate FailsOver(p: Proxy, code: nat) {
    code == 503 && p.failover503 && !p.canceled && p.ist.state == IS.Proceeding
  }

  /** Every response of a server goes upstream, as it is or as 500 for an uncanceled 503, if and only if the
      server transaction takes it and no drop is pending or asked for by the callbacks; those run for responses
      that the server transaction takes, after a CANCEL for 2xx only. */
  lemma ResponseGoesUp(p: Proxy, env: Env, code: nat, rest: string, cb: Cb)
    requires !FailsOver(p, code)
    ensures var asked := if Admits(p.ist.state, code) && (!p.canceled || 200 <= code < 300) then cb else Keep;
            var c := if code == 503 && !p.canceled then 500 else code;
            var q := ReceiveResponse(p, env, code, rest, cb);
      q.client == p.client && Answered(p, q, Answers(p, c, asked, c, rest))
  {
    hide Answered, Answers, Deliver, RunCb, NextTarget;
    DeliverAnswers(p, code, Keep, code, rest);
    DeliverAnswers(p, code, cb, code, rest);
    DeliverAnswers(p, 500, Keep, 500, rest);
    DeliverAnswers(p, 500, cb, 500, rest);
    KeepRuns(p, code);
    KeepRuns(p, 500);
    if !Admits(p.ist.state, code) {
      NotAdmitted(p, code, rest);
      NotAdmitted(p, if code == 503 then 500 else code, rest);
    }
  }

  lemma KeepRuns(p: Proxy, seen: nat)
    ensures RunCb(p, seen, Keep) == p
  {}

  lemma NotAdmitted(p: Proxy, code: nat, rest: string)
    requires !Admits(p.ist.state, code)
    ensures Answers(p, code, Keep, code, rest) == []
    ensures Answered(p, Deliver(p, code, rest), [])
  {}

  // ---- Failover, and the responses the proxy makes up itself ----

  /** A failover to another target sends nothing upstream; once no target is left, the reason goes up: the last full
      response, with 500 for 503, or a generated one. */
  lemma NextTargetUpstream(p: Proxy, env: Env, why: Why, cb: Cb)
    ensures var q := NextTarget(p, env, why, cb); var (client, o) := TryNext(env, p.client, why);
      && q.client == client
      && (o.Launch? ==> q == p.(client := client))
      && (o.NoMore? ==>
            var (seen, code, rest) := Reported(o.why);
            Answered(p, q, Answers(p, seen, cb, code, rest)))
  {
    hide Answered, Answers, Deliver, RunCb, TryNext;
    var (client, o) := TryNext(env, p.client, why);
    if o.NoMore? {
      var (seen, code, rest) := Reported(o.why);
      var p' := p.(client := client);
      DeliverAnswers(p', seen, cb, code, rest);
      OtherClient(p, p', NextTarget(p, env, why, cb), seen, cb, code, rest);
    }
  }

  /** The code the callbacks see, and the response sent. */
  function Reported(why: Why): (nat, nat, string) {
    match why.full
    case Some(r) => (r.code, if r.code == 503 then 500 else r.code, r.rest)
    case None => (0, why.status, why.reason)
  }

  lemma OtherClient(p: Proxy, p': Proxy, q: Proxy, seen: nat, cb: Cb, code: nat, rest: string)
    requires p' == p.(client := p'.client) && Answered(p', q, Answers(p', seen, cb, code, rest))
    ensures Answered(p, q, Answers(p, seen, cb, code, rest))
  {}

  /** A 503 that starts the failover sends nothing upstream while a target can be used, and goes up as 500 when none
      is left; in between, the reason to skip the last one goes up. */
  lemma FailoverAfter503(p: Proxy, env: Env, rest: string, cb: Cb)
    requires FailsOver(p, 503)
    ensures var q := ReceiveResponse(p, env, 503, rest, cb);
            var (client, o) := TryNext(env, p.client, Why(0, "", Some(Response(503, rest))));
      && q.client == client
      && (o.Launch? ==> q == p.(client := client))
      && (o.NoMore? ==> var (seen, code, text) := Reported(o.why); Answered(p, q, Answers(p, seen, cb, code, text)))
      && (Remaining(p.client) == [] ==> Answered(p, q, Answers(p, 503, cb, 500, rest)))
      && (Usable(env, p.client) ==> o.Launch?)
  {
    hide Answered, Answers, NextTarget, TryNext, Remaining;
    var why := Why(0, "", Some(Response(503, rest)));
    NextTargetUpstream(p, env, why, cb);
    if Remaining(p.client) == [] { NothingRemains(env, p.client, why); } else { Advance(p.client, []); }
  }

  /** The next target is neither blacklisted nor refused by the user. */
  predicate Usable(env: Env, c: Client) {
    var ts := Remaining(c);
    ts != [] && ts[0] !in env.blacklist && ts[0] !in env.aborts && !c.aborted
  }

  /** Timer C of the client: 408 upstream, unless a final response went up or a drop is pending or asked for; and
      from now on the next response of the server is dropped. */
  lemma TimeoutUpstream(p: Proxy, cb: Cb)
    ensures var q := InviteTimeout(p, cb);
      && q.ist.sent == p.ist.sent + (
           if p.ist.state == IS.Proceeding && !p.drop && cb == Keep then [IS.New(408, Render(408, "INVITE Timeout"))] else [])
      && q.drop && q.client == p.client && q.canceled == p.canceled
  {
    hide Render;
  }

  /** A CANCEL of the caller sends nothing here, and a failed resolution is reported upstream. */
  lemma CancelAndDns(p: Proxy, dt: nat, status: nat, reason: string, cb: Cb)
    ensures Step(p, CancelIn(dt, cb)) == Later(p, dt).(canceled := true, drop := p.drop || cb != Keep)
    ensures Answered(Later(p, dt), Step(p, DnsFailed(dt, status, reason, cb)), Answers(Later(p, dt), 0, cb, status, reason))
  {
    hide Answered, Answers, Deliver;
    DeliverAnswers(Later(p, dt), 0, cb, status, reason);
  }
}

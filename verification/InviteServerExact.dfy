/** What an INVITE server transaction sends and when, and how long it stays in a state. */
module InviteServerExact {
  import opened Wrappers
  import opened Timers
  import opened InviteServer

  // ---- What is sent ----

  /** The responses a state takes. */
  predicate Admits(state: State, code: nat) {
    state == Proceeding || (state == Accepted && 200 <= code < 300)
  }

  /** A response is sent if and only if the state takes it; a final one decides the state from then on. */
  lemma ReplySent(t: Ist, code: nat, text: string)
    ensures var u := Reply(t, code, text);
      if Admits(t.state, code) then
        && u.sent == t.sent + [New(code, text)] && u.last == Some(text)
        && u.state == if code < 200 then t.state else if code < 300 then Accepted else Completed
      else u == t
  {}

  /** Timer G's turns. */
  function Turns(es: seq<Event>): nat {
    if es == [] then 0 else (if es[0] == Fire(G) then 1 else 0) + Turns(es[1..])
  }

  /** The INVITEs received again while the table lists the transaction. */
  function InvitesAgain(t: Ist, es: seq<Event>): nat
    decreases |es|
  {
    if es == [] then 0
    else (if es[0].InviteIn? && t.listed then 1 else 0) + InvitesAgain(Step(t, es[0]), es[1..])
  }

  function Repetitions(sent: seq<Upstream>): nat {
    if sent == [] then 0
    else Repetitions(sent[..|sent| - 1]) + if sent[|sent| - 1].Again? then 1 else 0
  }

  lemma RepetitionsSnoc(sent: seq<Upstream>, u: Upstream)
    ensures Repetitions(sent + [u]) == Repetitions(sent) + if u.Again? then 1 else 0
  {
    assert (sent + [u])[..|sent|] == sent;
  }

  // ---- The state, its timers, and since when ----

  /** When the state reached was entered. */
  function Entered(t: Ist, es: seq<Event>, since: nat): nat
    decreases |es|
  {
    if es == [] then since else var u := Step(t, es[0]); Entered(u, es[1..], Since(t, u, since))
  }

  /** The timers of a state entered at since, after n turns of timer G. */
  predicate Timed(t: Ist, since: nat, n: nat) {
    && since <= t.now && t.last.Some? && (t.listed <==> t.state != State.Terminated)
    && (!t.udp ==> n == 0)
    && (n > 0 ==> Offset(n - 1) <= TIMER_H)
    && match t.state
       case Proceeding =>
         n == 0 && t.c2 == Some(since + TIMER_C2) && t.g == None && t.h == None && t.i == None && t.l == None
       case Accepted =>
         n == 0 && t.l == Some(since + TIMER_L) && t.c2 == None && t.g == None && t.h == None && t.i == None
       case Completed =>
         && t.h == Some(since + TIMER_H) && t.c2 == None && t.i == None && t.l == None
         && t.g == (if t.udp then Some(Periodic(since + Offset(n), Interval(n))) else None)
         && (n > 0 ==> since + Offset(n - 1) <= t.now)
       case Confirmed =>
         t.udp && t.i == Some(since + TIMER_I_UDP) && t.c2 == None && t.g == None && t.h == None && t.l == None
       case Terminated => t.c2 == None && t.g == None && t.h == None && t.i == None && t.l == None
  }

  /** Figure 7 of RFC 3261 with the Accepted state of RFC 6026: where an event takes a listed transaction. */
  function Next(t: Ist, e: Event): State {
    match (t.state, e)
    case (Proceeding, Respond(_, code, _)) => if code < 200 then Proceeding else if code < 300 then Accepted else Completed
    case (Completed, AckIn(_)) => if t.udp then Confirmed else State.Terminated
    case (state, Fire(x)) => if x == G then state else State.Terminated
    case (state, _) => state
  }

  function Since(t: Ist, u: Ist, since: nat): nat { if u.state == t.state then since else u.now }

  lemma LaterTimed(t: Ist, now: nat, since: nat, n: nat)
    requires Timed(t, since, n) && t.now <= now
    ensures Timed(t.(now := now), since, n)
  {
    hide Offset, Interval;
  }

  lemma ReplyTimed(t: Ist, code: nat, text: string, since: nat, n: nat)
    requires Timed(t, since, n)
    ensures var u := Reply(t, code, text); Timed(u, Since(t, u, since), n) && u.listed == t.listed
    ensures Reply(t, code, text).state == Next(t, Respond(0, code, text))
    ensures Repetitions(Reply(t, code, text).sent) == Repetitions(t.sent)
  {
    hide Repetitions;
    assert Offset(0) == TIMER_G && Interval(0) == TIMER_G;
    hide Offset, Interval;
    RepetitionsSnoc(t.sent, New(code, text));
  }

  lemma AckTimed(t: Ist, since: nat, n: nat)
    requires Timed(t, since, n) && t.listed
    ensures var u := Ack(t); Timed(u, Since(t, u, since), n) && u.sent == t.sent
    ensures Ack(t).state == Next(t, AckIn(0)) && (Ack(t).listed <==> Ack(t).state != State.Terminated)
  {
    hide Offset, Interval;
  }

  lemma RetransmitTimed(t: Ist, since: nat, n: nat)
    requires Timed(t, since, n)
    ensures var u := Retransmit(t);
      && Timed(u, since, n) && u.state == t.state && u.listed == t.listed && u.now == t.now
      && u.sent == t.sent + [Again(t.last.value)] && Repetitions(u.sent) == Repetitions(t.sent) + 1
  {
    hide Offset, Interval, Repetitions;
    RepetitionsSnoc(t.sent, Again(t.last.value));
  }

  /** Timer G finds timer H still ahead. */
  lemma TimerGTimed(t: Ist, since: nat, n: nat)
    requires Timed(t, since, n) && t.g.Some? && InTime(t, t.g.value.due) && t.now == t.g.value.due
    ensures var u := FireG(t);
      Timed(u, since, n + 1) && u.state == t.state && u.listed && Repetitions(u.sent) == Repetitions(t.sent) + 1
  {
    hide Repetitions;
    RetransmitTimed(t, since, n);
    assert Interval(n + 1) == Min(2 * Interval(n), T2) && Offset(n + 1) == Offset(n) + Interval(n + 1);
    hide Offset, Interval;
  }

  lemma OneShotTimed(t: Ist, x: Timer, since: nat, n: nat)
    requires Timed(t, since, n) && x != G && Due(t, x) == Some(t.now)
    ensures var u := Fired(t, x);
      Timed(u, Since(t, u, since), n) && u.sent == t.sent && !u.listed && u.state == State.Terminated
  {
    hide Offset, Interval;
  }

  lemma StepTimed(t: Ist, e: Event, since: nat, n: nat)
    requires Timed(t, since, n) && t.listed && Timely(t) && Enabled(t, e)
    ensures var u := Step(t, e);
      && Timed(u, Since(t, u, since), if e == Fire(G) then n + 1 else n)
      && u.state == Next(t, e) && (u.listed <==> u.state != State.Terminated)
      && Repetitions(u.sent) == (if e == Fire(G) || e.InviteIn? then Repetitions(t.sent) + 1 else Repetitions(t.sent))
      && (e.InviteIn? ==> u.sent == t.sent + [Again(t.last.value)])
  {
    hide Timed, Repetitions, Reply, Ack, Retransmit, FireG;
    var now' := if e.Fire? then Due(t, e.timer).value else t.now + e.dt;
    var t' := t.(now := now');
    assert t.now <= now';
    LaterTimed(t, now', since, n);
    match e
    case Respond(dt, code, text) => ReplyTimed(t', code, text, since, n);
    case AckIn(dt) => AckTimed(t', since, n);
    case InviteIn(dt) => RetransmitTimed(t', since, n);
    case Fire(x) => if x == G { TimerGTimed(t', since, n); } else { OneShotTimed(t', x, since, n); }
  }

  lemma UnlistedTimed(t: Ist, e: Event, since: nat, n: nat)
    requires Timed(t, since, n) && !t.listed && Timely(t) && Enabled(t, e)
    ensures var u := Step(t, e);
      Timed(u, Since(t, u, since), n) && e != Fire(G) && u.sent == t.sent
  {
    hide Offset, Interval, Step;
    StepTimely(t, e);
  }

  lemma {:induction false} RunTimed(t: Ist, es: seq<Event>, since: nat, n: nat)
    requires Timed(t, since, n) && Timely(t) && Legal(t, es)
    ensures var u := Run(t, es);
      && Timed(u, Entered(t, es, since), n + Turns(es)) && Timely(u)
      && Repetitions(u.sent) == Repetitions(t.sent) + Turns(es) + InvitesAgain(t, es)
    decreases |es|
  {
    if es != [] {
      hide Timed, Timely, Repetitions, Step, Enabled;
      var e, u := es[0], Step(t, es[0]);
      StepTimely(t, e);
      if t.listed { StepTimed(t, e, since, n); } else { UnlistedTimed(t, e, since, n); }
      RunTimed(u, es[1..], Since(t, u, since), if e == Fire(G) then n + 1 else n);
    }
  }

  lemma CreatedTimed(udp: bool, now: nat, trying: string)
    ensures var t := Created(udp, now, trying); Timed(t, now, 0) && Timely(t) && Repetitions(t.sent) == 0 && t.udp == udp
  {
    assert Created(udp, now, trying).sent == [] + [New(100, trying)];
    RepetitionsSnoc([], New(100, trying));
    CreatedSpoken(udp, now, trying);
  }

  /** The retransmissions of a 3xx-6xx in every run. Timer G runs over UDP in Completed and nowhere else; it is due
      0.5, 1.5, 3.5, 7.5, 11.5 ... s after the refusal, until the ACK or timer H, at most 10 times; and what is
      sent again is exactly one response for each of its turns and for each INVITE received again. */
  lemma RefusalSchedule(udp: bool, now: nat, trying: string, es: seq<Event>)
    requires Legal(Created(udp, now, trying), es)
    ensures var t0 := Created(udp, now, trying); var t := Run(t0, es); var n := Turns(es);
      && (t.g.Some? <==> udp && t.state == Completed)
      && (t.g.Some? ==> t.g.value.due == Entered(t0, es, now) + Offset(n))
      && n <= 10 && (!udp ==> n == 0)
      && Repetitions(t.sent) == n + InvitesAgain(t0, es)
    ensures Offset(0) == 500 && Offset(1) == 1500 && Offset(2) == 3500 && Offset(3) == 7500 && Offset(4) == 11500
  {
    hide Step, Entered, Repetitions, InvitesAgain, Legal, Offset;
    var t0, n := Created(udp, now, trying), Turns(es);
    CreatedTimed(udp, now, trying);
    RunTimed(t0, es, now, 0);
    SameTransport(t0, es);
    Offsets();
    if n > 10 { OffsetsGrow(10, n - 1); }
  }

  lemma {:induction false} SameTransport(t: Ist, es: seq<Event>)
    ensures Run(t, es).udp == t.udp
    decreases |es|
  {
    if es != [] { SameTransport(Step(t, es[0]), es[1..]); }
  }

  /** How long every state lasts, over all runs: Proceeding without a final response exactly 182 s, Accepted exactly
      32 s, Completed without an ACK exactly 32 s, Confirmed, over UDP only, exactly 5 s. The state changes then, by a
      final response or by the ACK for a refusal, and never otherwise; while the transaction is listed, an INVITE
      received again is answered with the last response. */
  lemma StatesLast(udp: bool, now: nat, trying: string, es: seq<Event>, e: Event)
    requires var t0 := Created(udp, now, trying);
      Legal(t0, es) && Run(t0, es).listed && Enabled(Run(t0, es), e)
    ensures var t0 := Created(udp, now, trying); var t := Run(t0, es);
      && Timed(t, Entered(t0, es, now), Turns(es))
      && Step(t, e).state == Next(t, e) && (Step(t, e).listed <==> Next(t, e) != State.Terminated)
      && LastText(t.sent).Some?
      && (e.InviteIn? ==> Step(t, e).sent == t.sent + [Again(LastText(t.sent).value)])
    ensures TIMER_C2 == 182000 && TIMER_L == TIMER_H == 32000 && TIMER_I_UDP == 5000
  {
    hide Step, Timed, Timely, Enabled, Legal, Faithful, Fits;
    var t0 := Created(udp, now, trying);
    CreatedTimed(udp, now, trying);
    RunTimed(t0, es, now, 0);
    StepTimed(Run(t0, es), e, Entered(t0, es, now), Turns(es));
    CreatedSpoken(udp, now, trying);
    RunSpoken(t0, es);
    LastSent(Run(t0, es), Entered(t0, es, now), Turns(es));
  }

  lemma LastSent(t: Ist, since: nat, n: nat)
    requires Timed(t, since, n)
    ensures t.last.Some?
  {}
}

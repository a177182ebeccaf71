/** What a non-INVITE server transaction sends and when, and how long it stays in a state. */
module NonInviteServerExact {
  import opened Wrappers
  import opened Timers
  import opened NonInviteServer

  /** Until the first final response every response is sent; after it none. */
  lemma ReplySent(t: Nist, code: nat, text: string)
    ensures var u := Reply(t, code, text);
      if t.state in {Trying, Proceeding} then
        && u.sent == t.sent + [New(code, text)] && u.last == Some(text)
        && u.state == if code < 200 then Proceeding else if t.udp then Completed else State.Terminated
      else u == t
  {}

  /** The response sent last, from what was sent alone. */
  function LastText(sent: seq<Upstream>): Option<string> {
    if sent == [] then None else Some(sent[|sent| - 1].text)
  }

  /** When the state reached was entered. */
  function Entered(t: Nist, es: seq<Event>, since: nat): nat
    decreases |es|
  {
    if es == [] then since else var u := Step(t, es[0]); Entered(u, es[1..], Since(t, u, since))
  }

  function Since(t: Nist, u: Nist, since: nat): nat { if u.state == t.state then since else u.now }

  /** INT1 until 5 s after the start, then INT2; after a final response J alone. */
  predicate Timed(t: Nist, since: nat) {
    && since <= t.now && t.last == LastText(t.sent) && (t.listed <==> t.state != State.Terminated)
    && match t.state
       case Trying => since == t.born && t.int1 == Some(t.born + INT1) && t.int2 == None && t.j == None && t.sent == []
       case Proceeding =>
         && t.j == None && t.sent != []
         && ((t.int1 == Some(t.born + INT1) && t.int2 == None)
             || (t.int1 == None && t.int2 == Some(t.born + INT1 + INT2) && t.born + INT1 <= t.now))
       case Completed => t.udp && t.int1 == None && t.int2 == None && t.j == Some(since + TIMER_J_UDP) && t.sent != []
       case Terminated => t.int1 == None && t.int2 == None && t.j == None
  }

  /** What takes a listed transaction out of the table. */
  predicate Ends(t: Nist, e: Event) {
    match e
    case Respond(_, code, _) => code >= 200 && t.state in {Trying, Proceeding} && !t.udp
    case RequestIn(_) => false
    case Fire(x) => x in {T_INT2, T_J}
  }

  /** What an event sends. */
  function Sends(t: Nist, e: Event): seq<Upstream> {
    match e
    case Respond(_, code, text) => if t.state in {Trying, Proceeding} then [New(code, text)] else []
    case RequestIn(_) => if t.sent == [] then [] else [Again(t.sent[|t.sent| - 1].text)]
    case Fire(x) => if x == T_INT1 && t.state == Trying then [New(100, ALIVE)] else []
  }

  lemma StepTimed(t: Nist, e: Event, since: nat)
    requires Timed(t, since) && t.listed && InTime(t, t.now) && Enabled(t, e)
    ensures var u := Step(t, e);
      Timed(u, Since(t, u, since)) && (u.listed <==> !Ends(t, e)) && u.sent == t.sent + Sends(t, e)
  {}

  lemma UnlistedTimed(t: Nist, e: Event, since: nat)
    requires Timed(t, since) && !t.listed && Enabled(t, e)
    ensures var u := Step(t, e); Timed(u, Since(t, u, since))
  {}

  lemma {:induction false} RunTimed(t: Nist, es: seq<Event>, since: nat)
    requires Timed(t, since) && Timely(t) && Spoken(t) && Legal(t, es)
    ensures Timed(Run(t, es), Entered(t, es, since)) && Timely(Run(t, es))
    decreases |es|
  {
    if es != [] {
      InTimeAlready(t);
      hide Timed, Timely, Spoken, Step, Enabled, InTime;
      StepKeeps(t, es[0]);
      if t.listed { StepTimed(t, es[0], since); } else { UnlistedTimed(t, es[0], since); }
      RunTimed(Step(t, es[0]), es[1..], Since(t, Step(t, es[0]), since));
    }
  }

  lemma InTimeAlready(t: Nist)
    requires Timely(t)
    ensures InTime(t, t.now)
  {}

  /** Over all runs: unless answered at all by then, 100 is sent exactly 5 s after the start; without a final response
      the transaction ends exactly 32 s after it; with one, exactly 32 s later over UDP and at once otherwise;
      and it ends for no other reason. Every response up to the first final one is sent, none later, and while the
      transaction is listed a request received again is answered with the last one, if any. */
  lemma StatesLast(udp: bool, now: nat, es: seq<Event>, e: Event)
    requires var t0 := Created(udp, now); Legal(t0, es) && Run(t0, es).listed && Enabled(Run(t0, es), e)
    ensures var t0 := Created(udp, now); var t := Run(t0, es);
      && Timed(t, Entered(t0, es, now))
      && (Step(t, e).listed <==> !Ends(t, e))
      && Step(t, e).sent == t.sent + Sends(t, e)
    ensures INT1 == 5000 && INT1 + INT2 == TIMER_J_UDP == 32000
  {
    hide Step, Legal, Enabled;
    var t0 := Created(udp, now);
    RunTimed(t0, es, now);
    InTimeAlready(Run(t0, es));
    StepTimed(Run(t0, es), e, Entered(t0, es, now));
  }
}

/** What a non-INVITE client transaction tells its core, and how long it stays in a state. */
module NonInviteClientExact {
  import opened Wrappers
  import opened Timers
  import opened ResponseCodes
  import opened NonInviteClient

  // ---- Responses ----

  /** The codes received while the table lists the transaction. */
  function Heard(t: Nict, es: seq<Event>): seq<nat>
    decreases |es|
  {
    if es == [] then []
    else (if es[0].Response? && t.listed then [es[0].code] else []) + Heard(Step(t, es[0]), es[1..])
  }

  /** Every response up to the first final one, 100 apart. */
  function ToTell(codes: seq<nat>): seq<nat> {
    if codes == [] then []
    else
      var before, code := codes[..|codes| - 1], codes[|codes| - 1];
      ToTell(before) + if AllProvisional(before) && code != 100 then [code] else []
  }

  /** The responses handed to the core. */
  function Answers(h: seq<Act>): seq<nat> {
    if h == [] then []
    else Answers(h[..|h| - 1]) + if IsAnswer(h[|h| - 1]) then [h[|h| - 1].event.code] else []
  }

  lemma AnswersSnoc(h: seq<Act>, x: Act)
    ensures Answers(h + [x]) == if IsAnswer(x) then Answers(h) + [x.event.code] else Answers(h)
  {
    assert (h + [x])[..|h|] == h;
  }

  lemma ToTellSnoc(codes: seq<nat>, code: nat)
    ensures ToTell(codes + [code]) ==
      if AllProvisional(codes) && code != 100 then ToTell(codes) + [code] else ToTell(codes)
    ensures AllProvisional(codes + [code]) <==> AllProvisional(codes) && code < 200
  {
    var cs := codes + [code];
    assert cs[..|codes|] == codes && cs[|codes|] == code;
    assert forall k :: 0 <= k < |codes| ==> cs[k] == codes[k];
  }

  /** What was told, and the state, follow from the codes received. */
  predicate Exact(t: Nict, codes: seq<nat>) {
    && (t.listed <==> t.state != State.Terminated)
    && Answers(t.hist) == ToTell(codes)
    && (t.listed ==> t.state == if codes == [] then Trying else if AllProvisional(codes) then Proceeding else Completed)
  }

  lemma SilentExact(t: Nict, u: Nict, x: Act, codes: seq<nat>)
    requires Exact(t, codes) && !IsAnswer(x) && u.hist in {t.hist, t.hist + [x]}
    requires (u.listed <==> u.state != State.Terminated) && (u.listed ==> t.listed && u.state == t.state)
    ensures Exact(u, codes)
  {
    hide Answers, ToTell, AllProvisional, IsAnswer;
    AnswersSnoc(t.hist, x);
  }

  lemma ResponseExact(t: Nict, code: nat, codes: seq<nat>)
    requires Exact(t, codes) && t.listed
    ensures Exact(OnResponse(t, code), codes + [code])
  {
    hide Answers, ToTell, AllProvisional;
    AnswersSnoc(t.hist, Tell(Answer(code)));
    ToTellSnoc(codes, code);
    NoneReceived();
  }

  lemma NoneReceived()
    ensures AllProvisional([])
  {}

  lemma StepExact(t: Nict, ev: Event, codes: seq<nat>)
    requires Exact(t, codes)
    ensures Exact(Step(t, ev), if ev.Response? && t.listed then codes + [ev.code] else codes)
  {
    hide Exact, OnResponse;
    ListedMeaning(t, codes);
    var u := Step(t, ev);
    match ev
    case Response(dt, code) =>
      SilentExact(t, t.(now := t.now + dt), TxRequest, codes);
      if t.listed { ResponseExact(t.(now := t.now + dt), code, codes); }
    case Down(dt, tls) => SilentExact(t, u, Tell(if tls then TlsFailed else ConnectionFailed), codes);
    case Fire(x) => SilentExact(t, u, if x == E then TxRequestAgain else Tell(ClientTimeout), codes);
  }

  lemma ListedMeaning(t: Nict, codes: seq<nat>)
    requires Exact(t, codes)
    ensures t.listed <==> t.state != State.Terminated
  {}

  lemma HeardFirst(t: Nict, es: seq<Event>, codes: seq<nat>)
    requires es != []
    ensures (if es[0].Response? && t.listed then codes + [es[0].code] else codes) + Heard(Step(t, es[0]), es[1..])
         == codes + Heard(t, es)
  {
    hide Step;
  }

  lemma {:induction false} RunExact(t: Nict, es: seq<Event>, codes: seq<nat>)
    requires Exact(t, codes)
    ensures Exact(Run(t, es), codes + Heard(t, es))
    decreases |es|
  {
    if es == [] {
      assert codes + [] == codes;
    } else {
      hide Exact, Step, Heard;
      var codes' := if es[0].Response? && t.listed then codes + [es[0].code] else codes;
      StepExact(t, es[0], codes);
      RunExact(Step(t, es[0]), es[1..], codes');
      HeardFirst(t, es, codes);
    }
  }

  /** In every run the core is told exactly the responses received up to the first final one, 100 apart; so a final
      response that reaches the transaction is told, and the state follows from the codes received. */
  lemma EveryAnswerTold(udp: bool, timerF: nat, now: nat, es: seq<Event>)
    ensures var t0 := Started(udp, timerF, now); var t := Run(t0, es); var codes := Heard(t0, es);
      && Answers(t.hist) == ToTell(codes)
      && (t.listed ==> t.state == if codes == [] then Trying else if AllProvisional(codes) then Proceeding else Completed)
  {
    var t0 := Started(udp, timerF, now);
    AnswersSnoc([], TxRequest);
    assert [] + [TxRequest] == [TxRequest];
    RunExact(t0, es, []);
    assert [] + Heard(t0, es) == Heard(t0, es);
  }

  // ---- How long a state lasts ----

  function Since(t: Nict, u: Nict, since: nat): nat { if u.state == t.state then since else u.now }

  /** When the state reached was entered. */
  function Entered(t: Nict, es: seq<Event>, since: nat): nat
    decreases |es|
  {
    if es == [] then since else var u := Step(t, es[0]); Entered(u, es[1..], Since(t, u, since))
  }

  predicate Timed(t: Nict, since: nat) {
    && (t.listed <==> t.state != State.Terminated) && (t.listed ==> since <= t.now)
    && match t.state
       case Trying => t.f == Some(t.born + t.timerF) && t.k == None && (t.e.Some? <==> t.udp)
       case Proceeding => t.f == Some(t.born + t.timerF) && t.k == None && (t.e.Some? <==> t.udp)
       case Completed => t.udp && t.e == None && t.f == None && t.k == Some(since + TIMER_K_UDP)
       case Terminated => t.e == None && t.f == None
  }

  /** What takes a listed transaction out of the table. */
  predicate Ends(t: Nict, ev: Event) {
    match ev
    case Response(_, code) => code >= 200 && t.state in {Trying, Proceeding} && !t.udp
    case Down(_, _) => true
    case Fire(x) => x in {F, K}
  }

  /** What timers and connection failures send or tell. */
  function Acts(ev: Event): seq<Act> {
    match ev
    case Response(_, _) => []
    case Down(_, tls) => [Tell(if tls then TlsFailed else ConnectionFailed)]
    case Fire(x) => match x case E => [TxRequestAgain] case F => [Tell(ClientTimeout)] case K => []
  }

  lemma StepTimed(t: Nict, ev: Event, since: nat)
    requires Timed(t, since) && t.listed && InTime(t, t.now) && Enabled(t, ev)
    ensures var u := Step(t, ev);
      && Timed(u, Since(t, u, since)) && (u.listed <==> !Ends(t, ev))
      && (!ev.Response? ==> u.hist == t.hist + Acts(ev))
      && (ev == Fire(E) && t.state == Proceeding ==> u.e.value.due == u.now + T2)
  {}

  lemma UnlistedTimed(t: Nict, ev: Event, since: nat)
    requires Timed(t, since) && !t.listed
    ensures var u := Step(t, ev); !u.listed && Timed(u, Since(t, u, since))
  {}

  lemma {:induction false} RunTimed(t: Nict, es: seq<Event>, since: nat)
    requires Timed(t, since) && Sane(t) && Legal(t, es)
    ensures Timed(Run(t, es), Entered(t, es, since)) && Sane(Run(t, es))
    decreases |es|
  {
    if es != [] {
      SaneInTime(t);
      hide Timed, Sane, Step, Enabled, InTime;
      StepSane(t, es[0]);
      if t.listed { StepTimed(t, es[0], since); } else { UnlistedTimed(t, es[0], since); }
      RunTimed(Step(t, es[0]), es[1..], Since(t, Step(t, es[0]), since));
    }
  }

  lemma SaneInTime(t: Nict)
    requires Sane(t)
    ensures t.listed ==> InTime(t, t.now)
  {}

  /** Over all runs: without a final response the transaction ends exactly timer_F after the start, and over UDP timer E
      runs until then; with one, exactly 5 s later over UDP and at once otherwise; a connection failure ends
      it, and nothing else does. Timer E sends the request again, timer F and the failure are told; after a
      provisional response retransmissions are 4 s apart. */
  lemma StatesLast(udp: bool, timerF: nat, now: nat, es: seq<Event>, ev: Event)
    requires var t0 := Started(udp, timerF, now); Legal(t0, es) && Run(t0, es).listed && Enabled(Run(t0, es), ev)
    ensures var t0 := Started(udp, timerF, now); var t := Run(t0, es);
      && Timed(t, Entered(t0, es, now))
      && (Step(t, ev).listed <==> !Ends(t, ev))
      && (!ev.Response? ==> Step(t, ev).hist == t.hist + Acts(ev))
      && (ev == Fire(E) && t.state == Proceeding ==> Step(t, ev).e.value.due == Step(t, ev).now + 4000)
    ensures TIMER_K_UDP == 5000
  {
    hide Step, Legal, Enabled;
    var t0 := Started(udp, timerF, now);
    RunTimed(t0, es, now);
    SaneInTime(Run(t0, es));
    StepTimed(Run(t0, es), ev, Entered(t0, es, now));
  }
}

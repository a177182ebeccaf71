/** How long INVITE client transactions live, and which timers outlive them. */
module InviteClientLifetime {
  import opened Wrappers
  import opened Timers
  import opened InviteClient

  function Lifetime(conf: Conf): nat {
    conf.timerC + (if conf.timerF + 4000 >= 32000 then conf.timerF + 4000 else 32000)
  }

  /** The CANCEL in flight ends the transaction: by its timeout, or 4 s after its first response. */
  predicate CancelEnds(t: Ict) {
    || ArmedBy(t.f, t.born + t.conf.timerC + t.conf.timerF)
    || ArmedBy(Due(t, Linger), t.born + t.conf.timerC + t.conf.timerF + 4000)
  }

  predicate FinalEnds(t: Ict, timer: Option<nat>) {
    if t.cancelSent then CancelEnds(t) else ArmedBy(timer, t.born + t.conf.timerC + 32000)
  }

  predicate ProceedingEnds(t: Ict) {
    && (t.c.Some? ==> t.c.value == t.born + t.conf.timerC)
    && (t.cancel.Some? ==> t.cancelSent)
    && if t.cancelSent then CancelEnds(t) else t.c.Some?
  }

  predicate CallingEnds(t: Ict) {
    ArmedBy(t.b, t.born + t.conf.timerB) && t.c == Some(t.born + t.conf.timerC) && !t.cancelSent
  }

  predicate Timely(t: Ict) {
    && (t.listed <==> t.state != State.Terminated)
    && (t.listed ==> InTime(t, t.now))
    && (t.cancelSent ==> t.cancel.Some?)
    && (t.linger != [] ==> t.cancelSent && t.f == None)
    && match t.state
       case Calling => CallingEnds(t)
       case Proceeding => ProceedingEnds(t)
       case Completed => FinalEnds(t, t.d)
       case Accepted => FinalEnds(t, t.m)
       case Terminated => true
  }

  /** Birth, configuration and transport never change. */
  predicate Same(t: Ict, u: Ict) { u.born == t.born && u.conf == t.conf && u.udp == t.udp }

  lemma LaterTimely(t: Ict, now: nat)
    requires Timely(t) && InTime(t, now)
    ensures Timely(t.(now := now))
  {}

  lemma CancelTimely(t: Ict, reasons: seq<string>)
    requires Timely(t)
    ensures Timely(DoCancel(t, reasons)) && Same(t, DoCancel(t, reasons))
  {
    hide CancelText;
  }

  lemma ProvisionalTimely(t: Ict, code: nat)
    requires Timely(t)
    ensures Timely(OnProvisional(t, code)) && Same(t, OnProvisional(t, code))
  {
    if t.state == Calling {
      FirstProvisionalTimely(t, code);
    }
  }

  lemma FirstProvisionalTimely(t: Ict, code: nat)
    requires Timely(t) && t.state == Calling
    ensures Timely(OnProvisional(t, code)) && Same(t, OnProvisional(t, code))
  {
    hide FinalEnds;
    var u := TellAnswer(t.(state := Proceeding, a := None, b := None), code);
    assert u.cancel.Some? ==> CancelEnds(SendCancel(u));
  }

  lemma RefusalTimely(t: Ict, code: nat, toTag: Option<string>)
    requires Timely(t)
    ensures Timely(OnRefusal(t, code, toTag)) && Same(t, OnRefusal(t, code, toTag))
  {
    hide AckText, SendAck, Timely;
    if t.state == Calling || t.state == Proceeding {
      CompletedTimely(t);
      AckTimely(Complete(t), toTag);
      LogTimely(SendAck(Complete(t), toTag), Tell(Answer(code)));
    } else {
      AckTimely(t, toTag);
    }
  }

  lemma CompletedTimely(t: Ict)
    requires Timely(t) && (t.state == Calling || t.state == Proceeding)
    ensures Timely(Complete(t))
  {}

  lemma AckTimely(t: Ict, toTag: Option<string>)
    requires Timely(t)
    ensures Timely(SendAck(t, toTag)) && Same(t, SendAck(t, toTag))
  {
    hide AckText;
  }

  lemma SuccessTimely(t: Ict, code: nat)
    requires Timely(t)
    ensures Timely(OnSuccess(t, code)) && Same(t, OnSuccess(t, code))
  {}

  lemma CancelResponseTimely(t: Ict)
    requires Timely(t)
    ensures Timely(OnCancelResponse(t)) && Same(t, OnCancelResponse(t))
  {}

  /** With timer B first, timer C finds the transaction in Proceeding, where its CANCEL goes out. */
  lemma FiredTimely(t: Ict, x: Timer)
    requires Timely(t) && t.listed && t.conf.timerB < t.conf.timerC
    requires Due(t, x) == Some(t.now)
    ensures Timely(Fired(t, x)) && Same(t, Fired(t, x))
  {
    hide CancelText, DoCancel;
    if x == C {
      assert t.state != Calling;
      StoppedTimely(t);
      LogTimely(DoCancel(t.(a := None, b := None, c := None), []), Tell(InviteTimeout));
    }
  }

  lemma StoppedTimely(t: Ict)
    requires Timely(t) && t.listed && t.state != Calling && t.c == Some(t.now)
    ensures var u := DoCancel(t.(a := None, b := None, c := None), []);
      Timely(u) && Same(t, u)
  {
    hide CancelText;
  }

  lemma StepTimely(t: Ict, e: Event)
    requires Timely(t) && t.listed && Enabled(t, e) && t.conf.timerB < t.conf.timerC
    ensures Timely(Step(t, e)) && Same(t, Step(t, e))
  {
    hide Timely, InTime, DoCancel, OnProvisional, OnRefusal, OnSuccess, OnCancelResponse, Fired;
    match e
    case Response(dt, code, toTag) =>
      LaterTimely(t, t.now + dt);
      var t' := Log(t.(now := t.now + dt), Rx(code));
      LogTimely(t.(now := t.now + dt), Rx(code));
      ProvisionalTimely(t', code);
      RefusalTimely(t', code, toTag);
      SuccessTimely(t', code);
    case CancelResponse(dt) =>
      LaterTimely(t, t.now + dt);
      CancelResponseTimely(t.(now := t.now + dt));
    case Cancel(dt, reasons) =>
      LaterTimely(t, t.now + dt);
      CancelTimely(t.(now := t.now + dt), reasons);
    case Down(dt, tls) =>
      LaterTimely(t, t.now + dt);
      DownTimely(t.(now := t.now + dt), if tls then TlsFailed else ConnectionFailed);
    case Fire(x) =>
      LaterTimely(t, Due(t, x).value);
      FiredTimely(t.(now := Due(t, x).value), x);
  }

  lemma LogTimely(t: Ict, act: Act)
    requires Timely(t)
    ensures Timely(Log(t, act)) && Same(t, Log(t, act))
  {}

  lemma DownTimely(t: Ict, event: CoreEvent)
    requires Timely(t)
    ensures Timely(OnDown(t, event)) && Same(t, OnDown(t, event))
  {}

  /** `:terminated` is never left, nor the table entered again. */
  lemma StepFromTerminated(t: Ict, e: Event)
    requires t.state == State.Terminated && !t.listed
    ensures Step(t, e).state == State.Terminated && !Step(t, e).listed
  {
    hide AckText, CancelText, InTime, OnResponse, OnCancelResponse, Fired;
    if e.Fire? && Due(t, e.timer).Some? {
      FiredFromTerminated(t.(now := Due(t, e.timer).value), e.timer);
    }
  }

  lemma FiredFromTerminated(t: Ict, x: Timer)
    requires t.state == State.Terminated && !t.listed && Due(t, x).Some?
    ensures Fired(t, x).state == State.Terminated && !Fired(t, x).listed
  {
    hide CancelText;
  }

  lemma {:induction false} RunFromTerminated(t: Ict, es: seq<Event>)
    requires t.state == State.Terminated && !t.listed
    ensures Run(t, es).state == State.Terminated && !Run(t, es).listed
    decreases |es|
  {
    if es != [] {
      hide Step;
      StepFromTerminated(t, es[0]);
      RunFromTerminated(Step(t, es[0]), es[1..]);
    }
  }

  lemma {:induction false} RunTimely(t: Ict, es: seq<Event>)
    requires Timely(t) && Legal(t, es) && t.conf.timerB < t.conf.timerC
    ensures Run(t, es).listed ==> Timely(Run(t, es)) && Run(t, es).born == t.born && Run(t, es).conf == t.conf
    ensures Run(t, es).listed <==> Run(t, es).state != State.Terminated
    decreases |es|
  {
    if es == [] {
    } else if t.listed {
      hide Step;
      StepTimely(t, es[0]);
      RunTimely(Step(t, es[0]), es[1..]);
    } else {
      RunFromTerminated(t, es);
    }
  }

  predicate OneShot(x: Timer) { x != A && x != E }

  /** In every run, a transaction in its table has a timer running that is due within Lifetime(conf). */
  ghost predicate AlwaysEnds(conf: Conf) {
    forall udp, request, topVia, now: nat, es :: var t0 := Started(udp, conf, request, topVia, now);
      Legal(t0, es) ==> Ends(Run(t0, es), now + Lifetime(conf))
  }

  ghost predicate Ends(t: Ict, bound: nat) {
    t.listed ==> exists x :: OneShot(x) && ArmedBy(Due(t, x), bound)
  }

  lemma TimelyEnds(t: Ict)
    requires Timely(t) && t.conf.timerB < t.conf.timerC
    ensures Ends(t, t.born + Lifetime(t.conf))
    ensures t.now > t.born + Lifetime(t.conf) ==> !t.listed
  {
    if t.listed {
      var x :=
        if t.state == Calling then B
        else if t.cancelSent then (if ArmedBy(t.f, t.born + t.conf.timerC + t.conf.timerF) then F else Linger)
        else if t.state == Proceeding then C
        else if t.state == Completed then D else M;
      assert OneShot(x) && ArmedBy(Due(t, x), t.born + Lifetime(t.conf));
    }
  }

  /** With timer B below timer C the transaction is in its table exactly while it is not terminated, and
      has left it timer_C + max(32 s, timer_F + 4 s) after its start. */
  lemma LeavesTableInTime(udp: bool, conf: Conf, request: Request, topVia: string, now: nat, es: seq<Event>)
    requires conf.timerB < conf.timerC && Legal(Started(udp, conf, request, topVia, now), es)
    ensures var t := Run(Started(udp, conf, request, topVia, now), es);
      && (t.listed <==> t.state != State.Terminated)
      && Ends(t, now + Lifetime(conf))
      && (t.now > now + Lifetime(conf) ==> !t.listed)
  {
    var t0 := Started(udp, conf, request, topVia, now);
    RunTimely(t0, es);
    if Run(t0, es).listed {
      TimelyEnds(Run(t0, es));
    }
  }

  /** Timer C firing in Calling leaves the transaction in its table with no timer at all. */
  lemma Stranded(conf: Conf, request: Request, topVia: string, now: nat)
    requires conf.timerC <= conf.timerB
    ensures var t0 := Started(false, conf, request, topVia, now);
      && Legal(t0, [Fire(C)])
      && Run(t0, [Fire(C)]).listed && forall x :: Due(Run(t0, [Fire(C)]), x) == None
  {
    hide CancelText;
    var t0 := Started(false, conf, request, topVia, now);
    var es := [Fire(C)];
    assert es[1..] == [];
    assert Run(t0, es) == Step(t0, Fire(C));
    var t := Step(t0, Fire(C));
    forall x ensures Due(t, x) == None {}
  }

  /** Every run ends in time if and only if timer B is below timer C. */
  lemma EndsIffBBelowC(conf: Conf)
    ensures AlwaysEnds(conf) <==> conf.timerB < conf.timerC
  {
    if conf.timerB < conf.timerC {
      forall udp, request, topVia, now: nat, es | Legal(Started(udp, conf, request, topVia, now), es)
        ensures Ends(Run(Started(udp, conf, request, topVia, now), es), now + Lifetime(conf))
      {
        LeavesTableInTime(udp, conf, request, topVia, now, es);
      }
    } else {
      var request := Request("", [], "", "", false, "", "");
      Stranded(conf, request, "", 0);
      var t0, es := Started(false, conf, request, "", 0), [Fire(C)];
      assert Legal(t0, es) && !Ends(Run(t0, es), 0 + Lifetime(conf));
    }
  }
}

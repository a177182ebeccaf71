/** Which retransmission timers can outlive an INVITE client transaction. */
module InviteClientQuiet {
  import opened Wrappers
  import opened Timers
  import opened InviteClient

  /** Timer A runs in Calling only, the CANCEL timer E only beside timer F; when a final response has come,
      F is due before the timer that ends the transaction. */
  predicate Quiet(t: Ict) {
    && (t.a.Some? ==> t.state == Calling)
    && (t.e.Some? ==>
          && t.udp && t.cancelSent && t.f.Some? && t.linger == []
          && t.state in {Proceeding, Completed, Accepted}
          && (t.d.Some? ==> t.f.value < t.d.value) && (t.m.Some? ==> t.f.value < t.m.value))
    && (t.f.Some? ==> t.f.value <= t.now + t.conf.timerF)
    && (t.cancelSent ==> t.cancel.Some? && t.state != Calling)
    && (t.d.Some? ==> t.state in {Completed, State.Terminated}) && (t.m.Some? ==> t.state in {Accepted, State.Terminated})
    && (t.b.Some? ==> t.state == Calling)
    && (t.linger != [] || t.f.Some? ==> t.cancelSent)
    && (t.cancel.Some? && t.state == Proceeding ==> t.cancelSent)
  }

  lemma LaterQuiet(t: Ict, now: nat)
    requires Quiet(t) && t.now <= now
    ensures Quiet(t.(now := now))
  {}

  lemma CancelQuiet(t: Ict, reasons: seq<string>)
    requires Quiet(t)
    ensures Quiet(DoCancel(t, reasons))
  {
    hide CancelText;
  }

  lemma ProvisionalQuiet(t: Ict, code: nat)
    requires Quiet(t)
    ensures Quiet(OnProvisional(t, code))
  {}

  /** The response comes strictly after the CANCEL went out, so timer F is due before timer D or M. */
  lemma SuccessQuiet(t: Ict, code: nat)
    requires Quiet(t) && t.conf.timerF <= 32000
    requires t.f.Some? ==> t.f.value < t.now + t.conf.timerF
    ensures Quiet(OnSuccess(t, code))
  {}

  lemma CompleteQuiet(t: Ict)
    requires Quiet(t) && t.conf.timerF <= 32000 && (t.state == Calling || t.state == Proceeding)
    requires t.f.Some? ==> t.f.value < t.now + t.conf.timerF
    ensures Quiet(Complete(t))
  {}

  lemma AckQuiet(t: Ict, toTag: Option<string>, act: Act)
    requires Quiet(t)
    ensures Quiet(SendAck(t, toTag)) && Quiet(Log(SendAck(t, toTag), act))
  {
    hide AckText;
  }

  lemma RefusalQuiet(t: Ict, code: nat, toTag: Option<string>)
    requires Quiet(t) && t.conf.timerF <= 32000
    requires t.f.Some? ==> t.f.value < t.now + t.conf.timerF
    ensures Quiet(OnRefusal(t, code, toTag))
  {
    hide Quiet, SendAck, Complete;
    if t.state == Calling || t.state == Proceeding {
      CompleteQuiet(t);
      AckQuiet(Complete(t), toTag, Tell(Answer(code)));
    } else {
      AckQuiet(t, toTag, Tell(Answer(code)));
    }
  }

  lemma FiredQuiet(t: Ict, x: Timer)
    requires Quiet(t) && Due(t, x) == Some(t.now) && InTime(t, t.now)
    ensures Quiet(Fired(t, x))
  {
    hide CancelText;
    if x == C {
      CancelQuiet(t.(a := None, b := None, c := None), []);
    }
  }

  lemma StepQuiet(t: Ict, e: Event)
    requires Quiet(t) && t.listed && Enabled(t, e) && InTime(t, t.now) && t.conf.timerF <= 32000
    ensures Quiet(Step(t, e))
  {
    hide Quiet, DoCancel, OnProvisional, OnRefusal, OnSuccess, OnCancelResponse, Fired;
    var now' := if e.Fire? then Due(t, e.timer).value else t.now + e.dt;
    assert t.now <= now';
    LaterQuiet(t, now');
    var t' := t.(now := now');
    match e
    case Response(dt, code, toTag) =>
      var u := Log(t', Rx(code));
      LogQuiet(t, t', Rx(code));
      ProvisionalQuiet(u, code);
      SuccessQuiet(u, code);
      RefusalQuiet(u, code, toTag);
    case CancelResponse(dt) => CancelResponseQuiet(t');
    case Cancel(dt, reasons) => CancelQuiet(t', reasons);
    case Down(dt, tls) => DownQuiet(t', if tls then TlsFailed else ConnectionFailed);
    case Fire(x) => FiredQuiet(t', x);
  }

  lemma LogQuiet(t: Ict, t': Ict, act: Act)
    requires Quiet(t) && Quiet(t') && t' == t.(now := t'.now) && t.now < t'.now
    ensures Quiet(Log(t', act)) && (t'.f.Some? ==> t'.f.value < t'.now + t'.conf.timerF)
  {}

  lemma CancelResponseQuiet(t: Ict)
    requires Quiet(t)
    ensures Quiet(OnCancelResponse(t))
  {}

  lemma DownQuiet(t: Ict, event: CoreEvent)
    requires Quiet(t)
    ensures Quiet(OnDown(t, event))
  {}

  // ---- Runs ----

  /** Over: nothing is left that retransmits. */
  predicate Over(t: Ict) { t.state == State.Terminated && !t.listed && t.a == None && t.b == None && t.e == None }

  lemma FiredOver(t: Ict, x: Timer)
    requires Over(t) && Due(t, x).Some?
    ensures Over(Fired(t, x))
  {
    hide CancelText;
  }

  lemma CancelOver(t: Ict, reasons: seq<string>)
    requires Over(t)
    ensures Over(DoCancel(t, reasons))
  {
    hide CancelText;
  }

  lemma StepOver(t: Ict, e: Event)
    requires Over(t)
    ensures Over(Step(t, e))
  {
    hide InTime, OnResponse, OnCancelResponse, DoCancel, Fired;
    match e
    case Cancel(dt, reasons) => CancelOver(t.(now := t.now + dt), reasons);
    case Fire(x) =>
      if Due(t, x).Some? { FiredOver(t.(now := Due(t, x).value), x); }
    case _ =>
  }

  lemma {:induction false} RunOver(t: Ict, es: seq<Event>)
    requires Over(t)
    ensures Over(Run(t, es))
    decreases |es|
  {
    if es != [] {
      hide Step, Over;
      StepOver(t, es[0]);
      RunOver(Step(t, es[0]), es[1..]);
    }
  }

  lemma QuietOver(t: Ict)
    requires Quiet(t) && Clocked(t) && !t.listed
    ensures Over(t)
  {}

  lemma {:induction false} RunQuiet(t: Ict, es: seq<Event>)
    requires Quiet(t) && Clocked(t) && Legal(t, es) && t.conf.timerF <= 32000
    ensures Run(t, es).state == State.Terminated ==> Over(Run(t, es))
    decreases |es|
  {
    hide Step, Over, Quiet;
    if !t.listed {
      QuietOver(t);
      RunOver(t, es);
    } else if es != [] {
      StepQuiet(t, es[0]);
      StepClocked(t, es[0]);
      ConfStays(t, es[0]);
      RunQuiet(Step(t, es[0]), es[1..]);
    }
  }

  lemma ConfStays(t: Ict, e: Event)
    ensures Step(t, e).conf == t.conf
  {
    hide AckText, CancelText, InTime, SendAck, Fired;
    if e.Fire? && Due(t, e.timer).Some? {
      FiredConf(t.(now := Due(t, e.timer).value), e.timer);
    }
    AckConf(t);
  }

  lemma FiredConf(t: Ict, x: Timer)
    requires Due(t, x).Some?
    ensures Fired(t, x).conf == t.conf
  {
    hide CancelText;
  }

  lemma AckConf(t: Ict)
    ensures forall u, toTag :: SendAck(u, toTag).conf == u.conf
  {}

  /** In every terminated state of every run, timers A and E are off. */
  ghost predicate AlwaysQuiet(conf: Conf) {
    forall udp, request, topVia, now: nat, es :: var t0 := Started(udp, conf, request, topVia, now);
      Legal(t0, es) && Run(t0, es).state == State.Terminated ==> Run(t0, es).a == None && Run(t0, es).e == None
  }

  /** From a final response on, timer E keeps firing until D ends the transaction, if F is due no earlier. */
  lemma {:induction false} Leak(t: Ict) returns (es: seq<Event>)
    requires t.state == Completed && t.listed && t.d.Some? && t.e.Some? && t.f.Some? && t.f.value >= t.d.value
    requires t.a == None && t.b == None && t.c == None && t.m == None && t.linger == []
    requires t.e.value.interval > 0
    ensures Legal(t, es) && Run(t, es).state == State.Terminated && Run(t, es).e.Some?
    decreases if t.e.value.due <= t.d.value then t.d.value + 1 - t.e.value.due else 0
  {
    if t.e.value.due > t.d.value {
      es := [Fire(D)];
      var u := Step(t, Fire(D));
      assert es[1..] == [];
      assert Run(t, es) == Run(u, []);
    } else {
      var u := Step(t, Fire(E));
      assert u == Log(t.(now := t.e.value.due), TxCancelAgain).(e := Some(Doubled(t.e.value)));
      var rest := Leak(u);
      es := [Fire(E)] + rest;
      assert es[1..] == rest;
    }
  }

  lemma LeakFromStart(conf: Conf, request: Request, topVia: string) returns (es: seq<Event>)
    requires conf.timerF > 32000 && conf.timerB >= 2000 && conf.timerC >= 8000
    ensures var t0 := Started(true, conf, request, topVia, 0);
      Legal(t0, es) && Run(t0, es).state == State.Terminated && Run(t0, es).e.Some?
  {
    hide Step, Enabled, Started, Leads;
    var t0 := Started(true, conf, request, topVia, 0);
    var e1, e2, e3 := Response(1, 180, None), Cancel(1, []), Response(1, 487, None);
    var t1, t2 := Step(t0, e1), Step(Step(t0, e1), e2);
    var t3 := Step(t2, e3);
    ToProceeding(conf, request, topVia);
    ToCancelled(t1);
    ToCompleted(t2);
    var rest := Leak(t3);
    LegalCons(t2, e3, rest);
    LegalCons(t1, e2, [e3] + rest);
    LegalCons(t0, e1, [e2] + ([e3] + rest));
    es := [e1] + ([e2] + ([e3] + rest));
  }

  /** Over UDP and born at 0: the states a 180 at 1 ms, a CANCEL at 2 ms and a 487 at 3 ms lead to. */
  predicate Leads(t: Ict, now: nat, cancelled: bool) {
    && t.udp && t.listed && t.now == now && t.conf.timerF > 32000
    && t.state == Proceeding && t.a == None && t.b == None && t.d == None && t.m == None && t.linger == []
    && (t.c.Some? ==> t.c.value >= 8000)
    && t.cancelSent == cancelled && t.cancel.Some? == cancelled
    && (if cancelled then t.e == Some(Periodic(502, 500)) && t.f == Some(2 + t.conf.timerF) else t.e == None && t.f == None)
  }

  lemma ToProceeding(conf: Conf, request: Request, topVia: string)
    requires conf.timerF > 32000 && conf.timerB >= 2000 && conf.timerC >= 8000
    ensures var t0, e := Started(true, conf, request, topVia, 0), Response(1, 180, None);
      Enabled(t0, e) && Leads(Step(t0, e), 1, false)
  {}

  lemma ToCancelled(t: Ict)
    requires Leads(t, 1, false)
    ensures Enabled(t, Cancel(1, [])) && Leads(Step(t, Cancel(1, [])), 2, true)
  {
    hide CancelText;
  }

  lemma ToCompleted(t: Ict)
    requires Leads(t, 2, true)
    ensures var e := Response(1, 487, None); var u := Step(t, e);
      && Enabled(t, e) && u.state == Completed && u.listed && u.d == Some(32003)
      && u.e == Some(Periodic(502, 500)) && u.f.Some? && u.f.value >= 32003
      && u.a == None && u.b == None && u.c == None && u.m == None && u.linger == []
  {
    hide AckText;
  }

  lemma LegalCons(t: Ict, e: Event, es: seq<Event>)
    requires Enabled(t, e) && Legal(Step(t, e), es)
    ensures Legal(t, [e] + es) && Run(t, [e] + es) == Run(Step(t, e), es)
  {
    assert ([e] + es)[1..] == es;
  }

  /** Timer A never survives; the CANCEL retransmission never does if and only if timer F is at most
      timer D (with timers B and C at least the 2 s and 8 s the configuration demands). */
  lemma QuietIffFBelowD(conf: Conf)
    requires conf.timerB >= 2000 && conf.timerC >= 8000
    ensures AlwaysQuiet(conf) <==> conf.timerF <= TIMER_D_UDP
  {
    if conf.timerF <= 32000 {
      forall udp, request, topVia, now: nat, es | Legal(Started(udp, conf, request, topVia, now), es)
          && Run(Started(udp, conf, request, topVia, now), es).state == State.Terminated
        ensures var t := Run(Started(udp, conf, request, topVia, now), es); t.a == None && t.e == None
      {
        RunQuiet(Started(udp, conf, request, topVia, now), es);
      }
    } else {
      var request := Request("", [], "", "", false, "", "");
      var es := LeakFromStart(conf, request, "");
      assert Legal(Started(true, conf, request, "", 0), es);
    }
  }
}

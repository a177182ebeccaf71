/** What an INVITE client transaction sends and tells its core, over every sequence of events. */
module InviteClientTrace {
  import opened Wrappers
  import opened Timers
  import opened ResponseCodes
  import opened InviteClient

  /** The responses handed to the core, in order. */
  function Told(h: seq<Act>): seq<nat> {
    if h == [] then []
    else
      var x := h[|h| - 1];
      Told(h[..|h| - 1]) + if x.Tell? && x.event.Answer? then [x.event.code] else []
  }

  predicate HasProvisional(h: seq<Act>) { exists i :: 0 <= i < |h| && h[i].Rx? && h[i].code < 200 }
  predicate HasSuccess(h: seq<Act>) { exists i :: 0 <= i < |h| && h[i].Rx? && 200 <= h[i].code < 300 }

  /** The CANCEL is first transmitted at most once, and only after a provisional response. */
  predicate CancelOnce(h: seq<Act>) {
    forall j :: 0 <= j < |h| && h[j] == TxCancel ==> TxCancel !in h[..j] && HasProvisional(h[..j])
  }

  /** Every 3xx-6xx is answered with an ACK at once, unless a 2xx came before it. */
  predicate Acked(h: seq<Act>) {
    forall j :: 0 <= j < |h| && h[j].Rx? && h[j].code >= 300 ==> HasSuccess(h[..j]) || (j + 1 < |h| && h[j + 1].TxAck?)
  }

  predicate SameAck(h: seq<Act>, ack: Option<string>) {
    forall j :: 0 <= j < |h| && h[j].TxAck? ==> ack == Some(h[j].text)
  }

  predicate Fits(state: State, codes: seq<nat>) {
    && 100 !in codes
    && match state
       case Calling => codes == []
       case Proceeding => AllProvisional(codes)
       case Completed => Refused(codes)
       case Accepted => Answered(codes)
       case Terminated => Grammar(codes)
  }

  predicate Base(t: Ict) {
    && (t.listed <==> t.state != State.Terminated)
    && (t.cancelSent ==> t.cancel.Some?) && (t.state == Calling ==> !t.cancelSent)
    && (!t.cancelSent ==> TxCancel !in t.hist)
    && (t.state == Proceeding ==> HasProvisional(t.hist))
    && (t.state == Accepted ==> HasSuccess(t.hist))
    && CancelOnce(t.hist) && SameAck(t.hist, t.ack) && Fits(t.state, Told(t.hist))
  }

  /** A CANCEL built in Proceeding has been sent. */
  predicate Prompt(t: Ict) { t.state == Proceeding && t.cancel.Some? ==> t.cancelSent }

  // ---- One more act ----

  lemma ToldSnoc(h: seq<Act>, x: Act)
    ensures Told(h + [x]) == if x.Tell? && x.event.Answer? then Told(h) + [x.event.code] else Told(h)
  {
    assert (h + [x])[..|h|] == h;
  }

  lemma HistSnoc(h: seq<Act>, x: Act, ack: Option<string>)
    ensures HasProvisional(h + [x]) <==> HasProvisional(h) || (x.Rx? && x.code < 200)
    ensures HasSuccess(h + [x]) <==> HasSuccess(h) || (x.Rx? && 200 <= x.code < 300)
    ensures CancelOnce(h) && (x == TxCancel ==> TxCancel !in h && HasProvisional(h)) ==> CancelOnce(h + [x])
    ensures SameAck(h, ack) && (x.TxAck? ==> ack == Some(x.text)) ==> SameAck(h + [x], ack)
  {
    var g := h + [x];
    assert g[|h|] == x;
    assert forall i :: 0 <= i < |h| ==> g[i] == h[i];
    forall j | 0 <= j < |g| ensures g[..j] == h[..j] {}
    if HasProvisional(h) {
      var i :| 0 <= i < |h| && h[i].Rx? && h[i].code < 200;
      assert g[i].Rx?;
    }
    if HasSuccess(h) {
      var i :| 0 <= i < |h| && h[i].Rx? && 200 <= h[i].code < 300;
      assert g[i].Rx?;
    }
  }

  /** An act that is neither the CANCEL nor an ACK nor news to the core. */
  predicate Plain(x: Act) {
    x.TxInvite? || x.TxInviteAgain? || x.TxCancelAgain? || x.Rx? || (x.Tell? && !x.event.Answer?)
  }

  lemma PlainBase(t: Ict, x: Act)
    requires Base(t) && Plain(x)
    ensures Base(Log(t, x))
    ensures x.Rx? && x.code < 200 ==> HasProvisional(Log(t, x).hist)
    ensures x.Rx? && 200 <= x.code < 300 ==> HasSuccess(Log(t, x).hist)
  {
    hide CancelOnce, SameAck, Told, HasProvisional, HasSuccess, Fits;
    HistSnoc(t.hist, x, t.ack);
    ToldSnoc(t.hist, x);
  }

  lemma SendCancelBase(t: Ict)
    requires Base(t) && t.state == Proceeding && !t.cancelSent && t.cancel.Some?
    ensures Base(SendCancel(t)) && Prompt(SendCancel(t))
  {
    hide CancelOnce, SameAck, Told, HasProvisional, HasSuccess, Fits;
    HistSnoc(t.hist, TxCancel, t.ack);
    ToldSnoc(t.hist, TxCancel);
  }

  lemma DoCancelBase(t: Ict, reasons: seq<string>)
    requires Base(t) && Prompt(t)
    ensures Base(DoCancel(t, reasons)) && Prompt(DoCancel(t, reasons))
  {
    hide CancelText, CancelOnce, SameAck, Told, HasProvisional, HasSuccess, Fits;
    if t.cancel.None? && t.state == Proceeding {
      SendCancelBase(t.(cancel := Some(CancelText(t.request, t.topVia, reasons))));
    }
  }

  lemma AckBase(t: Ict, toTag: Option<string>)
    requires Base(t)
    ensures Base(SendAck(t, toTag))
  {
    hide AckText, CancelOnce, Told, HasProvisional, HasSuccess, Fits;
    var u := if t.ack.None? then t.(ack := Some(AckText(t.request, t.topVia, toTag))) else t;
    HistSnoc(t.hist, TxAck(u.ack.value), u.ack);
    ToldSnoc(t.hist, TxAck(u.ack.value));
  }

  /** An answer told on the way to the state that admits it. */
  lemma AnswerBase(t: Ict, u: Ict, code: nat)
    requires Base(t) && code != 100 && t.listed
    requires u == t.(state := u.state, a := u.a, b := u.b, c := u.c, d := u.d, m := u.m, listed := u.listed)
    requires u.listed <==> u.state != State.Terminated
    requires
      || (t.state in {Calling, Proceeding} && code < 200 && u.state == Proceeding && HasProvisional(t.hist))
      || (t.state in {Calling, Proceeding} && code >= 300 && u.state in {Completed, State.Terminated})
      || (t.state in {Calling, Proceeding, Accepted} && 200 <= code < 300 && u.state == Accepted && HasSuccess(t.hist))
    ensures Base(Log(u, Tell(Answer(code))))
  {
    hide CancelOnce, SameAck, Told, HasProvisional, HasSuccess;
    HistSnoc(t.hist, Tell(Answer(code)), t.ack);
    ToldSnoc(t.hist, Tell(Answer(code)));
    OneMore(Told(t.hist), code);
  }

  // ---- Events ----

  lemma ProvisionalBase(t: Ict, code: nat)
    requires Base(t) && Prompt(t) && t.listed && code < 200 && HasProvisional(t.hist)
    ensures Base(OnProvisional(t, code)) && Prompt(OnProvisional(t, code))
  {
    hide CancelOnce, SameAck, Told, HasProvisional, HasSuccess;
    var u := if t.state == Calling then t.(state := Proceeding, a := None, b := None) else t;
    if t.state == Calling || t.state == Proceeding {
      if code != 100 {
        AnswerBase(t, u, code);
      }
      if t.state == Calling && t.cancel.Some? {
        SendCancelBase(TellAnswer(u, code));
      }
    }
  }

  lemma RefusalBase(t: Ict, code: nat, toTag: Option<string>)
    requires Base(t) && Prompt(t) && t.listed && code >= 300
    ensures Base(OnRefusal(t, code, toTag)) && Prompt(OnRefusal(t, code, toTag))
  {
    hide AckText, CancelOnce, SameAck, Told, HasProvisional, HasSuccess, Fits;
    AckBase(t, toTag);
    if t.state == Calling || t.state == Proceeding {
      AnswerBase(SendAck(t, toTag), SendAck(Complete(t), toTag), code);
    }
  }

  lemma SuccessBase(t: Ict, code: nat)
    requires Base(t) && Prompt(t) && t.listed && 200 <= code < 300 && HasSuccess(t.hist)
    ensures Base(OnSuccess(t, code)) && Prompt(OnSuccess(t, code))
  {
    hide CancelOnce, SameAck, Told, HasProvisional, HasSuccess, Fits;
    if t.state == Calling || t.state == Proceeding {
      AnswerBase(t, t.(state := Accepted, a := None, b := None, c := None, m := Some(t.now + TIMER_M)), code);
    } else if t.state == Accepted {
      AnswerBase(t, t, code);
    }
  }

  lemma TerminateBase(t: Ict, u: Ict)
    requires Base(t) && u.state == State.Terminated && !u.listed && u.hist == t.hist && u.ack == t.ack
    requires u.cancel == t.cancel && u.cancelSent == t.cancelSent
    ensures Base(u) && Prompt(u)
  {}

  /** Clock and timers do not matter here. */
  lemma TimersBase(t: Ict, u: Ict)
    requires Base(t) && Prompt(t)
    requires u == t.(now := u.now, a := u.a, b := u.b, c := u.c, d := u.d, m := u.m, e := u.e, f := u.f, linger := u.linger)
    ensures Base(u) && Prompt(u)
  {}

  lemma FiredBase(t: Ict, x: Timer)
    requires Base(t) && Prompt(t) && Due(t, x).Some?
    ensures Base(Fired(t, x)) && Prompt(Fired(t, x))
  {
    hide Base, DoCancel;
    match x
    case A =>
      PlainBase(t, TxInviteAgain);
      TimersBase(Log(t, TxInviteAgain), Fired(t, A));
    case B =>
      var u := Terminate(t.(a := None, b := None, c := None));
      TerminateBase(t, u);
      PlainBase(u, Tell(ClientTimeout));
    case C =>
      var u := t.(a := None, b := None, c := None);
      TimersBase(t, u);
      DoCancelBase(u, []);
      PlainBase(DoCancel(u, []), Tell(InviteTimeout));
    case E =>
      PlainBase(t, TxCancelAgain);
      TimersBase(Log(t, TxCancelAgain), Fired(t, E));
    case F =>
      if t.state == State.Terminated { TimersBase(t, Fired(t, F)); } else { TerminateBase(t, Fired(t, F)); }
    case _ =>
      TerminateBase(t, Fired(t, x));
  }

  lemma StepBase(t: Ict, e: Event)
    requires Base(t) && Prompt(t)
    ensures Base(Step(t, e)) && Prompt(Step(t, e))
  {
    hide Base, DoCancel, OnProvisional, OnRefusal, OnSuccess, Fired;
    match e
    case Response(dt, code, toTag) =>
      var t' := t.(now := t.now + dt);
      TimersBase(t, t');
      if t.listed {
        PlainBase(t', Rx(code));
        var u := Log(t', Rx(code));
        if code < 200 { ProvisionalBase(u, code); }
        else if code >= 300 { RefusalBase(u, code, toTag); }
        else { SuccessBase(u, code); }
      }
    case CancelResponse(dt) =>
      TimersBase(t, Step(t, e));
    case Cancel(dt, reasons) =>
      TimersBase(t, t.(now := t.now + dt));
      DoCancelBase(t.(now := t.now + dt), reasons);
    case Down(dt, tls) =>
      var t' := t.(now := t.now + dt);
      TimersBase(t, t');
      if t.state == Calling || t.cancel.None? {
        var u := Terminate(t'.(a := None, b := None, c := None));
        TerminateBase(t', u);
        PlainBase(u, Tell(if tls then TlsFailed else ConnectionFailed));
      }
    case Fire(x) =>
      if Due(t, x).Some? {
        var t' := t.(now := Due(t, x).value);
        TimersBase(t, t');
        FiredBase(t', x);
      }
  }

  // ---- ACKs follow their responses ----

  lemma AckedSnoc(h: seq<Act>, x: Act)
    requires Acked(h) && !(x.Rx? && x.code >= 300)
    ensures Acked(h + [x])
  {
    var g := h + [x];
    forall j | 0 <= j < |g| ensures g[..j] == h[..j] {}
    assert forall i :: 0 <= i < |h| ==> g[i] == h[i];
  }

  lemma AckedRx(h: seq<Act>, code: nat, text: string)
    requires Acked(h)
    ensures Acked(h + [Rx(code)] + [TxAck(text)])
    ensures HasSuccess(h) ==> Acked(h + [Rx(code)])
  {
    var g := h + [Rx(code)];
    var k := g + [TxAck(text)];
    forall j | 0 <= j <= |h| ensures g[..j] == h[..j] && k[..j] == h[..j] {}
    assert forall i :: 0 <= i < |h| ==> g[i] == h[i] && k[i] == h[i];
    assert h[..|h|] == h;
  }

  lemma RefusalAcked(t: Ict, code: nat, toTag: Option<string>)
    requires Acked(t.hist) && Base(t) && t.listed && code >= 300
    ensures Acked(OnResponse(t, code, toTag).hist)
  {
    hide AckText, HasSuccess, Acked, CancelOnce, SameAck, Told, Fits, HasProvisional;
    var u := Log(t, Rx(code));
    if t.state == Calling || t.state == Proceeding {
      var v := SendAck(Complete(u), toTag);
      AckedRx(t.hist, code, v.ack.value);
      AckedSnoc(v.hist, Tell(Answer(code)));
    } else if t.state == Completed {
      AckedRx(t.hist, code, SendAck(u, toTag).ack.value);
    } else {
      AckedRx(t.hist, code, "");
    }
  }

  lemma ProvisionalAcked(t: Ict, code: nat)
    requires Acked(t.hist) && code < 300
    ensures Acked(OnProvisional(t, code).hist) && Acked(OnSuccess(t, code).hist)
  {
    hide Acked;
    AckedSnoc(t.hist, Tell(Answer(code)));
    AckedSnoc(t.hist, TxCancel);
    AckedSnoc(t.hist + [Tell(Answer(code))], TxCancel);
  }

  lemma CancelAcked(t: Ict, reasons: seq<string>)
    requires Acked(t.hist)
    ensures Acked(DoCancel(t, reasons).hist)
  {
    hide Acked, CancelText;
    AckedSnoc(t.hist, TxCancel);
  }

  lemma FiredAcked(t: Ict, x: Timer)
    requires Acked(t.hist) && Due(t, x).Some?
    ensures Acked(Fired(t, x).hist)
  {
    hide Acked, DoCancel;
    match x
    case A => AckedSnoc(t.hist, TxInviteAgain);
    case B => AckedSnoc(t.hist, Tell(ClientTimeout));
    case C =>
      var u := t.(a := None, b := None, c := None);
      CancelAcked(u, []);
      AckedSnoc(DoCancel(u, []).hist, Tell(InviteTimeout));
    case E => AckedSnoc(t.hist, TxCancelAgain);
    case _ =>
  }

  lemma StepAcked(t: Ict, e: Event)
    requires Acked(t.hist) && Base(t)
    ensures Acked(Step(t, e).hist)
  {
    hide Acked, Base, DoCancel, OnProvisional, OnRefusal, OnSuccess, Fired;
    match e
    case Response(dt, code, toTag) =>
      var t' := t.(now := t.now + dt);
      LaterBase(t, t');
      if t.listed {
        if code >= 300 {
          RefusalAcked(t', code, toTag);
        } else {
          AckedSnoc(t.hist, Rx(code));
          ProvisionalAcked(Log(t', Rx(code)), code);
        }
      }
    case CancelResponse(dt) =>
    case Cancel(dt, reasons) => CancelAcked(t.(now := t.now + dt), reasons);
    case Down(dt, tls) =>
      AckedSnoc(t.hist, Tell(ConnectionFailed));
      AckedSnoc(t.hist, Tell(TlsFailed));
    case Fire(x) =>
      if Due(t, x).Some? { FiredAcked(t.(now := Due(t, x).value), x); }
  }

  lemma LaterBase(t: Ict, u: Ict)
    requires Base(t) && u == t.(now := u.now)
    ensures Base(u)
  {}

  // ---- Runs ----

  lemma {:induction false} RunTraced(t: Ict, es: seq<Event>)
    requires Base(t) && Prompt(t) && Acked(t.hist)
    ensures Base(Run(t, es)) && Prompt(Run(t, es)) && Acked(Run(t, es).hist)
    decreases |es|
  {
    if es != [] {
      hide Base, Prompt, Acked, Step;
      StepBase(t, es[0]);
      StepAcked(t, es[0]);
      RunTraced(Step(t, es[0]), es[1..]);
    }
  }

  lemma StartTraced(udp: bool, conf: Conf, request: Request, topVia: string, now: nat)
    ensures var t0 := Started(udp, conf, request, topVia, now); Base(t0) && Prompt(t0) && Acked(t0.hist)
  {
    var t0 := Started(udp, conf, request, topVia, now);
    ToldSnoc([], TxInvite);
    assert [] + [TxInvite] == [TxInvite];
  }

  /** For every interleaving of `do_cancel`, responses, connection failures and timers: the CANCEL is first
      transmitted at most once and only after a provisional response; the core is handed 1xx other than 100,
      then 2xx* or one single 3xx-6xx; every 3xx-6xx that no 2xx preceded is acknowledged at once, always
      with the same bytes. */
  lemma ClientTrace(udp: bool, conf: Conf, request: Request, topVia: string, now: nat, es: seq<Event>)
    ensures var h := Run(Started(udp, conf, request, topVia, now), es).hist;
      && CancelOnce(h)
      && Grammar(Told(h)) && 100 !in Told(h)
      && Acked(h)
      && (forall i, j :: 0 <= i < |h| && 0 <= j < |h| && h[i].TxAck? && h[j].TxAck? ==> h[i] == h[j])
  {
    var t0 := Started(udp, conf, request, topVia, now);
    StartTraced(udp, conf, request, topVia, now);
    RunTraced(t0, es);
    FitsGrammar(Run(t0, es).state, Told(Run(t0, es).hist));
  }

  lemma FitsGrammar(state: State, codes: seq<nat>)
    requires Fits(state, codes)
    ensures Grammar(codes)
  {}

  // ---- A connection failure after a timeout ----

  predicate TimedOut(h: seq<Act>) { Tell(ClientTimeout) in h }

  /** How often the core was told of a failed connection. */
  function Failures(h: seq<Act>): nat {
    multiset(h)[Tell(ConnectionFailed)] + multiset(h)[Tell(TlsFailed)]
  }

  /** The failures that happen over es while no CANCEL has been built. */
  function Uncanceled(t: Ict, es: seq<Event>): nat
    decreases |es|
  {
    if es == [] then 0
    else (if es[0].Down? && t.cancel == None then 1 else 0) + Uncanceled(Step(t, es[0]), es[1..])
  }

  predicate Ended(t: Ict) { t.state == State.Terminated && !t.listed }

  lemma FailureSnoc(h: seq<Act>, x: Act)
    ensures Failures(h + [x]) == Failures(h) + if x == Tell(ConnectionFailed) || x == Tell(TlsFailed) then 1 else 0
  {}

  lemma FiredEnded(t: Ict, x: Timer)
    requires Ended(t) && Due(t, x).Some?
    ensures var u := Fired(t, x); Ended(u) && Failures(u.hist) == Failures(t.hist)
  {
    hide CancelText, Failures;
    FailureSnoc(t.hist, TxInviteAgain);
    FailureSnoc(t.hist, TxCancelAgain);
    FailureSnoc(t.hist, Tell(ClientTimeout));
    FailureSnoc(t.hist, Tell(InviteTimeout));
  }

  lemma CancelEnded(t: Ict, reasons: seq<string>)
    requires Ended(t)
    ensures var u := DoCancel(t, reasons); Ended(u) && u.hist == t.hist
  {
    hide CancelText;
  }

  lemma DownEnded(t: Ict, event: CoreEvent)
    requires Ended(t) && (event == ConnectionFailed || event == TlsFailed)
    ensures var u := OnDown(t, event);
      Ended(u) && Failures(u.hist) == Failures(t.hist) + if t.cancel == None then 1 else 0
  {
    hide Failures;
    FailureSnoc(t.hist, Tell(event));
  }

  lemma StepEnded(t: Ict, e: Event)
    requires Ended(t)
    ensures var u := Step(t, e);
      Ended(u) && Failures(u.hist) == Failures(t.hist) + if e.Down? && t.cancel == None then 1 else 0
  {
    hide Failures, OnResponse, OnCancelResponse, OnDown, DoCancel, Fired;
    match e
    case Cancel(dt, reasons) => CancelEnded(t.(now := t.now + dt), reasons);
    case Down(dt, tls) => DownEnded(t.(now := t.now + dt), if tls then TlsFailed else ConnectionFailed);
    case Fire(x) =>
      if Due(t, x).Some? { FiredEnded(t.(now := Due(t, x).value), x); }
    case _ =>
  }

  lemma {:induction false} RunEnded(t: Ict, es: seq<Event>)
    requires Ended(t)
    ensures Failures(Run(t, es).hist) == Failures(t.hist) + Uncanceled(t, es)
    decreases |es|
  {
    if es != [] {
      hide Step, Failures, Ended;
      StepEnded(t, es[0]);
      RunEnded(Step(t, es[0]), es[1..]);
    }
  }

  /** A timeout is told by an ended transaction only. */
  predicate TimeoutEnds(t: Ict) { TimedOut(t.hist) ==> Ended(t) }

  lemma LogTimeout(t: Ict, x: Act)
    requires TimeoutEnds(t) && x != Tell(ClientTimeout)
    ensures TimeoutEnds(Log(t, x))
  {}

  lemma CancelTimeout(t: Ict, reasons: seq<string>)
    requires TimeoutEnds(t)
    ensures TimeoutEnds(DoCancel(t, reasons))
  {
    hide CancelText;
  }

  lemma TimeoutSnoc(h: seq<Act>, x: Act)
    ensures TimedOut(h + [x]) <==> TimedOut(h) || x == Tell(ClientTimeout)
  {}

  lemma ProvisionalTimeout(t: Ict, code: nat)
    requires !TimedOut(t.hist)
    ensures !TimedOut(OnProvisional(t, code).hist) && !TimedOut(OnSuccess(t, code).hist)
  {
    hide TimedOut;
    TimeoutSnoc(t.hist, Tell(Answer(code)));
    TimeoutSnoc(t.hist, TxCancel);
    TimeoutSnoc(t.hist + [Tell(Answer(code))], TxCancel);
  }

  lemma AckTimeout(t: Ict, toTag: Option<string>)
    requires !TimedOut(t.hist)
    ensures !TimedOut(SendAck(t, toTag).hist)
  {
    hide AckText, TimedOut;
    TimeoutSnoc(t.hist, TxAck(SendAck(t, toTag).ack.value));
  }

  lemma RefusalTimeout(t: Ict, code: nat, toTag: Option<string>)
    requires !TimedOut(t.hist)
    ensures !TimedOut(OnRefusal(t, code, toTag).hist)
  {
    hide SendAck, TimedOut;
    AckTimeout(t, toTag);
    AckTimeout(Complete(t), toTag);
    TimeoutSnoc(SendAck(Complete(t), toTag).hist, Tell(Answer(code)));
  }

  lemma FiredTimeout(t: Ict, x: Timer)
    requires TimeoutEnds(t) && Due(t, x).Some?
    ensures TimeoutEnds(Fired(t, x))
  {
    hide DoCancel;
    if x == C {
      var u := t.(a := None, b := None, c := None);
      CancelTimeout(u, []);
      LogTimeout(DoCancel(u, []), Tell(InviteTimeout));
    }
  }

  lemma StepTimeout(t: Ict, e: Event)
    requires TimeoutEnds(t)
    ensures TimeoutEnds(Step(t, e))
  {
    hide DoCancel, OnProvisional, OnRefusal, OnSuccess, Fired;
    match e
    case Response(dt, code, toTag) =>
      if t.listed {
        var u := Log(t.(now := t.now + dt), Rx(code));
        ProvisionalTimeout(u, code);
        RefusalTimeout(u, code, toTag);
      }
    case Cancel(dt, reasons) => CancelTimeout(t.(now := t.now + dt), reasons);
    case Fire(x) =>
      if Due(t, x).Some? { FiredTimeout(t.(now := Due(t, x).value), x); }
    case _ =>
  }

  lemma {:induction false} RunTimeout(t: Ict, es: seq<Event>)
    requires TimeoutEnds(t)
    ensures TimeoutEnds(Run(t, es))
    decreases |es|
  {
    if es != [] {
      hide Step, TimeoutEnds;
      StepTimeout(t, es[0]);
      RunTimeout(Step(t, es[0]), es[1..]);
    }
  }

  /** The guard of `connection_failed` is meant to keep it from reporting a transaction that has already timed
      out. Over every run beyond a timeout the core is told of exactly those failures that happen while no
      CANCEL has been built; so the guard does what it is meant to if and only if there are none. */
  lemma FailureAfterTimeout(udp: bool, conf: Conf, request: Request, topVia: string, now: nat,
                            es: seq<Event>, more: seq<Event>)
    requires TimedOut(Run(Started(udp, conf, request, topVia, now), es).hist)
    ensures var t := Run(Started(udp, conf, request, topVia, now), es);
      && t.state == State.Terminated
      && Failures(Run(t, more).hist) == Failures(t.hist) + Uncanceled(t, more)
  {
    RunTimeout(Started(udp, conf, request, topVia, now), es);
    RunEnded(Run(Started(udp, conf, request, topVia, now), es), more);
  }

  /** Over TCP: no answer for timer_B, then the connection fails. The core is told both. */
  lemma TimeoutThenFailure(conf: Conf, request: Request, topVia: string, now: nat)
    requires conf.timerB < conf.timerC
    ensures var t0, es := Started(false, conf, request, topVia, now), [Fire(B), Down(1, false)];
      Legal(t0, es) && Run(t0, es).hist == [TxInvite, Tell(ClientTimeout), Tell(ConnectionFailed)]
  {
    var t0, es := Started(false, conf, request, topVia, now), [Fire(B), Down(1, false)];
    var t1 := Step(t0, Fire(B));
    var last := [Down(1, false)];
    assert es[1..] == last && last[1..] == [];
    assert t1.hist == [TxInvite, Tell(ClientTimeout)];
    assert Run(t1, last) == Step(t1, Down(1, false));
  }
}

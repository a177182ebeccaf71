/** The retransmissions of a transmitted CANCEL, and how long its transaction waits for it. */
module InviteClientCancel {
  import opened Wrappers
  import opened Timers
  import opened InviteClient
  import opened InviteClientTrace
  import opened InviteClientExact

  /** When the CANCEL went out, and when it was first answered. */
  datatype CancelTimes = CancelTimes(sent: Option<nat>, answered: Option<nat>)

  function Noted(t: Ict, e: Event, ct: CancelTimes): CancelTimes {
    var u := Step(t, e);
    CancelTimes(if ct.sent.None? && TxCancel in u.hist then Some(u.now) else ct.sent,
                if ct.answered.None? && e.CancelResponse? && t.listed && TxCancel in t.hist then Some(u.now) else ct.answered)
  }

  function Times(t: Ict, es: seq<Event>, ct: CancelTimes): CancelTimes
    decreases |es|
  {
    if es == [] then ct else Times(Step(t, es[0]), es[1..], Noted(t, es[0], ct))
  }

  function CancelsAgain(h: seq<Act>): nat { multiset(h)[TxCancelAgain] }

  /** Timers E and F of a CANCEL, and the 4 s after its first answer. */
  predicate Scheduled(t: Ict, ct: CancelTimes) {
    match ct
    case CancelTimes(None, _) =>
      !t.cancelSent && ct.answered == None && t.e == None && t.f == None && t.linger == [] && CancelsAgain(t.hist) == 0
    case CancelTimes(Some(sent), None) =>
      && t.cancelSent && t.linger == [] && t.f == Some(sent + t.conf.timerF)
      && t.e == (if t.udp then Some(Periodic(sent + Offset(CancelsAgain(t.hist)), Interval(CancelsAgain(t.hist)))) else None)
    case CancelTimes(Some(_), Some(answered)) =>
      t.cancelSent && t.e == None && t.f == None && t.linger != [] && t.linger[0] == answered + 4000
  }

  lemma CancelsAgainSnoc(h: seq<Act>, x: Act)
    ensures CancelsAgain(h + [x]) == CancelsAgain(h) + if x == TxCancelAgain then 1 else 0
  {}

  predicate Untouched(t: Ict, u: Ict) {
    && u.cancelSent == t.cancelSent && u.e == t.e && u.f == t.f && u.linger == t.linger
    && u.udp == t.udp && u.conf == t.conf && CancelsAgain(u.hist) == CancelsAgain(t.hist)
  }

  /** The CANCEL has just been sent. */
  predicate JustSent(t: Ict, u: Ict) {
    && !t.cancelSent && u.cancelSent && u.linger == t.linger
    && u.udp == t.udp && u.conf == t.conf && CancelsAgain(u.hist) == CancelsAgain(t.hist)
    && u.f == Some(u.now + t.conf.timerF)
    && u.e == if t.udp then Some(Periodic(u.now + TIMER_E, TIMER_E)) else t.e
  }

  lemma LogUntouched(t: Ict, x: Act)
    requires x != TxCancelAgain
    ensures Untouched(t, Log(t, x))
  {
    hide CancelsAgain;
    CancelsAgainSnoc(t.hist, x);
  }

  lemma SendCancelJustSent(t: Ict, u: Ict)
    requires Untouched(t, u) && !u.cancelSent
    ensures JustSent(t, SendCancel(u))
  {
    hide CancelsAgain;
    CancelsAgainSnoc(u.hist, TxCancel);
  }

  lemma ProvisionalCancel(t: Ict, code: nat)
    requires t.state == Calling ==> !t.cancelSent
    ensures var u := OnProvisional(t, code); u.now == t.now && (Untouched(t, u) || JustSent(t, u))
  {
    hide CancelsAgain, SendCancel;
    LogUntouched(t, Tell(Answer(code)));
    if t.state == Calling && t.cancel.Some? {
      var u := TellAnswer(t.(state := Proceeding, a := None, b := None), code);
      SendCancelJustSent(t, u);
      assert SendCancel(u).now == t.now by { SendCancelNow(u); }
    }
  }

  lemma SendCancelNow(t: Ict)
    ensures SendCancel(t).now == t.now
  {}

  lemma SuccessCancel(t: Ict, code: nat)
    ensures var u := OnSuccess(t, code); u.now == t.now && Untouched(t, u)
  {
    hide CancelsAgain;
    CancelsAgainSnoc(t.hist, Tell(Answer(code)));
  }

  lemma RefusalCancel(t: Ict, code: nat, toTag: Option<string>)
    ensures var u := OnRefusal(t, code, toTag); u.now == t.now && Untouched(t, u)
  {
    hide CancelsAgain, SendAck;
    var v := if t.state == Completed then t else Complete(t);
    AckCancel(v, toTag);
    CancelsAgainSnoc(SendAck(v, toTag).hist, Tell(Answer(code)));
  }

  lemma AckCancel(t: Ict, toTag: Option<string>)
    ensures var u := SendAck(t, toTag); u.now == t.now && Untouched(t, u)
  {
    hide CancelsAgain, AckText;
    CancelsAgainSnoc(t.hist, TxAck(SendAck(t, toTag).ack.value));
  }

  lemma ResponseCancel(t: Ict, code: nat, toTag: Option<string>)
    requires t.state == Calling ==> !t.cancelSent
    ensures var u := OnResponse(t, code, toTag); u.now == t.now && (Untouched(t, u) || JustSent(t, u))
  {
    hide CancelsAgain, OnProvisional, OnSuccess, OnRefusal;
    LogUntouched(t, Rx(code));
    var v := Log(t, Rx(code));
    if code < 200 { ProvisionalCancel(v, code); }
    else if code >= 300 { RefusalCancel(v, code, toTag); }
    else { SuccessCancel(v, code); }
  }

  lemma DoCancelCancel(t: Ict, reasons: seq<string>)
    requires t.cancelSent ==> t.cancel.Some?
    ensures var u := DoCancel(t, reasons); u.now == t.now && (Untouched(t, u) || JustSent(t, u))
  {
    hide CancelsAgain, CancelText, SendCancel;
    if t.cancel.None? && t.state == Proceeding {
      var u := t.(cancel := Some(CancelText(t.request, t.topVia, reasons)));
      SendCancelJustSent(t, u);
      SendCancelNow(u);
    }
  }

  lemma FiredCancel(t: Ict, x: Timer)
    requires Due(t, x).Some? && x !in {E, F, Linger} && (t.cancelSent ==> t.cancel.Some?)
    ensures var u := Fired(t, x); u.now == t.now && (Untouched(t, u) || JustSent(t, u))
  {
    hide CancelsAgain, DoCancel;
    CancelsAgainSnoc(t.hist, TxInviteAgain);
    CancelsAgainSnoc(t.hist, Tell(ClientTimeout));
    if x == C {
      var u := t.(a := None, b := None, c := None);
      DoCancelCancel(u, []);
      LogUntouched(DoCancel(u, []), Tell(InviteTimeout));
    }
  }

  /** Sent again by timer E. */
  predicate SentAgain(t: Ict, u: Ict) {
    && t.e.Some? && u.e == Some(Doubled(t.e.value)) && u.cancelSent == t.cancelSent && u.f == t.f && u.linger == t.linger
    && u.udp == t.udp && u.conf == t.conf && CancelsAgain(u.hist) == CancelsAgain(t.hist) + 1
  }

  lemma TimerECancel(t: Ict)
    requires t.e.Some?
    ensures SentAgain(t, Fired(t, E))
  {
    hide CancelsAgain;
    CancelsAgainSnoc(t.hist, TxCancelAgain);
  }

  predicate Answered(t: Ict, u: Ict) {
    u == t.(now := u.now, e := None, f := None, linger := t.linger + [u.now + 4000])
  }

  lemma AnswerCancel(t: Ict)
    requires t.state != State.Terminated
    ensures var u := OnCancelResponse(t); if t.cancelSent then Answered(t, u) else u == t
  {}

  lemma DownCancel(t: Ict, event: CoreEvent)
    ensures var u := OnDown(t, event); !u.listed || Untouched(t, u)
  {}

  lemma StaysUntouched(t: Ict, u: Ict)
    requires u == t.(now := u.now)
    ensures Untouched(t, u)
  {}

  /** The four things that happen to a CANCEL. */
  lemma StepCancel(t: Ict, e: Event)
    requires t.listed && t.state != State.Terminated && (e.Fire? ==> Due(t, e.timer).Some?)
    requires (t.cancelSent ==> t.cancel.Some?) && (t.state == Calling ==> !t.cancelSent)
    ensures var t' := Moved(t, e); var u := Step(t, e);
      || !u.listed
      || (!(e.CancelResponse? && t.cancelSent) && (Untouched(t', u) || JustSent(t', u)))
      || (e == Fire(E) && SentAgain(t', u))
      || (e.CancelResponse? && t.cancelSent && Answered(t', u))
  {
    hide Untouched, JustSent, SentAgain, Answered, DoCancel, OnResponse, OnCancelResponse, OnDown, Fired;
    var t' := Moved(t, e);
    StaysUntouched(t, t');
    match e
    case Response(dt, code, toTag) => ResponseCancel(t', code, toTag);
    case CancelResponse(dt) => AnswerCancel(t'); StaysUntouched(t', t');
    case Cancel(dt, reasons) => DoCancelCancel(t', reasons);
    case Down(dt, tls) => DownCancel(t', if tls then TlsFailed else ConnectionFailed);
    case Fire(x) =>
      if x == E { TimerECancel(t'); } else if x in {F, Linger} { EndsHere(t', x); } else { FiredCancel(t', x); }
  }

  lemma EndsHere(t: Ict, x: Timer)
    requires x in {F, Linger} && Due(t, x).Some? && t.state != State.Terminated
    ensures !Fired(t, x).listed
  {}

  /** The flag says whether the CANCEL is in the history. */
  predicate Remembered(t: Ict) { t.cancelSent <==> TxCancel in t.hist }

  lemma StepScheduled(t: Ict, e: Event, ct: CancelTimes)
    requires Base(t) && t.listed && (e.Fire? ==> Due(t, e.timer).Some?) && Scheduled(t, ct)
    requires Remembered(t) && Remembered(Step(t, e))
    ensures Step(t, e).listed ==> Scheduled(Step(t, e), Noted(t, e, ct))
  {
    hide CancelsAgain, Step, Base;
    BaseFacts(t);
    StepCancel(t, e);
    var n := CancelsAgain(t.hist);
    assert Offset(0) == TIMER_E && Interval(0) == TIMER_E;
    assert Offset(n + 1) == Offset(n) + Interval(n + 1) && Interval(n + 1) == Min(2 * Interval(n), T2);
  }

  lemma BaseFacts(t: Ict)
    requires Base(t)
    ensures t.listed || t.state == State.Terminated
    ensures t.listed ==> t.state != State.Terminated
    ensures (t.cancelSent ==> t.cancel.Some?) && (t.state == Calling ==> !t.cancelSent)
  {}

  lemma BothRemember(t: Ict)
    requires Base(t) && Exact(t)
    ensures Remembered(t)
  {}

  lemma {:induction false} RunScheduled(t: Ict, es: seq<Event>, ct: CancelTimes)
    requires Base(t) && Prompt(t) && Exact(t) && Clocked(t) && (t.listed ==> Scheduled(t, ct)) && Legal(t, es)
    requires t.listed || t.state == State.Terminated
    ensures Run(t, es).listed ==> Scheduled(Run(t, es), Times(t, es, ct))
    decreases |es|
  {
    if es != [] {
      hide Base, Prompt, Exact, Clocked, Scheduled, Step, Enabled, Noted;
      var u := Step(t, es[0]);
      IsDue(t, es[0]);
      StepBase(t, es[0]);
      StepExact(t, es[0]);
      if t.listed {
        BothRemember(t);
        BothRemember(u);
        StepScheduled(t, es[0], ct);
        StepClocked(t, es[0]);
      } else {
        StaysUnlisted(t, es[0]);
        UnlistedClocked(u);
      }
      BaseFacts(u);
      RunScheduled(u, es[1..], Noted(t, es[0], ct));
    }
  }

  lemma IsDue(t: Ict, e: Event)
    requires Enabled(t, e)
    ensures e.Fire? ==> Due(t, e.timer).Some?
  {}

  /** A transmitted CANCEL, over all runs: until its first answer it is sent again, over UDP alone, 0.5, 1.5, 3.5, 7.5,
      11.5 ... s after it was first sent, and timer F is due timer_F after that; its first answer stops both,
      and the transaction ends 4 s later if nothing ends it before. */
  lemma CancelSchedule(udp: bool, conf: Conf, request: Request, topVia: string, now: nat, es: seq<Event>)
    requires var t0 := Started(udp, conf, request, topVia, now); Legal(t0, es) && Run(t0, es).listed
    ensures var t0 := Started(udp, conf, request, topVia, now);
      Scheduled(Run(t0, es), Times(t0, es, CancelTimes(None, None)))
  {
    hide Step, Legal, Run, Base, Prompt, Exact, Clocked, Acked;
    var t0 := Started(udp, conf, request, topVia, now);
    StartTraced(udp, conf, request, topVia, now);
    StartExact(udp, conf, request, topVia, now);
    StartTimed(udp, conf, request, topVia, now);
    RunScheduled(t0, es, CancelTimes(None, None));
  }
}

/** The retransmission schedules of client transactions over UDP, in closed form. */
module Retransmissions {
  import opened Wrappers
  import opened Bytes
  import opened Timers
  import IC = InviteClient
  import NC = NonInviteClient

  // ---- INVITE: section 17.1.1.2 of RFC 3261 ----

  function AgainIn(h: seq<IC.Act>): nat { multiset(h)[IC.TxInviteAgain] }

  function Again(t: IC.Ict): nat { AgainIn(t.hist) }

  lemma AgainSnoc(h: seq<IC.Act>, x: IC.Act)
    ensures AgainIn(h + [x]) == AgainIn(h) + if x == IC.TxInviteAgain then 1 else 0
  {}

  /** Timer A runs before any response only. */
  predicate Early(t: IC.Ict) {
    t.a.Some? ==>
      t.state == IC.Calling && t.d == None && t.m == None && t.f == None && t.linger == [] && !t.cancelSent
  }

  /** After n retransmissions the next is due T1 * (2^(n+1) - 1) after the start. */
  predicate Paced(t: IC.Ict) {
    var p := Pow2(Again(t));
    && t.born <= t.now
    && (t.a.Some? ==>
          && t.udp && Early(t)
          && t.a.value == Periodic(t.born + T1 * (2 * p - 1), T1 * p)
          && t.b == Some(t.born + t.conf.timerB))
    && T1 * (p - 1) <= t.now - t.born
    && T1 * (p - 1) <= t.conf.timerB
    && (!t.udp ==> Again(t) == 0)
  }

  /** No retransmission: timer A goes on as it was, or stops. */
  predicate Unhurried(t: IC.Ict, u: IC.Ict) {
    && u.born == t.born && u.conf == t.conf && u.udp == t.udp && t.now <= u.now && Again(u) == Again(t)
    && (u.a.Some? ==> u.a == t.a && u.b == t.b && Early(u))
  }

  lemma UnhurriedPaced(t: IC.Ict, u: IC.Ict)
    requires Paced(t) && Unhurried(t, u)
    ensures Paced(u)
  {}

  lemma LogUnhurried(t: IC.Ict, x: IC.Act)
    requires x != IC.TxInviteAgain && Early(t)
    ensures Unhurried(t, IC.Log(t, x))
  {
    hide AgainIn;
    AgainSnoc(t.hist, x);
  }

  lemma CancelUnhurried(t: IC.Ict, reasons: seq<string>)
    requires Early(t)
    ensures Unhurried(t, IC.DoCancel(t, reasons))
  {
    hide IC.CancelText, AgainIn;
    AgainSnoc(t.hist, IC.TxCancel);
  }

  lemma AckUnhurried(t: IC.Ict, toTag: Option<string>)
    requires Early(t)
    ensures Unhurried(t, IC.SendAck(t, toTag))
  {
    hide IC.AckText, AgainIn;
    AgainSnoc(t.hist, IC.TxAck(IC.SendAck(t, toTag).ack.value));
  }

  lemma Chain(t: IC.Ict, u: IC.Ict, v: IC.Ict)
    requires Unhurried(t, u) && Unhurried(u, v)
    ensures Unhurried(t, v)
  {}

  lemma ProvisionalUnhurried(t: IC.Ict, code: nat)
    requires Early(t)
    ensures Unhurried(t, IC.OnProvisional(t, code))
  {
    hide AgainIn;
    AgainSnoc(t.hist, IC.Tell(IC.Answer(code)));
    if t.state == IC.Calling {
      var u := IC.TellAnswer(t.(state := IC.Proceeding, a := None, b := None), code);
      AgainSnoc(u.hist, IC.TxCancel);
    }
  }

  lemma SuccessUnhurried(t: IC.Ict, code: nat)
    requires Early(t)
    ensures Unhurried(t, IC.OnSuccess(t, code))
  {
    hide AgainIn;
    AgainSnoc(t.hist, IC.Tell(IC.Answer(code)));
  }

  lemma RefusalUnhurried(t: IC.Ict, code: nat, toTag: Option<string>)
    requires Early(t)
    ensures Unhurried(t, IC.OnRefusal(t, code, toTag))
  {
    hide IC.SendAck, AgainIn, Unhurried;
    if t.state == IC.Calling || t.state == IC.Proceeding {
      var u := IC.Complete(t);
      CompleteUnhurried(t);
      AckUnhurried(u, toTag);
      var v := IC.SendAck(u, toTag);
      AckEarly(u, v);
      LogUnhurried(v, IC.Tell(IC.Answer(code)));
      Chain(t, u, v);
      Chain(t, v, IC.OnRefusal(t, code, toTag));
    } else if t.state == IC.Completed {
      AckUnhurried(t, toTag);
    } else {
      UnhurriedStays(t);
    }
  }

  lemma CompleteUnhurried(t: IC.Ict)
    requires t.state == IC.Calling || t.state == IC.Proceeding
    ensures Unhurried(t, IC.Complete(t)) && Early(IC.Complete(t))
  {}

  lemma AckEarly(t: IC.Ict, u: IC.Ict)
    requires Unhurried(t, u)
    ensures Early(u)
  {}

  lemma ResponseUnhurried(t: IC.Ict, code: nat, toTag: Option<string>)
    requires Early(t)
    ensures Unhurried(t, IC.OnResponse(t, code, toTag))
  {
    hide IC.OnProvisional, IC.OnRefusal, IC.OnSuccess;
    var u := IC.Log(t, IC.Rx(code));
    LogUnhurried(t, IC.Rx(code));
    ProvisionalUnhurried(u, code);
    SuccessUnhurried(u, code);
    RefusalUnhurried(u, code, toTag);
    Chain(t, u, IC.OnResponse(t, code, toTag));
  }

  lemma DownUnhurried(t: IC.Ict, event: IC.CoreEvent)
    requires Early(t)
    ensures Unhurried(t, IC.OnDown(t, event))
  {
    hide AgainIn;
    AgainSnoc(t.hist, IC.Tell(event));
  }

  lemma TimeoutsUnhurried(t: IC.Ict, x: IC.Timer)
    requires IC.Due(t, x).Some? && x in {IC.B, IC.E} && Early(t)
    ensures Unhurried(t, IC.Fired(t, x))
  {
    hide AgainIn;
    AgainSnoc(t.hist, IC.Tell(IC.ClientTimeout));
    AgainSnoc(t.hist, IC.TxCancelAgain);
  }

  lemma TimerCUnhurried(t: IC.Ict)
    requires t.c.Some?
    ensures Unhurried(t, IC.Fired(t, IC.C))
  {
    hide IC.DoCancel, AgainIn, Unhurried;
    var u := t.(a := None, b := None, c := None);
    StoppedUnhurried(t);
    CancelUnhurried(u, []);
    var v := IC.DoCancel(u, []);
    AckEarly(u, v);
    LogUnhurried(v, IC.Tell(IC.InviteTimeout));
    Chain(t, u, v);
    Chain(t, v, IC.Fired(t, IC.C));
  }

  lemma StoppedUnhurried(t: IC.Ict)
    ensures Unhurried(t, t.(a := None, b := None, c := None))
  {}

  lemma FiredUnhurried(t: IC.Ict, x: IC.Timer)
    requires IC.Due(t, x).Some? && x != IC.A && Early(t)
    ensures Unhurried(t, IC.Fired(t, x))
  {
    hide AgainIn, IC.DoCancel;
    if x == IC.C {
      TimerCUnhurried(t);
    } else if x in {IC.B, IC.E} {
      TimeoutsUnhurried(t, x);
    }
  }

  /** Timer A finds timer B still ahead. */
  lemma TimerAPaced(t: IC.Ict)
    requires Paced(t) && t.a.Some? && IC.InTime(t, t.a.value.due)
    ensures Paced(IC.Fired(t.(now := t.a.value.due), IC.A))
  {
    hide AgainIn;
    AgainSnoc(t.hist, IC.TxInviteAgain);
    assert Pow2(Again(t) + 1) == 2 * Pow2(Again(t));
  }

  lemma StepUnhurried(t: IC.Ict, e: IC.Event)
    requires e != IC.Fire(IC.A) && (e.Fire? ==> IC.Due(t, e.timer).Some?) && Early(t)
    ensures Unhurried(IC.Moved(t, e), IC.Step(t, e))
  {
    hide Unhurried, IC.DoCancel, IC.OnResponse, IC.OnCancelResponse, IC.OnDown, IC.Fired;
    var t' := IC.Moved(t, e);
    UnhurriedStays(t');
    match e
    case Response(dt, code, toTag) => ResponseUnhurried(t', code, toTag);
    case CancelResponse(dt) => CancelResponseUnhurried(t');
    case Cancel(dt, reasons) => CancelUnhurried(t', reasons);
    case Down(dt, tls) => DownUnhurried(t', if tls then IC.TlsFailed else IC.ConnectionFailed);
    case Fire(x) => FiredUnhurried(t', x);
  }

  lemma CancelResponseUnhurried(t: IC.Ict)
    requires Early(t)
    ensures Unhurried(t, IC.OnCancelResponse(t))
  {}

  lemma UnhurriedStays(t: IC.Ict)
    requires Early(t)
    ensures Unhurried(t, t)
  {}

  lemma MovedPaced(t: IC.Ict, e: IC.Event)
    requires Paced(t) && IC.Enabled(t, e) && IC.InTime(t, t.now)
    ensures Paced(IC.Moved(t, e)) && IC.Moved(t, e).conf == t.conf && Early(t)
  {}

  lemma StepPaced(t: IC.Ict, e: IC.Event)
    requires Paced(t) && IC.Enabled(t, e) && IC.InTime(t, t.now)
    ensures Paced(IC.Step(t, e)) && IC.Step(t, e).conf == t.conf
  {
    MovedPaced(t, e);
    if e == IC.Fire(IC.A) {
      hide Paced, Again;
      TimerAPaced(t);
    } else {
      hide IC.Step, Paced;
      StepUnhurried(t, e);
      UnhurriedPaced(IC.Moved(t, e), IC.Step(t, e));
    }
  }

  lemma StepAfterTheEnd(t: IC.Ict, e: IC.Event)
    requires t.a == None
    ensures IC.Step(t, e).a == None && Again(IC.Step(t, e)) == Again(t)
  {
    hide IC.DoCancel, IC.OnResponse, IC.OnCancelResponse, IC.OnDown, IC.Fired;
    if !(e.Fire? && IC.Due(t, e.timer) == None) {
      StepUnhurried(t, e);
    }
  }

  lemma {:induction false} AfterTheEnd(t: IC.Ict, es: seq<IC.Event>)
    requires t.a == None
    ensures IC.Run(t, es).a == None && Again(IC.Run(t, es)) == Again(t)
    decreases |es|
  {
    if es != [] {
      hide IC.Step, Again;
      StepAfterTheEnd(t, es[0]);
      AfterTheEnd(IC.Step(t, es[0]), es[1..]);
    }
  }

  lemma PacedFacts(t: IC.Ict)
    requires Paced(t)
    ensures T1 * (Pow2(Again(t)) - 1) <= t.conf.timerB && (!t.udp ==> Again(t) == 0)
    ensures IC.Clocked(t) && !t.listed ==> t.a == None
    ensures t.a.Some? ==> t.a.value.due == t.born + T1 * (2 * Pow2(Again(t)) - 1)
  {}

  predicate Bounded(t: IC.Ict, timerB: nat) { T1 * (Pow2(Again(t)) - 1) <= timerB }

  lemma {:induction false} RunPaced(t: IC.Ict, es: seq<IC.Event>)
    requires Paced(t) && IC.Clocked(t) && IC.Legal(t, es)
    ensures Bounded(IC.Run(t, es), t.conf.timerB)
    ensures IC.Run(t, es).a.Some? ==> Paced(IC.Run(t, es))
    decreases |es|
  {
    PacedFacts(t);
    if !t.listed {
      hide Paced, Again;
      AfterTheEnd(t, es);
    } else if es != [] {
      hide IC.Step, Paced, IC.Enabled, IC.InTime, Bounded;
      IC.StepClocked(t, es[0]);
      ClockedInTime(t);
      StepPaced(t, es[0]);
      RunPaced(IC.Step(t, es[0]), es[1..]);
    }
  }

  lemma ClockedInTime(t: IC.Ict)
    requires IC.Clocked(t) && t.listed
    ensures IC.InTime(t, t.now)
  {}

  lemma StartPaced(udp: bool, conf: IC.Conf, request: IC.Request, topVia: string, now: nat)
    ensures var t := IC.Started(udp, conf, request, topVia, now); Paced(t) && IC.Clocked(t) && t.conf == conf
  {
    assert Pow2(0) == 1;
  }

  lemma PowersGrow(n: nat, m: nat)
    requires n <= m
    ensures Pow2(n) <= Pow2(m)
    decreases m
  {
    if n < m { PowersGrow(n, m - 1); }
  }

  /** In every run the INVITE is retransmitted T1, 3 T1, 7 T1 ... after its start, while timer A runs, and the
      n-th retransmission comes no later than timer B: with timer B at its default of 64 T1 the INVITE is sent
      at most 7 times. */
  lemma InviteSchedule(udp: bool, conf: IC.Conf, request: IC.Request, topVia: string, now: nat, es: seq<IC.Event>)
    requires IC.Legal(IC.Started(udp, conf, request, topVia, now), es)
    ensures var t := IC.Run(IC.Started(udp, conf, request, topVia, now), es);
      && T1 * (Pow2(Again(t)) - 1) <= conf.timerB
      && (t.a.Some? ==> t.a.value.due == t.born + T1 * (Pow2(Again(t) + 1) - 1))
      && (conf.timerB == TIMER_B ==> Again(t) <= 6)
  {
    StartPaced(udp, conf, request, topVia, now);
    var t0 := IC.Started(udp, conf, request, topVia, now);
    var t := IC.Run(t0, es);
    RunPaced(t0, es);
    if t.a.Some? { PacedFacts(t); }
    if Again(t) > 6 {
      PowersGrow(7, Again(t));
      assert Pow2(7) == 2 * Pow2(6) == 4 * Pow2(5) == 8 * Pow2(4) && Pow2(4) == 16;
    }
  }

  // ---- Other requests: section 17.1.2.2 of RFC 3261 ----

  function Repeats(t: NC.Nict): nat { multiset(t.hist)[NC.TxRequestAgain] }

  predicate Regular(t: NC.Nict) {
    var n := Repeats(t);
    && (t.e.Some? ==>
          && t.state in {NC.Trying, NC.Proceeding} && t.k == None && t.f == Some(t.born + t.timerF)
          && t.e.value.due >= t.born + Offset(n) && t.e.value.interval >= Interval(n))
    && (t.e.Some? && t.state == NC.Trying ==> t.e.value == Periodic(t.born + Offset(n), Interval(n)))
    && (t.state == NC.Trying && t.udp ==> t.e.Some?)
    && (n > 0 ==> Offset(n - 1) <= t.timerF)
  }

  lemma RepeatRegular(t: NC.Nict)
    requires Regular(t) && t.e.Some? && NC.InTime(t, t.e.value.due)
    ensures Regular(NC.Fired(t.(now := t.e.value.due), NC.E))
  {
    var n := Repeats(t);
    assert Interval(n + 1) == Min(2 * Interval(n), T2);
    assert Offset(n + 1) == Offset(n) + Interval(n + 1);
    var u := NC.Fired(t.(now := t.e.value.due), NC.E);
    assert Repeats(u) == n + 1;
  }

  lemma ResponseRegular(t: NC.Nict, code: nat)
    requires Regular(t)
    ensures Regular(NC.OnResponse(t, code))
  {
    hide Offset, Interval;
  }

  lemma DownRegular(t: NC.Nict, event: NC.CoreEvent)
    requires Regular(t)
    ensures Regular(NC.OnDown(t, event))
  {
    hide Offset, Interval;
  }

  lemma OtherFiredRegular(t: NC.Nict, x: NC.Timer)
    requires Regular(t) && NC.Due(t, x).Some? && x != NC.E
    ensures Regular(NC.Fired(t, x))
  {
    hide Offset, Interval;
  }

  lemma LaterRegular(t: NC.Nict, now: nat)
    requires Regular(t)
    ensures Regular(t.(now := now))
  {
    hide Offset, Interval;
  }

  lemma StepRegular(t: NC.Nict, ev: NC.Event)
    requires Regular(t) && NC.Enabled(t, ev)
    ensures Regular(NC.Step(t, ev)) && NC.Step(t, ev).timerF == t.timerF
  {
    hide Regular;
    match ev
    case Response(dt, code) =>
      LaterRegular(t, t.now + dt);
      ResponseRegular(t.(now := t.now + dt), code);
    case Down(dt, tls) =>
      LaterRegular(t, t.now + dt);
      DownRegular(t.(now := t.now + dt), if tls then NC.TlsFailed else NC.ConnectionFailed);
    case Fire(x) =>
      if x == NC.E {
        RepeatRegular(t);
      } else {
        LaterRegular(t, NC.Due(t, x).value);
        OtherFiredRegular(t.(now := NC.Due(t, x).value), x);
      }
  }

  lemma {:induction false} RunRegular(t: NC.Nict, es: seq<NC.Event>)
    requires Regular(t) && NC.Legal(t, es)
    ensures Regular(NC.Run(t, es)) && NC.Run(t, es).timerF == t.timerF
    decreases |es|
  {
    if es != [] {
      hide Regular, NC.Step, NC.Enabled;
      StepRegular(t, es[0]);
      RunRegular(NC.Step(t, es[0]), es[1..]);
    }
  }

  /** In every run, before any response a non-INVITE request is retransmitted exactly 0.5, 1.5, 3.5, 7.5, 11.5 ... s
      after its start, never earlier after a provisional one, and no later than timer F: with timer F at its
      default of 64 T1 it is sent at most 11 times. */
  lemma RequestSchedule(udp: bool, timerF: nat, now: nat, es: seq<NC.Event>)
    requires NC.Legal(NC.Started(udp, timerF, now), es)
    ensures var t := NC.Run(NC.Started(udp, timerF, now), es);
      && (t.state == NC.Trying && t.e.Some? ==> t.e.value.due == t.born + Offset(Repeats(t)))
      && (t.e.Some? ==> t.e.value.due >= t.born + Offset(Repeats(t)))
      && (Repeats(t) > 0 ==> Offset(Repeats(t) - 1) <= timerF)
      && (timerF == TIMER_F ==> Repeats(t) <= 10)
  {
    var t0 := NC.Started(udp, timerF, now);
    RunRegular(t0, es);
    var t := NC.Run(t0, es);
    Offsets();
    if Repeats(t) > 10 { OffsetsGrow(10, Repeats(t) - 1); }
  }
}

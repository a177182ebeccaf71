/** INVITE client transactions: section 17.1.1 of RFC 3261, RFC 6026, and the CANCEL they may send. */
module InviteClient {
  import opened Wrappers
  import opened Timers

  datatype State = Calling | Proceeding | Completed | Accepted | Terminated

  /** The parts of the proxied request that ACK and CANCEL are built from. */
  datatype Request = Request(ruri: string, routes: seq<string>, from: string, to: string, inDialog: bool,
                             callId: string, cseq: string)

  datatype CoreEvent = Answer(code: nat) | ClientTimeout | InviteTimeout | ConnectionFailed | TlsFailed

  /** What the transaction receives, sends, and tells its core, in order. */
  datatype Act =
    | Rx(code: nat)
    | TxInvite | TxInviteAgain | TxCancel | TxCancelAgain
    | TxAck(text: string)
    | Tell(event: CoreEvent)

  /** The configured timer values. */
  datatype Conf = Conf(timerB: nat, timerC: nat, timerF: nat)

  datatype Ict = Ict(state: State, udp: bool, conf: Conf, request: Request, topVia: string, born: nat, now: nat,
                     a: Option<Periodic>, b: Option<nat>, c: Option<nat>, d: Option<nat>, m: Option<nat>,
                     cancel: Option<string>, cancelSent: bool, e: Option<Periodic>, f: Option<nat>, linger: seq<nat>,
                     ack: Option<string>, hist: seq<Act>, listed: bool)

  const CRLF := "\r\n"

  function Field(name: string, value: string): string { name + ": " + (value + CRLF) }

  function Lines(name: string, values: seq<string>): string {
    if values == [] then "" else Field(name, values[0]) + Lines(name, values[1..])
  }

  function FromTo(r: Request, to: string, method_: string): string {
    Field("From", r.from) + (Field("To", to) + (Field("Call-ID", r.callId) + (Field("CSeq", r.cseq + " " + method_)
      + (Field("Content-Length", "0") + (Field("User-Agent", "OverSIP") + CRLF)))))
  }

  function AckText(r: Request, topVia: string, toTag: Option<string>): string {
    "ACK " + r.ruri + " SIP/2.0" + CRLF + (Field("Via", topVia) + (Lines("Route", r.routes)
      + FromTo(r, r.to + (if !r.inDialog && toTag.Some? then ";tag=" + toTag.value else ""), "ACK")))
  }

  function CancelText(r: Request, topVia: string, reasons: seq<string>): string {
    "CANCEL " + r.ruri + " SIP/2.0" + CRLF + (Field("Via", topVia) + (Lines("Route", r.routes)
      + (Lines("Reason", reasons) + FromTo(r, r.to, "CANCEL"))))
  }

  // ---- One step ----

  function Log(t: Ict, x: Act): Ict { t.(hist := t.hist + [x]) }

  function Terminate(t: Ict): Ict { t.(state := State.Terminated, listed := false) }

  /** `send_request`. Timer A only over UDP. */
  function Started(udp: bool, conf: Conf, request: Request, topVia: string, now: nat): Ict {
    Ict(Calling, udp, conf, request, topVia, now, now,
        if udp then Some(Periodic(now + TIMER_A, TIMER_A)) else None, Some(now + conf.timerB), Some(now + conf.timerC),
        None, None, None, false, None, None, [], None, [TxInvite], true)
  }

  function SendCancel(t: Ict): Ict {
    Log(t, TxCancel).(cancelSent := true, f := Some(t.now + t.conf.timerF),
                      e := if t.udp then Some(Periodic(t.now + TIMER_E, TIMER_E)) else t.e)
  }

  function DoCancel(t: Ict, reasons: seq<string>): Ict {
    if t.cancel.Some? then t else
    var t' := t.(cancel := Some(CancelText(t.request, t.topVia, reasons)));
    if t.state == Proceeding then SendCancel(t') else t'
  }

  /** The ACK is built once and then sent again as it is. */
  function SendAck(t: Ict, toTag: Option<string>): Ict {
    var t' := if t.ack.None? then t.(ack := Some(AckText(t.request, t.topVia, toTag))) else t;
    Log(t', TxAck(t'.ack.value))
  }

  function TellAnswer(t: Ict, code: nat): Ict {
    if code == 100 then t else Log(t, Tell(Answer(code)))
  }

  function OnProvisional(t: Ict, code: nat): Ict {
    if t.state == Calling then
      var t' := TellAnswer(t.(state := Proceeding, a := None, b := None), code);
      if t'.cancel.Some? then SendCancel(t') else t'
    else if t.state == Proceeding then TellAnswer(t, code)
    else t
  }

  function Complete(t: Ict): Ict {
    var t' := t.(state := Completed, a := None, b := None, c := None);
    if t.udp then t'.(d := Some(t.now + TIMER_D_UDP)) else Terminate(t')
  }

  function OnRefusal(t: Ict, code: nat, toTag: Option<string>): Ict {
    if t.state == Calling || t.state == Proceeding then
      Log(SendAck(Complete(t), toTag), Tell(Answer(code)))
    else if t.state == Completed then SendAck(t, toTag)
    else t
  }

  function OnSuccess(t: Ict, code: nat): Ict {
    if t.state == Calling || t.state == Proceeding then
      Log(t.(state := Accepted, a := None, b := None, c := None, m := Some(t.now + TIMER_M)), Tell(Answer(code)))
    else if t.state == Accepted then Log(t, Tell(Answer(code)))
    else t
  }

  function OnResponse(t: Ict, code: nat, toTag: Option<string>): Ict {
    var t' := Log(t, Rx(code));
    if code < 200 then OnProvisional(t', code)
    else if code >= 300 then OnRefusal(t', code, toTag)
    else OnSuccess(t', code)
  }

  /** Every response before a final one is told at once, a refusal after its ACK. */
  lemma AnswerActs(t: Ict, code: nat, toTag: Option<string>)
    requires t.state in {Calling, Proceeding}
    ensures var u := OnResponse(t, code, toTag);
      && (code < 300 && code != 100 ==> t.hist + [Rx(code), Tell(Answer(code))] <= u.hist)
      && (code >= 300 ==> u.ack.Some? && u.hist == t.hist + [Rx(code), TxAck(u.ack.value), Tell(Answer(code))])
  {
    hide SendCancel, AckText, OnRefusal;
    var h := t.hist + [Rx(code)];
    if code == 100 {
    } else if code < 300 {
      assert h + [Tell(Answer(code))] == t.hist + [Rx(code), Tell(Answer(code))];
      hide OnProvisional, OnSuccess;
      ToldFirst(Log(t, Rx(code)), code);
    } else {
      hide OnProvisional, OnSuccess;
      AckedFirst(Log(t, Rx(code)), code, toTag);
    }
  }

  lemma ToldFirst(t: Ict, code: nat)
    requires t.state in {Calling, Proceeding} && code < 300 && code != 100
    ensures t.hist + [Tell(Answer(code))] <= (if code < 200 then OnProvisional(t, code) else OnSuccess(t, code)).hist
  {}

  lemma AckedFirst(t: Ict, code: nat, toTag: Option<string>)
    requires t.state in {Calling, Proceeding}
    ensures var u := OnRefusal(t, code, toTag);
      u.ack.Some? && u.hist == t.hist + [TxAck(u.ack.value), Tell(Answer(code))]
  {
    hide AckText;
  }

  /** A response to a CANCEL never sent raises in the original before anything has changed. */
  function OnCancelResponse(t: Ict): Ict {
    if t.state == State.Terminated || !t.cancelSent then t
    else t.(e := None, f := None, linger := t.linger + [t.now + 4000])
  }

  function OnDown(t: Ict, event: CoreEvent): Ict {
    if t.state == Calling || t.cancel.None? then
      Log(Terminate(t.(a := None, b := None, c := None)), Tell(event))
    else t
  }

  datatype Timer = A | B | C | D | M | E | F | Linger

  function DueP(p: Option<Periodic>): Option<nat> { if p.Some? then Some(p.value.due) else None }

  function Due(t: Ict, x: Timer): Option<nat> {
    match x
    case A => DueP(t.a)
    case B => t.b
    case C => t.c
    case D => t.d
    case M => t.m
    case E => DueP(t.e)
    case F => t.f
    case Linger => if t.linger == [] then None else Some(t.linger[0])
  }

  function Fired(t: Ict, x: Timer): Ict
    requires Due(t, x).Some?
  {
    match x
    case A =>
      var n := 2 * t.a.value.interval;
      Log(t, TxInviteAgain).(a := Some(Periodic(t.a.value.due + n, n)))
    case B => Log(Terminate(t.(a := None, b := None, c := None)), Tell(ClientTimeout))
    case C => Log(DoCancel(t.(a := None, b := None, c := None), []), Tell(InviteTimeout))
    case D => Terminate(t.(d := None))
    case M => Terminate(t.(m := None))
    case E => Log(t, TxCancelAgain).(e := Some(Doubled(t.e.value)))
    case F => if t.state == State.Terminated then t.(f := None) else Terminate(t.(e := None, f := None))
    case Linger => Terminate(t.(linger := t.linger[1..]))
  }

  // ---- Runs ----

  /** Network events come strictly later than whatever came before; `do_cancel` and a connection failure
      may fall on the same instant as another event. */
  datatype Event =
    | Response(dt: nat, code: nat, toTag: Option<string>)
    | CancelResponse(dt: nat)
    | Cancel(dt: nat, reasons: seq<string>)
    | Down(dt: nat, tls: bool)
    | Fire(timer: Timer)

  predicate InTime(t: Ict, now: nat) {
    && NotLateP(t.a, now) && NotLate(t.b, now) && NotLate(t.c, now) && NotLate(t.d, now) && NotLate(t.m, now)
    && NotLateP(t.e, now) && NotLate(t.f, now) && NotLate(Due(t, Linger), now)
  }

  predicate Enabled(t: Ict, e: Event) {
    match e
    case Fire(x) => Due(t, x).Some? && InTime(t, Due(t, x).value)
    case _ => InTime(t, t.now + e.dt) && (e.Response? || e.CancelResponse? ==> e.dt > 0)
  }

  /** The transaction at the moment of the event. */
  function Moved(t: Ict, e: Event): Ict
    requires e.Fire? ==> Due(t, e.timer).Some?
  {
    t.(now := if e.Fire? then Due(t, e.timer).value else t.now + e.dt)
  }

  /** Responses reach the transaction through its table. */
  function Step(t: Ict, e: Event): Ict {
    match e
    case Response(dt, code, toTag) => var t' := t.(now := t.now + dt); if t.listed then OnResponse(t', code, toTag) else t'
    case CancelResponse(dt) => var t' := t.(now := t.now + dt); if t.listed then OnCancelResponse(t') else t'
    case Cancel(dt, reasons) => DoCancel(t.(now := t.now + dt), reasons)
    case Down(dt, tls) => OnDown(t.(now := t.now + dt), if tls then TlsFailed else ConnectionFailed)
    case Fire(x) => if Due(t, x).None? then t else Fired(t.(now := Due(t, x).value), x)
  }

  predicate Legal(t: Ict, es: seq<Event>)
    decreases |es|
  {
    es == [] || (Enabled(t, es[0]) && Legal(Step(t, es[0]), es[1..]))
  }

  function Run(t: Ict, es: seq<Event>): Ict
    decreases |es|
  {
    if es == [] then t else Run(Step(t, es[0]), es[1..])
  }

  // ---- The clock ----

  /** The table lists the transaction until it terminates, and until then no timer is overdue. */
  predicate Clocked(t: Ict) {
    (t.listed <==> t.state != State.Terminated) && (t.listed ==> InTime(t, t.now))
  }

  lemma CancelClocked(t: Ict, reasons: seq<string>)
    requires Clocked(t)
    ensures Clocked(DoCancel(t, reasons))
  {
    hide CancelText;
  }

  lemma ProvisionalClocked(t: Ict, code: nat)
    requires Clocked(t)
    ensures Clocked(OnProvisional(t, code))
  {
    hide Clocked;
    if t.state == Calling {
      var u := t.(state := Proceeding, a := None, b := None);
      FirstProvisionalClocked(t);
      LogClocked(u, Tell(Answer(code)));
      SendCancelClocked(TellAnswer(u, code));
    } else {
      LogClocked(t, Tell(Answer(code)));
    }
  }

  lemma FirstProvisionalClocked(t: Ict)
    requires Clocked(t) && t.state == Calling
    ensures Clocked(t.(state := Proceeding, a := None, b := None))
  {}

  lemma SendCancelClocked(t: Ict)
    requires Clocked(t)
    ensures Clocked(SendCancel(t))
  {}

  lemma AckClocked(t: Ict, toTag: Option<string>, act: Act)
    requires Clocked(t)
    ensures Clocked(SendAck(t, toTag)) && Clocked(Log(SendAck(t, toTag), act))
  {
    hide AckText;
  }

  lemma RefusalClocked(t: Ict, code: nat, toTag: Option<string>)
    requires Clocked(t)
    ensures Clocked(OnRefusal(t, code, toTag))
  {
    hide Clocked, SendAck;
    if t.state == Calling || t.state == Proceeding {
      CompleteClocked(t);
      AckClocked(Complete(t), toTag, Tell(Answer(code)));
    } else {
      AckClocked(t, toTag, Tell(Answer(code)));
    }
  }

  lemma CompleteClocked(t: Ict)
    requires Clocked(t) && (t.state == Calling || t.state == Proceeding)
    ensures Clocked(Complete(t))
  {}

  lemma SuccessClocked(t: Ict, code: nat)
    requires Clocked(t)
    ensures Clocked(OnSuccess(t, code))
  {}

  lemma CancelResponseClocked(t: Ict)
    requires Clocked(t)
    ensures Clocked(OnCancelResponse(t))
  {}

  lemma DownClocked(t: Ict, event: CoreEvent)
    requires Clocked(t)
    ensures Clocked(OnDown(t, event))
  {}

  lemma LogClocked(t: Ict, act: Act)
    requires Clocked(t)
    ensures Clocked(Log(t, act))
  {}

  lemma FiredClocked(t: Ict, x: Timer)
    requires Clocked(t) && t.listed && Due(t, x) == Some(t.now)
    ensures Clocked(Fired(t, x))
  {
    hide CancelText, DoCancel;
    if x == C {
      var u := t.(a := None, b := None, c := None);
      CancelClocked(u, []);
      LogClocked(DoCancel(u, []), Tell(InviteTimeout));
    }
  }

  lemma StepClocked(t: Ict, e: Event)
    requires Clocked(t) && t.listed && Enabled(t, e)
    ensures Clocked(Step(t, e))
  {
    hide Clocked, DoCancel, OnProvisional, OnRefusal, OnSuccess, OnCancelResponse, Fired;
    var now' := if e.Fire? then Due(t, e.timer).value else t.now + e.dt;
    LaterClocked(t, now');
    var t' := t.(now := now');
    match e
    case Response(dt, code, toTag) =>
      var u := Log(t', Rx(code));
      LogClocked(t', Rx(code));
      ProvisionalClocked(u, code);
      SuccessClocked(u, code);
      RefusalClocked(u, code, toTag);
    case CancelResponse(dt) => CancelResponseClocked(t');
    case Cancel(dt, reasons) => CancelClocked(t', reasons);
    case Down(dt, tls) => DownClocked(t', if tls then TlsFailed else ConnectionFailed);
    case Fire(x) => FiredClocked(t', x);
  }

  lemma LaterClocked(t: Ict, now: nat)
    requires Clocked(t) && t.listed && InTime(t, now)
    ensures Clocked(t.(now := now))
  {}
}

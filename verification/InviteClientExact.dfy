/** What an INVITE client transaction does with every response, and how long it stays in a state. */
module InviteClientExact {
  import opened Wrappers
  import opened Timers
  import opened ResponseCodes
  import opened InviteClient
  import opened InviteClientTrace

  // ---- Responses, on the history alone ----

  /** The codes of the responses received, in order. */
  function Received(h: seq<Act>): seq<nat> {
    if h == [] then []
    else
      var x := h[|h| - 1];
      Received(h[..|h| - 1]) + if x.Rx? then [x.code] else []
  }

  /** The first final response. */
  function Final(codes: seq<nat>): Option<nat> {
    if codes == [] then None
    else if Final(codes[..|codes| - 1]).Some? then Final(codes[..|codes| - 1])
    else if codes[|codes| - 1] >= 200 then Some(codes[|codes| - 1])
    else None
  }

  /** What the core is to be handed: every provisional response but 100 until the first final one, that one, and
      every further 2xx if it was one. */
  function ToTell(codes: seq<nat>): seq<nat> {
    if codes == [] then []
    else
      var before, code := codes[..|codes| - 1], codes[|codes| - 1];
      ToTell(before) + match Final(before)
                       case None => if code == 100 then [] else [code]
                       case Some(first) => if first < 300 && 200 <= code < 300 then [code] else []
  }

  function StateOf(codes: seq<nat>): State {
    if codes == [] then Calling
    else match Final(codes)
         case None => Proceeding
         case Some(first) => if first < 300 then Accepted else Completed
  }

  /** What must directly follow the response at j. */
  predicate HeededAt(h: seq<Act>, j: nat)
    requires j < |h| && h[j].Rx?
  {
    var before, code := Received(h[..j]), h[j].code;
    && (code != 100 && code < 200 && AllProvisional(before) ==> j + 1 < |h| && h[j + 1] == Tell(Answer(code)))
    && (200 <= code < 300 && NoneRefused(before) ==> j + 1 < |h| && h[j + 1] == Tell(Answer(code)))
    && (code >= 300 && AllProvisional(before) ==> j + 2 < |h| && h[j + 1].TxAck? && h[j + 2] == Tell(Answer(code)))
  }

  predicate NoneRefused(codes: seq<nat>) { forall k :: 0 <= k < |codes| ==> codes[k] < 300 }

  predicate Heeded(h: seq<Act>) { forall j :: 0 <= j < |h| && h[j].Rx? ==> HeededAt(h, j) }

  lemma {:induction false} FinalMeaning(codes: seq<nat>)
    ensures Final(codes) == None <==> AllProvisional(codes)
    ensures NoneRefused(codes) && Final(codes).Some? ==> Final(codes).value < 300
  {
    if codes != [] {
      var before := codes[..|codes| - 1];
      FinalMeaning(before);
      assert forall k :: 0 <= k < |before| ==> before[k] == codes[k];
    }
  }

  lemma CodesSnoc(codes: seq<nat>, code: nat)
    ensures Final(codes + [code]) == if Final(codes).Some? then Final(codes) else if code >= 200 then Some(code) else None
    ensures ToTell(codes + [code]) == ToTell(codes) + match Final(codes)
      case None => (if code == 100 then [] else [code])
      case Some(first) => (if first < 300 && 200 <= code < 300 then [code] else [])
  {
    assert (codes + [code])[..|codes|] == codes;
  }

  lemma ReceivedSnoc(h: seq<Act>, x: Act)
    ensures Received(h + [x]) == if x.Rx? then Received(h) + [x.code] else Received(h)
  {
    assert (h + [x])[..|h|] == h;
  }

  /** Nothing is asked of an act that is not a response. */
  lemma HeededSnoc(h: seq<Act>, x: Act)
    requires Heeded(h) && !x.Rx?
    ensures Heeded(h + [x])
  {
    var g := h + [x];
    forall j | 0 <= j < |g| && g[j].Rx? ensures HeededAt(g, j) {
      assert g[..j] == h[..j] && HeededAt(h, j);
    }
  }

  /** A response with all that follows it at once. */
  lemma HeededRx(h: seq<Act>, code: nat, tail: seq<Act>)
    requires Heeded(h) && (forall k :: 0 <= k < |tail| ==> !tail[k].Rx?)
    requires var before := Received(h);
      && (code != 100 && code < 200 && AllProvisional(before) ==> |tail| > 0 && tail[0] == Tell(Answer(code)))
      && (200 <= code < 300 && NoneRefused(before) ==> |tail| > 0 && tail[0] == Tell(Answer(code)))
      && (code >= 300 && AllProvisional(before) ==> |tail| > 1 && tail[0].TxAck? && tail[1] == Tell(Answer(code)))
    ensures Heeded(h + [Rx(code)] + tail)
  {
    var g := h + [Rx(code)] + tail;
    forall j | 0 <= j < |g| && g[j].Rx? ensures HeededAt(g, j) {
      if j < |h| {
        assert g[..j] == h[..j] && HeededAt(h, j);
      } else {
        assert j == |h| && g[..j] == h;
      }
    }
  }

  // ---- One event ----

  /** The history accounts for what was told, and the state follows from what was received. */
  predicate Exact(t: Ict) {
    && Heeded(t.hist) && Told(t.hist) == ToTell(Received(t.hist))
    && (t.listed ==> t.state == StateOf(Received(t.hist)))
    && (t.cancelSent ==> TxCancel in t.hist)
  }

  /** An act that is neither a response nor news of one. */
  lemma SilentExact(t: Ict, u: Ict, x: Act)
    requires Exact(t) && !x.Rx? && !(x.Tell? && x.event.Answer?)
    requires u.hist == t.hist + [x] && (u.listed ==> t.listed && u.state == t.state)
    requires u.cancelSent ==> t.cancelSent || x == TxCancel
    ensures Exact(u)
  {
    hide Heeded, Told, Received, StateOf;
    HeededSnoc(t.hist, x);
    ToldSnoc(t.hist, x);
    ReceivedSnoc(t.hist, x);
  }

  lemma QuietExact(t: Ict, u: Ict)
    requires Exact(t) && u.hist == t.hist && (u.listed ==> t.listed && u.state == t.state)
    requires u.cancelSent ==> t.cancelSent
    ensures Exact(u)
  {
    hide Heeded, Told, Received, StateOf;
  }

  /** What the state does with a response: the acts that follow it. */
  lemma ResponseExact(t: Ict, u: Ict, code: nat, tail: seq<Act>)
    requires Exact(t) && t.listed && u.hist == t.hist + [Rx(code)] + tail
    requires u.cancelSent ==> t.cancelSent || TxCancel in tail
    requires forall k :: 0 <= k < |tail| ==> !tail[k].Rx?
    requires Told(u.hist) == Told(t.hist) + match Final(Received(t.hist))
      case None => (if code == 100 then [] else [code])
      case Some(first) => (if first < 300 && 200 <= code < 300 then [code] else [])
    requires Received(u.hist) == Received(t.hist) + [code]
    requires u.listed ==> u.state == StateOf(Received(t.hist) + [code])
    requires t.state in {Calling, Proceeding} && code != 100 && code < 300 ==> |tail| > 0 && tail[0] == Tell(Answer(code))
    requires t.state == Accepted && 200 <= code < 300 ==> |tail| > 0 && tail[0] == Tell(Answer(code))
    requires t.state in {Calling, Proceeding} && code >= 300 ==>
      |tail| > 1 && tail[0].TxAck? && tail[1] == Tell(Answer(code))
    ensures Exact(u)
  {
    hide Heeded, Told, Received, AllProvisional, NoneRefused, ToTell, Final;
    var before := Received(t.hist);
    FinalMeaning(before);
    CodesSnoc(before, code);
    assert Final([]) == None by { EmptyFinal(); }
    HeededRx(t.hist, code, tail);
  }

  lemma EmptyFinal()
    ensures Final([]) == None
  {}

  /** The history after a response with up to two acts. */
  lemma OneAct(h: seq<Act>, code: nat, x: Act)
    requires !x.Rx?
    ensures Received(h + [Rx(code)] + [x]) == Received(h) + [code]
    ensures Told(h + [Rx(code)] + [x]) == Told(h) + if x.Tell? && x.event.Answer? then [x.event.code] else []
  {
    ReceivedSnoc(h, Rx(code));
    ToldSnoc(h, Rx(code));
    ReceivedSnoc(h + [Rx(code)], x);
    ToldSnoc(h + [Rx(code)], x);
  }

  lemma TwoActs(h: seq<Act>, code: nat, x: Act, y: Act)
    requires !x.Rx? && !y.Rx?
    ensures Received(h + [Rx(code)] + [x, y]) == Received(h) + [code]
    ensures Told(h + [Rx(code)] + [x, y])
         == Told(h) + (if x.Tell? && x.event.Answer? then [x.event.code] else [])
          + if y.Tell? && y.event.Answer? then [y.event.code] else []
  {
    OneAct(h, code, x);
    var g := h + [Rx(code)] + [x];
    assert h + [Rx(code)] + [x, y] == g + [y];
    ReceivedSnoc(g, y);
    ToldSnoc(g, y);
  }

  lemma StateSnoc(codes: seq<nat>, code: nat)
    ensures StateOf(codes) in {Calling, Proceeding} <==> Final(codes) == None
    ensures StateOf(codes + [code]) ==
      if Final(codes).Some? then StateOf(codes)
      else if code < 200 then Proceeding else if code < 300 then Accepted else Completed
    ensures Final(codes).Some? ==> (StateOf(codes) == Accepted <==> Final(codes).value < 300)
  {
    CodesSnoc(codes, code);
  }

  lemma ProvisionalExact(t: Ict, code: nat)
    requires Exact(t) && t.listed && code < 200
    ensures Exact(OnProvisional(Log(t, Rx(code)), code))
  {
    hide Heeded, Told, Received, ToTell, Final, StateOf, Exact;
    var h, u := t.hist, OnProvisional(Log(t, Rx(code)), code);
    var g := h + [Rx(code)];
    ReceivedSnoc(h, Rx(code));
    ToldSnoc(h, Rx(code));
    OneAct(h, code, Tell(Answer(code)));
    OneAct(h, code, TxCancel);
    TwoActs(h, code, Tell(Answer(code)), TxCancel);
    ExactState(t, code);
    var tells, cancels := t.state in {Calling, Proceeding} && code != 100, t.state == Calling && t.cancel.Some?;
    var tail := if tells && cancels then [Tell(Answer(code)), TxCancel]
                else if tells then [Tell(Answer(code))]
                else if cancels then [TxCancel]
                else [];
    assert g + [] == g && g + [Tell(Answer(code))] + [TxCancel] == g + [Tell(Answer(code)), TxCancel];
    assert u.hist == g + tail;
    ResponseExact(t, u, code, tail);
  }

  lemma ExactState(t: Ict, code: nat)
    requires Exact(t) && t.listed
    ensures t.state in {Calling, Proceeding} <==> Final(Received(t.hist)) == None
    ensures t.state in {Calling, Proceeding, Accepted, Completed}
    ensures t.state in {Calling, Proceeding} ==>
      StateOf(Received(t.hist) + [code]) == if code < 200 then Proceeding else if code < 300 then Accepted else Completed
    ensures t.state in {Accepted, Completed} ==> StateOf(Received(t.hist) + [code]) == t.state
    ensures t.state == Accepted <==> Final(Received(t.hist)).Some? && Final(Received(t.hist)).value < 300
  {
    hide Heeded, Told, Received, ToTell;
    StateSnoc(Received(t.hist), code);
  }

  lemma SuccessExact(t: Ict, code: nat)
    requires Exact(t) && t.listed && 200 <= code < 300
    ensures Exact(OnSuccess(Log(t, Rx(code)), code))
  {
    hide Heeded, Told, Received, ToTell, Final, StateOf, Exact;
    var h, u := t.hist, OnSuccess(Log(t, Rx(code)), code);
    var g := h + [Rx(code)];
    ReceivedSnoc(h, Rx(code));
    ToldSnoc(h, Rx(code));
    OneAct(h, code, Tell(Answer(code)));
    ExactState(t, code);
    assert g + [] == g;
    ResponseExact(t, u, code, if t.state == Completed then [] else [Tell(Answer(code))]);
  }

  lemma RefusalExact(t: Ict, code: nat, toTag: Option<string>)
    requires Exact(t) && t.listed && code >= 300
    ensures Exact(OnRefusal(Log(t, Rx(code)), code, toTag))
  {
    hide Heeded, Told, Received, ToTell, Final, StateOf, Exact, AckText, OnRefusal;
    var h, u := t.hist, OnRefusal(Log(t, Rx(code)), code, toTag);
    var g := h + [Rx(code)];
    var ack := TxAck(if t.ack.Some? then t.ack.value else AckText(t.request, t.topVia, toTag));
    var tail := if t.state in {Calling, Proceeding} then [ack, Tell(Answer(code))]
                else if t.state == Completed then [ack] else [];
    RefusalActs(t, code, toTag, ack);
    assert u.hist == g + tail;
    ReceivedSnoc(h, Rx(code));
    ToldSnoc(h, Rx(code));
    OneAct(h, code, ack);
    TwoActs(h, code, ack, Tell(Answer(code)));
    ExactState(t, code);
    assert g + [] == g;
    ResponseExact(t, u, code, tail);
  }

  lemma RefusalActs(t: Ict, code: nat, toTag: Option<string>, ack: Act)
    requires ack == TxAck(if t.ack.Some? then t.ack.value else AckText(t.request, t.topVia, toTag))
    ensures OnRefusal(Log(t, Rx(code)), code, toTag).hist == t.hist + [Rx(code)] +
      if t.state in {Calling, Proceeding} then [ack, Tell(Answer(code))] else if t.state == Completed then [ack] else []
    ensures var u := OnRefusal(Log(t, Rx(code)), code, toTag);
      && u.cancelSent == t.cancelSent
      && (u.listed ==> t.listed && u.state == if t.state in {Calling, Proceeding} then Completed else t.state)
  {
    hide AckText;
    var g := t.hist + [Rx(code)];
    assert g + [] == g && g + [ack] + [Tell(Answer(code))] == g + [ack, Tell(Answer(code))];
  }

  lemma CancelExact(t: Ict, reasons: seq<string>)
    requires Exact(t)
    ensures Exact(DoCancel(t, reasons))
  {
    hide Exact, CancelText;
    var u := DoCancel(t, reasons);
    if u.hist == t.hist { QuietExact(t, u); } else { SilentExact(t, u, TxCancel); }
  }

  lemma FiredExact(t: Ict, x: Timer)
    requires Exact(t) && Due(t, x).Some?
    ensures Exact(Fired(t, x))
  {
    hide Exact, DoCancel;
    var u := Fired(t, x);
    match x
    case A => SilentExact(t, u, TxInviteAgain);
    case B => SilentExact(t, u, Tell(ClientTimeout));
    case C =>
      var v := t.(a := None, b := None, c := None);
      QuietExact(t, v);
      CancelExact(v, []);
      SilentExact(DoCancel(v, []), u, Tell(InviteTimeout));
    case E => SilentExact(t, u, TxCancelAgain);
    case _ => QuietExact(t, u);
  }

  lemma StepExact(t: Ict, e: Event)
    requires Exact(t)
    ensures Exact(Step(t, e))
  {
    hide Exact, DoCancel, OnProvisional, OnRefusal, OnSuccess, Fired;
    match e
    case Response(dt, code, toTag) =>
      var t' := t.(now := t.now + dt);
      QuietExact(t, t');
      if t.listed {
        if code < 200 { ProvisionalExact(t', code); }
        else if code >= 300 { RefusalExact(t', code, toTag); }
        else { SuccessExact(t', code); }
      }
    case CancelResponse(dt) => QuietExact(t, Step(t, e));
    case Cancel(dt, reasons) =>
      QuietExact(t, t.(now := t.now + dt));
      CancelExact(t.(now := t.now + dt), reasons);
    case Down(dt, tls) =>
      var t', u := t.(now := t.now + dt), Step(t, e);
      QuietExact(t, t');
      if t.state == Calling || t.cancel.None? {
        SilentExact(t', u, Tell(if tls then TlsFailed else ConnectionFailed));
      }
    case Fire(x) =>
      if Due(t, x).Some? {
        QuietExact(t, t.(now := Due(t, x).value));
        FiredExact(t.(now := Due(t, x).value), x);
      }
  }

  lemma {:induction false} RunExact(t: Ict, es: seq<Event>)
    requires Exact(t)
    ensures Exact(Run(t, es))
    decreases |es|
  {
    if es != [] {
      hide Exact, Step;
      StepExact(t, es[0]);
      RunExact(Step(t, es[0]), es[1..]);
    }
  }

  lemma StartExact(udp: bool, conf: Conf, request: Request, topVia: string, now: nat)
    ensures Exact(Started(udp, conf, request, topVia, now))
  {
    ReceivedSnoc([], TxInvite);
    ToldSnoc([], TxInvite);
    assert [] + [TxInvite] == [TxInvite];
  }

  /** Over every run, on the history alone: a provisional response other than 100 before any final one, and a 2xx
      before any 3xx-6xx, are handed to the core at once; a 3xx-6xx that is the first final response is
      acknowledged and then handed to the core; so what the core is told is decided by the codes received. As long
      as the table lists the transaction, its state is decided by them too, and in Proceeding a CANCEL that was
      built has been transmitted. */
  lemma EveryResponseHeeded(udp: bool, conf: Conf, request: Request, topVia: string, now: nat, es: seq<Event>)
    ensures var t := Run(Started(udp, conf, request, topVia, now), es);
      && Heeded(t.hist)
      && Told(t.hist) == ToTell(Received(t.hist))
      && (t.listed ==> t.state == StateOf(Received(t.hist)))
      && (t.state == Proceeding && t.cancel.Some? ==> TxCancel in t.hist)
  {
    hide Step, Heeded, Told, Received, ToTell, StateOf;
    var t0 := Started(udp, conf, request, topVia, now);
    StartExact(udp, conf, request, topVia, now);
    RunExact(t0, es);
    StartTraced(udp, conf, request, topVia, now);
    RunTraced(t0, es);
  }

  // ---- How long a state lasts ----

  /** When the state reached was entered. */
  function Entered(t: Ict, es: seq<Event>, since: nat): nat
    decreases |es|
  {
    if es == [] then since
    else var u := Step(t, es[0]); Entered(u, es[1..], if u.state == t.state then since else u.now)
  }

  /** The timers of a listed transaction, each with the moment it is due; timer C may have fired already. */
  predicate Timed(t: Ict, since: nat) {
    && since <= t.now && t.born <= t.now
    && (t.c.Some? || t.born + t.conf.timerC <= t.now || t.state in {Completed, Accepted})
    && (t.c.Some? ==> t.c == Some(t.born + t.conf.timerC))
    && match t.state
       case Calling =>
         && since == t.born && t.d == None && t.m == None
         && (if t.c.Some? then t.b == Some(since + t.conf.timerB) && (t.a.Some? <==> t.udp) else t.a == None && t.b == None)
       case Proceeding => t.a == None && t.b == None && t.d == None && t.m == None
       case Completed =>
         t.udp && t.a == None && t.b == None && t.c == None && t.d == Some(since + TIMER_D_UDP) && t.m == None
       case Accepted => t.a == None && t.b == None && t.c == None && t.d == None && t.m == Some(since + TIMER_M)
       case Terminated => true
  }

  /** What takes a listed transaction out of the table. */
  predicate Ends(t: Ict, e: Event) {
    match e
    case Response(_, code, _) => code >= 300 && t.state in {Calling, Proceeding} && !t.udp
    case CancelResponse(_) => false
    case Cancel(_, _) => false
    case Down(_, _) => t.state == Calling || t.cancel.None?
    case Fire(x) => x in {B, D, M, F, Linger}
  }

  predicate TimedWhileListed(t: Ict, since: nat) {
    (t.listed <==> t.state != State.Terminated) && (t.listed ==> Timed(t, since))
  }

  /** The transaction t after an event that takes it on, or out of the table. */
  predicate Followed(t: Ict, u: Ict, since: nat, ends: bool) {
    && TimedWhileListed(u, if u.state == t.state then since else u.now)
    && (u.listed <==> !ends)
  }

  lemma ResponseTimed(t: Ict, code: nat, toTag: Option<string>, since: nat)
    requires t.listed && TimedWhileListed(t, since)
    ensures Followed(t, OnResponse(t, code, toTag), since, code >= 300 && t.state in {Calling, Proceeding} && !t.udp)
  {
    hide OnProvisional, OnRefusal, OnSuccess, TimedWhileListed;
    LoggedTimed(t, Rx(code), since);
    var u := Log(t, Rx(code));
    if code < 200 { ProvisionalTimed(u, code, since); }
    else if code >= 300 { RefusalTimed(u, code, toTag, since); }
    else { SuccessTimed(u, code, since); }
  }

  lemma LoggedTimed(t: Ict, x: Act, since: nat)
    requires TimedWhileListed(t, since)
    ensures TimedWhileListed(Log(t, x), since)
  {}

  lemma ProvisionalTimed(t: Ict, code: nat, since: nat)
    requires t.listed && TimedWhileListed(t, since) && code < 200
    ensures Followed(t, OnProvisional(t, code), since, false)
  {
    if t.state == Calling {
      hide *;
      FirstTimed(t, code, since);
    } else {
      hide SendCancel;
    }
  }

  lemma FirstTimed(t: Ict, code: nat, since: nat)
    requires t.listed && TimedWhileListed(t, since) && t.state == Calling && code < 200
    ensures Followed(t, OnProvisional(t, code), since, false)
  {
    hide TimedWhileListed, SendCancel;
    var u := t.(state := Proceeding, a := None, b := None);
    ProceedingTimed(t, since);
    LoggedTimed(u, Tell(Answer(code)), u.now);
    var v := TellAnswer(u, code);
    SendCancelTimed(v, u.now);
  }

  lemma ProceedingTimed(t: Ict, since: nat)
    requires t.listed && TimedWhileListed(t, since) && t.state == Calling
    ensures TimedWhileListed(t.(state := Proceeding, a := None, b := None), t.now)
  {}

  lemma SendCancelTimed(t: Ict, since: nat)
    requires TimedWhileListed(t, since)
    ensures var u := SendCancel(t);
      TimedWhileListed(u, since) && u.state == t.state && u.now == t.now && u.listed == t.listed
  {}

  lemma SuccessTimed(t: Ict, code: nat, since: nat)
    requires t.listed && TimedWhileListed(t, since)
    ensures Followed(t, OnSuccess(t, code), since, false)
  {}

  lemma RefusalTimed(t: Ict, code: nat, toTag: Option<string>, since: nat)
    requires t.listed && TimedWhileListed(t, since)
    ensures Followed(t, OnRefusal(t, code, toTag), since, t.state in {Calling, Proceeding} && !t.udp)
  {
    hide TimedWhileListed, SendAck;
    if t.state in {Calling, Proceeding} {
      var u := Complete(t);
      CompleteTimed(t, since);
      AckTimed(u, toTag, u.now);
      LoggedTimed(SendAck(u, toTag), Tell(Answer(code)), u.now);
    } else {
      AckTimed(t, toTag, since);
    }
  }

  lemma CompleteTimed(t: Ict, since: nat)
    requires t.listed && TimedWhileListed(t, since) && t.state in {Calling, Proceeding}
    ensures TimedWhileListed(Complete(t), t.now)
  {}

  lemma AckTimed(t: Ict, toTag: Option<string>, since: nat)
    requires TimedWhileListed(t, since)
    ensures var u := SendAck(t, toTag);
      TimedWhileListed(u, since) && u.state == t.state && u.now == t.now && u.listed == t.listed
  {
    hide AckText;
  }

  lemma CancelTimed(t: Ict, reasons: seq<string>, since: nat)
    requires TimedWhileListed(t, since)
    ensures var u := DoCancel(t, reasons);
      TimedWhileListed(u, since) && u.state == t.state && u.now == t.now && u.listed == t.listed
      && u.a == t.a && u.b == t.b && u.c == t.c && u.d == t.d && u.m == t.m
  {
    hide CancelText;
  }

  lemma FiredTimed(t: Ict, x: Timer, since: nat)
    requires t.listed && TimedWhileListed(t, since) && Due(t, x) == Some(t.now)
    ensures var u := Fired(t, x);
      TimedWhileListed(u, if u.state == t.state then since else u.now) && u.now == t.now
      && (u.listed <==> x !in {B, D, M, F, Linger})
  {
    hide DoCancel;
    if x == C { hide *; TimerCTimed(t, since); }
  }

  lemma TimerCTimed(t: Ict, since: nat)
    requires t.listed && TimedWhileListed(t, since) && t.c == Some(t.now)
    ensures var u := Fired(t, C);
      TimedWhileListed(u, since) && u.now == t.now && u.state == t.state && u.listed
  {
    hide CancelText;
  }

  lemma StepTimed(t: Ict, e: Event, since: nat)
    requires t.listed && TimedWhileListed(t, since) && Clocked(t) && Enabled(t, e)
    ensures var u := Step(t, e);
      TimedWhileListed(u, if u.state == t.state then since else u.now) && (u.listed <==> !Ends(t, e))
  {
    hide OnResponse, DoCancel, Fired, TimedWhileListed;
    var now' := if e.Fire? then Due(t, e.timer).value else t.now + e.dt;
    LaterTimed(t, now', since);
    var t' := t.(now := now');
    match e
    case Response(dt, code, toTag) => ResponseTimed(t', code, toTag, since);
    case CancelResponse(dt) => CancelResponseTimed(t', since);
    case Cancel(dt, reasons) => CancelTimed(t', reasons, since);
    case Down(dt, tls) => DownTimed(t', if tls then TlsFailed else ConnectionFailed, since);
    case Fire(x) => FiredTimed(t', x, since);
  }

  lemma LaterTimed(t: Ict, now: nat, since: nat)
    requires t.listed && TimedWhileListed(t, since) && t.now <= now
    ensures TimedWhileListed(t.(now := now), since)
  {}

  lemma CancelResponseTimed(t: Ict, since: nat)
    requires t.listed && TimedWhileListed(t, since)
    ensures var u := OnCancelResponse(t); TimedWhileListed(u, since) && u.state == t.state && u.listed
  {}

  lemma DownTimed(t: Ict, event: CoreEvent, since: nat)
    requires t.listed && TimedWhileListed(t, since)
    ensures var u := OnDown(t, event);
      TimedWhileListed(u, if u.state == t.state then since else u.now)
      && (u.listed <==> !(t.state == Calling || t.cancel.None?))
  {}

  lemma StaysUnlisted(t: Ict, e: Event)
    requires !t.listed && t.state == State.Terminated
    ensures !Step(t, e).listed && Step(t, e).state == State.Terminated
  {
    hide DoCancel;
    match e
    case Cancel(dt, reasons) => CancelUnlisted(t.(now := t.now + dt), reasons);
    case Fire(x) => if x == C && t.c.Some? { CancelUnlisted(t.(now := t.c.value, a := None, b := None, c := None), []); }
    case _ =>
  }

  lemma CancelUnlisted(t: Ict, reasons: seq<string>)
    ensures DoCancel(t, reasons).listed == t.listed && DoCancel(t, reasons).state == t.state
  {
    hide CancelText;
  }

  lemma {:induction false} RunTimed(t: Ict, es: seq<Event>, since: nat)
    requires TimedWhileListed(t, since) && Clocked(t) && Legal(t, es)
    ensures TimedWhileListed(Run(t, es), Entered(t, es, since))
    ensures Run(t, es).listed ==> Clocked(Run(t, es))
    decreases |es|
  {
    if es != [] {
      hide Timed, Clocked, Enabled, Step;
      var u := Step(t, es[0]);
      if t.listed {
        StepTimed(t, es[0], since);
        StepClocked(t, es[0]);
      } else {
        StaysUnlisted(t, es[0]);
        UnlistedClocked(u);
      }
      RunTimed(u, es[1..], if u.state == t.state then since else u.now);
    }
  }

  lemma UnlistedClocked(t: Ict)
    requires !t.listed && t.state == State.Terminated
    ensures Clocked(t)
  {}

  /** How long every state lasts, over all runs: Calling until exactly timer_B after the start, with timer A running
      over UDP alone; Completed, only over UDP, and Accepted exactly 32 s. A transaction leaves the table when
      one of these timers fires, when its CANCEL is done with, on a refusal over a reliable transport, or when its
      connection fails before it is answered or canceled, and never otherwise. */
  lemma StatesLast(udp: bool, conf: Conf, request: Request, topVia: string, now: nat, es: seq<Event>, e: Event)
    requires var t0 := Started(udp, conf, request, topVia, now);
      Legal(t0, es) && Run(t0, es).listed && Enabled(Run(t0, es), e)
    ensures var t0 := Started(udp, conf, request, topVia, now); var t := Run(t0, es);
      && Timed(t, Entered(t0, es, now))
      && (Step(t, e).listed <==> !Ends(t, e))
  {
    hide Step, Timed, Enabled, Clocked, Run;
    var t0 := Started(udp, conf, request, topVia, now);
    StartTimed(udp, conf, request, topVia, now);
    RunTimed(t0, es, now);
    StepTimed(Run(t0, es), e, Entered(t0, es, now));
  }

  lemma StartTimed(udp: bool, conf: Conf, request: Request, topVia: string, now: nat)
    ensures var t0 := Started(udp, conf, request, topVia, now); TimedWhileListed(t0, now) && Clocked(t0)
  {}

  // ---- Other events ----

  /** What an event other than a response adds to the history. */
  function Acts(t: Ict, e: Event): seq<Act> {
    var cancels := if t.state == Proceeding && t.cancel.None? then [TxCancel] else [];
    match e
    case Response(_, _, _) => []
    case CancelResponse(_) => []
    case Cancel(_, _) => cancels
    case Down(_, tls) =>
      if t.state == Calling || t.cancel.None? then [Tell(if tls then TlsFailed else ConnectionFailed)] else []
    case Fire(x) =>
      match x
      case A => [TxInviteAgain]
      case B => [Tell(ClientTimeout)]
      case C => cancels + [Tell(InviteTimeout)]
      case E => [TxCancelAgain]
      case _ => []
  }

  /** So a CANCEL asked for by the core or by timer C goes out at once in Proceeding, and is remembered otherwise. */
  lemma EventActs(t: Ict, e: Event)
    requires !e.Response? && (e.Fire? ==> Due(t, e.timer).Some?)
    ensures Step(t, e).hist == t.hist + Acts(t, e)
    ensures e.Cancel? || e == Fire(C) ==> Step(t, e).cancel.Some?
    ensures !e.Cancel? && e != Fire(C) ==> Step(t, e).cancel == t.cancel
  {
    hide DoCancel, Fired, OnDown, OnCancelResponse;
    match e
    case CancelResponse(dt) => QuietActs(t.(now := t.now + dt));
    case Cancel(dt, reasons) => CancelActs(t.(now := t.now + dt), reasons);
    case Down(dt, tls) => DownActs(t.(now := t.now + dt), if tls then TlsFailed else ConnectionFailed);
    case Fire(x) => FiredActs(t.(now := Due(t, x).value), x);
    case _ =>
  }

  lemma QuietActs(t: Ict)
    ensures var u := OnCancelResponse(t); u.hist == t.hist && u.cancel == t.cancel
  {}

  lemma DownActs(t: Ict, event: CoreEvent)
    ensures var u := OnDown(t, event);
      u.cancel == t.cancel && u.hist == t.hist + if t.state == Calling || t.cancel.None? then [Tell(event)] else []
  {}

  lemma FiredActs(t: Ict, x: Timer)
    requires Due(t, x).Some?
    ensures var u := Fired(t, x);
      u.hist == t.hist + Acts(t, Fire(x)) && if x == C then u.cancel.Some? else u.cancel == t.cancel
  {
    hide DoCancel;
    if x == C { CancelActs(t.(a := None, b := None, c := None), []); }
  }

  lemma CancelActs(t: Ict, reasons: seq<string>)
    ensures var u := DoCancel(t, reasons);
      u.cancel.Some? && u.hist == t.hist + if t.state == Proceeding && t.cancel.None? then [TxCancel] else []
  {
    hide CancelText;
  }
}

/** Non-INVITE client transactions: section 17.1.2 of RFC 3261. */
module NonInviteClient {
  import opened Wrappers
  import opened Timers
  import opened TransactionTable

  datatype State = Trying | Proceeding | Completed | Terminated

  datatype CoreEvent = Answer(code: nat) | ClientTimeout | ConnectionFailed | TlsFailed

  datatype Act = TxRequest | TxRequestAgain | Tell(event: CoreEvent)

  datatype Nict = Nict(state: State, udp: bool, timerF: nat, born: nat, now: nat,
                       e: Option<Periodic>, f: Option<nat>, k: Option<nat>, hist: seq<Act>, listed: bool)

  function Log(t: Nict, x: Act): Nict { t.(hist := t.hist + [x]) }

  function Terminate(t: Nict): Nict { t.(state := State.Terminated, listed := false) }

  function Started(udp: bool, timerF: nat, now: nat): Nict {
    Nict(Trying, udp, timerF, now, now, if udp then Some(Periodic(now + TIMER_E, TIMER_E)) else None,
         Some(now + timerF), None, [TxRequest], true)
  }

  function OnResponse(t: Nict, code: nat): Nict {
    if t.state != Trying && t.state != Proceeding then t
    else if code < 200 then
      var t' := t.(state := Proceeding);
      if code == 100 then t' else Log(t', Tell(Answer(code)))
    else Log(Complete(t), Tell(Answer(code)))
  }

  function Complete(t: Nict): Nict {
    var t' := t.(state := Completed, e := None, f := None);
    if t.udp then t'.(k := Some(t.now + TIMER_K_UDP)) else Terminate(t')
  }

  function OnDown(t: Nict, event: CoreEvent): Nict {
    Log(Terminate(t.(e := None, f := None)), Tell(event))
  }

  datatype Timer = E | F | K

  function Due(t: Nict, x: Timer): Option<nat> {
    match x
    case E => if t.e.Some? then Some(t.e.value.due) else None
    case F => t.f
    case K => t.k
  }

  function Fired(t: Nict, x: Timer): Nict
    requires Due(t, x).Some?
  {
    match x
    case E =>
      var p := t.e.value;
      Log(t, TxRequestAgain).(e := Some(if t.state == Trying then Doubled(p) else Periodic(p.due + T2, T2)))
    case F => Log(Terminate(t.(e := None, f := None)), Tell(ClientTimeout))
    case K => Terminate(t.(k := None))
  }

  datatype Event = Response(dt: nat, code: nat) | Down(dt: nat, tls: bool) | Fire(timer: Timer)

  predicate InTime(t: Nict, now: nat) { NotLateP(t.e, now) && NotLate(t.f, now) && NotLate(t.k, now) }

  predicate Enabled(t: Nict, ev: Event) {
    match ev
    case Fire(x) => Due(t, x).Some? && InTime(t, Due(t, x).value)
    case _ => InTime(t, t.now + ev.dt)
  }

  function Step(t: Nict, ev: Event): Nict {
    match ev
    case Response(dt, code) => var t' := t.(now := t.now + dt); if t.listed then OnResponse(t', code) else t'
    case Down(dt, tls) => OnDown(t.(now := t.now + dt), if tls then TlsFailed else ConnectionFailed)
    case Fire(x) => if Due(t, x).None? then t else Fired(t.(now := Due(t, x).value), x)
  }

  predicate Legal(t: Nict, es: seq<Event>)
    decreases |es|
  {
    es == [] || (Enabled(t, es[0]) && Legal(Step(t, es[0]), es[1..]))
  }

  function Run(t: Nict, es: seq<Event>): Nict
    decreases |es|
  {
    if es == [] then t else Run(Step(t, es[0]), es[1..])
  }

  // ---- Lifetime, retransmissions, and what the core is told ----

  /** Responses told to the core: 1xx other than 100, then at most one final response. */
  predicate Told(h: seq<Act>, final: bool) {
    && (forall i :: 0 <= i < |h| && IsAnswer(h[i]) ==> h[i].event.code != 100)
    && (forall i, j :: 0 <= i < j < |h| && IsAnswer(h[j]) ==> !IsFinal(h[i]))
    && (!final ==> forall i :: 0 <= i < |h| ==> !IsFinal(h[i]))
  }

  predicate IsAnswer(x: Act) { x.Tell? && x.event.Answer? }
  predicate IsFinal(x: Act) { IsAnswer(x) && x.event.code >= 200 }

  predicate Sane(t: Nict) {
    && (t.listed <==> t.state != State.Terminated)
    && (t.listed ==> InTime(t, t.now))
    && (t.e.Some? ==> t.state in {Trying, Proceeding} && T1 <= t.e.value.interval <= T2)
    && (t.state in {Trying, Proceeding} ==> ArmedBy(t.f, t.born + t.timerF) && t.k == None)
    && (t.state in {Completed, State.Terminated} ==> t.f == None)
    && (t.state == Completed ==> ArmedBy(t.k, t.born + t.timerF + TIMER_K_UDP))
    && Told(t.hist, t.state in {Completed, State.Terminated})
  }

  lemma ToldSnoc(h: seq<Act>, x: Act, final: bool)
    requires Told(h, final)
    ensures !IsAnswer(x) ==> Told(h + [x], final)
    ensures IsAnswer(x) && !final && x.event.code != 100 ==> Told(h + [x], x.event.code >= 200)
    ensures Told(h, true)
  {}

  lemma StepSane(t: Nict, ev: Event)
    requires Sane(t) && (t.listed ==> Enabled(t, ev))
    ensures Sane(Step(t, ev)) && Step(t, ev).born == t.born && Step(t, ev).timerF == t.timerF
    ensures t.state == State.Terminated ==> Step(t, ev).state == State.Terminated
  {
    hide Told;
    ToldSnoc(t.hist, TxRequestAgain, t.state in {Completed, State.Terminated});
    match ev
    case Response(dt, code) =>
      if t.state in {Trying, Proceeding} { ToldSnoc(t.hist, Tell(Answer(code)), false); }
    case Down(dt, tls) =>
      ToldSnoc(t.hist, Tell(if tls then TlsFailed else ConnectionFailed), true);
    case Fire(x) =>
      ToldSnoc(t.hist, Tell(ClientTimeout), true);
  }

  lemma {:induction false} RunSane(t: Nict, es: seq<Event>)
    requires Sane(t) && Legal(t, es)
    ensures Sane(Run(t, es)) && Run(t, es).born == t.born && Run(t, es).timerF == t.timerF
    ensures t.state == State.Terminated ==> Run(t, es).state == State.Terminated
    decreases |es|
  {
    if es != [] {
      hide Sane, Step;
      StepSane(t, es[0]);
      RunSane(Step(t, es[0]), es[1..]);
    }
  }

  /** In every run the transaction is in its table exactly while it is not terminated, has left it
      timer_F + 5 s after its start, does not retransmit once terminated, and tells its core 1xx
      responses other than 100 and at most one final response after them. */
  lemma LeavesTableInTime(udp: bool, timerF: nat, now: nat, es: seq<Event>)
    requires Legal(Started(udp, timerF, now), es)
    ensures var t := Run(Started(udp, timerF, now), es);
      && (t.listed <==> t.state != State.Terminated)
      && (t.listed ==> exists x :: x != E && ArmedBy(Due(t, x), now + timerF + TIMER_K_UDP))
      && (t.now > now + timerF + TIMER_K_UDP ==> !t.listed)
      && (t.state in {Completed, State.Terminated} ==> t.e == None)
      && Told(t.hist, true)
    ensures TIMER_K_UDP == 5000
  {
    RunSane(Started(udp, timerF, now), es);
    var t := Run(Started(udp, timerF, now), es);
    if t.listed {
      var x := if t.state == Completed then K else F;
      assert x != E && ArmedBy(Due(t, x), now + timerF + TIMER_K_UDP);
    }
  }

  lemma TerminatedIsFinal(udp: bool, timerF: nat, now: nat, es: seq<Event>, more: seq<Event>)
    requires Legal(Started(udp, timerF, now), es)
    requires var t := Run(Started(udp, timerF, now), es); t.state == State.Terminated && Legal(t, more)
    ensures var u := Run(Run(Started(udp, timerF, now), es), more); u.state == State.Terminated && u.e == None
  {
    RunSane(Started(udp, timerF, now), es);
    RunSane(Run(Started(udp, timerF, now), es), more);
  }

  // ---- The object ----

  class NonInviteClientTransaction {
    const id: string
    const udp: bool
    const confF: nat
    const born: nat
    const table: Table
    var state: State
    var timerE: Option<Periodic>
    var timerF: Option<nat>
    var timerK: Option<nat>
    var hist: seq<Act>

    ghost function View(now: nat): Nict
      reads this, table
    {
      Nict(state, udp, confF, born, now, timerE, timerF, timerK, hist, id in table.live)
    }

    constructor (id: string, udp: bool, confF: nat, now: nat, table: Table)
      modifies table
      ensures View(now) == Started(udp, confF, now)
      ensures this.id == id && this.table == table && table.live == old(table.live) + {id}
    {
      this.id, this.udp, this.confF, this.born, this.table := id, udp, confF, now, table;
      state := Trying;
      timerE := if udp then Some(Periodic(now + TIMER_E, TIMER_E)) else None;
      timerF, timerK, hist := Some(now + confF), None, [TxRequest];
      new;
      table.live := table.live + {id};
    }

    method TerminateTransaction()
      modifies this`state, table
      ensures state == State.Terminated && table.live == old(table.live) - {id}
    {
      state := State.Terminated;
      table.live := table.live - {id};
    }

    method ReceiveResponse(code: nat, now: nat)
      modifies this, table
      ensures View(now) == OnResponse(old(View(now)), code)
      ensures table.live - {id} == old(table.live) - {id}
    {
      if code < 200 {
        if state == Trying || state == Proceeding {
          state := Proceeding;
          if code != 100 {
            hist := hist + [Tell(Answer(code))];
          }
        }
      } else if state == Trying || state == Proceeding {
        state := Completed;
        timerF := None;
        timerE := None;
        if udp {
          timerK := Some(now + TIMER_K_UDP);
        } else {
          TerminateTransaction();
        }
        hist := hist + [Tell(Answer(code))];
      }
    }

    method ConnectionDown(event: CoreEvent, now: nat)
      modifies this, table
      ensures View(now) == OnDown(old(View(now)), event)
      ensures table.live - {id} == old(table.live) - {id}
    {
      timerF := None;
      timerE := None;
      TerminateTransaction();
      hist := hist + [Tell(event)];
    }

    method TimerFires(x: Timer, now: nat)
      requires Due(View(now), x).Some?
      modifies this, table
      ensures View(now) == Fired(old(View(now)), x)
      ensures table.live - {id} == old(table.live) - {id}
    {
      match x
      case E =>
        hist := hist + [TxRequestAgain];
        if state == Trying {
          timerE := Some(Doubled(timerE.value));
        } else {
          timerE := Some(Periodic(timerE.value.due + T2, T2));
        }
      case F =>
        timerF := None;
        timerE := None;
        TerminateTransaction();
        hist := hist + [Tell(ClientTimeout)];
      case K =>
        timerK := None;
        TerminateTransaction();
    }
  }
}

/** Non-INVITE server transactions: section 17.2.2 of RFC 3261 with the timers of RFC 4320. */
module NonInviteServer {
  import opened Wrappers
  import opened Timers
  import opened TransactionTable

  datatype State = Trying | Proceeding | Completed | Terminated

  datatype Upstream = New(code: nat, text: string) | Again(text: string)

  datatype Nist = Nist(state: State, udp: bool, born: nat, now: nat,
                       int1: Option<nat>, int2: Option<nat>, j: Option<nat>,
                       last: Option<string>, sent: seq<Upstream>, listed: bool)

  function Terminate(t: Nist): Nist { t.(state := State.Terminated, listed := false) }

  function Gate(t: Nist, code: nat): (Nist, bool) {
    if t.state == Completed || t.state == State.Terminated then (t, false)
    else if code < 200 then (t.(state := Proceeding), true)
    else
      var t' := t.(state := Completed, int1 := None, int2 := None);
      (if t.udp then t'.(j := Some(t.now + TIMER_J_UDP)) else Terminate(t'), true)
  }

  function Reply(t: Nist, code: nat, text: string): Nist {
    var (t', ok) := Gate(t, code);
    if ok then t'.(last := Some(text), sent := t'.sent + [New(code, text)]) else t'
  }

  function Retransmit(t: Nist): Nist {
    if t.last.Some? then t.(sent := t.sent + [Again(t.last.value)]) else t
  }

  function Created(udp: bool, now: nat): Nist {
    Nist(Trying, udp, now, now, Some(now + INT1), None, None, None, [], true)
  }

  const ALIVE := "I'm alive"

  datatype Timer = T_INT1 | T_INT2 | T_J

  function Due(t: Nist, x: Timer): Option<nat> {
    match x case T_INT1 => t.int1 case T_INT2 => t.int2 case T_J => t.j
  }

  /** INT1 answers 100 if nothing was answered yet, and hands over to INT2. */
  function Fired(t: Nist, x: Timer): Nist {
    match x
    case T_INT1 =>
      var t1 := t.(int1 := None);
      var t2 := if t1.last.None? then Reply(t1, 100, ALIVE) else t1;
      t2.(int2 := Some(t.now + INT2))
    case T_INT2 => Terminate(t.(int2 := None))
    case T_J => Terminate(t.(j := None))
  }

  datatype Event = Respond(dt: nat, code: nat, text: string) | RequestIn(dt: nat) | Fire(timer: Timer)

  predicate InTime(t: Nist, now: nat) { NotLate(t.int1, now) && NotLate(t.int2, now) && NotLate(t.j, now) }

  predicate Enabled(t: Nist, e: Event) {
    match e
    case Fire(x) => Due(t, x).Some? && InTime(t, Due(t, x).value)
    case _ => InTime(t, t.now + e.dt)
  }

  function Step(t: Nist, e: Event): Nist {
    match e
    case Respond(dt, code, text) => Reply(t.(now := t.now + dt), code, text)
    case RequestIn(dt) => if t.listed then Retransmit(t.(now := t.now + dt)) else t.(now := t.now + dt)
    case Fire(x) => if Due(t, x).None? then t else Fired(t.(now := Due(t, x).value), x)
  }

  predicate Legal(t: Nist, es: seq<Event>)
    decreases |es|
  {
    es == [] || (Enabled(t, es[0]) && Legal(Step(t, es[0]), es[1..]))
  }

  function Run(t: Nist, es: seq<Event>): Nist
    decreases |es|
  {
    if es == [] then t else Run(Step(t, es[0]), es[1..])
  }

  // ---- Lifetime, and what the upstream element sees ----

  const LIFETIME: nat := INT1 + INT2 + TIMER_J_UDP

  /** In Trying and Proceeding exactly one of INT1 and INT2 runs; in Completed exactly J. */
  predicate Timely(t: Nist) {
    && InTime(t, t.now)
    && (t.listed <==> t.state != State.Terminated)
    && (match t.state
        case Trying => ArmedBy(t.int1, t.born + INT1) && t.int2 == None && t.j == None
        case Proceeding =>
          && t.j == None
          && ((ArmedBy(t.int1, t.born + INT1) && t.int2 == None) || (t.int1 == None && ArmedBy(t.int2, t.born + INT1 + INT2)))
        case Completed => t.int1 == None && t.int2 == None && ArmedBy(t.j, t.born + LIFETIME)
        case Terminated => t.int1 == None && t.int2 == None && t.j == None)
  }

  predicate IsFinal(u: Upstream) { u.New? && u.code >= 200 }

  /** At most one final response, after which only its repetitions follow. */
  predicate OneFinal(sent: seq<Upstream>) {
    forall i, k :: 0 <= i < k < |sent| && IsFinal(sent[i]) ==> sent[k] == Again(sent[i].text)
  }

  predicate Spoken(t: Nist) {
    && (t.state == Trying ==> t.last == None)
    && (t.state == Trying || t.state == Proceeding ==> forall k :: 0 <= k < |t.sent| ==> !IsFinal(t.sent[k]))
    && (t.state == Completed ==>
          t.last.Some? && forall k :: 0 <= k < |t.sent| && IsFinal(t.sent[k]) ==> t.sent[k].text == t.last.value)
    && OneFinal(t.sent)
  }

  lemma StepKeeps(t: Nist, e: Event)
    requires Timely(t) && Spoken(t) && Enabled(t, e)
    ensures Timely(Step(t, e)) && Step(t, e).born == t.born && t.now <= Step(t, e).now
    ensures Spoken(Step(t, e))
    ensures t.state == State.Terminated ==> Step(t, e) == t.(now := Step(t, e).now)
  {
    hide Timely, Spoken, Reply, Retransmit;
    var now' := if e.Fire? then Due(t, e.timer).value else t.now + e.dt;
    LaterKeeps(t, now');
    var t' := t.(now := now');
    match e
    case Respond(dt, code, text) => ReplyKeeps(t', code, text);
    case RequestIn(dt) => RetransmitKeeps(t');
    case Fire(x) => FiredKeeps(t', x);
  }

  lemma LaterKeeps(t: Nist, now: nat)
    requires Timely(t) && Spoken(t) && InTime(t, now)
    ensures Timely(t.(now := now)) && Spoken(t.(now := now))
    ensures forall x :: Due(t, x).Some? ==> t.now <= Due(t, x).value && t.state != State.Terminated
  {}

  lemma ReplyKeeps(t: Nist, code: nat, text: string)
    requires Timely(t) && Spoken(t)
    ensures var r := Reply(t, code, text);
      Timely(r) && Spoken(r) && r.born == t.born && r.now == t.now
    ensures t.state == State.Terminated ==> Reply(t, code, text) == t
  {
    if Gate(t, code).1 {
      assert forall k :: 0 <= k < |t.sent| ==> !IsFinal(t.sent[k]);
    }
  }

  lemma RetransmitKeeps(t: Nist)
    requires Timely(t) && Spoken(t)
    ensures t.listed ==> Timely(Retransmit(t)) && Spoken(Retransmit(t))
    ensures Retransmit(t) == t.(sent := Retransmit(t).sent) && (t.listed <==> t.state != State.Terminated)
  {}

  /** INT1 fires in Trying or Proceeding only; its own 100 keeps the transaction there. */
  lemma FiredKeeps(t: Nist, x: Timer)
    requires Timely(t) && Spoken(t) && Due(t, x).Some?
    ensures Timely(Fired(t, x)) && Spoken(Fired(t, x)) && Fired(t, x).born == t.born && Fired(t, x).now == t.now
  {
    if x == T_INT1 {
      assert t.state == Trying || t.state == Proceeding;
      assert t.now <= t.born + INT1;
    }
  }

  lemma {:induction false} RunKeeps(t: Nist, es: seq<Event>)
    requires Timely(t) && Spoken(t) && Legal(t, es)
    ensures Timely(Run(t, es)) && Spoken(Run(t, es)) && Run(t, es).born == t.born
    ensures t.state == State.Terminated ==> Run(t, es) == t.(now := Run(t, es).now)
    decreases |es|
  {
    if es != [] {
      StepKeeps(t, es[0]);
      RunKeeps(Step(t, es[0]), es[1..]);
    }
  }

  /** In every run the transaction is listed exactly while it is not terminated, and is gone 64 s after
      its creation; it sends at most one final response, and after it only that response again. */
  lemma LeavesTableInTime(udp: bool, now: nat, es: seq<Event>)
    requires Legal(Created(udp, now), es)
    ensures var t := Run(Created(udp, now), es);
      && (t.listed <==> t.state != State.Terminated)
      && (t.listed ==> exists x :: ArmedBy(Due(t, x), now + LIFETIME))
      && (t.now > now + LIFETIME ==> !t.listed)
      && OneFinal(t.sent)
    ensures LIFETIME == 64000
  {
    RunKeeps(Created(udp, now), es);
    var t := Run(Created(udp, now), es);
    if t.listed {
      var x := if t.state == Completed then T_J else if t.int1.Some? then T_INT1 else T_INT2;
      assert ArmedBy(Due(t, x), now + LIFETIME);
    }
  }

  lemma TerminatedIsFinal(udp: bool, now: nat, es: seq<Event>, more: seq<Event>)
    requires Legal(Created(udp, now), es)
    requires var t := Run(Created(udp, now), es); t.state == State.Terminated && Legal(t, more)
    ensures var t := Run(Created(udp, now), es);
      Run(t, more).state == State.Terminated && Run(t, more).sent == t.sent
  {
    RunKeeps(Created(udp, now), es);
    RunKeeps(Run(Created(udp, now), es), more);
  }

  // ---- The object ----

  class NonInviteServerTransaction {
    const id: string
    const udp: bool
    const born: nat
    const table: Table
    var state: State
    var timerINT1: Option<nat>
    var timerINT2: Option<nat>
    var timerJ: Option<nat>
    var lastResponse: Option<string>
    var sent: seq<Upstream>

    ghost function View(now: nat): Nist
      reads this, table
    {
      Nist(state, udp, born, now, timerINT1, timerINT2, timerJ, lastResponse, sent, id in table.live)
    }

    constructor (id: string, udp: bool, now: nat, table: Table)
      modifies table
      ensures this.id == id && this.table == table
      ensures View(now) == Created(udp, now) && table.live == old(table.live) + {id}
    {
      this.id, this.udp, this.born, this.table := id, udp, now, table;
      state := Trying;
      timerINT1, timerINT2, timerJ := Some(now + INT1), None, None;
      lastResponse, sent := None, [];
      new;
      table.live := table.live + {id};
    }

    method TerminateTransaction()
      modifies this`state, table
      ensures state == State.Terminated && table.live == old(table.live) - {id}
    {
      state := State.Terminated;
      table.live := table.live - {id};
    }

    method ReceiveResponse(code: nat, now: nat) returns (ok: bool)
      modifies this, table
      ensures (View(now), ok) == Gate(old(View(now)), code)
      ensures table.live - {id} == old(table.live) - {id}
    {
      if code < 200 {
        match state
        case Trying =>
          state := Proceeding;
          return true;
        case Proceeding => return true;
        case _ => return false;
      } else {
        match state
        case Completed => return false;
        case Terminated => return false;
        case _ =>
          timerINT1 := None;
          timerINT2 := None;
          state := Completed;
          if udp {
            timerJ := Some(now + TIMER_J_UDP);
          } else {
            TerminateTransaction();
          }
          return true;
      }
    }

    method RequestReply(code: nat, text: string, now: nat)
      modifies this, table
      ensures View(now) == Reply(old(View(now)), code, text)
      ensures table.live - {id} == old(table.live) - {id}
    {
      var ok := ReceiveResponse(code, now);
      if !ok {
        return;
      }
      lastResponse := Some(text);
      sent := sent + [New(code, text)];
    }

    method RetransmitLastResponse(now: nat)
      modifies this
      ensures View(now) == Retransmit(old(View(now)))
    {
      if lastResponse.Some? {
        sent := sent + [Again(lastResponse.value)];
      }
    }

    method TimerFires(x: Timer, now: nat)
      requires Due(View(now), x).Some?
      modifies this, table
      ensures View(now) == Fired(old(View(now)), x)
      ensures table.live - {id} == old(table.live) - {id}
    {
      match x
      case T_INT1 =>
        timerINT1 := None;
        if lastResponse.None? {
          RequestReply(100, ALIVE, now);
        }
        timerINT2 := Some(now + INT2);
      case T_INT2 =>
        timerINT2 := None;
        TerminateTransaction();
      case T_J =>
        timerJ := None;
        TerminateTransaction();
    }
  }
}

/** INVITE server transactions: section 17.2.1 of RFC 3261 with the changes of RFC 6026. */
module InviteServer {
  import opened Wrappers
  import opened Timers
  import opened TransactionTable
  import opened ResponseCodes

  datatype State = Proceeding | Completed | Confirmed | Accepted | Terminated

  /** What goes upstream: a response that passed the transaction, or the last one once more. */
  datatype Upstream = New(code: nat, text: string) | Again(text: string)

  /** listed says whether the class table holds the transaction. */
  datatype Ist = Ist(state: State, udp: bool, born: nat, now: nat,
                     c2: Option<nat>, g: Option<Periodic>, h: Option<nat>, i: Option<nat>, l: Option<nat>,
                     last: Option<string>, sent: seq<Upstream>, listed: bool)

  // ---- One step ----

  function Terminate(t: Ist): Ist { t.(state := State.Terminated, listed := false) }

  /** `receive_response`: the gate every new response has to pass. */
  function Gate(t: Ist, code: nat): (Ist, bool) {
    if code < 200 then
      (t, t.state == Proceeding)
    else if code < 300 then
      if t.state == Proceeding then (t.(state := Accepted, c2 := None, l := Some(t.now + TIMER_L)), true)
      else (t, t.state == Accepted)
    else if t.state == Proceeding then
      (t.(state := Completed, c2 := None, h := Some(t.now + TIMER_H),
          g := if t.udp then Some(Periodic(t.now + TIMER_G, TIMER_G)) else t.g), true)
    else (t, false)
  }

  /** `Request#reply` and `#reply_full`. */
  function Reply(t: Ist, code: nat, text: string): Ist {
    var (t', ok) := Gate(t, code);
    if ok then t'.(last := Some(text), sent := t'.sent + [New(code, text)]) else t'
  }

  function Retransmit(t: Ist): Ist {
    if t.last.Some? then t.(sent := t.sent + [Again(t.last.value)]) else t
  }

  function Ack(t: Ist): Ist {
    if t.state == Completed then
      var t' := t.(state := Confirmed, g := None, h := None);
      if t.udp then t'.(i := Some(t.now + TIMER_I_UDP)) else Terminate(t')
    else t
  }

  /** The transaction as `initialize` leaves it: listed, timer C2 running, 100 sent. */
  function Created(udp: bool, now: nat, trying: string): Ist {
    Reply(Ist(Proceeding, udp, now, now, Some(now + TIMER_C2), None, None, None, None, None, [], true), 100, trying)
  }

  datatype Timer = C2 | G | H | I | L

  function FireG(t: Ist): Ist
    requires t.g.Some?
  {
    Retransmit(t).(g := Some(Doubled(t.g.value)))
  }

  function FireC2(t: Ist): Ist { Terminate(t.(c2 := None)) }
  function FireH(t: Ist): Ist { Terminate(t.(h := None)).(g := None) }
  function FireI(t: Ist): Ist { Terminate(t.(i := None)) }
  function FireL(t: Ist): Ist { Terminate(t.(l := None)) }

  // ---- Runs ----

  /** The transaction user replies, an ACK or the INVITE again arrives dt after the last event, or a timer fires. */
  datatype Event = Respond(dt: nat, code: nat, text: string) | AckIn(dt: nat) | InviteIn(dt: nat) | Fire(timer: Timer)

  function Due(t: Ist, x: Timer): Option<nat> {
    match x
    case C2 => t.c2
    case G => if t.g.Some? then Some(t.g.value.due) else None
    case H => t.h
    case I => t.i
    case L => t.l
  }

  predicate InTime(t: Ist, now: nat) {
    && NotLate(t.c2, now) && NotLateP(t.g, now) && NotLate(t.h, now) && NotLate(t.i, now) && NotLate(t.l, now)
  }

  predicate Enabled(t: Ist, e: Event) {
    match e
    case Fire(x) => Due(t, x).Some? && InTime(t, Due(t, x).value)
    case _ => InTime(t, t.now + e.dt)
  }

  function Step(t: Ist, e: Event): Ist {
    match e
    case Respond(dt, code, text) => Reply(t.(now := t.now + dt), code, text)
    case AckIn(dt) => if t.listed then Ack(t.(now := t.now + dt)) else t.(now := t.now + dt)
    case InviteIn(dt) => if t.listed then Retransmit(t.(now := t.now + dt)) else t.(now := t.now + dt)
    case Fire(x) =>
      if Due(t, x).None? then t else Fired(t.(now := Due(t, x).value), x)
  }

  function Fired(t: Ist, x: Timer): Ist
    requires Due(t, x).Some?
  {
    match x
    case C2 => FireC2(t)
    case G => FireG(t)
    case H => FireH(t)
    case I => FireI(t)
    case L => FireL(t)
  }

  predicate Legal(t: Ist, es: seq<Event>)
    decreases |es|
  {
    es == [] || (Enabled(t, es[0]) && Legal(Step(t, es[0]), es[1..]))
  }

  function Run(t: Ist, es: seq<Event>): Ist
    decreases |es|
  {
    if es == [] then t else Run(Step(t, es[0]), es[1..])
  }

  // ---- Lifetime ----

  const LIFETIME: nat := TIMER_C2 + TIMER_H + TIMER_I_UDP

  /** Every live state has a timer running that ends it in time; a terminated one retransmits nothing. */
  predicate Timely(t: Ist) {
    && InTime(t, t.now)
    && (t.listed <==> t.state != State.Terminated)
    && (t.g.Some? ==> t.state == Completed)
    && (match t.state
        case Proceeding => ArmedBy(t.c2, t.born + TIMER_C2)
        case Accepted => ArmedBy(t.l, t.born + TIMER_C2 + TIMER_L)
        case Completed => ArmedBy(t.h, t.born + TIMER_C2 + TIMER_H)
        case Confirmed => ArmedBy(t.i, t.born + LIFETIME)
        case Terminated => true)
    && (t.c2.Some? ==> t.state == Proceeding) && (t.h.Some? ==> t.state == Completed)
    && (t.i.Some? ==> t.state == Confirmed) && (t.l.Some? ==> t.state == Accepted)
  }

  lemma StepTimely(t: Ist, e: Event)
    requires Timely(t) && Enabled(t, e)
    ensures Timely(Step(t, e)) && Step(t, e).born == t.born && t.now <= Step(t, e).now
    ensures t.state == State.Terminated ==>
      Step(t, e) == t.(now := Step(t, e).now)
  {
    hide Timely, Gate, Retransmit, Ack, Fired, InTime;
    match e
    case Respond(dt, code, text) =>
      var t' := t.(now := t.now + dt);
      LaterTimely(t, t.now + dt);
      GateTimely(t', code);
      SentOnly(Gate(t', code).0, Reply(t', code, text));
    case AckIn(dt) =>
      LaterTimely(t, t.now + dt);
      AckTimely(t.(now := t.now + dt));
    case InviteIn(dt) =>
      LaterTimely(t, t.now + dt);
      RetransmitTimely(t.(now := t.now + dt));
    case Fire(x) =>
      LaterTimely(t, Due(t, x).value);
      FireTimely(t.(now := Due(t, x).value), x);
  }

  lemma LaterTimely(t: Ist, now: nat)
    requires Timely(t) && InTime(t, now)
    ensures Timely(t.(now := now))
    ensures forall x :: Due(t, x).Some? ==> t.now <= Due(t, x).value && t.state != State.Terminated
  {}

  lemma GateTimely(t: Ist, code: nat)
    requires Timely(t)
    ensures var (g, ok) := Gate(t, code);
      Timely(g) && g.born == t.born && g.now == t.now && (t.state == State.Terminated ==> g == t && !ok)
  {}

  lemma SentOnly(t: Ist, t': Ist)
    requires Timely(t) && t' == t.(last := t'.last, sent := t'.sent)
    ensures Timely(t')
  {}

  lemma AckTimely(t: Ist)
    requires Timely(t)
    ensures Timely(Ack(t)) && Ack(t).born == t.born && Ack(t).now == t.now
    ensures t.state == State.Terminated ==> !t.listed
  {}

  lemma RetransmitTimely(t: Ist)
    requires Timely(t)
    ensures Timely(Retransmit(t)) && Retransmit(t) == t.(sent := Retransmit(t).sent)
    ensures t.state == State.Terminated ==> !t.listed && t.g == None
  {}

  lemma FireTimely(t: Ist, x: Timer)
    requires Timely(t) && Due(t, x).Some?
    ensures Timely(Fired(t, x)) && Fired(t, x).born == t.born && Fired(t, x).now == t.now
  {
    if x == G {
      RetransmitTimely(t);
    }
  }

  lemma {:induction false} RunTimely(t: Ist, es: seq<Event>)
    requires Timely(t) && Legal(t, es)
    ensures Timely(Run(t, es)) && Run(t, es).born == t.born && t.now <= Run(t, es).now
    ensures t.state == State.Terminated ==> Run(t, es) == t.(now := Run(t, es).now)
    decreases |es|
  {
    if es != [] {
      StepTimely(t, es[0]);
      RunTimely(Step(t, es[0]), es[1..]);
    }
  }

  /** In every run the transaction is listed exactly while it is not terminated; past 219 s after its
      creation it is gone, and until then some timer is due to take it further. */
  lemma LeavesTableInTime(udp: bool, now: nat, trying: string, es: seq<Event>)
    requires Legal(Created(udp, now, trying), es)
    ensures var t := Run(Created(udp, now, trying), es);
      && (t.listed <==> t.state != State.Terminated)
      && (t.listed ==> exists x :: x != G && ArmedBy(Due(t, x), now + LIFETIME))
      && (t.now > now + LIFETIME ==> !t.listed)
    ensures LIFETIME == 219000
  {
    RunTimely(Created(udp, now, trying), es);
    var t := Run(Created(udp, now, trying), es);
    match t.state
    case Proceeding => assert ArmedBy(Due(t, C2), now + LIFETIME);
    case Accepted => assert ArmedBy(Due(t, L), now + LIFETIME);
    case Completed => assert ArmedBy(Due(t, H), now + LIFETIME);
    case Confirmed => assert ArmedBy(Due(t, I), now + LIFETIME);
    case Terminated =>
  }

  /** `:terminated` is never left, and from then on nothing more is sent: timer G is not running. */
  lemma TerminatedIsFinal(udp: bool, now: nat, trying: string, es: seq<Event>, more: seq<Event>)
    requires Legal(Created(udp, now, trying), es)
    requires var t := Run(Created(udp, now, trying), es); t.state == State.Terminated && Legal(t, more)
    ensures var t := Run(Created(udp, now, trying), es); var u := Run(t, more);
      t.g == None && u.state == State.Terminated && u.sent == t.sent && u.g == None
  {
    RunTimely(Created(udp, now, trying), es);
    RunTimely(Run(Created(udp, now, trying), es), more);
  }

  // ---- What the upstream element sees ----

  function NewCodes(sent: seq<Upstream>): seq<nat> {
    if sent == [] then []
    else NewCodes(sent[..|sent| - 1]) + (var u := sent[|sent| - 1]; if u.New? then [u.code] else [])
  }

  function LastText(sent: seq<Upstream>): Option<string> {
    if sent == [] then None
    else var u := sent[|sent| - 1]; if u.New? then Some(u.text) else LastText(sent[..|sent| - 1])
  }

  /** Every repetition repeats the response sent last before it. */
  predicate Faithful(sent: seq<Upstream>) {
    forall k :: 0 <= k < |sent| && sent[k].Again? ==> LastText(sent[..k]) == Some(sent[k].text)
  }

  predicate Fits(state: State, codes: seq<nat>) {
    match state
    case Proceeding => AllProvisional(codes)
    case Accepted => Answered(codes)
    case Completed => Refused(codes)
    case Confirmed => Refused(codes)
    case Terminated => Grammar(codes)
  }

  predicate Spoken(t: Ist) {
    Faithful(t.sent) && t.last == LastText(t.sent) && Fits(t.state, NewCodes(t.sent))
  }

  lemma SentSnoc(sent: seq<Upstream>, u: Upstream)
    ensures NewCodes(sent + [u]) == if u.New? then NewCodes(sent) + [u.code] else NewCodes(sent)
    ensures LastText(sent + [u]) == if u.New? then Some(u.text) else LastText(sent)
    ensures Faithful(sent) && (u.Again? ==> LastText(sent) == Some(u.text)) ==> Faithful(sent + [u])
  {
    var s := sent + [u];
    assert s[..|s| - 1] == sent;
    forall k | 0 <= k < |s| ensures k < |sent| ==> s[..k] == sent[..k] {}
  }

  /** A code that the state admits keeps the grammar, in the state it leads to. */
  lemma CodeFits(t: Ist, code: nat, codes: seq<nat>)
    requires Fits(t.state, codes) && Gate(t, code).1
    ensures Fits(Gate(t, code).0.state, codes + [code])
  {
    OneMore(codes, code);
  }

  lemma ReplySpoken(t: Ist, code: nat, text: string)
    requires Spoken(t)
    ensures Spoken(Reply(t, code, text))
  {
    hide Faithful, NewCodes, LastText, Fits;
    SentSnoc(t.sent, New(code, text));
    if Gate(t, code).1 {
      CodeFits(t, code, NewCodes(t.sent));
    }
  }

  lemma RetransmitSpoken(t: Ist)
    requires Spoken(t)
    ensures Spoken(Retransmit(t))
  {
    hide Faithful, NewCodes, LastText, Fits;
    if t.last.Some? {
      SentSnoc(t.sent, Again(t.last.value));
    }
  }

  lemma SilentSpoken(t: Ist, t': Ist)
    requires Spoken(t) && t'.sent == t.sent && t'.last == t.last
    requires t'.state in {t.state, State.Terminated} || (t.state == Completed && t'.state == Confirmed)
    ensures Spoken(t')
  {}

  lemma StepSpoken(t: Ist, e: Event)
    requires Spoken(t)
    ensures Spoken(Step(t, e))
  {
    hide Spoken;
    match e
    case Respond(dt, code, text) =>
      SilentSpoken(t, t.(now := t.now + dt));
      ReplySpoken(t.(now := t.now + dt), code, text);
    case AckIn(dt) =>
      SilentSpoken(t, Step(t, e));
    case InviteIn(dt) =>
      SilentSpoken(t, t.(now := t.now + dt));
      RetransmitSpoken(t.(now := t.now + dt));
    case Fire(x) =>
      if Due(t, x).None? {
      } else if x == G {
        var t' := t.(now := Due(t, x).value);
        SilentSpoken(t, t');
        RetransmitSpoken(t');
        SilentSpoken(Retransmit(t'), Step(t, e));
      } else {
        SilentSpoken(t, Step(t, e));
      }
  }

  lemma {:induction false} RunSpoken(t: Ist, es: seq<Event>)
    requires Spoken(t)
    ensures Spoken(Run(t, es))
    decreases |es|
  {
    if es != [] {
      hide Spoken;
      StepSpoken(t, es[0]);
      RunSpoken(Step(t, es[0]), es[1..]);
    }
  }

  lemma CreatedSpoken(udp: bool, now: nat, trying: string)
    ensures Spoken(Created(udp, now, trying)) && Timely(Created(udp, now, trying))
  {
    var t := Ist(Proceeding, udp, now, now, Some(now + TIMER_C2), None, None, None, None, None, [], true);
    ReplySpoken(t, 100, trying);
  }

  /** Whatever the transaction user replies and in whatever order events come, the new responses are
      1xx* followed by 2xx* or one single 3xx-6xx, and a repetition is always of the last one;
      so after a 3xx-6xx every transmission repeats its bytes. */
  lemma UpstreamGrammar(udp: bool, now: nat, trying: string, es: seq<Event>)
    ensures var sent := Run(Created(udp, now, trying), es).sent;
      && Grammar(NewCodes(sent))
      && Faithful(sent)
      && (forall j, k :: 0 <= j < k < |sent| && sent[j].New? && sent[j].code >= 300 ==> sent[k] == Again(sent[j].text))
  {
    CreatedSpoken(udp, now, trying);
    RunSpoken(Created(udp, now, trying), es);
    RefusalIsRepeated(Run(Created(udp, now, trying), es).sent);
  }

  lemma RefusalIsRepeated(sent: seq<Upstream>)
    requires Faithful(sent) && Grammar(NewCodes(sent))
    ensures forall j, k :: 0 <= j < k < |sent| && sent[j].New? && sent[j].code >= 300 ==> sent[k] == Again(sent[j].text)
  {
    forall j, k | 0 <= j < k < |sent| && sent[j].New? && sent[j].code >= 300
      ensures sent[k] == Again(sent[j].text)
    {
      forall m | j < m < |sent| ensures sent[m].Again? {
        NothingNewAfter(sent, j, m);
      }
      TextStays(sent, j, k);
    }
  }

  lemma {:induction false} CodesOfPrefix(sent: seq<Upstream>, k: nat)
    requires k <= |sent|
    ensures NewCodes(sent[..k]) <= NewCodes(sent)
    decreases |sent|
  {
    if k < |sent| {
      var s := sent[..|sent| - 1];
      CodesOfPrefix(s, k);
      assert s[..k] == sent[..k];
    } else {
      assert sent[..k] == sent;
    }
  }

  lemma CodesUpTo(sent: seq<Upstream>, k: nat)
    requires k < |sent| && sent[k].New?
    ensures NewCodes(sent[..k]) + [sent[k].code] <= NewCodes(sent)
  {
    hide NewCodes, LastText, Faithful;
    assert sent[..k + 1] == sent[..k] + [sent[k]];
    SentSnoc(sent[..k], sent[k]);
    CodesOfPrefix(sent, k + 1);
  }

  /** A code of 300 or more is the last one. */
  lemma NothingNewAfter(sent: seq<Upstream>, j: nat, m: nat)
    requires Grammar(NewCodes(sent)) && j < m < |sent| && sent[j].New? && sent[j].code >= 300
    ensures sent[m].Again?
  {
    hide NewCodes, Grammar;
    if sent[m].New? {
      var cs, a, b := NewCodes(sent), NewCodes(sent[..j]), NewCodes(sent[..m]);
      assert sent[..m][..j] == sent[..j] && sent[..m][j] == sent[j];
      CodesUpTo(sent[..m], j);
      CodesUpTo(sent, m);
      assert |a| < |b| < |cs| && cs[|a|] == b[|a|] == sent[j].code;
      OnlyTheLast(cs, |a|);
    }
  }

  lemma {:induction false} TextStays(sent: seq<Upstream>, j: nat, k: nat)
    requires Faithful(sent) && j < k < |sent| && sent[j].New?
    requires forall m :: j < m <= k ==> sent[m].Again?
    ensures sent[k] == Again(sent[j].text)
    decreases k
  {
    assert LastText(sent[..k]) == Some(sent[k].text);
    assert sent[..k][..k - 1] == sent[..k - 1];
    if k > j + 1 {
      TextStays(sent, j, k - 1);
      assert LastText(sent[..k - 1]) == Some(sent[k - 1].text);
    }
  }

  // ---- The object ----

  /** `valid_response?` */
  predicate ValidResponse(state: State, code: nat) {
    if code < 200 then state == Proceeding
    else if code < 300 then state == Proceeding || state == Accepted
    else state == Proceeding
  }

  /** The query promises exactly what the gate will do. */
  lemma ValidResponseIffGateOpens(t: Ist, code: nat)
    ensures ValidResponse(t.state, code) <==> Gate(t, code).1
    ensures !ValidResponse(t.state, code) ==> Reply(t, code, "") == t
  {}

  class InviteServerTransaction {
    const id: string
    const udp: bool
    const born: nat
    const table: Table
    var state: State
    var timerC2: Option<nat>
    var timerG: Option<Periodic>
    var timerH: Option<nat>
    var timerI: Option<nat>
    var timerL: Option<nat>
    var lastResponse: Option<string>
    var sent: seq<Upstream>

    ghost function View(now: nat): Ist
      reads this, table
    {
      Ist(state, udp, born, now, timerC2, timerG, timerH, timerI, timerL, lastResponse, sent, id in table.live)
    }

    constructor (id: string, udp: bool, now: nat, trying: string, table: Table)
      modifies table
      ensures this.id == id && this.table == table
      ensures View(now) == Created(udp, now, trying)
      ensures table.live == old(table.live) + {id}
    {
      this.id, this.udp, this.born, this.table := id, udp, now, table;
      state := Proceeding;
      timerC2, timerG, timerH, timerI, timerL := Some(now + TIMER_C2), None, None, None, None;
      lastResponse, sent := None, [];
      new;
      table.live := table.live + {id};
      RequestReply(100, trying, now);
    }

    method TerminateTransaction()
      modifies this`state, table
      ensures state == State.Terminated && table.live == old(table.live) - {id}
    {
      state := State.Terminated;
      table.live := table.live - {id};
    }

    method ReceiveResponse(code: nat, now: nat) returns (ok: bool)
      modifies this
      ensures (View(now), ok) == Gate(old(View(now)), code)
      ensures old(state) == Proceeding && code >= 300 ==>
        timerG == (if udp then Some(Periodic(now + 500, 500)) else old(timerG)) && timerH == Some(now + 32000)
    {
      if code < 200 {
        return state == Proceeding;
      } else if code < 300 {
        if state == Proceeding {
          state := Accepted;
          timerC2 := None;
          timerL := Some(now + TIMER_L);
          return true;
        }
        return state == Accepted;
      } else {
        if state == Proceeding {
          state := Completed;
          timerC2 := None;
          if udp {
            timerG := Some(Periodic(now + TIMER_G, TIMER_G));
          }
          timerH := Some(now + TIMER_H);
          return true;
        }
        return false;
      }
    }

    /** `Request#reply`: nothing is sent or remembered unless the transaction lets it through. */
    method RequestReply(code: nat, text: string, now: nat)
      modifies this
      ensures View(now) == Reply(old(View(now)), code, text)
    {
      var ok := ReceiveResponse(code, now);
      if !ok {
        return;
      }
      lastResponse := Some(text);
      sent := sent + [New(code, text)];
    }

    method RetransmitLastResponse(now: nat)
      modifies this
      ensures View(now) == Retransmit(old(View(now)))
    {
      if lastResponse.Some? {
        sent := sent + [Again(lastResponse.value)];
      }
    }

    method ReceiveAck(now: nat)
      modifies this, table
      ensures View(now) == Ack(old(View(now)))
      ensures table.live - {id} == old(table.live) - {id}
    {
      if state == Completed {
        state := Confirmed;
        timerG := None;
        timerH := None;
        if udp {
          timerI := Some(now + TIMER_I_UDP);
        } else {
          TerminateTransaction();
        }
      }
    }

    /** The block of timer x; a one-shot timer is spent by running. */
    method TimerFires(x: Timer, now: nat)
      requires Due(View(now), x).Some?
      modifies this, table
      ensures View(now) == Fired(old(View(now)), x)
      ensures table.live - {id} == old(table.live) - {id}
    {
      match x
      case C2 =>
        timerC2 := None;
        TerminateTransaction();
      case G =>
        RetransmitLastResponse(now);
        timerG := Some(Doubled(timerG.value));
      case H =>
        timerH := None;
        TerminateTransaction();
        timerG := None;
      case I =>
        timerI := None;
        TerminateTransaction();
      case L =>
        timerL := None;
        TerminateTransaction();
    }
  }
}

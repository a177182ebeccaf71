/** The server transactions of a listener together: how requests find them (`check_transaction` of
    lib/oversip/sip/message_processor.rb), and that each of them lives the life of its own machine. */
module Dispatch {
  import opened Wrappers
  import opened TransactionTable
  import IS = InviteServer
  import NS = NonInviteServer
  import IX = InviteServerExact
  import NX = NonInviteServerExact

  /** What leaves the transaction layer: a request for the user's `on_request`, a cancel for a proxy core,
      and the answer to a CANCEL. */
  datatype Call = OnRequest(id: string) | CoreCancel(id: string) | CancelAnswer(code: nat)

  /** All transactions by branch id, listed or not any more. */
  datatype Layer = Layer(now: nat, invites: map<string, IS.Ist>, others: map<string, NS.Nist>, calls: seq<Call>)

  const EMPTY := Layer(0, map[], map[], [])

  /** Requests arrive (and user code may create a transaction for one that it is handed), transaction users
      reply, timers fire. */
  datatype In =
    | Invite(udp: bool, trying: string, creates: bool)
    | Ack(stateless: bool)
    | Cancel
    | Request(udp: bool, creates: bool)
    | ReplyToInvite(code: nat, text: string)
    | ReplyToRequest(code: nat, text: string)
    | InviteTimer(x: IS.Timer)
    | RequestTimer(y: NS.Timer)

  datatype Event = Event(at: nat, id: string, what: In)

  predicate Listed(l: Layer, id: string) { id in l.invites && l.invites[id].listed }

  function Call1(l: Layer, c: Call): Layer { l.(calls := l.calls + [c]) }

  function OnInvite(l: Layer, id: string, e: IS.Event): Layer
    requires id in l.invites
  {
    l.(invites := l.invites[id := IS.Step(l.invites[id], e)])
  }

  function OnOther(l: Layer, id: string, e: NS.Event): Layer
    requires id in l.others
  {
    l.(others := l.others[id := NS.Step(l.others[id], e)])
  }

  function Since(at: nat, before: nat): nat { if at >= before then at - before else 0 }

  function Step(l0: Layer, e: Event): Layer {
    var l, id := l0.(now := e.at), e.id;
    match e.what
    case Invite(udp, trying, creates) =>
      if Listed(l, id) then OnInvite(l, id, IS.InviteIn(Since(e.at, l.invites[id].now)))
      else
        var l' := Call1(l, OnRequest(id));
        if creates then l'.(invites := l'.invites[id := IS.Created(udp, e.at, trying)]) else l'
    case Ack(stateless) =>
      if Listed(l, id) then OnInvite(l, id, IS.AckIn(Since(e.at, l.invites[id].now)))
      else if stateless then l
      else Call1(l, OnRequest(id))
    case Cancel =>
      if Listed(l, id) then
        var l' := Call1(l, CancelAnswer(200));
        if l.invites[id].state == IS.Proceeding then Call1(l', CoreCancel(id)) else l'
      else Call1(l, CancelAnswer(481))
    case Request(udp, creates) =>
      if id in l.others && l.others[id].listed then OnOther(l, id, NS.RequestIn(Since(e.at, l.others[id].now)))
      else
        var l' := Call1(l, OnRequest(id));
        if creates then l'.(others := l'.others[id := NS.Created(udp, e.at)]) else l'
    case ReplyToInvite(code, text) =>
      if id in l.invites then OnInvite(l, id, IS.Respond(Since(e.at, l.invites[id].now), code, text)) else l
    case ReplyToRequest(code, text) =>
      if id in l.others then OnOther(l, id, NS.Respond(Since(e.at, l.others[id].now), code, text)) else l
    case InviteTimer(x) => if id in l.invites then OnInvite(l, id, IS.Fire(x)) else l
    case RequestTimer(y) => if id in l.others then OnOther(l, id, NS.Fire(y)) else l
  }

  // ---- Legal runs ----

  /** No timer of any transaction is overdue at the given time. */
  ghost predicate AllInTime(l: Layer, at: nat) {
    && (forall id :: id in l.invites ==> l.invites[id].now <= at && IS.InTime(l.invites[id], at))
    && (forall id :: id in l.others ==> l.others[id].now <= at && NS.InTime(l.others[id], at))
  }

  /** Time goes on, timers fire when due, and a branch id is used for one transaction. */
  ghost predicate Enabled(l: Layer, e: Event) {
    && AllInTime(l, e.at)
    && match e.what
       case Invite(_, _, creates) => creates ==> Listed(l, e.id) || e.id !in l.invites
       case Request(_, creates) => creates ==> e.id !in l.others || l.others[e.id].listed
       case InviteTimer(x) => e.id in l.invites && IS.Due(l.invites[e.id], x) == Some(e.at)
       case RequestTimer(y) => e.id in l.others && NS.Due(l.others[e.id], y) == Some(e.at)
       case _ => true
  }

  ghost predicate Legal(l: Layer, es: seq<Event>)
    decreases |es|
  {
    es == [] || (l.now <= es[0].at && Enabled(l, es[0]) && Legal(Step(l, es[0]), es[1..]))
  }

  function Run(l: Layer, es: seq<Event>): Layer
    decreases |es|
  {
    if es == [] then l else Run(Step(l, es[0]), es[1..])
  }

  // ---- Each transaction alone ----

  /** The transaction is what a legal run of its own machine makes of a newly created one. */
  ghost predicate InviteLife(t: IS.Ist) {
    exists udp, born, trying, es ::
      IS.Legal(IS.Created(udp, born, trying), es) && t == IS.Run(IS.Created(udp, born, trying), es)
  }

  ghost predicate OtherLife(t: NS.Nist) {
    exists udp, born, es :: NS.Legal(NS.Created(udp, born), es) && t == NS.Run(NS.Created(udp, born), es)
  }

  lemma {:induction false} InviteSnoc(t: IS.Ist, es: seq<IS.Event>, e: IS.Event)
    requires IS.Legal(t, es) && IS.Enabled(IS.Run(t, es), e)
    ensures IS.Legal(t, es + [e]) && IS.Run(t, es + [e]) == IS.Step(IS.Run(t, es), e)
    decreases |es|
  {
    hide IS.Step, IS.Enabled;
    if es == [] {
      assert es + [e] == [e] && [e][1..] == [];
      assert IS.Run(IS.Step(t, e), []) == IS.Step(t, e);
    } else {
      assert (es + [e])[1..] == es[1..] + [e];
      InviteSnoc(IS.Step(t, es[0]), es[1..], e);
    }
  }

  lemma InviteLivesOn(t: IS.Ist, e: IS.Event)
    requires InviteLife(t) && IS.Enabled(t, e)
    ensures InviteLife(IS.Step(t, e))
  {
    hide IS.Step, IS.Enabled, IS.Created;
    var udp, born, trying, es :| IS.Legal(IS.Created(udp, born, trying), es) && t == IS.Run(IS.Created(udp, born, trying), es);
    InviteSnoc(IS.Created(udp, born, trying), es, e);
  }

  lemma InviteBorn(udp: bool, born: nat, trying: string)
    ensures InviteLife(IS.Created(udp, born, trying))
  {
    hide IS.Created;
    assert IS.Legal(IS.Created(udp, born, trying), []);
    assert IS.Run(IS.Created(udp, born, trying), []) == IS.Created(udp, born, trying);
  }

  lemma {:induction false} OtherSnoc(t: NS.Nist, es: seq<NS.Event>, e: NS.Event)
    requires NS.Legal(t, es) && NS.Enabled(NS.Run(t, es), e)
    ensures NS.Legal(t, es + [e]) && NS.Run(t, es + [e]) == NS.Step(NS.Run(t, es), e)
    decreases |es|
  {
    hide NS.Step, NS.Enabled;
    if es == [] {
      assert es + [e] == [e] && [e][1..] == [];
      assert NS.Run(NS.Step(t, e), []) == NS.Step(t, e);
    } else {
      assert (es + [e])[1..] == es[1..] + [e];
      OtherSnoc(NS.Step(t, es[0]), es[1..], e);
    }
  }

  lemma OtherLivesOn(t: NS.Nist, e: NS.Event)
    requires OtherLife(t) && NS.Enabled(t, e)
    ensures OtherLife(NS.Step(t, e))
  {
    hide NS.Step, NS.Enabled, NS.Created;
    var udp, born, es :| NS.Legal(NS.Created(udp, born), es) && t == NS.Run(NS.Created(udp, born), es);
    OtherSnoc(NS.Created(udp, born), es, e);
  }

  lemma OtherBorn(udp: bool, born: nat)
    ensures OtherLife(NS.Created(udp, born))
  {
    hide NS.Created;
    assert NS.Legal(NS.Created(udp, born), []);
    assert NS.Run(NS.Created(udp, born), []) == NS.Created(udp, born);
  }

  // ---- The layer ----

  ghost predicate InviteSound(t: IS.Ist, now: nat) { InviteLife(t) && t.now <= now && IS.InTime(t, now) }
  ghost predicate OtherSound(t: NS.Nist, now: nat) { OtherLife(t) && t.now <= now && NS.InTime(t, now) }

  ghost predicate Sound(l: Layer) {
    && (forall id :: id in l.invites ==> InviteSound(l.invites[id], l.now))
    && (forall id :: id in l.others ==> OtherSound(l.others[id], l.now))
  }

  lemma InviteStepSound(t: IS.Ist, e: IS.Event, at: nat)
    requires InviteLife(t) && IS.Enabled(t, e) && t.now <= at
    requires at == if e.Fire? then IS.Due(t, e.timer).value else t.now + e.dt
    ensures InviteSound(IS.Step(t, e), at)
  {
    InviteLivesOn(t, e);
    InviteLifeTimely(IS.Step(t, e));
    InviteClock(t, e, at);
  }

  lemma InviteClock(t: IS.Ist, e: IS.Event, at: nat)
    requires IS.Enabled(t, e) && at == if e.Fire? then IS.Due(t, e.timer).value else t.now + e.dt
    ensures IS.Step(t, e).now == at
  {}

  lemma InviteLifeTimely(t: IS.Ist)
    requires InviteLife(t)
    ensures IS.Timely(t) && IS.InTime(t, t.now)
  {
    hide IS.Created;
    var udp, born, trying, es :| IS.Legal(IS.Created(udp, born, trying), es) && t == IS.Run(IS.Created(udp, born, trying), es);
    IS.CreatedSpoken(udp, born, trying);
    IS.RunTimely(IS.Created(udp, born, trying), es);
  }

  lemma OtherStepSound(t: NS.Nist, e: NS.Event, at: nat)
    requires OtherLife(t) && NS.Enabled(t, e) && t.now <= at
    requires at == if e.Fire? then NS.Due(t, e.timer).value else t.now + e.dt
    ensures OtherSound(NS.Step(t, e), at)
  {
    OtherLivesOn(t, e);
    OtherLifeTimely(NS.Step(t, e));
    OtherClock(t, e, at);
  }

  lemma OtherClock(t: NS.Nist, e: NS.Event, at: nat)
    requires NS.Enabled(t, e) && at == if e.Fire? then NS.Due(t, e.timer).value else t.now + e.dt
    ensures NS.Step(t, e).now == at
  {}

  lemma OtherLifeTimely(t: NS.Nist)
    requires OtherLife(t)
    ensures NS.Timely(t) && NS.InTime(t, t.now)
  {
    var udp, born, es :| NS.Legal(NS.Created(udp, born), es) && t == NS.Run(NS.Created(udp, born), es);
    NS.RunKeeps(NS.Created(udp, born), es);
  }

  /** The clock moves on to the event. */
  lemma LaterSound(l: Layer, e: Event)
    requires Sound(l) && AllInTime(l, e.at)
    ensures Sound(l.(now := e.at))
  {}

  lemma InviteEventSound(l: Layer, id: string, e: IS.Event)
    requires Sound(l) && id in l.invites && IS.Enabled(l.invites[id], e)
    requires l.now == if e.Fire? then IS.Due(l.invites[id], e.timer).value else l.invites[id].now + e.dt
    ensures Sound(OnInvite(l, id, e))
  {
    hide IS.Step, IS.Enabled, IS.InTime, InviteLife, OtherSound;
    InviteStepSound(l.invites[id], e, l.now);
  }

  lemma OtherEventSound(l: Layer, id: string, e: NS.Event)
    requires Sound(l) && id in l.others && NS.Enabled(l.others[id], e)
    requires l.now == if e.Fire? then NS.Due(l.others[id], e.timer).value else l.others[id].now + e.dt
    ensures Sound(OnOther(l, id, e))
  {
    hide NS.Step, NS.Enabled, NS.InTime, OtherLife, InviteSound;
    OtherStepSound(l.others[id], e, l.now);
  }

  lemma InviteCreated(l: Layer, id: string, udp: bool, trying: string)
    requires Sound(l)
    ensures Sound(l.(invites := l.invites[id := IS.Created(udp, l.now, trying)]))
  {
    hide IS.Created, IS.InTime, InviteLife, OtherSound;
    InviteBorn(udp, l.now, trying);
    InviteLifeTimely(IS.Created(udp, l.now, trying));
    CreatedNow(udp, l.now, trying);
  }

  lemma CreatedNow(udp: bool, now: nat, trying: string)
    ensures IS.Created(udp, now, trying).now == now && NS.Created(udp, now).now == now
  {}

  lemma OtherCreated(l: Layer, id: string, udp: bool)
    requires Sound(l)
    ensures Sound(l.(others := l.others[id := NS.Created(udp, l.now)]))
  {
    hide NS.Created, NS.InTime, OtherLife, InviteSound;
    OtherBorn(udp, l.now);
    OtherLifeTimely(NS.Created(udp, l.now));
    CreatedNow(udp, l.now, "");
  }

  lemma CallSound(l: Layer, c: Call)
    requires Sound(l)
    ensures Sound(Call1(l, c))
  {}

  lemma InviteEnabled(l: Layer, id: string, e: IS.Event)
    requires id in l.invites && IS.InTime(l.invites[id], l.now) && l.invites[id].now <= l.now
    requires if e.Fire? then IS.Due(l.invites[id], e.timer) == Some(l.now) else e.dt == l.now - l.invites[id].now
    ensures IS.Enabled(l.invites[id], e)
  {}

  lemma OtherEnabled(l: Layer, id: string, e: NS.Event)
    requires id in l.others && NS.InTime(l.others[id], l.now) && l.others[id].now <= l.now
    requires if e.Fire? then NS.Due(l.others[id], e.timer) == Some(l.now) else e.dt == l.now - l.others[id].now
    ensures NS.Enabled(l.others[id], e)
  {}

  lemma InviteTouched(l: Layer, id: string, e: IS.Event)
    requires Sound(l) && id in l.invites
    requires if e.Fire? then IS.Due(l.invites[id], e.timer) == Some(l.now)
             else e.dt == Since(l.now, l.invites[id].now)
    ensures Sound(OnInvite(l, id, e))
  {
    hide IS.Step, InviteLife, OtherSound;
    assert InviteSound(l.invites[id], l.now);
    InviteEnabled(l, id, e);
    InviteEventSound(l, id, e);
  }

  lemma OtherTouched(l: Layer, id: string, e: NS.Event)
    requires Sound(l) && id in l.others
    requires if e.Fire? then NS.Due(l.others[id], e.timer) == Some(l.now)
             else e.dt == Since(l.now, l.others[id].now)
    ensures Sound(OnOther(l, id, e))
  {
    hide NS.Step, OtherLife, InviteSound;
    assert OtherSound(l.others[id], l.now);
    OtherEnabled(l, id, e);
    OtherEventSound(l, id, e);
  }

  lemma StepSound(l0: Layer, e: Event)
    requires Sound(l0) && Enabled(l0, e)
    ensures Sound(Step(l0, e))
  {
    hide Sound, AllInTime, OnInvite, OnOther, IS.Created, NS.Created, Since;
    var l, id := l0.(now := e.at), e.id;
    LaterSound(l0, e);
    match e.what
    case Invite(udp, trying, creates) =>
      if Listed(l, id) {
        InviteTouched(l, id, IS.InviteIn(Since(e.at, l.invites[id].now)));
      } else {
        CallSound(l, OnRequest(id));
        InviteCreated(Call1(l, OnRequest(id)), id, udp, trying);
      }
    case Ack(stateless) =>
      CallSound(l, OnRequest(id));
      if Listed(l, id) { InviteTouched(l, id, IS.AckIn(Since(e.at, l.invites[id].now))); }
    case Cancel =>
      CallSound(l, CancelAnswer(200));
      CallSound(Call1(l, CancelAnswer(200)), CoreCancel(id));
      CallSound(l, CancelAnswer(481));
    case Request(udp, creates) =>
      if id in l.others && l.others[id].listed {
        OtherTouched(l, id, NS.RequestIn(Since(e.at, l.others[id].now)));
      } else {
        CallSound(l, OnRequest(id));
        OtherCreated(Call1(l, OnRequest(id)), id, udp);
      }
    case ReplyToInvite(code, text) =>
      if id in l.invites { InviteTouched(l, id, IS.Respond(Since(e.at, l.invites[id].now), code, text)); }
    case ReplyToRequest(code, text) =>
      if id in l.others { OtherTouched(l, id, NS.Respond(Since(e.at, l.others[id].now), code, text)); }
    case InviteTimer(x) => InviteTouched(l, id, IS.Fire(x));
    case RequestTimer(y) => OtherTouched(l, id, NS.Fire(y));
  }

  lemma {:induction false} RunSound(l: Layer, es: seq<Event>)
    requires Sound(l) && Legal(l, es)
    ensures Sound(Run(l, es))
    decreases |es|
  {
    if es != [] {
      hide Sound, Step, Enabled;
      StepSound(l, es[0]);
      RunSound(Step(l, es[0]), es[1..]);
    }
  }

  /** However requests, replies and timers of any number of transactions interleave, every one of them is what
      a legal run of its own machine makes of it: what is proved of a single transaction holds of each. */
  lemma EachLivesItsOwnLife(es: seq<Event>)
    requires Legal(EMPTY, es)
    ensures var l := Run(EMPTY, es);
      && (forall id :: id in l.invites ==> InviteLife(l.invites[id]))
      && (forall id :: id in l.others ==> OtherLife(l.others[id]))
  {
    RunSound(EMPTY, es);
  }

  /** So at any time both tables hold recent transactions only: at most 219 s old, and 64 s. */
  lemma TablesStayYoung(es: seq<Event>)
    requires Legal(EMPTY, es)
    ensures var l := Run(EMPTY, es);
      && (forall id :: id in l.invites && l.invites[id].listed ==> l.now <= l.invites[id].born + IS.LIFETIME)
      && (forall id :: id in l.others && l.others[id].listed ==> l.now <= l.others[id].born + NS.LIFETIME)
  {
    RunSound(EMPTY, es);
    var l := Run(EMPTY, es);
    forall id | id in l.invites && l.invites[id].listed ensures l.now <= l.invites[id].born + IS.LIFETIME {
      assert InviteSound(l.invites[id], l.now);
      InviteLifeTimely(l.invites[id]);
    }
    forall id | id in l.others && l.others[id].listed ensures l.now <= l.others[id].born + NS.LIFETIME {
      assert OtherSound(l.others[id], l.now);
      OtherLifeTimely(l.others[id]);
    }
  }

  // ---- What a request does ----

  /** What a request does to the INVITE transaction of its branch id. */
  predicate InviteReached(t: IS.Ist, u: IS.Ist, what: In) {
    && (what.Invite? ==>
          && u.state == t.state && IS.LastText(t.sent).Some?
          && u.sent == t.sent + [IS.Again(IS.LastText(t.sent).value)])
    && (what.Ack? ==> u.sent == t.sent)
    && (what.Ack? && t.state == IS.Completed ==> u.state == if t.udp then IS.Confirmed else IS.State.Terminated)
    && (what.Ack? && t.state != IS.Completed ==> u.state == t.state)
    && (what.Cancel? ==> u == t)
  }

  /** A request received again by the transaction of its branch id: the last response, if any, goes out again. */
  predicate OtherReached(t: NS.Nist, u: NS.Nist) {
    u.state == t.state && u.sent == t.sent + if t.sent == [] then [] else [NS.Again(t.sent[|t.sent| - 1].text)]
  }

  lemma InviteMoved(t: IS.Ist, e: IS.Event, what: In)
    requires InviteLife(t) && t.listed && IS.Enabled(t, e)
    requires (what.Invite? && e.InviteIn?) || (what.Ack? && e.AckIn?)
    ensures InviteReached(t, IS.Step(t, e), what)
  {
    hide IS.Created, IS.Step, IS.LastText, IX.Timed, IS.Enabled;
    var udp, born, trying, es :| IS.Legal(IS.Created(udp, born, trying), es) && t == IS.Run(IS.Created(udp, born, trying), es);
    IX.StatesLast(udp, born, trying, es, e);
    if e.AckIn? { AckSendsNothing(t, e); }
  }

  lemma AckSendsNothing(t: IS.Ist, e: IS.Event)
    requires e.AckIn?
    ensures IS.Step(t, e).sent == t.sent
  {}

  lemma OtherMoved(t: NS.Nist, e: NS.Event)
    requires OtherLife(t) && t.listed && NS.Enabled(t, e) && e.RequestIn?
    ensures OtherReached(t, NS.Step(t, e))
  {
    hide NS.Created, NS.Step, NX.Timed, NS.Enabled;
    var udp, born, es :| NS.Legal(NS.Created(udp, born), es) && t == NS.Run(NS.Created(udp, born), es);
    NX.StatesLast(udp, born, es, e);
    RetransmissionStays(t, e);
  }

  lemma RetransmissionStays(t: NS.Nist, e: NS.Event)
    requires e.RequestIn?
    ensures NS.Step(t, e).state == t.state
  {}

  /** The requests that arrive, in any run: one whose transaction is listed is taken by it and reaches no user code
      (a CANCEL only the core); any other INVITE, ACK or request is handed to user code once; and no other
      transaction changes. */
  lemma RequestsFindTheirTransaction(es: seq<Event>, e: Event)
    requires Legal(EMPTY, es) && Run(EMPTY, es).now <= e.at && Enabled(Run(EMPTY, es), e)
    requires e.what.Invite? || e.what.Ack? || e.what.Cancel? || e.what.Request?
    ensures var l := Run(EMPTY, es); var u := Step(l, e);
      && u.calls == l.calls + Added(l, e)
      && (forall id :: id in l.invites && (id != e.id || e.what.Request?) ==>
            id in u.invites && u.invites[id] == l.invites[id])
      && (forall id :: id in l.others && (id != e.id || !e.what.Request?) ==>
            id in u.others && u.others[id] == l.others[id])
      && (Listed(l, e.id) && !e.what.Request? ==>
            e.id in u.invites && InviteReached(l.invites[e.id], u.invites[e.id], e.what))
      && (e.what.Request? && e.id in l.others && l.others[e.id].listed ==>
            e.id in u.others && OtherReached(l.others[e.id], u.others[e.id]))
  {
    hide Sound, Enabled, InviteReached, OtherReached, IS.Step, NS.Step, IS.Created, NS.Created;
    var l0 := Run(EMPTY, es);
    EmptySound();
    RunSound(EMPTY, es);
    CallsAdded(l0, e);
    EventTimeSound(l0, e);
    var l, id := l0.(now := e.at), e.id;
    if Listed(l, id) && e.what.Invite? {
      var e' := IS.InviteIn(Since(e.at, l.invites[id].now));
      ListedEnabled(l, id, e');
      InviteMoved(l.invites[id], e', e.what);
    } else if Listed(l, id) && e.what.Ack? {
      var e' := IS.AckIn(Since(e.at, l.invites[id].now));
      ListedEnabled(l, id, e');
      InviteMoved(l.invites[id], e', e.what);
    } else if Listed(l, id) && e.what.Cancel? {
      assert InviteReached(l.invites[id], l.invites[id], e.what) by { CancelTouchesNothing(l.invites[id], e.what); }
    } else if e.what.Request? && id in l.others && l.others[id].listed {
      var e' := NS.RequestIn(Since(e.at, l.others[id].now));
      OtherListedEnabled(l, id, e');
      OtherMoved(l.others[id], e');
    }
  }

  lemma EmptySound()
    ensures Sound(EMPTY)
  {}

  lemma EventTimeSound(l: Layer, e: Event)
    requires Sound(l) && Enabled(l, e)
    ensures Sound(l.(now := e.at))
  {
    LaterSound(l, e);
  }

  lemma CancelTouchesNothing(t: IS.Ist, what: In)
    requires what.Cancel?
    ensures InviteReached(t, t, what)
  {}

  lemma ListedEnabled(l: Layer, id: string, e: IS.Event)
    requires Sound(l) && id in l.invites && !e.Fire? && e.dt == Since(l.now, l.invites[id].now)
    ensures InviteLife(l.invites[id]) && IS.Enabled(l.invites[id], e)
  {
    hide InviteLife, OtherSound;
    assert InviteSound(l.invites[id], l.now);
  }

  lemma OtherListedEnabled(l: Layer, id: string, e: NS.Event)
    requires Sound(l) && id in l.others && !e.Fire? && e.dt == Since(l.now, l.others[id].now)
    ensures OtherLife(l.others[id]) && NS.Enabled(l.others[id], e)
  {
    hide OtherLife, InviteSound;
    assert OtherSound(l.others[id], l.now);
  }

  // ---- Cancels ----

  function Answers(calls: seq<Call>): nat {
    if calls == [] then 0 else Answers(calls[..|calls| - 1]) + if calls[|calls| - 1].CancelAnswer? then 1 else 0
  }

  function Cancels(es: seq<Event>): nat { if es == [] then 0 else (if es[0].what.Cancel? then 1 else 0) + Cancels(es[1..]) }

  lemma AnswersSnoc(calls: seq<Call>, c: Call)
    ensures Answers(calls + [c]) == Answers(calls) + if c.CancelAnswer? then 1 else 0
  {
    assert (calls + [c])[..|calls|] == calls;
  }

  /** Every CANCEL is answered once; a core is canceled only right after a 200. */
  predicate CoreCancelsAnswered(calls: seq<Call>) {
    forall i :: 0 <= i < |calls| && calls[i].CoreCancel? ==> i > 0 && calls[i - 1] == CancelAnswer(200)
  }

  /** The calls one event adds. */
  function Added(l: Layer, e: Event): seq<Call> {
    match e.what
    case Invite(_, _, _) => if Listed(l, e.id) then [] else [OnRequest(e.id)]
    case Ack(stateless) => if Listed(l, e.id) || stateless then [] else [OnRequest(e.id)]
    case Cancel =>
      if !Listed(l, e.id) then [CancelAnswer(481)]
      else if l.invites[e.id].state == IS.Proceeding then [CancelAnswer(200), CoreCancel(e.id)]
      else [CancelAnswer(200)]
    case Request(_, _) => if e.id in l.others && l.others[e.id].listed then [] else [OnRequest(e.id)]
    case _ => []
  }

  lemma CallsAdded(l: Layer, e: Event)
    ensures Step(l, e).calls == l.calls + Added(l, e)
  {
    hide IS.Step, NS.Step, IS.Created, NS.Created;
  }

  lemma AnsweredSnoc(calls: seq<Call>, c: Call)
    requires CoreCancelsAnswered(calls)
    requires c.CoreCancel? ==> calls != [] && calls[|calls| - 1] == CancelAnswer(200)
    ensures CoreCancelsAnswered(calls + [c])
  {}

  lemma StepAnswers(l: Layer, e: Event)
    requires CoreCancelsAnswered(l.calls)
    ensures Answers(Step(l, e).calls) == Answers(l.calls) + if e.what.Cancel? then 1 else 0
    ensures CoreCancelsAnswered(Step(l, e).calls)
  {
    hide Step, Answers, CoreCancelsAnswered, Listed;
    CallsAdded(l, e);
    var cs, added := l.calls, Added(l, e);
    if added == [] {
      assert cs + added == cs;
    } else {
      AnswersSnoc(cs, added[0]);
      AnsweredSnoc(cs, added[0]);
      if |added| == 2 {
        AnswersSnoc(cs + [added[0]], added[1]);
        AnsweredSnoc(cs + [added[0]], added[1]);
        assert cs + [added[0]] + [added[1]] == cs + added;
      } else {
        assert [added[0]] == added;
      }
    }
  }

  lemma {:induction false} RunAnswers(l: Layer, es: seq<Event>)
    requires CoreCancelsAnswered(l.calls)
    ensures Answers(Run(l, es).calls) == Answers(l.calls) + Cancels(es)
    ensures CoreCancelsAnswered(Run(l, es).calls)
    decreases |es|
  {
    if es != [] {
      hide Step;
      StepAnswers(l, es[0]);
      RunAnswers(Step(l, es[0]), es[1..]);
    }
  }

  // ---- The object ----

  datatype Method = INVITE | ACK | CANCEL | OTHER

  class MessageProcessor {
    const inviteTable: Table
    const otherTable: Table
    var invites: map<string, IS.InviteServerTransaction>
    var others: map<string, NS.NonInviteServerTransaction>
    /** `request.connection` of each transaction, a connection being a number. */
    var inviteConnections: map<string, nat>
    var otherConnections: map<string, nat>
    var calls: seq<Call>

    ghost predicate Valid()
      reads this
    {
      && (forall id :: id in invites ==> invites[id].id == id && invites[id].table == inviteTable)
      && (forall id :: id in others ==> others[id].id == id && others[id].table == otherTable)
    }

    constructor (inviteTable: Table, otherTable: Table)
      ensures Valid() && invites == map[] && others == map[] && calls == []
      ensures inviteConnections == map[] && otherConnections == map[]
    {
      this.inviteTable, this.otherTable := inviteTable, otherTable;
      invites, others, inviteConnections, otherConnections, calls := map[], map[], map[], map[], [];
    }

    /** `invite_server_transactions[@msg.via_branch_id]` */
    predicate InTable(id: string)
      reads this, inviteTable
    {
      id in invites && id in inviteTable.live
    }

    predicate InOtherTable(id: string)
      reads this, otherTable
    {
      id in others && id in otherTable.live
    }

    /** 200 and a cancel for the core while proceeding, 200 later, 481 for a CANCEL that matches nothing. */
    function CancelCalls(id: string): seq<Call>
      reads this, inviteTable, invites.Values
    {
      if !InTable(id) then [CancelAnswer(481)]
      else if invites[id].state == IS.Proceeding then [CancelAnswer(200), CoreCancel(id)]
      else [CancelAnswer(200)]
    }

    /** `check_transaction`: whether the request, which came over the given connection, was taken by a
        transaction. A retransmission moves its transaction to that connection. The frame says that no other
        transaction is touched. */
    method CheckTransaction(m: Method, id: string, stateless: bool, connection: nat, now: nat) returns (taken: bool)
      requires Valid()
      modifies this`calls, this`inviteConnections, this`otherConnections
      modifies if InTable(id) then {invites[id]} else {}, if InOtherTable(id) then {others[id]} else {}
      modifies inviteTable
      ensures Valid() && inviteTable.live - {id} == old(inviteTable.live) - {id}
      ensures inviteConnections == if m == INVITE && taken then old(inviteConnections)[id := connection] else old(inviteConnections)
      ensures otherConnections == if m == OTHER && taken then old(otherConnections)[id := connection] else old(otherConnections)
      ensures m == INVITE ==> taken == old(InTable(id)) && calls == old(calls)
      ensures m == INVITE && taken ==> invites[id].View(now) == IS.Step(old(invites[id].View(now)), IS.InviteIn(0))
      ensures m == ACK ==> taken == (old(InTable(id)) || stateless) && calls == old(calls)
      ensures m == ACK && old(InTable(id)) ==> invites[id].View(now) == IS.Step(old(invites[id].View(now)), IS.AckIn(0))
      ensures m == CANCEL ==> taken && calls == old(calls) + old(CancelCalls(id))
      ensures m == CANCEL && old(InTable(id)) ==> invites[id].View(now) == old(invites[id].View(now))
      ensures m == OTHER ==> taken == old(InOtherTable(id)) && calls == old(calls)
      ensures m == OTHER && taken ==> others[id].View(now) == NS.Step(old(others[id].View(now)), NS.RequestIn(0))
    {
      taken := false;
      match m {
        case INVITE =>
          if InTable(id) {
            inviteConnections := inviteConnections[id := connection];
            invites[id].RetransmitLastResponse(now);
            taken := true;
          }
        case ACK =>
          if InTable(id) {
            invites[id].ReceiveAck(now);
            taken := true;
          } else if stateless {
            taken := true;
          }
        case CANCEL =>
          if InTable(id) {
            calls := calls + [CancelAnswer(200)];
            if invites[id].state == IS.Proceeding {
              calls := calls + [CoreCancel(id)];
            }
          } else {
            calls := calls + [CancelAnswer(481)];
          }
          taken := true;
        case OTHER =>
          if InOtherTable(id) {
            otherConnections := otherConnections[id := connection];
            others[id].RetransmitLastResponse(now);
            taken := true;
          }
      }
    }
  }
}

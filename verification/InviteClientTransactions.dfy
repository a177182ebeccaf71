/** The INVITE client transaction object; each method is proved to do what InviteClient says. */
module InviteClientTransactions {
  import opened Wrappers
  import opened Timers
  import opened TransactionTable
  import opened InviteClient

  class InviteClientTransaction {
    const id: string
    const udp: bool
    const conf: Conf
    const request: Request
    const topVia: string
    const born: nat
    const table: Table
    var state: State
    var timerA: Option<Periodic>
    var timerB: Option<nat>
    var timerC: Option<nat>
    var timerD: Option<nat>
    var timerM: Option<nat>
    var cancel: Option<string>
    var cancelSent: bool
    var timerECancel: Option<Periodic>
    var timerFCancel: Option<nat>
    var linger: seq<nat>
    var ack: Option<string>
    var hist: seq<Act>

    ghost function View(now: nat): Ict
      reads this, table
    {
      Ict(state, udp, conf, request, topVia, born, now, timerA, timerB, timerC, timerD, timerM,
          cancel, cancelSent, timerECancel, timerFCancel, linger, ack, hist, id in table.live)
    }

    /** Other entries of the table stay. */
    twostate predicate Frame()
      reads this, table
    {
      table.live - {id} == old(table.live) - {id}
    }

    /** `new` and `send_request`. */
    constructor (id: string, udp: bool, conf: Conf, request: Request, topVia: string, now: nat, table: Table)
      modifies table
      ensures View(now) == Started(udp, conf, request, topVia, now)
      ensures this.table == table && this.id == id && table.live == old(table.live) + {id}
    {
      this.id, this.udp, this.conf, this.request, this.topVia, this.born, this.table :=
        id, udp, conf, request, topVia, now, table;
      state := Calling;
      timerA := if udp then Some(Periodic(now + TIMER_A, TIMER_A)) else None;
      timerB, timerC := Some(now + conf.timerB), Some(now + conf.timerC);
      timerD, timerM, timerECancel, timerFCancel, linger := None, None, None, None, [];
      cancel, cancelSent, ack, hist := None, false, None, [TxInvite];
      new;
      table.live := table.live + {id};
    }

    method Record(x: Act, ghost now: nat)
      modifies this`hist
      ensures hist == old(hist) + [x] && View(now) == Log(old(View(now)), x)
    {
      hist := hist + [x];
    }

    method TerminateTransaction(ghost now: nat)
      modifies this`state, table
      ensures View(now) == Terminate(old(View(now))) && Frame()
    {
      state := State.Terminated;
      table.live := table.live - {id};
    }

    /** Timers A, B and C are always cancelled together once a final response or a failure came. */
    method StopTimers(ghost now: nat)
      modifies this`timerA, this`timerB, this`timerC
      ensures View(now) == old(View(now)).(a := None, b := None, c := None)
    {
      timerA := None;
      timerB := None;
      timerC := None;
    }

    method TransmitCancel(now: nat)
      modifies this
      ensures View(now) == SendCancel(old(View(now)))
    {
      Record(TxCancel, now);
      cancelSent := true;
      if udp {
        timerECancel := Some(Periodic(now + TIMER_E, TIMER_E));
      }
      timerFCancel := Some(now + conf.timerF);
    }

    method CancelRequest(reasons: seq<string>, now: nat)
      modifies this
      ensures View(now) == DoCancel(old(View(now)), reasons)
    {
      if cancel.Some? {
        return;
      }
      cancel := Some(CancelText(request, topVia, reasons));
      if state == Proceeding {
        TransmitCancel(now);
      }
    }

    method TransmitAck(toTag: Option<string>, now: nat)
      modifies this
      ensures View(now) == SendAck(old(View(now)), toTag)
    {
      if ack.None? {
        ack := Some(AckText(request, topVia, toTag));
      }
      Record(TxAck(ack.value), now);
    }

    method ReceiveResponse(code: nat, toTag: Option<string>, now: nat)
      modifies this, table
      ensures View(now) == OnResponse(old(View(now)), code, toTag) && Frame()
      ensures old(state) in {Calling, Proceeding} && code < 300 && code != 100 ==>
        old(hist) + [Rx(code), Tell(Answer(code))] <= hist
      ensures old(state) in {Calling, Proceeding} && code >= 300 ==>
        ack.Some? && hist == old(hist) + [Rx(code), TxAck(ack.value), Tell(Answer(code))]
    {
      hide OnProvisional, OnRefusal, OnSuccess;
      if state in {Calling, Proceeding} { AnswerActs(View(now), code, toTag); }
      Record(Rx(code), now);
      if code < 200 {
        ReceiveProvisional(code, now);
      } else if code >= 300 {
        ReceiveRefusal(code, toTag, now);
      } else {
        ReceiveSuccess(code, now);
      }
    }

    method ReceiveProvisional(code: nat, now: nat)
      modifies this
      ensures View(now) == OnProvisional(old(View(now)), code)
    {
      if state == Calling {
        state := Proceeding;
        timerA := None;
        timerB := None;
        if code != 100 {
          Record(Tell(Answer(code)), now);
        }
        if cancel.Some? {
          TransmitCancel(now);
        }
      } else if state == Proceeding {
        if code != 100 {
          Record(Tell(Answer(code)), now);
        }
      }
    }

    method CompleteTransaction(now: nat)
      modifies this, table
      ensures View(now) == Complete(old(View(now))) && Frame()
    {
      state := Completed;
      StopTimers(now);
      if udp {
        timerD := Some(now + TIMER_D_UDP);
      } else {
        TerminateTransaction(now);
      }
    }

    method ReceiveRefusal(code: nat, toTag: Option<string>, now: nat)
      modifies this, table
      ensures View(now) == OnRefusal(old(View(now)), code, toTag) && Frame()
    {
      hide AckText;
      if state == Calling || state == Proceeding {
        CompleteTransaction(now);
        TransmitAck(toTag, now);
        Record(Tell(Answer(code)), now);
      } else if state == Completed {
        TransmitAck(toTag, now);
      }
    }

    method ReceiveSuccess(code: nat, now: nat)
      modifies this
      ensures View(now) == OnSuccess(old(View(now)), code)
    {
      if state == Calling || state == Proceeding {
        state := Accepted;
        StopTimers(now);
        timerM := Some(now + TIMER_M);
        Record(Tell(Answer(code)), now);
      } else if state == Accepted {
        Record(Tell(Answer(code)), now);
      }
    }

    /** `receive_response_to_cancel`. Without a CANCEL sent there is no timer F to cancel, and the call raises. */
    method ReceiveResponseToCancel(now: nat) returns (raised: bool)
      modifies this
      ensures View(now) == OnCancelResponse(old(View(now)))
      ensures raised <==> state != State.Terminated && !cancelSent
    {
      raised := false;
      if state != State.Terminated {
        if !cancelSent {
          return true;
        }
        timerECancel := None;
        timerFCancel := None;
        linger := linger + [now + 4000];
      }
    }

    /** `connection_failed` and `tls_validation_failed` */
    method ConnectionDown(event: CoreEvent, now: nat)
      modifies this, table
      ensures View(now) == OnDown(old(View(now)), event) && Frame()
    {
      if !(state == Calling || cancel.None?) {
        return;
      }
      StopTimers(now);
      TerminateTransaction(now);
      Record(Tell(event), now);
    }

    /** The block of timer x. */
    method TimerFires(x: Timer, now: nat)
      requires Due(View(now), x).Some?
      modifies this, table
      ensures View(now) == Fired(old(View(now)), x) && Frame()
    {
      match x
      case A => TimerAFires(now);
      case B => TimerBFires(now);
      case C => TimerCFires(now);
      case D =>
        timerD := None;
        TerminateTransaction(now);
      case M =>
        timerM := None;
        TerminateTransaction(now);
      case E => TimerECancelFires(now);
      case F => TimerFCancelFires(now);
      case Linger =>
        linger := linger[1..];
        TerminateTransaction(now);
    }

    method TimerAFires(now: nat)
      requires timerA.Some?
      modifies this
      ensures View(now) == Fired(old(View(now)), A)
    {
      Record(TxInviteAgain, now);
      var n := 2 * timerA.value.interval;
      timerA := Some(Periodic(timerA.value.due + n, n));
    }

    method TimerBFires(now: nat)
      requires timerB.Some?
      modifies this, table
      ensures View(now) == Fired(old(View(now)), B) && Frame()
    {
      StopTimers(now);
      TerminateTransaction(now);
      Record(Tell(ClientTimeout), now);
    }

    method TimerCFires(now: nat)
      requires timerC.Some?
      modifies this
      ensures View(now) == Fired(old(View(now)), C)
    {
      StopTimers(now);
      CancelRequest([], now);
      Record(Tell(InviteTimeout), now);
    }

    method TimerECancelFires(now: nat)
      requires timerECancel.Some?
      modifies this
      ensures View(now) == Fired(old(View(now)), E)
    {
      Record(TxCancelAgain, now);
      timerECancel := Some(Doubled(timerECancel.value));
    }

    method TimerFCancelFires(now: nat)
      requires timerFCancel.Some?
      modifies this, table
      ensures View(now) == Fired(old(View(now)), F) && Frame()
    {
      timerFCancel := None;
      if state != State.Terminated {
        timerECancel := None;
        TerminateTransaction(now);
      }
    }
  }
}

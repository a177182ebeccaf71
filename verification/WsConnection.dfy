/** The objects behind a WebSocket connection; each method is proved to do what WsFrames says. */
module WsConnection {
  import opened Wrappers
  import opened Bytes
  import Decimal
  import Utf8
  import opened WsFrames
  import opened WsWire

  /** `WsFramingUtils_unmask`: a fresh string filled index by index. */
  method UnmaskPayload(payload: seq<byte>, mask: Key) returns (r: seq<byte>)
    ensures r == Unmask(payload, mask)
  {
    var out := new byte[|payload|](_ => 0);
    for i := 0 to |payload|
      invariant forall j :: 0 <= j < i ==> out[j] == Xor(payload[j], mask[j % 4])
    {
      out[i] := Xor(payload[i], mask[i % 4]);
    }
    r := out[..];
  }

  /** `send_text_frame` and `send_binary_frame`, up to the hand-over to the socket. */
  method EncodeFrame(op: Opcode, message: seq<byte>) returns (frame: seq<byte>)
    requires op == 1 || op == 2
    ensures frame == EncodeData(op, message)
  {
    frame := [];
    frame := frame + [128 + op];
    var length := |message|;
    if length <= 125 {
      frame := frame + [length];
    } else if length < 65536 {
      frame := frame + [126];
      frame := frame + Two(length);
    } else {
      frame := frame + [127];
      frame := frame + (Four(length / 0x1_0000_0000 % 0x1_0000_0000) + Four(length % 0x1_0000_0000));
    }
    frame := frame + message;
  }

  class IoBuffer {
    var data: seq<byte>

    constructor ()
      ensures data == []
    {
      data := [];
    }

    method Append(more: seq<byte>)
      modifies this
      ensures data == old(data) + more
    {
      data := data + more;
    }

    method Read(n: nat) returns (r: seq<byte>)
      requires n <= |data|
      modifies this
      ensures r == old(data)[..n] && data == old(data)[n..]
    {
      r, data := data[..n], data[n..];
    }

    method Clear()
      modifies this
      ensures data == []
    {
      data := [];
    }
  }

  /** The socket side: whether frames still go out, and what went out. */
  class Connection {
    const buffer: IoBuffer
    var open: bool
    var sent: seq<Out>

    constructor (buffer: IoBuffer)
      ensures this.buffer == buffer && open && sent == []
    {
      this.buffer := buffer;
      open := true;
      sent := [];
    }

    method SendData(o: Out)
      modifies this
      ensures open == old(open) && sent == old(sent) + [o]
    {
      sent := sent + [o];
    }

    /** Sends the close frame once; that also clears the buffer the decoder reads from. */
    method Close(status: Option<nat>, reason: Option<string>)
      modifies this, buffer
      ensures !open
      ensures sent == if old(open) then old(sent) + [CloseOut(status, reason)] else old(sent)
      ensures buffer.data == if old(open) then [] else old(buffer.data)
    {
      if open {
        buffer.Clear();
        SendData(CloseOut(status, reason));
      }
      open := false;
    }
  }

  lemma {:induction false} TextsSnoc(rs: seq<seq<byte>>, r: seq<byte>)
    ensures Texts(rs + [r]) == Texts(rs) + [TextOut(r)]
  {
    if rs == [] {
      assert rs + [r] == [r];
      assert [r][1..] == [];
    } else {
      assert (rs + [r])[1..] == rs[1..] + [r];
      TextsSnoc(rs[1..], r);
    }
  }

  /** The texts the SIP layer replies with, and its close frame if the connection was still open. */
  function Replied(r: Reaction, open: bool, sent: seq<Out>): seq<Out> {
    var s := sent + Texts(r.replies);
    if open && r.close.Some? then s + [CloseOut(Some(r.close.value.0), Some(r.close.value.1))] else s
  }

  lemma RunOfNothing(q: Utf8.State)
    ensures Utf8.Run(q, []) == q
  {}

  lemma PongIgnored(cfg: Config, c: Chan, fin: bool, payload: seq<byte>)
    ensures OnFrame(cfg, c, fin, 10, payload) == (c, Go)
  {}

  class WsSipApp {
    const cfg: Config
    const connection: Connection
    var wsMessage: seq<byte>
    var delivered: seq<Delivery>

    constructor (cfg: Config, connection: Connection)
      ensures this.cfg == cfg && this.connection == connection && wsMessage == [] && delivered == []
    {
      this.cfg, this.connection := cfg, connection;
      wsMessage, delivered := [], [];
    }

    method ReceivePayloadData(payload: seq<byte>) returns (ok: bool)
      modifies this
      ensures wsMessage == old(wsMessage) + payload && delivered == old(delivered)
      ensures ok <==> |wsMessage| <= cfg.maxMessage
    {
      wsMessage := wsMessage + payload;
      if |wsMessage| > cfg.maxMessage {
        return false;
      }
      return true;
    }

    method MessageDone(kind: Option<Kind>, emptyTail: bool)
      modifies this, connection, connection.buffer
      ensures wsMessage == []
      ensures delivered == old(delivered) + [Delivery(kind, old(wsMessage), emptyTail)]
      ensures connection.open == (old(connection.open) && cfg.app(delivered).close.None?)
      ensures connection.sent == Replied(cfg.app(delivered), old(connection.open), old(connection.sent))
      ensures connection.buffer.data ==
        if old(connection.open) && cfg.app(delivered).close.Some? then [] else old(connection.buffer.data)
    {
      delivered := delivered + [Delivery(kind, wsMessage, emptyTail)];
      var r := cfg.app(delivered);
      var i := 0;
      while i < |r.replies|
        invariant 0 <= i <= |r.replies|
        invariant connection.open == old(connection.open)
        invariant connection.sent == old(connection.sent) + Texts(r.replies[..i])
        invariant connection.buffer.data == old(connection.buffer.data)
        invariant delivered == old(delivered) + [Delivery(kind, old(wsMessage), emptyTail)]
      {
        TextsSnoc(r.replies[..i], r.replies[i]);
        assert r.replies[..i + 1] == r.replies[..i] + [r.replies[i]];
        connection.SendData(TextOut(r.replies[i]));
        i := i + 1;
      }
      assert r.replies[..i] == r.replies;
      if r.close.Some? {
        connection.Close(Some(r.close.value.0), Some(r.close.value.1));
      }
      wsMessage := [];
    }
  }

  class WsFraming {
    const cfg: Config
    const buffer: IoBuffer
    const connection: Connection
    const app: WsSipApp
    const validator: Utf8.Utf8Validator
    var phase: Phase
    var fin: bool
    var op: Opcode
    var payloadLength: nat
    var maskingKey: Key
    var payload: seq<byte>
    var msgOp: Option<Kind>

    ghost predicate Valid() {
      connection.buffer == buffer && app.connection == connection && app.cfg == cfg
    }

    ghost function Chan0(): Chan
      reads this, connection, app, validator
    {
      Chan(connection.open, msgOp, validator.state, app.wsMessage, app.delivered, connection.sent)
    }

    ghost function View(): Rx
      reads this, buffer, connection, app, validator
    {
      Rx(phase, buffer.data, Header(fin, op, payloadLength, maskingKey, payload), Chan0())
    }

    constructor (cfg: Config)
      ensures Valid() && View() == FreshRx
      ensures this.cfg == cfg && fresh(buffer) && fresh(connection) && fresh(app) && fresh(validator)
    {
      var b := new IoBuffer();
      var c := new Connection(b);
      var a := new WsSipApp(cfg, c);
      var v := new Utf8.Utf8Validator();
      this.cfg, buffer, connection, app, validator := cfg, b, c, a, v;
      phase, fin, op, payloadLength, maskingKey := Init, false, 0, 0, [0, 0, 0, 0];
      payload, msgOp := [], None;
    }

    /** `WsServer#receive_data` on an established connection. */
    method ReceiveBytes(data: seq<byte>)
      requires Valid()
      modifies this, buffer, connection, app, validator
      ensures View() == Feed(cfg, old(View()), data).rx
    {
      if !connection.open {
        return;
      }
      buffer.Append(data);
      ReceiveData();
    }

    /** The loop of `receive_data`: `while (case @state ...)`. */
    method ReceiveData()
      requires Valid()
      modifies this, buffer, connection, app, validator
      ensures View() == Run(cfg, old(View())).rx
    {
      var again := true;
      while again
        invariant again ==> Run(cfg, old(View())) == Run(cfg, View())
        invariant !again ==> View() == Run(cfg, old(View())).rx
        decreases again, Measure(View())
      {
        ghost var before := View();
        TurnProgress(cfg, before);
        again := OneTurn();
      }
    }

    ghost predicate TurnResult(t: Turn, before: Rx, again: bool)
      reads this, buffer, connection, app, validator
    {
      match t
      case Again(r) => again && View() == r
      case Starved => !again && View() == before
      case Shut(r) => !again && View() == r
      case Stall(r) => !again && View() == r
    }

    method OneTurn() returns (again: bool)
      requires Valid()
      modifies this, buffer, connection, app, validator
      ensures TurnResult(Turned(cfg, old(View())), old(View()), again)
    {
      match phase
      case Init => again := ReadHeader();
      case Length2 =>
        if |buffer.data| < 2 { return false; }
        var b := buffer.Read(2);
        payloadLength := U16(b);
        phase := MaskingKey;
        again := true;
      case Length8 => again := ReadLength8();
      case MaskingKey =>
        if |buffer.data| < 4 { return false; }
        maskingKey := buffer.Read(4);
        phase := CheckFrame;
        again := true;
      case CheckFrame => again := Check();
      case PayloadData =>
        if |buffer.data| < payloadLength { return false; }
        if payloadLength != 0 {
          var masked := buffer.Read(payloadLength);
          payload := UnmaskPayload(masked, maskingKey);
        } else {
          payload := [];
        }
        phase := ProcessFrame;
        again := true;
      case ProcessFrame => again := Process();
    }

    /** `@connection.close` and leaving the loop. */
    method Shut(status: nat, reason: Option<string>)
      requires Valid()
      modifies buffer, connection
      ensures ShutWith(old(View()), status, reason) == Turn.Shut(View()) && !connection.open
    {
      connection.Close(Some(status), reason);
    }

    method ReadHeader() returns (again: bool)
      requires Valid() && phase == Init
      modifies this, buffer, connection
      ensures TurnResult(Turned(cfg, old(View())), old(View()), again)
    {
      if |buffer.data| < 2 { return false; }
      var b1 := buffer.Read(1);
      var b2 := buffer.Read(1);
      assert buffer.data == old(buffer.data)[2..];
      again := ParseHeader(b1[0], b2[0]);
    }

    method ParseHeader(byte1: nat, byte2: nat) returns (again: bool)
      requires Valid()
      modifies this, buffer, connection
      ensures TurnResult(OnHeader(old(View()), byte1, byte2), old(View()), again)
    {
      hide ShutWith;
      fin := byte1 / 128 == 1;
      if byte1 / 16 % 8 != 0 {
        Shut(1002, Some("RSV bit set not supported"));
        return false;
      }
      if !IsOpcode(byte1 % 16) {
        Shut(1002, Some("unknown opcode=" + Decimal.Text(byte1 % 16)));
        return false;
      }
      op := byte1 % 16;
      if byte2 < 128 {
        Shut(1002, Some("MASK bit not set"));
        return false;
      }
      var length := byte2 % 128;
      if length == 127 {
        phase := Length8;
      } else if length == 126 {
        phase := Length2;
      } else {
        payloadLength := length;
        phase := MaskingKey;
      }
      payload := [];
      again := true;
    }

    method ReadLength8() returns (again: bool)
      requires Valid() && phase == Length8
      modifies this, buffer, connection
      ensures TurnResult(Turned(cfg, old(View())), old(View()), again)
    {
      hide ShutWith;
      if |buffer.data| < 8 { return false; }
      var high := buffer.Read(4);
      if U32(high) != 0 {
        Shut(1008, None);
        return false;
      }
      var low := buffer.Read(4);
      assert low == old(buffer.data)[4..8];
      payloadLength := U32(low);
      phase := MaskingKey;
      again := true;
    }

    /** State `:check_frame`. */
    method Check() returns (again: bool)
      requires Valid() && phase == CheckFrame
      modifies this, buffer, connection
      ensures TurnResult(Turned(cfg, old(View())), old(View()), again)
      ensures again <==> InPlace(old(Chan0()), fin, op, payloadLength) && payloadLength <= cfg.maxFrame
      ensures !again ==> !connection.open
    {
      hide ShutWith;
      var isControl, isData := op > 2, op == 1 || op == 2;
      if isControl && payloadLength > 125 {
        Shut(1002, None);
        return false;
      }
      if isControl && !fin {
        Shut(1002, Some("forbidden FIN=0 in control frame"));
        return false;
      }
      if op == 0 && msgOp.None? {
        Shut(1002, Some("invalid continuation frame received"));
        return false;
      }
      if msgOp.Some? && isData {
        Shut(1002, Some("expected a continuation frame"));
        return false;
      }
      if payloadLength > cfg.maxFrame {
        Shut(1009, Some("frame too big"));
        return false;
      }
      phase := PayloadData;
      again := true;
    }

    /** State `:process_frame`. */
    method Process() returns (again: bool)
      requires Valid() && phase == ProcessFrame
      modifies this, buffer, connection, app, validator
      ensures TurnResult(Turned(cfg, old(View())), old(View()), again)
    {
      phase := Init;
      var v := Go;
      hide OnFrame;
      ghost var before := Chan0();
      if op == 1 {
        v := ProcessText();
      } else if op == 2 {
        v := ProcessBinary();
      } else if op == 0 {
        v := ProcessContinuation();
      } else if op == 8 {
        v := ProcessClose();
      } else if op == 9 {
        v := ProcessPing();
      } else {
        PongIgnored(cfg, before, fin, payload);
      }
      again := v == Go;
    }

    /** Frame handlers change the channel, and the buffer only by closing. */
    twostate predicate Handled(v: Verdict, o: Opcode)
      reads this, buffer, connection, app, validator
    {
      && (Chan0(), v) == OnFrame(cfg, old(Chan0()), fin, o, payload)
      && buffer.data == Leftover(old(Chan0()), Chan0(), old(buffer.data))
      && phase == old(phase) && fin == old(fin) && op == old(op)
      && payloadLength == old(payloadLength) && maskingKey == old(maskingKey) && payload == old(payload)
    }

    /** `receive_payload_data` for a frame that has a payload, then `message_done` for a final one. */
    method TakePayload(tooBig: Verdict) returns (v: Verdict)
      requires Valid() && tooBig != Go
      modifies this, buffer, connection, app
      ensures (Chan0(), v) == Take(cfg, old(Chan0()), fin, payload, tooBig)
      ensures buffer.data == Leftover(old(Chan0()), Chan0(), old(buffer.data))
      ensures phase == old(phase) && fin == old(fin) && op == old(op)
      ensures payloadLength == old(payloadLength) && maskingKey == old(maskingKey) && payload == old(payload)
    {
      if payload != [] {
        var ok := app.ReceivePayloadData(payload);
        if !ok {
          if tooBig == Closed {
            connection.Close(Some(1009), Some("message too big"));
          }
          return tooBig;
        }
      } else {
        assert app.wsMessage + payload == app.wsMessage;
      }
      if fin {
        app.MessageDone(msgOp, payload == []);
        msgOp := None;
      }
      v := Go;
    }

    /** `@connection.close` from within a frame. */
    method FailFrame(reason: string)
      requires Valid()
      modifies buffer, connection
      ensures (Chan0(), Closed) == Fail(old(Chan0()), 1007, reason)
      ensures buffer.data == Leftover(old(Chan0()), Chan0(), old(buffer.data))
    {
      connection.Close(Some(1007), Some(reason));
    }

    method ProcessText() returns (v: Verdict)
      requires Valid()
      modifies this, buffer, connection, app, validator
      ensures Handled(v, 1)
    {
      hide Utf8.Run, Take, Fail;
      msgOp := Some(Text);
      validator.Reset();
      if payload != [] {
        var verdict := validator.Validate(payload);
        if verdict == Utf8.Invalid {
          FailFrame("single text frame contains invalid UTF-8");
          return Closed;
        }
        if fin && verdict != Utf8.Valid {
          FailFrame("single text frame contains incomplete UTF-8");
          return Closed;
        }
      } else {
        RunOfNothing(Utf8.ACCEPT);
      }
      v := TakePayload(Closed);
    }

    method ProcessBinary() returns (v: Verdict)
      requires Valid()
      modifies this, buffer, connection, app
      ensures Handled(v, 2)
    {
      msgOp := Some(Binary);
      v := TakePayload(Closed);
    }

    method ProcessContinuation() returns (v: Verdict)
      requires Valid()
      modifies this, buffer, connection, app, validator
      ensures Handled(v, 0)
    {
      hide Utf8.Run, Take, Fail;
      if payload != [] && msgOp == Some(Text) {
        var verdict := validator.Validate(payload);
        if verdict == Utf8.Invalid {
          FailFrame("continuation text frame contains invalid UTF-8");
          return Closed;
        }
        if fin && verdict != Utf8.Valid {
          FailFrame("continuation final text frame contains incomplete UTF-8");
          return Closed;
        }
      }
      v := TakePayload(Stalled);
    }

    method ProcessPing() returns (v: Verdict)
      requires Valid()
      modifies connection
      ensures Handled(v, 9)
    {
      connection.SendData(PongOut(payload));
      v := Go;
    }

    method ProcessClose() returns (v: Verdict)
      requires Valid()
      modifies this, buffer, connection, validator
      ensures Handled(v, 8) && v == Closed && !connection.open
    {
      if |payload| >= 2 {
        validator.Reset();
        var verdict := validator.Validate(payload[2..]);
        if verdict != Utf8.Valid {
          FailFrame("close frame reason contains incomplete UTF-8");
          return Closed;
        }
      }
      connection.Close(None, None);
      v := Closed;
    }
  }
}

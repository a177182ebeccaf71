/**
 The receive path of a WebSocket connection as functions on values: what one call of each
 piece of ws_framing.rb, ws_sip_app.rb and listeners/connection.rb does to the state.
 WsConnection.dfy holds the objects that are proved to behave so.
 */
module WsFrames {
  import opened Wrappers
  import opened Bytes
  import Decimal
  import Utf8

  type Opcode = o: nat | o in {0, 1, 2, 8, 9, 10}
  type Key = k: seq<byte> | |k| == 4 witness [0, 0, 0, 0]

  datatype Kind = Text | Binary

  /** A frame handed to the socket. */
  datatype Out =
    | TextOut(data: seq<byte>)
    | PongOut(data: seq<byte>)
    | CloseOut(status: Option<nat>, reason: Option<string>)

  /** A message handed to the SIP layer (kind is the symbol or nil given to `message_done`); emptyTail says that its final frame carried no payload. */
  datatype Delivery = Delivery(kind: Option<Kind>, data: seq<byte>, emptyTail: bool)

  /** What the SIP layer does with a message: texts it sends back, and whether it closes the connection. */
  datatype Reaction = Reaction(replies: seq<seq<byte>>, close: Option<(nat, string)>)

  /** The two size limits, and the SIP layer as a total function of all messages it was handed. */
  datatype Config = Config(maxFrame: nat, maxMessage: nat, app: seq<Delivery> -> Reaction)

  /** Connection, message under assembly (`@msg_sym_opcode`, `@ws_message`), validator and logs. */
  datatype Chan = Chan(open: bool, msg: Option<Kind>, utf8: Utf8.State, acc: seq<byte>,
                       delivered: seq<Delivery>, sent: seq<Out>)

  const FreshChan := Chan(true, None, Utf8.ACCEPT, [], [], [])

  function Unmask(payload: seq<byte>, key: Key): (r: seq<byte>)
    ensures |r| == |payload|
  {
    seq(|payload|, i requires 0 <= i < |payload| => Xor(payload[i], key[i % 4]))
  }

  lemma UnmaskTwice(payload: seq<byte>, key: Key)
    ensures Unmask(Unmask(payload, key), key) == payload
  {
    forall i | 0 <= i < |payload| ensures Unmask(Unmask(payload, key), key)[i] == payload[i] {
      XorTwice(payload[i], key[i % 4]);
    }
  }

  // ---- One complete frame ----

  datatype Verdict = Go | Closed | Stalled

  function CloseWith(c: Chan, status: Option<nat>, reason: Option<string>): Chan {
    if c.open then c.(open := false, sent := c.sent + [CloseOut(status, reason)]) else c
  }

  function Fail(c: Chan, status: nat, reason: string): (Chan, Verdict) {
    (CloseWith(c, Some(status), Some(reason)), Closed)
  }

  function Texts(replies: seq<seq<byte>>): seq<Out> {
    if replies == [] then [] else [TextOut(replies[0])] + Texts(replies[1..])
  }

  /** `message_done` and the reset of `@msg_sym_opcode` after it. */
  function Done(cfg: Config, c: Chan, emptyTail: bool): Chan {
    var log := c.delivered + [Delivery(c.msg, c.acc, emptyTail)];
    var r := cfg.app(log);
    var c1 := c.(delivered := log, sent := c.sent + Texts(r.replies));
    var c2 := if r.close.Some? then CloseWith(c1, Some(r.close.value.0), Some(r.close.value.1)) else c1;
    c2.(acc := [], msg := None)
  }

  /** `receive_payload_data`, and `message_done` when the frame is final. */
  function Take(cfg: Config, c: Chan, fin: bool, payload: seq<byte>, tooBig: Verdict): (Chan, Verdict) {
    var c1 := c.(acc := c.acc + payload);
    if payload != [] && |c1.acc| > cfg.maxMessage then
      if tooBig == Stalled then (c1, Stalled) else Fail(c1, 1009, "message too big")
    else if fin then (Done(cfg, c1, payload == []), Go)
    else (c1, Go)
  }

  /** The checks of state `:check_frame`: the status and reason it closes with. */
  function FrameError(cfg: Config, c: Chan, fin: bool, op: Opcode, len: nat): Option<(nat, Option<string>)> {
    if op > 2 && len > 125 then Some((1002, None))
    else if op > 2 && !fin then Some((1002, Some("forbidden FIN=0 in control frame")))
    else if op == 0 && c.msg.None? then Some((1002, Some("invalid continuation frame received")))
    else if c.msg.Some? && (op == 1 || op == 2) then Some((1002, Some("expected a continuation frame")))
    else if len > cfg.maxFrame then Some((1009, Some("frame too big")))
    else None
  }

  /** What section 5 of RFC 6455 demands of a frame at this point of a message: control frames whole and
      short, a continuation exactly when a message is open. */
  predicate InPlace(c: Chan, fin: bool, op: Opcode, len: nat) {
    && (op > 2 ==> fin && len <= 125)
    && (op == 0 ==> c.msg.Some?)
    && (op == 1 || op == 2 ==> c.msg.None?)
  }

  /** A frame passes exactly when it is in place and within the limit; a misplaced one closes with 1002,
      whatever its size, and 1009 is for frames in place that are too big. */
  lemma FrameErrorMeaning(cfg: Config, c: Chan, fin: bool, op: Opcode, len: nat)
    ensures var e := FrameError(cfg, c, fin, op, len);
      && (e.None? <==> InPlace(c, fin, op, len) && len <= cfg.maxFrame)
      && (e.Some? && e.value.0 == 1002 <==> !InPlace(c, fin, op, len))
      && (e.Some? && e.value.0 == 1009 <==> InPlace(c, fin, op, len) && len > cfg.maxFrame)
  {}

  /** State `:process_frame`. A frame without payload has `@payload` nil, here the empty sequence. */
  function OnFrame(cfg: Config, c: Chan, fin: bool, op: Opcode, payload: seq<byte>): (Chan, Verdict) {
    if op == 1 then
      var q := Utf8.Run(Utf8.ACCEPT, payload);
      var c1 := c.(msg := Some(Text), utf8 := q);
      if q == Utf8.REJECT then Fail(c1, 1007, "single text frame contains invalid UTF-8")
      else if fin && q != Utf8.ACCEPT then Fail(c1, 1007, "single text frame contains incomplete UTF-8")
      else Take(cfg, c1, fin, payload, Closed)
    else if op == 2 then
      Take(cfg, c.(msg := Some(Binary)), fin, payload, Closed)
    else if op == 0 then
      if payload != [] && c.msg == Some(Text) then
        var q := Utf8.Run(c.utf8, payload);
        var c1 := c.(utf8 := q);
        if q == Utf8.REJECT then Fail(c1, 1007, "continuation text frame contains invalid UTF-8")
        else if fin && q != Utf8.ACCEPT then
          Fail(c1, 1007, "continuation final text frame contains incomplete UTF-8")
        else Take(cfg, c1, fin, payload, Stalled)
      else Take(cfg, c, fin, payload, Stalled)
    else if op == 8 then
      if |payload| >= 2 then
        var q := Utf8.Run(Utf8.ACCEPT, payload[2..]);
        var c1 := c.(utf8 := q);
        if q != Utf8.ACCEPT then Fail(c1, 1007, "close frame reason contains incomplete UTF-8")
        else (CloseWith(c1, None, None), Closed)
      else (CloseWith(c, None, None), Closed)
    else if op == 9 then (c.(sent := c.sent + [PongOut(payload)]), Go)
    else (c, Go)
  }

  /** The buffer behind a frame: cleared if handling it closed the connection. */
  function Leftover(before: Chan, after: Chan, b: seq<byte>): seq<byte> {
    if before.open && !after.open then [] else b
  }

  // ---- The incremental decoder ----

  datatype Phase = Init | Length2 | Length8 | MaskingKey | CheckFrame | PayloadData | ProcessFrame

  datatype Header = Header(fin: bool, op: Opcode, len: nat, key: Key, payload: seq<byte>)

  datatype Rx = Rx(phase: Phase, buffer: seq<byte>, hdr: Header, chan: Chan)

  const FreshRx := Rx(Init, [], Header(false, 0, 0, [0, 0, 0, 0], []), FreshChan)

  /** One turn of the loop in `receive_data`: go on, wait for more bytes, or leave after closing or
      after an oversize continuation. */
  datatype Turn = Again(rx: Rx) | Starved | Shut(rx: Rx) | Stall(rx: Rx)

  function U16(b: seq<byte>): nat
    requires |b| == 2
  {
    var hi: nat := b[0];
    hi * 256 + b[1]
  }

  function U32(b: seq<byte>): nat
    requires |b| == 4
  {
    U16(b[..2]) * 65536 + U16(b[2..])
  }

  /** `@connection.close`: the close frame is sent and the shared buffer cleared. */
  function ShutWith(rx: Rx, status: nat, reason: Option<string>): Turn {
    Shut(rx.(buffer := if rx.chan.open then [] else rx.buffer, chan := CloseWith(rx.chan, Some(status), reason)))
  }

  predicate IsOpcode(n: nat) { n in {0, 1, 2, 8, 9, 10} }

  /** The two header bytes, already taken from the buffer of rx. */
  function OnHeader(rx: Rx, byte1: nat, byte2: nat): Turn {
    var rx1 := rx.(hdr := rx.hdr.(fin := byte1 / 128 == 1));
    if byte1 / 16 % 8 != 0 then ShutWith(rx1, 1002, Some("RSV bit set not supported"))
    else if !IsOpcode(byte1 % 16) then ShutWith(rx1, 1002, Some("unknown opcode=" + Decimal.Text(byte1 % 16)))
    else
      var rx2 := rx1.(hdr := rx1.hdr.(op := byte1 % 16));
      if byte2 < 128 then ShutWith(rx2, 1002, Some("MASK bit not set"))
      else
        var n := byte2 % 128;
        var hdr := rx2.hdr.(payload := []);
        if n == 127 then Again(rx2.(hdr := hdr, phase := Length8))
        else if n == 126 then Again(rx2.(hdr := hdr, phase := Length2))
        else Again(rx2.(hdr := hdr.(len := n), phase := MaskingKey))
  }

  function Turned(cfg: Config, rx: Rx): Turn {
    var b := rx.buffer;
    match rx.phase
    case Init =>
      if |b| < 2 then Starved else OnHeader(rx.(buffer := b[2..]), b[0], b[1])
    case Length2 =>
      if |b| < 2 then Starved
      else Again(rx.(buffer := b[2..], hdr := rx.hdr.(len := U16(b[..2])), phase := MaskingKey))
    case Length8 =>
      if |b| < 8 then Starved
      else if U32(b[..4]) != 0 then ShutWith(rx.(buffer := b[4..]), 1008, None)
      else Again(rx.(buffer := b[8..], hdr := rx.hdr.(len := U32(b[4..8])), phase := MaskingKey))
    case MaskingKey =>
      if |b| < 4 then Starved
      else Again(rx.(buffer := b[4..], hdr := rx.hdr.(key := b[..4]), phase := CheckFrame))
    case CheckFrame =>
      var e := FrameError(cfg, rx.chan, rx.hdr.fin, rx.hdr.op, rx.hdr.len);
      if e.Some? then ShutWith(rx, e.value.0, e.value.1) else Again(rx.(phase := PayloadData))
    case PayloadData =>
      if |b| < rx.hdr.len then Starved
      else Again(rx.(buffer := b[rx.hdr.len..], phase := ProcessFrame,
                     hdr := rx.hdr.(payload := Unmask(b[..rx.hdr.len], rx.hdr.key))))
    case ProcessFrame =>
      var (chan, verdict) := OnFrame(cfg, rx.chan, rx.hdr.fin, rx.hdr.op, rx.hdr.payload);
      var rx' := rx.(phase := Init, chan := chan, buffer := Leftover(rx.chan, chan, b));
      match verdict
      case Go => Again(rx')
      case Closed => Shut(rx')
      case Stalled => Stall(rx')
  }

  function Rank(p: Phase): nat {
    match p
    case Init => 0
    case ProcessFrame => 1
    case PayloadData => 2
    case CheckFrame => 3
    case _ => 4
  }

  function Measure(rx: Rx): nat { 5 * |rx.buffer| + Rank(rx.phase) }

  lemma TurnProgress(cfg: Config, rx: Rx)
    ensures Turned(cfg, rx).Again? ==> Measure(Turned(cfg, rx).rx) < Measure(rx)
  {}

  datatype End = End(rx: Rx, stalled: bool)

  /** The whole loop of one `receive_data` call. */
  function Run(cfg: Config, rx: Rx): End
    decreases Measure(rx)
  {
    match Turned(cfg, rx)
    case Again(rx') => TurnProgress(cfg, rx); Run(cfg, rx')
    case Starved => End(rx, false)
    case Shut(rx') => End(rx', false)
    case Stall(rx') => End(rx', true)
  }

  /** `WsServer#receive_data` on an established connection: data for an ignored one is dropped. */
  function Feed(cfg: Config, rx: Rx, data: seq<byte>): End {
    if rx.chan.open then Run(cfg, rx.(buffer := rx.buffer + data)) else End(rx, false)
  }

  function FeedAll(cfg: Config, rx: Rx, chunks: seq<seq<byte>>): Rx
    decreases |chunks|
  {
    if chunks == [] then rx else FeedAll(cfg, Feed(cfg, rx, chunks[0]).rx, chunks[1..])
  }
}

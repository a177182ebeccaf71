/** Wire form of frames, the encoders, and the decoding of whole frames. */
module WsWire {
  import opened Wrappers
  import opened Bytes
  import opened WsFrames

  datatype Frame = Frame(fin: bool, op: Opcode, payload: seq<byte>)

  datatype Form = Short | Medium | Long

  predicate Fits(form: Form, n: nat) {
    match form
    case Short => n <= 125
    case Medium => n < 0x1_0000
    case Long => n < 0x1_0000_0000
  }

  /** A frame as a client sends it: masked with some key, its length in some form that can hold it. */
  datatype Sealed = Sealed(frame: Frame, key: Key, form: Form)

  predicate Sealable(s: Sealed) { Fits(s.form, |s.frame.payload|) }

  function Two(n: nat): seq<byte>
    requires n < 0x1_0000
  {
    [n / 256, n % 256]
  }

  function Four(n: nat): seq<byte>
    requires n < 0x1_0000_0000
  {
    Two(n / 65536) + Two(n % 65536)
  }

  function LengthCode(form: Form, n: nat): (r: nat)
    requires Fits(form, n)
    ensures r <= 127
  {
    match form case Short => n case Medium => 126 case Long => 127
  }

  function LengthBytes(form: Form, n: nat): seq<byte>
    requires Fits(form, n)
  {
    match form
    case Short => []
    case Medium => Two(n)
    case Long => [0, 0, 0, 0] + Four(n)
  }

  function Byte1(f: Frame): byte { (if f.fin then 128 else 0) + f.op }

  function Wire(s: Sealed): seq<byte>
    requires Sealable(s)
  {
    var n := |s.frame.payload|;
    [Byte1(s.frame), 128 + LengthCode(s.form, n)]
      + (LengthBytes(s.form, n) + (s.key + Unmask(s.frame.payload, s.key)))
  }

  function WireAll(ss: seq<Sealed>): seq<byte>
    requires forall s :: s in ss ==> Sealable(s)
  {
    if ss == [] then [] else Wire(ss[0]) + WireAll(ss[1..])
  }

  // ---- Decoding one frame ----

  lemma U16OfTwo(n: nat)
    requires n < 0x1_0000
    ensures U16(Two(n)) == n
  {}

  lemma U32OfFour(n: nat)
    requires n < 0x1_0000_0000
    ensures U32(Four(n)) == n
  {
    var f := Four(n);
    assert f[..2] == Two(n / 65536) && f[2..] == Two(n % 65536);
    U16OfTwo(n / 65536);
    U16OfTwo(n % 65536);
  }

  lemma Cut<T>(a: seq<T>, b: seq<T>)
    ensures (a + b)[..|a|] == a && (a + b)[|a|..] == b
  {}

  /** The decoder after the two header bytes. */
  lemma HeaderTurn(cfg: Config, rx: Rx, f: Frame, code: nat, rest: seq<byte>)
    requires rx.phase == Init && code <= 127
    requires rx.buffer == [Byte1(f), 128 + code] + rest
    ensures var hdr := Header(f.fin, f.op, rx.hdr.len, rx.hdr.key, []);
      Turned(cfg, rx) == Again(
        if code == 127 then Rx(Length8, rest, hdr, rx.chan)
        else if code == 126 then Rx(Length2, rest, hdr, rx.chan)
        else Rx(MaskingKey, rest, hdr.(len := code), rx.chan))
  {
    var b := rx.buffer;
    Cut([Byte1(f), 128 + code], rest);
    assert b[2..] == rest;
    var byte1: nat := b[0];
    assert byte1 / 16 % 8 == 0 && byte1 % 16 == f.op && (byte1 / 128 == 1) == f.fin;
    var byte2: nat := b[1];
    assert byte2 % 128 == code;
  }

  /** The decoder after the length, whatever its form. */
  lemma LengthTurns(cfg: Config, rx: Rx, f: Frame, form: Form, n: nat, rest: seq<byte>)
    requires rx.phase == Init && Fits(form, n)
    requires rx.buffer == [Byte1(f), 128 + LengthCode(form, n)] + (LengthBytes(form, n) + rest)
    ensures Run(cfg, rx) == Run(cfg, Rx(MaskingKey, rest, Header(f.fin, f.op, n, rx.hdr.key, []), rx.chan))
  {
    var tail := LengthBytes(form, n) + rest;
    HeaderTurn(cfg, rx, f, LengthCode(form, n), tail);
    match form
    case Short =>
      assert tail == rest;
    case Medium =>
      var r := Rx(Length2, tail, Header(f.fin, f.op, rx.hdr.len, rx.hdr.key, []), rx.chan);
      Cut(Two(n), rest);
      U16OfTwo(n);
      assert Turned(cfg, r) == Again(Rx(MaskingKey, rest, r.hdr.(len := n), r.chan));
    case Long =>
      var r := Rx(Length8, tail, Header(f.fin, f.op, rx.hdr.len, rx.hdr.key, []), rx.chan);
      var zero: seq<byte> := [0, 0, 0, 0];
      assert tail[..4] == zero && tail[4..8] == Four(n) && tail[8..] == rest;
      assert U32(zero) == 0 by { assert zero[..2] == [0, 0] && zero[2..] == [0, 0]; }
      U32OfFour(n);
      assert Turned(cfg, r) == Again(Rx(MaskingKey, rest, r.hdr.(len := n), r.chan));
  }

  /** The outcome of a decoded frame, and the loop after it. */
  function AfterFrame(cfg: Config, c: Chan, hdr: Header, rest: seq<byte>): End {
    var (c', v) := OnFrame(cfg, c, hdr.fin, hdr.op, hdr.payload);
    var rx := Rx(Init, Leftover(c, c', rest), hdr, c');
    match v
    case Go => Run(cfg, rx)
    case Closed => End(rx, false)
    case Stalled => End(rx, true)
  }

  /** Whatever its length form and key, a frame in front of the buffer is decoded to its own
      fin bit, opcode and payload, and handed over as such. */
  lemma FrameDecoded(cfg: Config, rx: Rx, s: Sealed, rest: seq<byte>)
    requires rx.phase == Init && Sealable(s)
    requires rx.buffer == Wire(s) + rest
    requires FrameError(cfg, rx.chan, s.frame.fin, s.frame.op, |s.frame.payload|).None?
    ensures var f := s.frame;
      Run(cfg, rx) == AfterFrame(cfg, rx.chan, Header(f.fin, f.op, |f.payload|, s.key, f.payload), rest)
  {
    hide Run, AfterFrame, Byte1, LengthBytes, LengthCode, Unmask, FrameError;
    var f, n := s.frame, |s.frame.payload|;
    var afterLen := s.key + (Unmask(f.payload, s.key) + rest);
    assert rx.buffer == [Byte1(f), 128 + LengthCode(s.form, n)] + (LengthBytes(s.form, n) + afterLen);
    LengthTurns(cfg, rx, f, s.form, n, afterLen);
    KeyTurns(cfg, Rx(MaskingKey, afterLen, Header(f.fin, f.op, n, rx.hdr.key, []), rx.chan), f.payload, s.key, rest);
  }

  /** The decoder from the masking key to the unmasked payload. */
  lemma KeyTurns(cfg: Config, rx: Rx, payload: seq<byte>, key: Key, rest: seq<byte>)
    requires rx.phase == MaskingKey && rx.hdr.len == |payload|
    requires rx.buffer == key + (Unmask(payload, key) + rest)
    requires FrameError(cfg, rx.chan, rx.hdr.fin, rx.hdr.op, rx.hdr.len).None?
    ensures Run(cfg, rx) == AfterFrame(cfg, rx.chan, rx.hdr.(key := key, payload := payload), rest)
  {
    var masked := Unmask(payload, key);
    Cut(key, masked + rest);
    var r1 := Rx(CheckFrame, masked + rest, rx.hdr.(key := key), rx.chan);
    assert Turned(cfg, rx) == Again(r1);
    var r2 := r1.(phase := PayloadData);
    assert Turned(cfg, r1) == Again(r2);
    PayloadTurns(cfg, r2, payload, rest);
  }

  lemma PayloadTurns(cfg: Config, rx: Rx, payload: seq<byte>, rest: seq<byte>)
    requires rx.phase == PayloadData && rx.hdr.len == |payload|
    requires rx.buffer == Unmask(payload, rx.hdr.key) + rest
    ensures Run(cfg, rx) == AfterFrame(cfg, rx.chan, rx.hdr.(payload := payload), rest)
  {
    Cut(Unmask(payload, rx.hdr.key), rest);
    UnmaskTwice(payload, rx.hdr.key);
    var r := Rx(ProcessFrame, rest, rx.hdr.(payload := payload), rx.chan);
    assert Turned(cfg, rx) == Again(r);
    ProcessTurn(cfg, r);
  }

  lemma ProcessTurn(cfg: Config, rx: Rx)
    requires rx.phase == ProcessFrame
    ensures Run(cfg, rx) == AfterFrame(cfg, rx.chan, rx.hdr, rx.buffer)
  {
    var (c', v) := OnFrame(cfg, rx.chan, rx.hdr.fin, rx.hdr.op, rx.hdr.payload);
    var rx' := Rx(Init, Leftover(rx.chan, c', rx.buffer), rx.hdr, c');
    assert Turned(cfg, rx) == (match v case Go => Again(rx') case Closed => Shut(rx') case Stalled => Stall(rx'));
  }

  // ---- Frame sequences ----

  /** Frames handled one after the other; stops at the first that closes or stalls. */
  function Handle(cfg: Config, c: Chan, fs: seq<Frame>): (Chan, bool)
    decreases |fs|
  {
    if fs == [] then (c, true) else
    var f := fs[0];
    if !c.open || FrameError(cfg, c, f.fin, f.op, |f.payload|).Some? then (c, false) else
    var (c', v) := OnFrame(cfg, c, f.fin, f.op, f.payload);
    if v != Go then (c', false) else Handle(cfg, c', fs[1..])
  }

  function Frames(ss: seq<Sealed>): seq<Frame> {
    if ss == [] then [] else [ss[0].frame] + Frames(ss[1..])
  }

  /** Feeding the bytes of frames that can all be handled handles exactly those frames. */
  lemma {:induction false} FeedIsHandle(cfg: Config, rx: Rx, ss: seq<Sealed>)
    requires rx.phase == Init && forall s :: s in ss ==> Sealable(s)
    requires rx.buffer == WireAll(ss)
    requires Handle(cfg, rx.chan, Frames(ss)).1 && Handle(cfg, rx.chan, Frames(ss)).0.open
    ensures var e := Run(cfg, rx);
      !e.stalled && e.rx.chan == Handle(cfg, rx.chan, Frames(ss)).0 && e.rx.phase == Init && e.rx.buffer == []
    decreases |ss|
  {
    if ss != [] {
      var rest := WireAll(ss[1..]);
      var f := ss[0].frame;
      FrameDecoded(cfg, rx, ss[0], rest);
      assert Frames(ss)[1..] == Frames(ss[1..]);
      var (c', v) := OnFrame(cfg, rx.chan, f.fin, f.op, f.payload);
      OpenSoFar(cfg, c', Frames(ss[1..]));
      FeedIsHandle(cfg, Rx(Init, rest, Header(f.fin, f.op, |f.payload|, ss[0].key, f.payload), c'), ss[1..]);
    }
  }

  lemma OpenSoFar(cfg: Config, c: Chan, fs: seq<Frame>)
    requires Handle(cfg, c, fs).1 && Handle(cfg, c, fs).0.open
    ensures c.open
  {}

  // ---- The encoders ----

  /** `send_text_frame` (opcode 1) and `send_binary_frame` (opcode 2). */
  function EncodeData(op: Opcode, m: seq<byte>): seq<byte> {
    var n := |m|;
    [128 + op]
      + (if n <= 125 then [n]
         else if n < 65536 then [126] + Two(n)
         else [127] + (Four(n / 0x1_0000_0000 % 0x1_0000_0000) + Four(n % 0x1_0000_0000)))
      + m
  }

  /** What a client does to such a frame before sending it the other way (section 5.3 of RFC 6455):
      MASK bit set, key inserted behind the length, payload masked. */
  function MaskFrame(frame: seq<byte>, key: Key): seq<byte>
    requires |frame| >= 2 && frame[1] <= 127
    requires |frame| >= 2 + ExtraLength(frame[1])
  {
    var head := 2 + ExtraLength(frame[1]);
    var code: nat := frame[1];
    [frame[0], 128 + code] + frame[2..head] + key + Unmask(frame[head..], key)
  }

  function ExtraLength(code: nat): nat {
    if code == 126 then 2 else if code == 127 then 8 else 0
  }

  function FormOf(n: nat): Form {
    if n <= 125 then Short else if n < 65536 then Medium else Long
  }

  lemma EncodedParts(op: Opcode, m: seq<byte>)
    requires |m| < 0x1_0000_0000
    ensures var f, form := EncodeData(op, m), FormOf(|m|);
      var head := 2 + |LengthBytes(form, |m|)|;
      && Fits(form, |m|) && |f| >= head && f[0] == 128 + op && f[1] == LengthCode(form, |m|)
      && head == 2 + ExtraLength(f[1])
      && f[2..head] == LengthBytes(form, |m|) && f[head..] == m
  {
    var f, form := EncodeData(op, m), FormOf(|m|);
    var lb := LengthBytes(form, |m|);
    assert Four(0) == [0, 0, 0, 0];
    assert f == [128 + op, LengthCode(form, |m|)] + lb + m;
  }

  /** Encoding and then masking yields the wire form of the one-frame message. */
  lemma MaskedIsWire(op: Opcode, m: seq<byte>, key: Key)
    requires |m| < 0x1_0000_0000
    ensures var f := EncodeData(op, m);
      && |f| >= 2 && f[1] <= 127 && |f| >= 2 + ExtraLength(f[1])
      && Fits(FormOf(|m|), |m|)
      && MaskFrame(f, key) == Wire(Sealed(Frame(true, op, m), key, FormOf(|m|)))
  {
    EncodedParts(op, m);
  }
}

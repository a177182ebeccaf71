/** What single frames come to, over the bytes received: what closes a connection, and what follows a message. */
module WsOutcomes {
  import opened Wrappers
  import opened Bytes
  import Utf8
  import opened WsFrames
  import opened WsWire
  import opened WsReassembly
  import WsSafety

  /** Between frames on an open connection. */
  predicate Ready(rx: Rx) { rx.phase == Init && rx.buffer == [] && rx.chan.open }

  /** The connection ended: one close frame more was sent, nothing more was delivered, whatever was behind in
      the buffer is dropped, and later bytes are ignored. */
  ghost predicate ClosedWith(cfg: Config, before: Rx, after: End, status: Option<nat>) {
    && !after.stalled && !after.rx.chan.open && after.rx.buffer == []
    && after.rx.chan.delivered == before.chan.delivered
    && |after.rx.chan.sent| == |before.chan.sent| + 1
    && after.rx.chan.sent[..|before.chan.sent|] == before.chan.sent
    && (var o := after.rx.chan.sent[|before.chan.sent|]; o.CloseOut? && o.status == status)
    && (forall more :: Feed(cfg, after.rx, more).rx == after.rx)
  }

  lemma OneCloseMore(cfg: Config, before: Rx, after: End, status: Option<nat>, reason: Option<string>)
    requires !after.stalled && !after.rx.chan.open && after.rx.buffer == []
    requires after.rx.chan.delivered == before.chan.delivered
    requires after.rx.chan.sent == before.chan.sent + [CloseOut(status, reason)]
    ensures ClosedWith(cfg, before, after, status)
  {
    hide Run;
  }

  lemma FeedNow(cfg: Config, rx: Rx, data: seq<byte>)
    requires Ready(rx)
    ensures Feed(cfg, rx, data) == Run(cfg, rx.(buffer := data))
  {
    assert rx.buffer + data == data;
  }

  // ---- Close frames ----

  /** Whatever length form and key: a close frame is answered with one close frame and ends the connection, with
      status 1007 if its reason is not UTF-8. */
  lemma CloseFrameCloses(cfg: Config, rx: Rx, p: seq<byte>, key: Key, form: Form, rest: seq<byte>)
    requires Ready(rx) && Fits(form, |p|) && |p| <= 125 && |p| <= cfg.maxFrame
    ensures ClosedWith(cfg, rx, Feed(cfg, rx, Wire(Sealed(Frame(true, 8, p), key, form)) + rest),
                       if |p| < 2 || Utf8.WellFormed(p[2..]) then None else Some(1007))
  {
    hide Wire, Run;
    var s := Sealed(Frame(true, 8, p), key, form);
    FeedNow(cfg, rx, Wire(s) + rest);
    FrameDecoded(cfg, rx.(buffer := Wire(s) + rest), s, rest);
    if |p| >= 2 { Utf8.AcceptsExactlyWellFormed(p[2..]); }
    var after := AfterFrame(cfg, rx.chan, Header(true, 8, |p|, key, p), rest);
    CloseHandled(cfg, rx, p, key, rest);
    OneCloseMore(cfg, rx, after, after.rx.chan.sent[|rx.chan.sent|].status, after.rx.chan.sent[|rx.chan.sent|].reason);
  }

  lemma CloseHandled(cfg: Config, rx: Rx, p: seq<byte>, key: Key, rest: seq<byte>)
    requires rx.chan.open
    ensures var after := AfterFrame(cfg, rx.chan, Header(true, 8, |p|, key, p), rest);
      && !after.stalled && !after.rx.chan.open && after.rx.buffer == []
      && after.rx.chan.delivered == rx.chan.delivered
      && after.rx.chan.sent == rx.chan.sent + [
        if |p| < 2 || Utf8.Run(Utf8.ACCEPT, p[2..]) == Utf8.ACCEPT then CloseOut(None, None)
        else CloseOut(Some(1007), Some("close frame reason contains incomplete UTF-8"))]
  {
    hide Utf8.Run, Run;
  }

  // ---- Headers ----

  /** RSV bits clear, an opcode of section 5.2 of RFC 6455, and masked. */
  predicate GoodHeader(byte1: byte, byte2: byte) {
    byte1 / 16 % 8 == 0 && (byte1 % 16 <= 2 || 8 <= byte1 % 16 <= 10) && byte2 >= 128
  }

  /** A bad header closes with 1002, whatever follows. */
  lemma BadHeaderCloses(cfg: Config, rx: Rx, byte1: byte, byte2: byte, rest: seq<byte>)
    requires Ready(rx) && !GoodHeader(byte1, byte2)
    ensures ClosedWith(cfg, rx, Feed(cfg, rx, [byte1, byte2] + rest), Some(1002))
  {
    var data := [byte1, byte2] + rest;
    FeedNow(cfg, rx, data);
    assert data[2..] == rest && data[0] == byte1 && data[1] == byte2;
    var r := rx.(buffer := data);
    var t := Turned(cfg, r);
    assert t.Shut? && Run(cfg, r) == End(t.rx, false);
    var last := t.rx.chan.sent[|rx.chan.sent|];
    OneCloseMore(cfg, rx, End(t.rx, false), last.status, last.reason);
  }

  /** A good one alone changes nothing that the peer or the SIP layer could see. */
  lemma GoodHeaderWaits(cfg: Config, rx: Rx, byte1: byte, byte2: byte)
    requires Ready(rx) && GoodHeader(byte1, byte2)
    ensures Feed(cfg, rx, [byte1, byte2]).rx.chan == rx.chan && !Feed(cfg, rx, [byte1, byte2]).stalled
  {
    var data := [byte1, byte2];
    FeedNow(cfg, rx, data);
    assert data[2..] == [];
    var r := rx.(buffer := data);
    var t := Turned(cfg, r);
    assert t.Again? && t.rx.chan == rx.chan && t.rx.buffer == [];
    assert Turned(cfg, t.rx).Starved?;
  }

  /** A length of 4 GB or more closes with 1008. */
  lemma HugeFrameCloses(cfg: Config, rx: Rx, byte1: byte, length: seq<byte>, rest: seq<byte>)
    requires Ready(rx) && GoodHeader(byte1, 255) && |length| == 8 && length[..4] != [0, 0, 0, 0]
    ensures ClosedWith(cfg, rx, Feed(cfg, rx, [byte1, 255] + (length + rest)), Some(1008))
  {
    var data := [byte1, 255] + (length + rest);
    FeedNow(cfg, rx, data);
    assert data[2..] == length + rest && data[0] == byte1 && data[1] == 255;
    var r := rx.(buffer := data);
    var t := Turned(cfg, r);
    assert t.Again? && t.rx.phase == Length8 && t.rx.chan == rx.chan && t.rx.buffer == length + rest;
    assert (length + rest)[..4] == length[..4];
    NonZero32(length[..4]);
    var u := Turned(cfg, t.rx);
    assert u.Shut? && Run(cfg, t.rx) == End(u.rx, false);
    var last := u.rx.chan.sent[|rx.chan.sent|];
    OneCloseMore(cfg, rx, End(u.rx, false), last.status, last.reason);
  }

  lemma NonZero32(b: seq<byte>)
    requires |b| == 4 && b != [0, 0, 0, 0]
    ensures U32(b) != 0
  {
    assert b[..2] == [b[0], b[1]] && b[2..] == [b[2], b[3]];
  }

  // ---- Frames out of place ----

  /** A frame out of place closes with 1002, one in place but beyond the frame limit with 1009; its payload is
      never looked at. */
  lemma MisplacedFrameCloses(cfg: Config, rx: Rx, s: Sealed, rest: seq<byte>)
    requires Ready(rx) && Sealable(s)
    requires !InPlace(rx.chan, s.frame.fin, s.frame.op, |s.frame.payload|) || |s.frame.payload| > cfg.maxFrame
    ensures ClosedWith(cfg, rx, Feed(cfg, rx, Wire(s) + rest),
                       if InPlace(rx.chan, s.frame.fin, s.frame.op, |s.frame.payload|) then Some(1009) else Some(1002))
  {
    hide Run, LengthBytes, LengthCode, Byte1, Unmask, FrameError, InPlace;
    var f, n := s.frame, |s.frame.payload|;
    var afterLen := s.key + (Unmask(f.payload, s.key) + rest);
    var data := Wire(s) + rest;
    assert data == [Byte1(f), 128 + LengthCode(s.form, n)] + (LengthBytes(s.form, n) + afterLen);
    FeedNow(cfg, rx, data);
    LengthTurns(cfg, rx.(buffer := data), f, s.form, n, afterLen);
    var hdr := Header(f.fin, f.op, n, rx.hdr.key, []);
    FrameErrorMeaning(cfg, rx.chan, f.fin, f.op, n);
    CheckCloses(cfg, Rx(MaskingKey, afterLen, hdr, rx.chan), s.key, Unmask(f.payload, s.key) + rest);
    var e := FrameError(cfg, rx.chan, f.fin, f.op, n).value;
    OneCloseMore(cfg, rx, Feed(cfg, rx, data), Some(e.0), e.1);
    OnlyTwoErrors(cfg, rx.chan, f.fin, f.op, n);
  }

  lemma OnlyTwoErrors(cfg: Config, c: Chan, fin: bool, op: Opcode, n: nat)
    ensures var e := FrameError(cfg, c, fin, op, n); e.Some? ==> e.value.0 in {1002, 1009}
  {}

  lemma CheckCloses(cfg: Config, rx: Rx, key: Key, behind: seq<byte>)
    requires rx.phase == MaskingKey && rx.buffer == key + behind && rx.chan.open
    requires FrameError(cfg, rx.chan, rx.hdr.fin, rx.hdr.op, rx.hdr.len).Some?
    ensures var e := FrameError(cfg, rx.chan, rx.hdr.fin, rx.hdr.op, rx.hdr.len).value; var after := Run(cfg, rx);
      && !after.stalled && !after.rx.chan.open && after.rx.buffer == []
      && after.rx.chan == rx.chan.(open := false, sent := rx.chan.sent + [CloseOut(Some(e.0), e.1)])
  {
    hide FrameError;
    Cut(key, behind);
    var r1 := Rx(CheckFrame, behind, rx.hdr.(key := key), rx.chan);
    assert Turned(cfg, rx) == Again(r1);
    var t := Turned(cfg, r1);
    assert t.Shut? && Run(cfg, r1) == End(t.rx, false);
  }

  // ---- Text that is not UTF-8, and messages too big ----

  /** No continuation makes the text well-formed, or none is to come and it is not. */
  ghost predicate BadText(text: seq<byte>, fin: bool) {
    (forall t :: !Utf8.WellFormed(text + t)) || (fin && !Utf8.WellFormed(text))
  }

  lemma BadTextMeaning(text: seq<byte>, fin: bool)
    ensures BadText(text, fin) <==>
      Utf8.Run(Utf8.ACCEPT, text) == Utf8.REJECT || (fin && Utf8.Run(Utf8.ACCEPT, text) != Utf8.ACCEPT)
  {
    Utf8.NotRejectedIffExtensible(text);
    Utf8.AcceptsExactlyWellFormed(text);
  }

  /** One close frame was sent, with this status, and nothing delivered. */
  predicate Failed(before: Chan, after: Chan, status: nat) {
    && !after.open && after.delivered == before.delivered
    && |after.sent| == |before.sent| + 1 && after.sent[..|before.sent|] == before.sent
    && (var o := after.sent[|before.sent|]; o.CloseOut? && o.status == Some(status))
  }

  lemma AfterFailure(cfg: Config, rx: Rx, hdr: Header, rest: seq<byte>, status: nat)
    requires rx.chan.open
    requires var (c', v) := OnFrame(cfg, rx.chan, hdr.fin, hdr.op, hdr.payload);
      v == Closed && Failed(rx.chan, c', status)
    ensures ClosedWith(cfg, rx, AfterFrame(cfg, rx.chan, hdr, rest), Some(status))
  {
    hide OnFrame, Run;
    var (c', v) := OnFrame(cfg, rx.chan, hdr.fin, hdr.op, hdr.payload);
    OneCloseMore(cfg, rx, AfterFrame(cfg, rx.chan, hdr, rest), Some(status), c'.sent[|rx.chan.sent|].reason);
  }

  lemma FailFails(before: Chan, c: Chan, status: nat, reason: string)
    requires c.open && c.delivered == before.delivered && c.sent == before.sent
    ensures var (c', v) := Fail(c, status, reason); v == Closed && Failed(before, c', status)
  {}

  /** A text frame, or a continuation with payload, that spoils the text closes with 1007: the message is never
      delivered. */
  lemma BadTextCloses(cfg: Config, rx: Rx, fin: bool, p: seq<byte>, key: Key, form: Form, rest: seq<byte>)
    requires Ready(rx) && WsSafety.Sound(rx.chan) && Fits(form, |p|) && p != [] && |p| <= cfg.maxFrame
    requires rx.chan.msg != Some(Binary) && BadText(rx.chan.acc + p, fin)
    ensures var op := if rx.chan.msg == None then 1 else 0;
      ClosedWith(cfg, rx, Feed(cfg, rx, Wire(Sealed(Frame(fin, op, p), key, form)) + rest), Some(1007))
  {
    hide Wire, Run, Utf8.Run, Take, AfterFrame, ClosedWith;
    var c, op := rx.chan, if rx.chan.msg == None then 1 else 0;
    var s := Sealed(Frame(fin, op, p), key, form);
    FeedNow(cfg, rx, Wire(s) + rest);
    FrameDecoded(cfg, rx.(buffer := Wire(s) + rest), s, rest);
    BadTextMeaning(c.acc + p, fin);
    Utf8.RunConcat(Utf8.ACCEPT, c.acc, p);
    if c.msg == None { assert c.acc + p == p; } else { match c.msg.value { case Text => case Binary => } }
    TextFails(cfg, c, fin, p);
    AfterFailure(cfg, rx, Header(fin, op, |p|, key, p), rest, 1007);
  }

  lemma TextFails(cfg: Config, c: Chan, fin: bool, p: seq<byte>)
    requires c.open && p != [] && c.msg != Some(Binary)
    requires var q := Utf8.Run(if c.msg == None then Utf8.ACCEPT else c.utf8, p);
      q == Utf8.REJECT || (fin && q != Utf8.ACCEPT)
    ensures var (c', v) := OnFrame(cfg, c, fin, if c.msg == None then 1 else 0, p); v == Closed && Failed(c, c', 1007)
  {
    hide Utf8.Run, Take, Fail, Failed;
    if c.msg == None {
      var c1 := c.(msg := Some(Text), utf8 := Utf8.Run(Utf8.ACCEPT, p));
      FailFails(c, c1, 1007, "single text frame contains invalid UTF-8");
      FailFails(c, c1, 1007, "single text frame contains incomplete UTF-8");
    } else {
      match c.msg.value { case Text => case Binary => }
      var c1 := c.(utf8 := Utf8.Run(c.utf8, p));
      FailFails(c, c1, 1007, "continuation text frame contains invalid UTF-8");
      FailFails(c, c1, 1007, "continuation final text frame contains incomplete UTF-8");
    }
  }

  /** A first frame that alone exceeds the message limit closes with 1009. */
  lemma BigMessageCloses(cfg: Config, rx: Rx, kind: Kind, fin: bool, p: seq<byte>, key: Key, form: Form, rest: seq<byte>)
    requires Ready(rx) && WsSafety.Sound(rx.chan) && rx.chan.msg == None
    requires Fits(form, |p|) && cfg.maxMessage < |p| <= cfg.maxFrame && (kind == Text ==> !BadText(p, fin))
    ensures var op := if kind == Text then 1 else 2;
      ClosedWith(cfg, rx, Feed(cfg, rx, Wire(Sealed(Frame(fin, op, p), key, form)) + rest), Some(1009))
  {
    hide Wire, Run, Utf8.Run, AfterFrame, ClosedWith, Done;
    var c, op := rx.chan, if kind == Text then 1 else 2;
    var s := Sealed(Frame(fin, op, p), key, form);
    FeedNow(cfg, rx, Wire(s) + rest);
    FrameDecoded(cfg, rx.(buffer := Wire(s) + rest), s, rest);
    BadTextMeaning(p, fin);
    assert c.acc + p == p;
    var (c', v) := OnFrame(cfg, c, fin, op, p);
    assert c'.sent == c.sent + [CloseOut(Some(1009), Some("message too big"))];
    AfterFailure(cfg, rx, Header(fin, op, |p|, key, p), rest, 1009);
  }

  // ---- Messages ----

  /** The message was handed over once; then came the SIP layer's replies in order, and its close frame if it closed. */
  predicate Handled(cfg: Config, before: Chan, after: Chan, d: Delivery) {
    var r, n := cfg.app(before.delivered + [d]), |before.sent|;
    && after.delivered == before.delivered + [d] && after.msg == None && after.acc == []
    && (after.open <==> r.close.None?)
    && |after.sent| == n + |r.replies| + (if r.close.Some? then 1 else 0) && after.sent[..n] == before.sent
    && (forall i :: 0 <= i < |r.replies| ==> after.sent[n + i] == TextOut(r.replies[i]))
    && (r.close.Some? ==> after.sent[n + |r.replies|] == CloseOut(Some(r.close.value.0), Some(r.close.value.1)))
  }

  lemma {:induction false} TextsEach(replies: seq<seq<byte>>)
    ensures |Texts(replies)| == |replies|
    ensures forall i :: 0 <= i < |replies| ==> Texts(replies)[i] == TextOut(replies[i])
  {
    if replies != [] {
      TextsEach(replies[1..]);
      forall i | 0 < i < |replies| ensures Texts(replies)[i] == TextOut(replies[i]) {
        assert replies[1..][i - 1] == replies[i];
      }
    }
  }

  lemma DoneHandled(cfg: Config, before: Chan, c: Chan, d: Delivery)
    requires c.open && c.delivered == before.delivered && c.sent == before.sent && d == Delivery(c.msg, c.acc, d.emptyTail)
    ensures Handled(cfg, before, Done(cfg, c, d.emptyTail), d)
  {
    hide Texts;
    TextsEach(cfg.app(c.delivered + [d]).replies);
  }

  /** The final frame of a message that is well-formed and not too big, alone or after fragments. */
  lemma MessageAnswered(cfg: Config, rx: Rx, kind: Kind, p: seq<byte>, key: Key, form: Form)
    requires Ready(rx) && Fits(form, |p|) && |p| <= cfg.maxFrame && |rx.chan.acc + p| <= cfg.maxMessage
    requires if rx.chan.msg == None then rx.chan.acc == [] else rx.chan.msg == Some(kind)
    requires rx.chan.msg == Some(Text) ==> rx.chan.utf8 == Utf8.Run(Utf8.ACCEPT, rx.chan.acc)
    requires kind == Text && (p != [] || rx.chan.msg == None) ==> Utf8.WellFormed(rx.chan.acc + p)
    ensures var op := if rx.chan.msg == None then KindOp(kind) else 0;
            var after := Feed(cfg, rx, Wire(Sealed(Frame(true, op, p), key, form)));
      !after.stalled && after.rx.buffer == []
      && Handled(cfg, rx.chan, after.rx.chan, Delivery(Some(kind), rx.chan.acc + p, p == []))
  {
    hide Wire, Run, Utf8.Run, Utf8.WellFormed, Handled, Done;
    var c, op := rx.chan, if rx.chan.msg == None then KindOp(kind) else 0;
    var s := Sealed(Frame(true, op, p), key, form);
    var data := Wire(s);
    assert data + [] == data;
    FeedNow(cfg, rx, data);
    FrameDecoded(cfg, rx.(buffer := data), s, []);
    Utf8.AcceptsExactlyWellFormed(c.acc + p);
    Utf8.RunConcat(Utf8.ACCEPT, c.acc, p);
    assert c.msg == None ==> c.acc + p == p;
    var hdr := Header(true, op, |p|, key, p);
    FinalHandled(cfg, c, kind, p);
    NothingMore(cfg, Rx(Init, [], hdr, OnFrame(cfg, c, true, op, p).0));
  }

  lemma NothingMore(cfg: Config, rx: Rx)
    requires rx.phase == Init && rx.buffer == []
    ensures Run(cfg, rx) == End(rx, false)
  {}

  lemma FinalHandled(cfg: Config, c: Chan, kind: Kind, p: seq<byte>)
    requires c.open && |c.acc + p| <= cfg.maxMessage
    requires if c.msg == None then c.acc + p == p else c.msg == Some(kind)
    requires kind == Text && (p != [] || c.msg == None) ==>
      Utf8.Run(if c.msg == None then Utf8.ACCEPT else c.utf8, p) == Utf8.ACCEPT
    ensures var (c', v) := OnFrame(cfg, c, true, if c.msg == None then KindOp(kind) else 0, p);
      v == Go && Handled(cfg, c, c', Delivery(Some(kind), c.acc + p, p == []))
  {
    hide Utf8.Run, Handled, Done;
    var q := Utf8.Run(if c.msg == None then Utf8.ACCEPT else c.utf8, p);
    var c1 := if kind == Binary || (p == [] && c.msg != None) then c.(msg := Some(kind), acc := c.acc + p)
              else c.(msg := Some(kind), utf8 := q, acc := c.acc + p);
    DoneHandled(cfg, c, c1, Delivery(Some(kind), c.acc + p, p == []));
  }
}

/** What holds of every stream of bytes, legal or not, and the round trip of the encoders. */
module WsSafety {
  import opened Wrappers
  import opened Bytes
  import Utf8
  import opened WsFrames
  import opened WsWire
  import opened WsReassembly
  import WsCuts

  // ---- Text is UTF-8 ----

  predicate GoodText(d: Delivery) {
    d.kind == Some(Text) ==>
      && Utf8.Run(Utf8.ACCEPT, d.data) != Utf8.REJECT
      && (!d.emptyTail ==> Utf8.WellFormed(d.data))
  }

  /** The validator has seen exactly the text under assembly, and has not rejected it. */
  predicate Sound(c: Chan) {
    && (forall d :: d in c.delivered ==> GoodText(d))
    && (c.open && c.msg == None ==> c.acc == [])
    && (c.open && c.msg == Some(Text) ==> c.utf8 == Utf8.Run(Utf8.ACCEPT, c.acc) && c.utf8 != Utf8.REJECT)
  }

  lemma DoneSound(cfg: Config, c: Chan, emptyTail: bool)
    requires Sound(c) && c.open
    requires c.msg == Some(Text) && !emptyTail ==> c.utf8 == Utf8.ACCEPT
    ensures Sound(Done(cfg, c, emptyTail))
  {
    if c.msg == Some(Text) {
      Utf8.AcceptsExactlyWellFormed(c.acc);
    }
  }

  lemma TakeSound(cfg: Config, c: Chan, c1: Chan, fin: bool, payload: seq<byte>, tooBig: Verdict)
    requires c.open && Sound(c.(acc := c.acc + payload))
    requires c.msg == Some(Text) && fin && payload != [] ==> c.utf8 == Utf8.ACCEPT
    requires c1 == Take(cfg, c, fin, payload, tooBig).0
    ensures Sound(c1)
  {
    var c2 := c.(acc := c.acc + payload);
    if fin && !(payload != [] && |c2.acc| > cfg.maxMessage) {
      DoneSound(cfg, c2, payload == []);
    }
  }

  lemma FrameSound(cfg: Config, c: Chan, fin: bool, op: Opcode, payload: seq<byte>)
    requires Sound(c) && c.open
    requires FrameError(cfg, c, fin, op, |payload|).None?
    ensures Sound(OnFrame(cfg, c, fin, op, payload).0)
  {
    hide Utf8.Run, Utf8.WellFormed, Take;
    var c' := OnFrame(cfg, c, fin, op, payload).0;
    if op == 1 {
      var q := Utf8.Run(Utf8.ACCEPT, payload);
      if q != Utf8.REJECT && !(fin && q != Utf8.ACCEPT) {
        assert c.acc + payload == payload;
        TakeSound(cfg, c.(msg := Some(Text), utf8 := q), c', fin, payload, Closed);
      }
    } else if op == 2 {
      TakeSound(cfg, c.(msg := Some(Binary)), c', fin, payload, Closed);
    } else if op == 0 {
      ContinuationSound(cfg, c, fin, payload);
    }
  }

  lemma ContinuationSound(cfg: Config, c: Chan, fin: bool, payload: seq<byte>)
    requires Sound(c) && c.open && c.msg.Some?
    ensures Sound(OnFrame(cfg, c, fin, 0, payload).0)
  {
    hide Utf8.Run, Utf8.WellFormed, Take;
    var c' := OnFrame(cfg, c, fin, 0, payload).0;
    if payload != [] && c.msg == Some(Text) {
      var q := Utf8.Run(c.utf8, payload);
      Utf8.RunConcat(Utf8.ACCEPT, c.acc, payload);
      if q != Utf8.REJECT && !(fin && q != Utf8.ACCEPT) {
        TakeSound(cfg, c.(utf8 := q), c', fin, payload, Stalled);
      }
    } else {
      assert payload == [] ==> c.acc + payload == c.acc;
      TakeSound(cfg, c, c', fin, payload, Stalled);
    }
  }

  /** The decoder hands a frame over only as it passed the checks of `:check_frame`. */
  predicate Checked(cfg: Config, rx: Rx) {
    && (rx.phase in {PayloadData, ProcessFrame} ==>
          FrameError(cfg, rx.chan, rx.hdr.fin, rx.hdr.op, rx.hdr.len).None?)
    && (rx.phase == ProcessFrame ==> |rx.hdr.payload| == rx.hdr.len)
    && Sound(rx.chan)
  }

  lemma CloseSound(c: Chan, status: Option<nat>, reason: Option<string>)
    requires Sound(c)
    ensures Sound(CloseWith(c, status, reason))
  {}

  lemma HeaderSound(cfg: Config, rx: Rx, byte1: nat, byte2: nat)
    requires Sound(rx.chan) && rx.phase == Init
    ensures match OnHeader(rx, byte1, byte2)
      case Again(r) => Checked(cfg, r)
      case Shut(r) => Sound(r.chan)
      case _ => false
  {
    hide Sound, FrameError;
    forall status, reason ensures Sound(CloseWith(rx.chan, status, reason)) { CloseSound(rx.chan, status, reason); }
  }

  lemma TurnSound(cfg: Config, rx: Rx)
    requires Checked(cfg, rx) && rx.chan.open
    ensures match Turned(cfg, rx)
      case Again(r) => Checked(cfg, r)
      case Shut(r) => Sound(r.chan)
      case Stall(r) => Checked(cfg, r)
      case Starved => true
  {
    hide Utf8.Run, Utf8.WellFormed, OnFrame, OnHeader, Sound, U16, U32;
    forall status, reason ensures Sound(CloseWith(rx.chan, status, reason)) { CloseSound(rx.chan, status, reason); }
    match rx.phase
    case ProcessFrame =>
      FrameSound(cfg, rx.chan, rx.hdr.fin, rx.hdr.op, rx.hdr.payload);
    case Init =>
      var b := rx.buffer;
      if |b| >= 2 { HeaderSound(cfg, rx.(buffer := b[2..]), b[0], b[1]); }
    case _ =>
  }

  lemma {:induction false} RunSound(cfg: Config, rx: Rx)
    requires Checked(cfg, rx) && rx.chan.open
    ensures var e := Run(cfg, rx); Sound(e.rx.chan) && (e.rx.chan.open ==> Checked(cfg, e.rx))
    decreases Measure(rx)
  {
    hide Sound, Utf8.Run, OnFrame;
    TurnSound(cfg, rx);
    match Turned(cfg, rx)
    case Again(r) =>
      TurnProgress(cfg, rx);
      if r.chan.open {
        RunSound(cfg, r);
      } else {
        WsCuts.ClosedTurn(cfg, rx);
        assert Sound(r.chan);
      }
    case Shut(r) =>
      WsCuts.RunPlus(cfg, rx, []);
    case _ =>
  }

  /** Whatever bytes arrive in whatever pieces, every delivered text whose final frame had a payload
      is well-formed UTF-8 as a whole, and every other delivered text is a beginning of one. */
  lemma {:induction false} DeliveredTextIsUtf8(cfg: Config, rx: Rx, chunks: seq<seq<byte>>)
    requires Checked(cfg, rx)
    ensures forall d :: d in FeedAll(cfg, rx, chunks).chan.delivered && d.kind == Some(Text) ==>
      && (!d.emptyTail ==> Utf8.WellFormed(d.data))
      && exists t :: Utf8.WellFormed(d.data + t)
    decreases |chunks|
  {
    if chunks == [] || !rx.chan.open {
      IgnoredFeeds(cfg, rx, chunks);
      forall d | d in rx.chan.delivered && d.kind == Some(Text)
        ensures exists t :: Utf8.WellFormed(d.data + t)
      {
        assert GoodText(d);
        Utf8.NotRejectedIffExtensible(d.data);
      }
    } else {
      var r := rx.(buffer := rx.buffer + chunks[0]);
      RunSound(cfg, r);
      var e := Feed(cfg, rx, chunks[0]);
      if e.rx.chan.open {
        DeliveredTextIsUtf8(cfg, e.rx, chunks[1..]);
      } else {
        IgnoredFeeds(cfg, e.rx, chunks[1..]);
        DeliveredTextIsUtf8(cfg, e.rx.(phase := Init), []);
      }
    }
  }

  lemma {:induction false} IgnoredFeeds(cfg: Config, rx: Rx, chunks: seq<seq<byte>>)
    requires chunks == [] || !rx.chan.open
    ensures FeedAll(cfg, rx, chunks) == rx
    decreases |chunks|
  {
    if chunks != [] {
      IgnoredFeeds(cfg, rx, chunks[1..]);
    }
  }

  /** The branch that skips the completeness test: a final continuation without payload delivers the
      text as it stands, and that text is UTF-8 if and only if the validator was in ACCEPT. */
  lemma EmptyFinalContinuation(cfg: Config, c: Chan)
    requires Sound(c) && c.open && c.msg == Some(Text)
    ensures FrameError(cfg, c, true, 0, 0).None?
    ensures var (c', v) := OnFrame(cfg, c, true, 0, []);
      v == Go && c'.delivered == c.delivered + [Delivery(Some(Text), c.acc, true)]
    ensures Utf8.WellFormed(c.acc) <==> c.utf8 == Utf8.ACCEPT
  {
    Utf8.AcceptsExactlyWellFormed(c.acc);
    assert c.acc + [] == c.acc;
  }

  /** So the promise "delivered text is UTF-8" fails on the two frames (text, C3) and (FIN, nothing). */
  lemma IncompleteTextDelivered(cfg: Config)
    requires cfg.maxFrame >= 1 && cfg.maxMessage >= 1
    ensures var (c, ok) := Handle(cfg, FreshChan, [Frame(false, 1, [0xC3]), Frame(true, 0, [])]);
      ok && c.delivered == [Delivery(Some(Text), [0xC3], true)]
    ensures !Utf8.WellFormed([0xC3])
  {
    var f, g := Frame(false, 1, [0xC3]), Frame(true, 0, []);
    Utf8.NextMeaning(Utf8.ACCEPT, 0xC3);
    assert [0xC3 as byte][1..] == [];
    assert Utf8.Run(Utf8.ACCEPT, [0xC3]) == 2;
    var c1 := FreshChan.(msg := Some(Text), utf8 := 2, acc := [0xC3]);
    assert OnFrame(cfg, FreshChan, false, 1, [0xC3]) == (c1, Go) by { assert [] + [0xC3 as byte] == [0xC3]; }
    Utf8.AcceptsExactlyWellFormed([0xC3]);
    EmptyFinalContinuation(cfg, c1);
    assert [f, g][1..] == [g] && [g][1..] == [];
  }

  // ---- Cuts and the oversize continuation ----

  const ZeroKey: Key := [0, 0, 0, 0]

  /** An open connection with a binary message at its size limit. */
  function Full(m: seq<byte>): Chan { FreshChan.(msg := Some(Binary), acc := m) }

  /** A new connection gets there by one binary frame without FIN. */
  lemma FillsUp(cfg: Config, m: seq<byte>, rest: seq<byte>)
    requires |m| == cfg.maxMessage <= cfg.maxFrame < 0x1_0000_0000
    ensures var s := Sealed(Frame(false, 2, m), ZeroKey, FormOf(|m|));
      Run(cfg, FreshRx.(buffer := Wire(s) + rest)) == Run(cfg, Rx(Init, rest, Header(false, 2, |m|, ZeroKey, m), Full(m)))
  {
    hide Wire;
    var s := Sealed(Frame(false, 2, m), ZeroKey, FormOf(|m|));
    FrameDecoded(cfg, FreshRx.(buffer := Wire(s) + rest), s, rest);
    assert [] + m == m;
  }

  /** A message at the limit, a continuation beyond it, a ping: uncut, the ping stays unanswered in the
      buffer; cut before the ping, it is answered. */
  lemma StallMakesCutsMatter(cfg: Config, m: seq<byte>)
    requires |m| == cfg.maxMessage <= cfg.maxFrame < 0x1_0000_0000 && cfg.maxFrame >= 1
    ensures var first := Wire(Sealed(Frame(false, 2, m), ZeroKey, FormOf(|m|)));
      var more := Wire(Sealed(Frame(false, 0, [7]), ZeroKey, Short));
      var ping := Wire(Sealed(Frame(true, 9, []), ZeroKey, Short));
      && Feed(cfg, FreshRx, first + more + ping).rx.chan.sent == []
      && FeedAll(cfg, FreshRx, [first + more, ping]).chan.sent == [PongOut([])]
  {
    hide Wire, Run;
    var first := Wire(Sealed(Frame(false, 2, m), ZeroKey, FormOf(|m|)));
    var more := Wire(Sealed(Frame(false, 0, [7]), ZeroKey, Short));
    var ping := Wire(Sealed(Frame(true, 9, []), ZeroKey, Short));
    assert first + more + ping == first + (more + ping) && first + more == first + (more + []);
    OversizeStalls(cfg, m, ping);
    OversizeStalls(cfg, m, []);
    assert [] + (first + (more + ping)) == first + (more + ping) && [] + (first + (more + [])) == first + (more + []);
    var mid := Feed(cfg, FreshRx, first + more).rx;
    PingAnswered(cfg, mid);
    TwoChunks(cfg, FreshRx, first + more, ping);
  }

  lemma TwoChunks(cfg: Config, rx: Rx, a: seq<byte>, b: seq<byte>)
    ensures FeedAll(cfg, rx, [a, b]) == Feed(cfg, Feed(cfg, rx, a).rx, b).rx
  {
    hide Feed;
    var chunks: seq<seq<byte>> := [a, b];
    var last: seq<seq<byte>> := chunks[1..];
    assert last[1..] == [];
    assert FeedAll(cfg, Feed(cfg, rx, a).rx, last) == FeedAll(cfg, Feed(cfg, Feed(cfg, rx, a).rx, b).rx, []);
  }

  lemma OversizeStalls(cfg: Config, m: seq<byte>, rest: seq<byte>)
    requires |m| == cfg.maxMessage <= cfg.maxFrame < 0x1_0000_0000 && cfg.maxFrame >= 1
    ensures var first := Wire(Sealed(Frame(false, 2, m), ZeroKey, FormOf(|m|)));
      var more := Wire(Sealed(Frame(false, 0, [7]), ZeroKey, Short));
      Run(cfg, FreshRx.(buffer := first + (more + rest)))
      == End(Rx(Init, rest, Header(false, 0, 1, ZeroKey, [7]), Full(m).(acc := m + [7])), true)
  {
    hide Wire, Run;
    var s := Sealed(Frame(false, 0, [7]), ZeroKey, Short);
    FillsUp(cfg, m, Wire(s) + rest);
    FrameDecoded(cfg, Rx(Init, Wire(s) + rest, Header(false, 2, |m|, ZeroKey, m), Full(m)), s, rest);
  }

  lemma PingAnswered(cfg: Config, rx: Rx)
    requires rx.phase == Init && rx.buffer == [] && rx.chan.open
    ensures var s := Sealed(Frame(true, 9, []), ZeroKey, Short);
      Feed(cfg, rx, Wire(s)).rx.chan.sent == rx.chan.sent + [PongOut([])]
  {
    hide Wire;
    var s := Sealed(Frame(true, 9, []), ZeroKey, Short);
    assert rx.buffer + Wire(s) == Wire(s) + [];
    FrameDecoded(cfg, rx.(buffer := Wire(s) + []), s, []);
  }

  // ---- Codec round trip ----

  function ClientFrame(op: Opcode, m: seq<byte>, key: Key): seq<byte>
    requires |m| < 0x1_0000_0000
  {
    MaskedIsWire(op, m, key);
    MaskFrame(EncodeData(op, m), key)
  }

  /** A message written by `send_text_frame` or `send_binary_frame`, masked with any key and read back in
      any pieces, is delivered as that one message. The size limits are below 2^32 (config.rb). */
  lemma CodecRoundTrip(cfg: Config, rx: Rx, kind: Kind, m: seq<byte>, key: Key, chunks: seq<seq<byte>>)
    requires rx.phase == Init && rx.buffer == [] && rx.chan.open && Idle(rx.chan)
    requires |m| <= cfg.maxFrame < 0x1_0000_0000 && |m| <= cfg.maxMessage
    requires kind == Text ==> Utf8.WellFormed(m)
    requires cfg.app(rx.chan.delivered + [Delivery(Some(kind), m, m == [])]).close.None?
    requires Concat(chunks) == ClientFrame(KindOp(kind), m, key)
    ensures var c := FeedAll(cfg, rx, chunks).chan;
      c.open && Idle(c) && c.delivered == rx.chan.delivered + [Delivery(Some(kind), m, m == [])]
  {
    MaskedIsWire(KindOp(kind), m, key);
    var s := Sealed(Frame(true, KindOp(kind), m), key, FormOf(|m|));
    var g := Group(kind, [m]);
    assert [m][1..] == [];
    assert Concat([m]) == m;
    assert WireAll([s]) == Wire(s) by { assert [s][1..] == []; }
    assert Frames([s]) == [s.frame];
    assert WithoutControl([s.frame]) == [s.frame];
    assert [g][1..] == [];
    assert Fragments(g, 0, true) == [s.frame];
    assert DataFrames([g], 0, false) == [s.frame];
    assert Messages([g]) == [Delivery(Some(kind), m, m == [])];
    assert AppStays(cfg, rx.chan.delivered, [g]) by {
      assert Messages([g])[..1] == Messages([g]);
    }
    Reassembly(cfg, rx, [s], [g], false);
    WsCuts.CutIndependence(cfg, rx, chunks);
  }
}

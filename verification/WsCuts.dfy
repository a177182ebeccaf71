/** How a byte stream is cut into `receive_data` calls does not matter, and exactly when it does. */
module WsCuts {
  import opened Wrappers
  import opened Bytes
  import Utf8
  import opened WsFrames

  /** The same connection with more bytes behind its buffer (a closed one ignores them). */
  function Plus(rx: Rx, b: seq<byte>): Rx {
    if rx.chan.open then rx.(buffer := rx.buffer + b) else rx
  }

  /** Between two calls nothing is left that the loop could still do. */
  predicate AtRest(cfg: Config, rx: Rx) {
    rx.chan.open ==> Turned(cfg, rx).Starved?
  }

  lemma SliceOfSum(a: seq<byte>, b: seq<byte>, n: nat)
    requires n <= |a|
    ensures (a + b)[..n] == a[..n] && (a + b)[n..] == a[n..] + b
  {}

  /** A turn looks only at bytes it already has. */
  lemma TurnPlus(cfg: Config, rx: Rx, b: seq<byte>)
    requires rx.chan.open
    ensures match Turned(cfg, rx)
      case Again(r) => Turned(cfg, Plus(rx, b)) == Again(Plus(r, b))
      case Shut(r) => Turned(cfg, Plus(rx, b)) == Shut(r)
      case Stall(r) => Turned(cfg, Plus(rx, b)) == Stall(Plus(r, b)) && r.chan.open && r.phase == Init
      case Starved => true
  {
    var buf := rx.buffer;
    match rx.phase
    case Init =>
      if |buf| >= 2 { SliceOfSum(buf, b, 2); }
    case Length2 =>
      if |buf| >= 2 { SliceOfSum(buf, b, 2); }
    case Length8 =>
      if |buf| >= 8 {
        SliceOfSum(buf, b, 4);
        SliceOfSum(buf, b, 8);
        assert (buf + b)[4..8] == buf[4..8];
      }
    case MaskingKey =>
      if |buf| >= 4 { SliceOfSum(buf, b, 4); }
    case CheckFrame =>
    case PayloadData =>
      if |buf| >= rx.hdr.len { SliceOfSum(buf, b, rx.hdr.len); }
    case ProcessFrame =>
      ProcessVerdict(cfg, rx);
  }

  predicate Apt(c: Chan, v: Verdict) { (v == Closed ==> !c.open) && (v == Stalled ==> c.open) }

  lemma TakeVerdict(cfg: Config, c: Chan, fin: bool, payload: seq<byte>, tooBig: Verdict)
    requires c.open && tooBig != Go
    ensures var (c', v) := Take(cfg, c, fin, payload, tooBig); Apt(c', v)
  {}

  lemma DataVerdict(cfg: Config, c: Chan, fin: bool, op: Opcode, payload: seq<byte>)
    requires c.open && (op == 1 || op == 2)
    ensures var (c', v) := OnFrame(cfg, c, fin, op, payload); Apt(c', v)
  {
    hide Utf8.Run, Take;
    if op == 1 {
      TakeVerdict(cfg, c.(msg := Some(Text), utf8 := Utf8.Run(Utf8.ACCEPT, payload)), fin, payload, Closed);
    } else {
      TakeVerdict(cfg, c.(msg := Some(Binary)), fin, payload, Closed);
    }
  }

  lemma ContinuationVerdict(cfg: Config, c: Chan, fin: bool, payload: seq<byte>)
    requires c.open
    ensures var (c', v) := OnFrame(cfg, c, fin, 0, payload); Apt(c', v)
  {
    hide Utf8.Run, Take;
    TakeVerdict(cfg, c.(utf8 := Utf8.Run(c.utf8, payload)), fin, payload, Stalled);
    TakeVerdict(cfg, c, fin, payload, Stalled);
  }

  lemma ControlVerdict(cfg: Config, c: Chan, fin: bool, op: Opcode, payload: seq<byte>)
    requires c.open && op > 2
    ensures var (c', v) := OnFrame(cfg, c, fin, op, payload); Apt(c', v) && c'.acc == c.acc && v != Stalled
  {
    hide Utf8.Run;
  }

  /** Only an oversize continuation leaves the loop with the connection open. */
  lemma ProcessVerdict(cfg: Config, rx: Rx)
    requires rx.chan.open
    ensures var (c, v) := OnFrame(cfg, rx.chan, rx.hdr.fin, rx.hdr.op, rx.hdr.payload); Apt(c, v)
  {
    hide OnFrame, Apt;
    var h := rx.hdr;
    if h.op == 0 {
      ContinuationVerdict(cfg, rx.chan, h.fin, h.payload);
    } else if h.op <= 2 {
      DataVerdict(cfg, rx.chan, h.fin, h.op, h.payload);
    } else {
      ControlVerdict(cfg, rx.chan, h.fin, h.op, h.payload);
    }
  }

  /** After a close within the loop the buffer is empty and the decoder waits for a new frame. */
  lemma ClosedTurn(cfg: Config, rx: Rx)
    requires rx.chan.open && Turned(cfg, rx).Again? && !Turned(cfg, rx).rx.chan.open
    ensures Run(cfg, Turned(cfg, rx).rx) == End(Turned(cfg, rx).rx, false)
  {
    var r := Turned(cfg, rx).rx;
    assert r.phase == Init && r.buffer == [];
  }

  lemma RunTurn(cfg: Config, rx: Rx)
    requires Turned(cfg, rx).Again?
    ensures Run(cfg, rx) == Run(cfg, Turned(cfg, rx).rx)
  {}

  lemma {:induction false} RunPlus(cfg: Config, rx: Rx, b: seq<byte>)
    requires rx.chan.open
    ensures var e := Run(cfg, rx);
      if e.stalled then
        e.rx.chan.open && e.rx.phase == Init && Run(cfg, Plus(rx, b)) == End(Plus(e.rx, b), true)
      else if e.rx.chan.open then
        Turned(cfg, e.rx).Starved? && Run(cfg, Plus(rx, b)) == Run(cfg, Plus(e.rx, b))
      else
        Run(cfg, Plus(rx, b)) == e
    decreases Measure(rx)
  {
    TurnPlus(cfg, rx, b);
    match Turned(cfg, rx)
    case Again(r) =>
      TurnProgress(cfg, rx);
      RunTurn(cfg, rx);
      RunTurn(cfg, Plus(rx, b));
      if r.chan.open {
        RunPlus(cfg, r, b);
      } else {
        ClosedTurn(cfg, rx);
      }
    case Starved =>
    case Shut(r) =>
      assert !r.chan.open by {
        if rx.phase == ProcessFrame { ProcessVerdict(cfg, rx); }
      }
    case Stall(r) =>
  }

  /** A call that starts on a complete frame header consumes it, so it cannot leave the state as found. */
  lemma {:induction false} RunShrinks(cfg: Config, rx: Rx)
    ensures |Run(cfg, rx).rx.buffer| <= |rx.buffer|
    decreases Measure(rx)
  {
    match Turned(cfg, rx)
    case Again(r) =>
      TurnProgress(cfg, rx);
      assert |r.buffer| <= |rx.buffer|;
      RunShrinks(cfg, r);
    case _ =>
  }

  lemma HeaderConsumed(cfg: Config, rx: Rx)
    requires rx.chan.open && rx.phase == Init && |rx.buffer| >= 2
    ensures Run(cfg, rx).rx != rx
  {
    match Turned(cfg, rx)
    case Again(r) =>
      RunShrinks(cfg, r);
    case _ =>
  }

  lemma NoHeader(cfg: Config, rx: Rx)
    requires rx.phase == Init && |rx.buffer| < 2
    ensures Run(cfg, rx) == End(rx, false)
  {}

  lemma CutAtStall(cfg: Config, rx: Rx, a: seq<byte>, b: seq<byte>)
    ensures var first := Feed(cfg, rx, a);
      Feed(cfg, first.rx, b).rx == Feed(cfg, rx, a + b).rx
      <==> (!first.stalled || |first.rx.buffer| + |b| < 2)
  {
    hide Turned, Run;
    if rx.chan.open {
      var s := rx.(buffer := rx.buffer + a);
      var first := Run(cfg, s);
      RunPlus(cfg, s, b);
      assert rx.buffer + (a + b) == rx.buffer + a + b;
      assert Feed(cfg, rx, a + b) == Run(cfg, Plus(s, b));
      if first.stalled {
        var r := Plus(first.rx, b);
        if |r.buffer| >= 2 {
          HeaderConsumed(cfg, r);
        } else {
          NoHeader(cfg, r);
        }
      }
    }
  }

  // ---- When a call stops at an oversize continuation ----

  /** A connection left open with `@ws_message` beyond the limit. */
  predicate Oversize(cfg: Config, c: Chan) { c.open && |c.acc| > cfg.maxMessage }

  lemma TakeStalls(cfg: Config, c: Chan, fin: bool, payload: seq<byte>, tooBig: Verdict)
    requires c.open && !Oversize(cfg, c) && tooBig != Go
    ensures var (c', v) := Take(cfg, c, fin, payload, tooBig); v == Stalled <==> Oversize(cfg, c')
  {
    assert payload == [] ==> c.acc + payload == c.acc;
  }

  lemma DataStalls(cfg: Config, c: Chan, fin: bool, op: Opcode, payload: seq<byte>)
    requires c.open && !Oversize(cfg, c) && (op == 1 || op == 2)
    ensures var (c', v) := OnFrame(cfg, c, fin, op, payload); v == Stalled <==> Oversize(cfg, c')
  {
    hide Utf8.Run, Take;
    if op == 1 {
      TakeStalls(cfg, c.(msg := Some(Text), utf8 := Utf8.Run(Utf8.ACCEPT, payload)), fin, payload, Closed);
    } else {
      TakeStalls(cfg, c.(msg := Some(Binary)), fin, payload, Closed);
    }
  }

  lemma ContinuationStalls(cfg: Config, c: Chan, fin: bool, payload: seq<byte>)
    requires c.open && !Oversize(cfg, c)
    ensures var (c', v) := OnFrame(cfg, c, fin, 0, payload); v == Stalled <==> Oversize(cfg, c')
  {
    hide Utf8.Run, Take;
    TakeStalls(cfg, c.(utf8 := Utf8.Run(c.utf8, payload)), fin, payload, Stalled);
    TakeStalls(cfg, c, fin, payload, Stalled);
  }

  lemma FrameStalls(cfg: Config, c: Chan, fin: bool, op: Opcode, payload: seq<byte>)
    requires c.open && !Oversize(cfg, c)
    ensures var (c', v) := OnFrame(cfg, c, fin, op, payload); v == Stalled <==> Oversize(cfg, c')
  {
    hide OnFrame;
    if op == 0 {
      ContinuationStalls(cfg, c, fin, payload);
    } else if op <= 2 {
      DataStalls(cfg, c, fin, op, payload);
    } else {
      ControlVerdict(cfg, c, fin, op, payload);
    }
  }

  lemma TurnStalls(cfg: Config, rx: Rx)
    requires rx.chan.open && !Oversize(cfg, rx.chan)
    ensures match Turned(cfg, rx)
      case Again(r) => !Oversize(cfg, r.chan)
      case Shut(r) => !Oversize(cfg, r.chan)
      case Stall(r) => Oversize(cfg, r.chan)
      case Starved => true
  {
    hide OnFrame, U16, U32, FrameError;
    if rx.phase == ProcessFrame {
      FrameStalls(cfg, rx.chan, rx.hdr.fin, rx.hdr.op, rx.hdr.payload);
    }
  }

  /** A call of `receive_data` stops at an oversize continuation exactly when it leaves the connection open
      with the message beyond the limit. */
  lemma {:induction false} StalledIffOversize(cfg: Config, rx: Rx)
    requires rx.chan.open && !Oversize(cfg, rx.chan)
    ensures Run(cfg, rx).stalled <==> Oversize(cfg, Run(cfg, rx).rx.chan)
    decreases Measure(rx)
  {
    TurnStalls(cfg, rx);
    hide Oversize;
    match Turned(cfg, rx)
    case Again(r) =>
      TurnProgress(cfg, rx);
      RunTurn(cfg, rx);
      if r.chan.open {
        StalledIffOversize(cfg, r);
      } else {
        ClosedTurn(cfg, rx);
      }
    case _ =>
  }

  lemma FeedStalls(cfg: Config, rx: Rx, a: seq<byte>)
    requires !Oversize(cfg, rx.chan)
    ensures Feed(cfg, rx, a).stalled <==> Oversize(cfg, Feed(cfg, rx, a).rx.chan)
  {
    hide Run;
    if rx.chan.open { StalledIffOversize(cfg, rx.(buffer := rx.buffer + a)); }
  }

  /** Two calls leave the connection as one call on the joined bytes does if and only if the message is not
      beyond the limit between them (on an open connection), or less than a frame header is left to come. */
  lemma CutPointExact(cfg: Config, rx: Rx, a: seq<byte>, b: seq<byte>)
    requires !Oversize(cfg, rx.chan)
    ensures var between := Feed(cfg, rx, a).rx;
      Feed(cfg, between, b).rx == Feed(cfg, rx, a + b).rx
      <==> !Oversize(cfg, between.chan) || |between.buffer| + |b| < 2
  {
    hide Run, Turned, Feed;
    CutAtStall(cfg, rx, a, b);
    FeedStalls(cfg, rx, a);
  }

  lemma StallStays(cfg: Config, rx: Rx, a: seq<byte>, b: seq<byte>)
    requires Feed(cfg, rx, a).stalled
    ensures Feed(cfg, rx, a + b).stalled
  {
    hide Turned, Run;
    var s := rx.(buffer := rx.buffer + a);
    RunPlus(cfg, s, b);
    assert rx.buffer + (a + b) == rx.buffer + a + b;
  }

  lemma RestAfterFeed(cfg: Config, rx: Rx, a: seq<byte>)
    requires !Feed(cfg, rx, a).stalled
    ensures AtRest(cfg, Feed(cfg, rx, a).rx)
  {
    hide Turned, Run;
    if rx.chan.open {
      RunPlus(cfg, rx.(buffer := rx.buffer + a), []);
    }
  }

  lemma {:induction false} CutsUnstalled(cfg: Config, rx: Rx, chunks: seq<seq<byte>>)
    requires AtRest(cfg, rx)
    requires !Feed(cfg, rx, Concat(chunks)).stalled
    ensures FeedAll(cfg, rx, chunks) == Feed(cfg, rx, Concat(chunks)).rx
    decreases |chunks|
  {
    if chunks == [] {
      assert rx.buffer + [] == rx.buffer;
    } else {
      var first := Feed(cfg, rx, chunks[0]);
      var rest := Concat(chunks[1..]);
      if first.stalled {
        StallStays(cfg, rx, chunks[0], rest);
      }
      CutAtStall(cfg, rx, chunks[0], rest);
      RestAfterFeed(cfg, rx, chunks[0]);
      StallCarries(cfg, rx, chunks[0], rest);
      CutsUnstalled(cfg, first.rx, chunks[1..]);
    }
  }

  /** However the stream is cut, messages, pongs, replies, close status and all other state are those
      of one uncut call, unless that call leaves an open connection with its message beyond the limit. */
  lemma CutIndependence(cfg: Config, rx: Rx, chunks: seq<seq<byte>>)
    requires AtRest(cfg, rx) && !Oversize(cfg, rx.chan)
    requires !Oversize(cfg, Feed(cfg, rx, Concat(chunks)).rx.chan)
    ensures FeedAll(cfg, rx, chunks) == Feed(cfg, rx, Concat(chunks)).rx
  {
    hide Run, Turned, Feed;
    FeedStalls(cfg, rx, Concat(chunks));
    CutsUnstalled(cfg, rx, chunks);
  }

  lemma StallCarries(cfg: Config, rx: Rx, a: seq<byte>, b: seq<byte>)
    requires !Feed(cfg, rx, a).stalled
    ensures Feed(cfg, Feed(cfg, rx, a).rx, b).stalled == Feed(cfg, rx, a + b).stalled
  {
    hide Turned, Run;
    if rx.chan.open {
      RunPlus(cfg, rx.(buffer := rx.buffer + a), b);
      assert rx.buffer + (a + b) == rx.buffer + a + b;
    }
  }
}

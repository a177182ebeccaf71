/**
 What reassembly means, without the decoder: the data frames of a stream, control frames taken out,
 are the fragments of one message group after the other; the SIP layer gets the groups' concatenations.
 */
module WsReassembly {
  import opened Wrappers
  import opened Bytes
  import Utf8
  import opened WsFrames
  import opened WsWire

  /** A message cut into fragments. */
  datatype Group = Group(kind: Kind, parts: seq<seq<byte>>)

  function KindOp(k: Kind): Opcode { if k == Text then 1 else 2 }

  /** The fragments of g from the k-th on; the last has FIN unless the group is left open. */
  function Fragments(g: Group, k: nat, whole: bool): seq<Frame>
    decreases |g.parts| - k
  {
    if k >= |g.parts| then []
    else [Frame(whole && k + 1 == |g.parts|, if k == 0 then KindOp(g.kind) else 0, g.parts[k])]
         + Fragments(g, k + 1, whole)
  }

  /** The data frames of gs, the first k fragments of gs[0] being already gone. With lastOpen the last
      group has no final frame yet. */
  function DataFrames(gs: seq<Group>, k: nat, lastOpen: bool): seq<Frame> {
    if gs == [] then []
    else Fragments(gs[0], k, |gs| > 1 || !lastOpen) + DataFrames(gs[1..], 0, lastOpen)
  }

  function WithoutControl(fs: seq<Frame>): seq<Frame> {
    if fs == [] then [] else (if fs[0].op >= 8 then [] else [fs[0]]) + WithoutControl(fs[1..])
  }

  function Pings(fs: seq<Frame>): seq<seq<byte>> {
    if fs == [] then [] else (if fs[0].op == 9 then [fs[0].payload] else []) + Pings(fs[1..])
  }

  function Pongs(sent: seq<Out>): seq<seq<byte>> {
    if sent == [] then [] else (if sent[0].PongOut? then [sent[0].data] else []) + Pongs(sent[1..])
  }

  /** What the SIP layer is handed for a group. */
  function MessageOf(g: Group): Delivery {
    Delivery(Some(g.kind), Concat(g.parts), g.parts != [] && g.parts[|g.parts| - 1] == [])
  }

  function Messages(gs: seq<Group>): seq<Delivery> {
    if gs == [] then [] else [MessageOf(gs[0])] + Messages(gs[1..])
  }

  /** Pings and pongs of at most 125 octets, unfragmented; every payload within the frame limit. */
  ghost predicate LegalFrame(cfg: Config, f: Frame) {
    && |f.payload| <= cfg.maxFrame
    && (f.op >= 8 ==> f.op != 8 && f.fin && |f.payload| <= 125)
  }

  /** Within the message limit, and UTF-8 when text: complete, or for an open group still completable. */
  ghost predicate LegalGroup(cfg: Config, g: Group, whole: bool) {
    && g.parts != []
    && |Concat(g.parts)| <= cfg.maxMessage
    && (g.kind == Text ==>
          if whole then Utf8.WellFormed(Concat(g.parts))
          else exists t :: Utf8.WellFormed(Concat(g.parts) + t))
  }

  ghost predicate LegalGroups(cfg: Config, gs: seq<Group>, lastOpen: bool) {
    && (lastOpen ==> gs != [])
    && forall i :: 0 <= i < |gs| ==> LegalGroup(cfg, gs[i], !(lastOpen && i == |gs| - 1))
  }

  /** The SIP layer leaves the connection open while the messages of gs arrive after log. */
  ghost predicate AppStays(cfg: Config, log: seq<Delivery>, gs: seq<Group>) {
    forall n :: 0 < n <= |Messages(gs)| ==> cfg.app(log + Messages(gs)[..n]).close.None?
  }

  /** Between frames: k fragments of g have arrived. */
  ghost predicate Midway(c: Chan, g: Group, k: nat) {
    && 0 < k <= |g.parts|
    && c.msg == Some(g.kind)
    && c.acc == Concat(g.parts[..k])
    && (g.kind == Text ==> c.utf8 == Utf8.Run(Utf8.ACCEPT, c.acc))
  }

  ghost predicate Idle(c: Chan) { c.msg == None && c.acc == [] }

  ghost predicate Stands(c: Chan, gs: seq<Group>, k: nat) {
    c.open && if k == 0 then Idle(c) else gs != [] && Midway(c, gs[0], k)
  }

  // ---- Small facts ----

  lemma MessagesLength(gs: seq<Group>)
    ensures |Messages(gs)| == |gs|
  {}

  lemma {:induction false} PongsAppend(a: seq<Out>, b: seq<Out>)
    ensures Pongs(a + b) == Pongs(a) + Pongs(b)
  {
    if a == [] {
      assert a + b == b;
    } else {
      assert (a + b)[1..] == a[1..] + b;
      PongsAppend(a[1..], b);
    }
  }

  lemma {:induction false} RepliesAreNoPongs(replies: seq<seq<byte>>)
    ensures Pongs(Texts(replies)) == []
  {
    if replies != [] {
      assert Texts(replies)[1..] == Texts(replies[1..]);
      RepliesAreNoPongs(replies[1..]);
    }
  }

  /** A prefix of the parts of a legal group is within the limit and not rejected; all of it is accepted. */
  lemma PrefixLegal(cfg: Config, g: Group, whole: bool, k: nat)
    requires LegalGroup(cfg, g, whole) && k <= |g.parts|
    ensures |Concat(g.parts[..k])| <= cfg.maxMessage
    ensures g.kind == Text ==> Utf8.Run(Utf8.ACCEPT, Concat(g.parts[..k])) != Utf8.REJECT
    ensures g.kind == Text && whole && k == |g.parts| ==>
      Utf8.Run(Utf8.ACCEPT, Concat(g.parts[..k])) == Utf8.ACCEPT
  {
    var all := Concat(g.parts);
    var head, tail := Concat(g.parts[..k]), Concat(g.parts[k..]);
    assert g.parts == g.parts[..k] + g.parts[k..];
    ConcatAppend(g.parts[..k], g.parts[k..]);
    assert all == head + tail;
    if g.kind == Text {
      Utf8.AcceptsExactlyWellFormed(all);
      Utf8.NotRejectedIffExtensible(all);
      Utf8.RunConcat(Utf8.ACCEPT, head, tail);
      if Utf8.Run(Utf8.ACCEPT, head) == Utf8.REJECT {
        Utf8.RejectIsSticky(tail);
      }
      if k == |g.parts| {
        assert g.parts[..k] == g.parts;
      }
    }
  }

  /** The message with fragment k behind what has arrived: within the limit, and passing the validator. */
  lemma FragmentArrives(cfg: Config, c: Chan, g: Group, k: nat, whole: bool)
    requires LegalGroup(cfg, g, whole) && k < |g.parts|
    requires if k == 0 then Idle(c) else Midway(c, g, k)
    ensures c.acc + g.parts[k] == Concat(g.parts[..k + 1]) && |c.acc + g.parts[k]| <= cfg.maxMessage
    ensures g.kind == Text ==>
      var q := Utf8.Run(if k == 0 then Utf8.ACCEPT else c.utf8, g.parts[k]);
      && q == Utf8.Run(Utf8.ACCEPT, c.acc + g.parts[k]) && q != Utf8.REJECT
      && (whole && k + 1 == |g.parts| ==> q == Utf8.ACCEPT)
  {
    hide LegalGroup;
    assert g.parts[..k + 1] == g.parts[..k] + [g.parts[k]];
    ConcatSnoc(g.parts[..k], g.parts[k]);
    if k == 0 { assert g.parts[..0] == []; }
    PrefixLegal(cfg, g, whole, k + 1);
    Utf8.RunConcat(Utf8.ACCEPT, c.acc, g.parts[k]);
  }

  /** The channel with one more fragment taken in. */
  function Grown(c: Chan, kind: Kind, acc: seq<byte>, q: Utf8.State): Chan {
    c.(msg := Some(kind), acc := acc, utf8 := if kind == Text then q else c.utf8)
  }

  lemma FirstTaken(cfg: Config, c: Chan, fin: bool, kind: Kind, part: seq<byte>)
    requires c.open && Idle(c) && |part| <= cfg.maxMessage && |part| <= cfg.maxFrame
    requires kind == Text ==>
      Utf8.Run(Utf8.ACCEPT, part) != Utf8.REJECT && (fin ==> Utf8.Run(Utf8.ACCEPT, part) == Utf8.ACCEPT)
    ensures FrameError(cfg, c, fin, KindOp(kind), |part|).None?
    ensures var c1 := Grown(c, kind, part, Utf8.Run(Utf8.ACCEPT, part));
      OnFrame(cfg, c, fin, KindOp(kind), part) == (if fin then Done(cfg, c1, part == []) else c1, Go)
  {
    hide Utf8.Run, Done;
    assert c.acc + part == part;
  }

  lemma NextTaken(cfg: Config, c: Chan, fin: bool, kind: Kind, part: seq<byte>)
    requires c.open && c.msg == Some(kind) && |c.acc + part| <= cfg.maxMessage && |part| <= cfg.maxFrame
    requires kind == Text ==>
      Utf8.Run(c.utf8, part) != Utf8.REJECT && (fin ==> Utf8.Run(c.utf8, part) == Utf8.ACCEPT)
    ensures FrameError(cfg, c, fin, 0, |part|).None?
    ensures var c1 := Grown(c, kind, c.acc + part, Utf8.Run(c.utf8, part));
      OnFrame(cfg, c, fin, 0, part) == (if fin then Done(cfg, c1, part == []) else c1, Go)
  {
    if part == [] { assert Utf8.Run(c.utf8, part) == c.utf8; }
    hide Utf8.Run, Done;
  }

  lemma Delivered(cfg: Config, c: Chan, emptyTail: bool)
    requires c.open && cfg.app(c.delivered + [Delivery(c.msg, c.acc, emptyTail)]).close.None?
    ensures var c' := Done(cfg, c, emptyTail);
      c'.open && Idle(c') && c'.delivered == c.delivered + [Delivery(c.msg, c.acc, emptyTail)]
      && Pongs(c'.sent) == Pongs(c.sent)
  {
    var r := cfg.app(c.delivered + [Delivery(c.msg, c.acc, emptyTail)]);
    RepliesAreNoPongs(r.replies);
    PongsAppend(c.sent, Texts(r.replies));
  }

  /** One data frame: fragment k of g, handled where k fragments have arrived. */
  lemma FragmentHandled(cfg: Config, c: Chan, g: Group, k: nat, whole: bool)
    requires LegalGroup(cfg, g, whole) && k < |g.parts| && |g.parts[k]| <= cfg.maxFrame
    requires c.open && if k == 0 then Idle(c) else Midway(c, g, k)
    requires whole && k + 1 == |g.parts| ==> cfg.app(c.delivered + [MessageOf(g)]).close.None?
    ensures var f := Frame(whole && k + 1 == |g.parts|, if k == 0 then KindOp(g.kind) else 0, g.parts[k]);
      && FrameError(cfg, c, f.fin, f.op, |f.payload|).None?
      && var (c', v) := OnFrame(cfg, c, f.fin, f.op, f.payload);
        && v == Go && c'.open && Pongs(c'.sent) == Pongs(c.sent)
        && (if f.fin then Idle(c') && c'.delivered == c.delivered + [MessageOf(g)]
            else Midway(c', g, k + 1) && c'.delivered == c.delivered)
  {
    hide OnFrame, FrameError, Utf8.Run, Concat, Done, LegalGroup, Pongs;
    var part, fin := g.parts[k], whole && k + 1 == |g.parts|;
    FragmentArrives(cfg, c, g, k, whole);
    var q := Utf8.Run(if k == 0 then Utf8.ACCEPT else c.utf8, part);
    var c1 := Grown(c, g.kind, c.acc + part, q);
    if k == 0 {
      assert c.acc + part == part;
      FirstTaken(cfg, c, fin, g.kind, part);
    } else {
      NextTaken(cfg, c, fin, g.kind, part);
    }
    if fin {
      assert g.parts[..k + 1] == g.parts;
      Delivered(cfg, c1, part == []);
    }
  }

  lemma PingHandled(cfg: Config, c: Chan, f: Frame)
    requires LegalFrame(cfg, f) && f.op >= 8 && c.open
    ensures FrameError(cfg, c, f.fin, f.op, |f.payload|).None?
    ensures var (c', v) := OnFrame(cfg, c, f.fin, f.op, f.payload);
      v == Go && c' == c.(sent := c'.sent) && Pongs(c'.sent) == Pongs(c.sent) + Pings([f])
  {
    PongsAppend(c.sent, [PongOut(f.payload)]);
  }

  // ---- The refinement ----

  lemma NextData(gs: seq<Group>, k: nat, lastOpen: bool)
    requires gs != [] && k < |gs[0].parts|
    ensures var whole := |gs| > 1 || !lastOpen;
      DataFrames(gs, k, lastOpen) ==
        [Frame(whole && k + 1 == |gs[0].parts|, if k == 0 then KindOp(gs[0].kind) else 0, gs[0].parts[k])]
        + DataFrames(gs, k + 1, lastOpen)
  {}

  lemma GroupUsedUp(gs: seq<Group>, lastOpen: bool)
    requires gs != []
    ensures DataFrames(gs, |gs[0].parts|, lastOpen) == DataFrames(gs[1..], 0, lastOpen)
  {}

  /** One data frame of the stream: what it leaves to be handled, and that nothing expected is lost. */
  lemma DataStep(cfg: Config, c: Chan, f: Frame, rest: seq<Frame>, gs: seq<Group>, k: nat, lastOpen: bool)
    returns (c': Chan, gs': seq<Group>, k': nat)
    requires LegalFrame(cfg, f) && LegalGroups(cfg, gs, lastOpen)
    requires [f] + rest == DataFrames(gs, k, lastOpen)
    requires Stands(c, gs, k) && Leads(gs, k, lastOpen)
    requires AppStays(cfg, c.delivered, Complete(gs, lastOpen))
    ensures FrameError(cfg, c, f.fin, f.op, |f.payload|).None?
    ensures OnFrame(cfg, c, f.fin, f.op, f.payload) == (c', Go)
    ensures LegalGroups(cfg, gs', lastOpen) && rest == DataFrames(gs', k', lastOpen)
    ensures c'.open && Stands(c', gs', k') && Leads(gs', k', lastOpen)
    ensures AppStays(cfg, c'.delivered, Complete(gs', lastOpen))
    ensures c'.delivered + Messages(Complete(gs', lastOpen)) == c.delivered + Messages(Complete(gs, lastOpen))
    ensures Pongs(c'.sent) == Pongs(c.sent)
    ensures lastOpen ==> gs != [] && gs' != [] && gs'[|gs'| - 1] == gs[|gs| - 1]
  {
    hide OnFrame, FrameError, Utf8.Run, Utf8.WellFormed, Concat, Pongs, DataFrames, Messages;
    DataLeft(gs, k, lastOpen, f, rest);
    NextData(gs, k, lastOpen);
    assert f == ([f] + rest)[0] && rest == ([f] + rest)[1..];
    assert rest == DataFrames(gs, k + 1, lastOpen);
    if f.fin {
      c' := FinalStep(cfg, c, f, gs, k, lastOpen);
      gs', k' := gs[1..], 0;
      GroupUsedUp(gs, lastOpen);
    } else {
      gs', k' := gs, k + 1;
      FragmentHandled(cfg, c, gs[0], k, |gs| > 1 || !lastOpen);
      var (c1, _) := OnFrame(cfg, c, f.fin, f.op, f.payload);
      c' := c1;
    }
  }

  /** The last fragment of the first group. */
  lemma FinalStep(cfg: Config, c: Chan, f: Frame, gs: seq<Group>, k: nat, lastOpen: bool) returns (c': Chan)
    requires LegalFrame(cfg, f) && LegalGroups(cfg, gs, lastOpen)
    requires gs != [] && k + 1 == |gs[0].parts| && (|gs| > 1 || !lastOpen)
    requires f == Frame(true, if k == 0 then KindOp(gs[0].kind) else 0, gs[0].parts[k])
    requires Stands(c, gs, k)
    requires AppStays(cfg, c.delivered, Complete(gs, lastOpen))
    ensures FrameError(cfg, c, f.fin, f.op, |f.payload|).None?
    ensures OnFrame(cfg, c, f.fin, f.op, f.payload) == (c', Go)
    ensures LegalGroups(cfg, gs[1..], lastOpen) && c'.open && Idle(c')
    ensures AppStays(cfg, c'.delivered, Complete(gs[1..], lastOpen))
    ensures c'.delivered + Messages(Complete(gs[1..], lastOpen)) == c.delivered + Messages(Complete(gs, lastOpen))
    ensures Pongs(c'.sent) == Pongs(c.sent)
  {
    hide OnFrame, FrameError, Utf8.Run, Utf8.WellFormed, Concat, Pongs, DataFrames;
    hide LegalFrame, LegalGroup, Idle, Midway, AppStays, Messages, Complete;
    FirstLegal(cfg, gs, lastOpen);
    FirstMessage(cfg, c.delivered, gs, lastOpen);
    FrameFits(cfg, f);
    FragmentHandled(cfg, c, gs[0], k, true);
    var (c1, _) := OnFrame(cfg, c, f.fin, f.op, f.payload);
    c' := c1;
    FinishGroup(cfg, c.delivered, gs, lastOpen);
    var d := MessageOf(gs[0]);
    assert c'.delivered + Messages(Complete(gs[1..], lastOpen))
        == c.delivered + ([d] + Messages(Complete(gs[1..], lastOpen)));
  }

  lemma FrameFits(cfg: Config, f: Frame)
    requires LegalFrame(cfg, f)
    ensures |f.payload| <= cfg.maxFrame
  {}

  lemma FirstLegal(cfg: Config, gs: seq<Group>, lastOpen: bool)
    requires LegalGroups(cfg, gs, lastOpen) && gs != [] && (|gs| > 1 || !lastOpen)
    ensures LegalGroup(cfg, gs[0], true) && gs[0].parts != []
  {
    hide Utf8.WellFormed, Concat;
  }

  /** The message of the first group leaves the connection open. */
  lemma FirstMessage(cfg: Config, log: seq<Delivery>, gs: seq<Group>, lastOpen: bool)
    requires gs != [] && gs[0].parts != [] && (|gs| > 1 || !lastOpen)
    requires AppStays(cfg, log, Complete(gs, lastOpen))
    ensures Complete(gs[1..], lastOpen) == Complete(gs, lastOpen)[1..]
    ensures Messages(Complete(gs, lastOpen)) == [MessageOf(gs[0])] + Messages(Complete(gs[1..], lastOpen))
    ensures cfg.app(log + [MessageOf(gs[0])]).close.None?
  {
    hide Concat;
    var all := Complete(gs, lastOpen);
    assert all != [] && all[0] == gs[0] && Complete(gs[1..], lastOpen) == all[1..];
    var ms := Messages(all);
    assert ms == [MessageOf(gs[0])] + Messages(all[1..]);
    assert ms[..1] == [MessageOf(gs[0])];
  }

  ghost predicate Leads(gs: seq<Group>, k: nat, lastOpen: bool) {
    gs != [] ==> k < |gs[0].parts| || (lastOpen && |gs| == 1)
  }

  /** Handling frames whose data frames are those of gs (k fragments of gs[0] having arrived)
      delivers the messages of the complete groups, answers every ping, and leaves the open group
      in the buffer. */
  lemma {:induction false} HandleReassembles(cfg: Config, c: Chan, fs: seq<Frame>, gs: seq<Group>, k: nat, lastOpen: bool)
    requires forall f :: f in fs ==> LegalFrame(cfg, f)
    requires LegalGroups(cfg, gs, lastOpen)
    requires WithoutControl(fs) == DataFrames(gs, k, lastOpen)
    requires c.open && Stands(c, gs, k) && Leads(gs, k, lastOpen)
    requires AppStays(cfg, c.delivered, Complete(gs, lastOpen))
    ensures var (c', ok) := Handle(cfg, c, fs);
      && ok && c'.open
      && c'.delivered == c.delivered + Messages(Complete(gs, lastOpen))
      && Pongs(c'.sent) == Pongs(c.sent) + Pings(fs)
      && (if lastOpen then gs != [] && Midway(c', gs[|gs| - 1], |gs[|gs| - 1].parts|) else Idle(c'))
    decreases |fs|
  {
    hide OnFrame, FrameError, Utf8.Run, Utf8.WellFormed, Concat, Pongs, Messages, DataFrames, Complete;
    hide LegalGroups, Leads, Stands, Midway, AppStays, Handle, Pings;
    if fs == [] {
      NothingLeft(cfg, c, gs, k, lastOpen);
      NoFrames(cfg, c);
    } else {
      var c', gs', k' := c, gs, k;
      PingsOfFirst(fs);
      if fs[0].op >= 8 {
        c' := ControlStep(cfg, c, fs[0], gs, k);
      } else {
        c', gs', k' := DataStep(cfg, c, fs[0], WithoutControl(fs[1..]), gs, k, lastOpen);
      }
      HandleFirst(cfg, c, fs, c');
      HandleReassembles(cfg, c', fs[1..], gs', k', lastOpen);
    }
  }

  lemma NoFrames(cfg: Config, c: Chan)
    ensures Handle(cfg, c, []) == (c, true) && Pings([]) == []
  {}

  lemma PingsOfFirst(fs: seq<Frame>)
    requires fs != []
    ensures Pings(fs) == Pings([fs[0]]) + Pings(fs[1..])
    ensures fs[0].op < 8 ==> Pings([fs[0]]) == []
  {
    var one := [fs[0]];
    assert one[1..] == [] && Pings(one[1..]) == [];
    assert Pings(one) == if fs[0].op == 9 then [fs[0].payload] else [];
  }

  lemma HandleFirst(cfg: Config, c: Chan, fs: seq<Frame>, c': Chan)
    requires fs != [] && c.open
    requires FrameError(cfg, c, fs[0].fin, fs[0].op, |fs[0].payload|).None?
    requires OnFrame(cfg, c, fs[0].fin, fs[0].op, fs[0].payload) == (c', Go)
    ensures Handle(cfg, c, fs) == Handle(cfg, c', fs[1..])
  {}

  lemma ControlStep(cfg: Config, c: Chan, f: Frame, gs: seq<Group>, k: nat) returns (c': Chan)
    requires LegalFrame(cfg, f) && f.op >= 8 && c.open && Stands(c, gs, k)
    ensures FrameError(cfg, c, f.fin, f.op, |f.payload|).None?
    ensures OnFrame(cfg, c, f.fin, f.op, f.payload) == (c', Go)
    ensures c'.open && Stands(c', gs, k) && c'.delivered == c.delivered
    ensures Pongs(c'.sent) == Pongs(c.sent) + Pings([f])
  {
    PingHandled(cfg, c, f);
    var (c1, _) := OnFrame(cfg, c, f.fin, f.op, f.payload);
    c' := c1;
  }

  /** The groups that have their final frame. */
  function Complete(gs: seq<Group>, lastOpen: bool): seq<Group> {
    if lastOpen && gs != [] then gs[..|gs| - 1] else gs
  }

  lemma NothingLeft(cfg: Config, c: Chan, gs: seq<Group>, k: nat, lastOpen: bool)
    requires LegalGroups(cfg, gs, lastOpen)
    requires DataFrames(gs, k, lastOpen) == []
    requires Leads(gs, k, lastOpen) && Stands(c, gs, k)
    ensures if lastOpen then gs != [] && Midway(c, gs[|gs| - 1], |gs[|gs| - 1].parts|) else Idle(c)
    ensures Complete(gs, lastOpen) == [] && Messages(Complete(gs, lastOpen)) == []
  {
    if gs != [] && k < |gs[0].parts| {
      NextData(gs, k, lastOpen);
    }
  }

  lemma DataLeft(gs: seq<Group>, k: nat, lastOpen: bool, f: Frame, rest: seq<Frame>)
    requires [f] + rest == DataFrames(gs, k, lastOpen)
    requires Leads(gs, k, lastOpen)
    ensures gs != [] && k < |gs[0].parts|
  {
  }

  lemma FinishGroup(cfg: Config, log: seq<Delivery>, gs: seq<Group>, lastOpen: bool)
    requires gs != [] && LegalGroups(cfg, gs, lastOpen) && (|gs| > 1 || !lastOpen)
    requires AppStays(cfg, log, Complete(gs, lastOpen))
    ensures Complete(gs[1..], lastOpen) == Complete(gs, lastOpen)[1..]
    ensures LegalGroups(cfg, gs[1..], lastOpen)
    ensures var d := Messages(Complete(gs, lastOpen))[0];
      AppStays(cfg, log + [d], Complete(gs[1..], lastOpen))
  {
    var all := Complete(gs, lastOpen);
    var d := Messages(all)[0];
    assert Messages(all) == [d] + Messages(all[1..]);
    assert Complete(gs[1..], lastOpen) == all[1..];
    MessagesLength(all);
    MessagesLength(all[1..]);
    forall n | 0 < n <= |all[1..]|
      ensures cfg.app(log + [d] + Messages(all[1..])[..n]).close.None?
    {
      assert Messages(all)[..n + 1] == [d] + Messages(all[1..])[..n];
      assert log + [d] + Messages(all[1..])[..n] == log + Messages(all)[..n + 1];
    }
    forall i | 0 <= i < |gs[1..]|
      ensures LegalGroup(cfg, gs[1..][i], !(lastOpen && i == |gs[1..]| - 1))
    {
      assert gs[1..][i] == gs[i + 1];
    }
  }

  /** For every legal sequence of masked frames, with pings and pongs interleaved anywhere and lengths in
      any form, the SIP layer gets exactly the concatenated payloads of each fragment group, every ping is
      answered in order with its own payload, and `@msg_sym_opcode` and the message buffer hold the
      partial message exactly while a group is open. */
  lemma Reassembly(cfg: Config, rx: Rx, ss: seq<Sealed>, gs: seq<Group>, lastOpen: bool)
    requires rx.phase == Init && rx.buffer == [] && rx.chan.open && Idle(rx.chan)
    requires forall s :: s in ss ==> Sealable(s)
    requires forall f :: f in Frames(ss) ==> LegalFrame(cfg, f)
    requires LegalGroups(cfg, gs, lastOpen)
    requires WithoutControl(Frames(ss)) == DataFrames(gs, 0, lastOpen)
    requires AppStays(cfg, rx.chan.delivered, Complete(gs, lastOpen))
    ensures var e := Feed(cfg, rx, WireAll(ss)); var c := e.rx.chan;
      && !e.stalled && c.open && e.rx.phase == Init && e.rx.buffer == []
      && c.delivered == rx.chan.delivered + Messages(Complete(gs, lastOpen))
      && Pongs(c.sent) == Pongs(rx.chan.sent) + Pings(Frames(ss))
      && (if lastOpen then
            c.msg == Some(gs[|gs| - 1].kind) && c.acc == Concat(gs[|gs| - 1].parts)
          else
            c.msg == None && c.acc == [])
  {
    HandleReassembles(cfg, rx.chan, Frames(ss), gs, 0, lastOpen);
    assert rx.buffer + WireAll(ss) == WireAll(ss);
    FeedIsHandle(cfg, rx.(buffer := WireAll(ss)), ss);
    if lastOpen {
      var g := gs[|gs| - 1];
      assert g.parts[..|g.parts|] == g.parts;
    }
  }
}

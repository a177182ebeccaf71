/** The ordered header hash of a request as values, and what `send_request` of the two client
    transactions does to it. RequestHeaders.dfy holds the objects. */
module Headers {

  /** Header names in hash order, each with its values. */
  type Hdrs = seq<(string, seq<string>)>

  predicate Has(h: Hdrs, k: string) { exists i :: 0 <= i < |h| && h[i].0 == k }

  function Values(h: Hdrs, k: string): seq<string> {
    if h == [] then [] else if h[0].0 == k then h[0].1 else Values(h[1..], k)
  }

  predicate NoneEmpty(h: Hdrs) { forall i :: 0 <= i < |h| ==> h[i].1 != [] }

  function Push(h: Hdrs, k: string, v: string): Hdrs {
    if h == [] then [] else if h[0].0 == k then [(k, [v] + h[0].1)] + h[1..] else [h[0]] + Push(h[1..], k, v)
  }

  /** `insert_header`: a new name goes to the front of the hash. */
  function Insert(h: Hdrs, k: string, v: string): Hdrs {
    if Has(h, k) then Push(h, k, v) else [(k, [v])] + h
  }

  /** `delete_header_top`: the last value takes its name along. */
  function DeleteTop(h: Hdrs, k: string): Hdrs {
    if h == [] then []
    else if h[0].0 == k then (if |h[0].1| > 1 then [(k, h[0].1[1..])] + h[1..] else h[1..])
    else [h[0]] + DeleteTop(h[1..], k)
  }

  lemma HasTail(h: Hdrs, k: string)
    requires h != []
    ensures Has(h, k) <==> h[0].0 == k || Has(h[1..], k)
  {
    if Has(h[1..], k) {
      var i :| 0 <= i < |h[1..]| && h[1..][i].0 == k;
      assert h[i + 1].0 == k;
    }
    if Has(h, k) && h[0].0 != k {
      var i :| 0 <= i < |h| && h[i].0 == k;
      assert h[1..][i - 1].0 == k;
    }
  }

  lemma {:induction false} DeletePushed(h: Hdrs, k: string, v: string)
    requires Has(h, k)
    ensures DeleteTop(Push(h, k, v), k) == h <==> Values(h, k) != []
    decreases |h|
  {
    HasTail(h, k);
    if h[0].0 == k {
      assert ([v] + h[0].1)[1..] == h[0].1;
      if h[0].1 == [] {
        assert |DeleteTop(Push(h, k, v), k)| < |h|;
      }
    } else {
      DeletePushed(h[1..], k, v);
      var d := DeleteTop(Push(h[1..], k, v), k);
      assert DeleteTop(Push(h, k, v), k) == [h[0]] + d;
      assert ([h[0]] + d)[1..] == d;
    }
  }

  /** Inserting a value and deleting the top one gives the hash back, order included, unless the
      header stood there without any value. */
  lemma InsertDeleteIff(h: Hdrs, k: string, v: string)
    ensures DeleteTop(Insert(h, k, v), k) == h <==> !(Has(h, k) && Values(h, k) == [])
  {
    if Has(h, k) { DeletePushed(h, k, v); } else { assert ([(k, [v])] + h)[1..] == h; }
  }

  lemma {:induction false} HasAfterDelete(h: Hdrs, k: string, k': string)
    requires k != k'
    ensures Has(DeleteTop(h, k'), k) <==> Has(h, k)
    decreases |h|
  {
    if h != [] {
      var d := DeleteTop(h, k');
      HasTail(h, k);
      HasAfterDelete(h[1..], k, k');
      if h[0].0 == k' {
        if |h[0].1| > 1 { HasTail(d, k); assert d[1..] == h[1..]; }
      } else {
        HasTail(d, k);
        assert d[1..] == DeleteTop(h[1..], k');
      }
    }
  }

  lemma {:induction false} PushThenDelete(h: Hdrs, k: string, v: string, k': string)
    requires k != k'
    ensures DeleteTop(Push(h, k, v), k') == Push(DeleteTop(h, k'), k, v)
    decreases |h|
  {
    if h != [] {
      PushThenDelete(h[1..], k, v, k');
    }
  }

  /** Deleting under one name and inserting under another do not disturb each other. */
  lemma InsertThenDeleteOther(h: Hdrs, k: string, v: string, k': string)
    requires k != k'
    ensures DeleteTop(Insert(h, k, v), k') == Insert(DeleteTop(h, k'), k, v)
  {
    HasAfterDelete(h, k, k');
    PushThenDelete(h, k, v, k');
    if !Has(h, k) { assert ([(k, [v])] + h)[1..] == h; }
  }

  // ---- What send_request adds and takes off ----

  datatype InRR =
    | NoRR | RR | OutgoingRR | IncomingRR | BothRR
    | Path | OutgoingPath | IncomingPath | BothPath

  /** The strings of the server class that sends and the flow token of the Route. */
  datatype Sender = Sender(sameClass: bool, topVia: string, recordRoute: string, routeToken: string,
                           rrFragment: string, pathFragment: string)

  /** The second routing header inserted, if any: its name and value. */
  function Added(s: Sender, in_rr: InRR, paths: bool): (r: seq<(string, string)>)
    ensures |r| <= 1
  {
    match in_rr
    case NoRR => []
    case RR => if s.sameClass then [] else [("Record-Route", s.recordRoute)]
    case OutgoingRR => [("Record-Route", s.recordRoute)]
    case IncomingRR => [("Record-Route", "<sip:" + s.routeToken + s.rrFragment)]
    case BothRR => [("Record-Route", "<sip:" + s.routeToken + s.rrFragment)]
    case Path => if s.sameClass || !paths then [] else [("Path", s.recordRoute)]
    case OutgoingPath => if paths then [("Path", s.recordRoute)] else []
    case IncomingPath => if paths then [("Path", "<sip:" + s.routeToken + s.pathFragment)] else []
    case BothPath => if paths then [("Path", "<sip:" + s.routeToken + s.pathFragment)] else []
  }

  /** The name whose top value is deleted afterwards (`@out_rr`). */
  function Removed(s: Sender, in_rr: InRR, paths: bool): seq<string> {
    if in_rr == BothPath && paths then ["Record-Route"]
    else if Added(s, in_rr, paths) == [] then [] else [Added(s, in_rr, paths)[0].0]
  }

  /** The headers the request is sent with. */
  function Sent(h: Hdrs, s: Sender, in_rr: InRR, paths: bool): Hdrs {
    var h1 := Insert(h, "Via", s.topVia);
    var a := Added(s, in_rr, paths);
    if a == [] then h1 else Insert(h1, a[0].0, a[0].1)
  }

  /** The headers left behind. paths tells the non-INVITE transaction of a proxy core (other cores: NoRR), the only one that
      knows the Path cases. */
  function AfterSend(h: Hdrs, s: Sender, in_rr: InRR, paths: bool): Hdrs {
    var h1 := DeleteTop(Sent(h, s, in_rr, paths), "Via");
    var r := Removed(s, in_rr, paths);
    if r == [] then h1 else DeleteTop(h1, r[0])
  }

  lemma ViaOff(h: Hdrs, s: Sender, in_rr: InRR, paths: bool)
    requires NoneEmpty(h)
    ensures DeleteTop(Sent(h, s, in_rr, paths), "Via")
         == var a := Added(s, in_rr, paths); if a == [] then h else Insert(h, a[0].0, a[0].1)
  {
    if Has(h, "Via") { ValuesNonEmpty(h, "Via"); }
    InsertDeleteIff(h, "Via", s.topVia);
    var a := Added(s, in_rr, paths);
    if a != [] {
      InsertThenDeleteOther(Insert(h, "Via", s.topVia), a[0].0, a[0].1, "Via");
    }
  }

  lemma {:induction false} ValuesNonEmpty(h: Hdrs, k: string)
    requires NoneEmpty(h) && Has(h, k)
    ensures Values(h, k) != []
    decreases |h|
  {
    HasTail(h, k);
    if h[0].0 != k { ValuesNonEmpty(h[1..], k); }
  }

  /** Every target starts from the same headers exactly when the case is not `:both_outbound_path`,
      which adds a Path value and deletes the top Record-Route value instead. */
  lemma SendRestoresIff(h: Hdrs, s: Sender, in_rr: InRR, paths: bool)
    requires NoneEmpty(h)
    ensures AfterSend(h, s, in_rr, paths) == h <==> !(paths && in_rr == BothPath)
    ensures paths && in_rr == BothPath ==>
      AfterSend(h, s, in_rr, paths)
      == Insert(DeleteTop(h, "Record-Route"), "Path", "<sip:" + s.routeToken + s.pathFragment)
  {
    hide Insert, DeleteTop, Has, Values;
    ViaOff(h, s, in_rr, paths);
    var a := Added(s, in_rr, paths);
    if paths && in_rr == BothPath {
      InsertThenDeleteOther(h, "Path", a[0].1, "Record-Route");
      PathGrew(h, a[0].1);
    } else if a != [] {
      if Has(h, a[0].0) { ValuesNonEmpty(h, a[0].0); }
      InsertDeleteIff(h, a[0].0, a[0].1);
    }
  }

  lemma {:induction false} ValuesPushed(h: Hdrs, k: string, v: string)
    requires Has(h, k)
    ensures Values(Push(h, k, v), k) == [v] + Values(h, k)
    decreases |h|
  {
    HasTail(h, k);
    if h[0].0 != k { ValuesPushed(h[1..], k, v); }
  }

  lemma {:induction false} AbsentValues(h: Hdrs, k: string)
    requires !Has(h, k)
    ensures Values(h, k) == []
    decreases |h|
  {
    if h != [] {
      HasTail(h, k);
      AbsentValues(h[1..], k);
    }
  }

  lemma ValuesInserted(h: Hdrs, k: string, v: string)
    ensures Values(Insert(h, k, v), k) == [v] + Values(h, k)
  {
    if Has(h, k) { ValuesPushed(h, k, v); } else { AbsentValues(h, k); }
  }

  lemma {:induction false} ValuesAfterDeleteOther(h: Hdrs, k: string, k': string)
    requires k != k'
    ensures Values(DeleteTop(h, k'), k) == Values(h, k)
    decreases |h|
  {
    if h != [] {
      var d := DeleteTop(h, k');
      ValuesAfterDeleteOther(h[1..], k, k');
      if h[0].0 == k' {
        if |h[0].1| > 1 { assert d[1..] == h[1..]; }
      } else {
        assert d[1..] == DeleteTop(h[1..], k');
      }
    }
  }

  lemma PathGrew(h: Hdrs, v: string)
    ensures Values(Insert(DeleteTop(h, "Record-Route"), "Path", v), "Path") == [v] + Values(h, "Path")
    ensures Insert(DeleteTop(h, "Record-Route"), "Path", v) != h
  {
    hide Insert, DeleteTop, Values;
    ValuesInserted(DeleteTop(h, "Record-Route"), "Path", v);
    ValuesAfterDeleteOther(h, "Path", "Record-Route");
    assert |[v] + Values(h, "Path")| != |Values(h, "Path")|;
  }

  lemma {:induction false} ValuesPushedOther(h: Hdrs, k: string, v: string, k': string)
    requires k != k'
    ensures Values(Push(h, k, v), k') == Values(h, k')
    decreases |h|
  {
    if h != [] && h[0].0 != k { ValuesPushedOther(h[1..], k, v, k'); }
  }

  lemma ValuesInsertedOther(h: Hdrs, k: string, v: string, k': string)
    requires k != k'
    ensures Values(Insert(h, k, v), k') == Values(h, k')
  {
    if Has(h, k) { ValuesPushedOther(h, k, v, k'); } else { assert ([(k, [v])] + h)[1..] == h; }
  }

  /** What goes on the wire: this server's Via on top; a second Record-Route of the sending side if the transport
      changes or for outgoing Outbound, and one with the flow token of the Route for incoming Outbound; the same
      with Path for a REGISTER by the non-INVITE transaction; every other header as it was. */
  lemma SentValues(h: Hdrs, s: Sender, in_rr: InRR, paths: bool, k: string)
    ensures Values(Sent(h, s, in_rr, paths), k) ==
      (if k == "Via" then [s.topVia]
       else if k == "Record-Route" then
         if in_rr == OutgoingRR || (in_rr == RR && !s.sameClass) then [s.recordRoute]
         else if in_rr in {IncomingRR, BothRR} then ["<sip:" + s.routeToken + s.rrFragment]
         else []
       else if k == "Path" && paths then
         if in_rr == OutgoingPath || (in_rr == Path && !s.sameClass) then [s.recordRoute]
         else if in_rr in {IncomingPath, BothPath} then ["<sip:" + s.routeToken + s.pathFragment]
         else []
       else []) + Values(h, k)
  {
    hide Insert, Values;
    var h1, a := Insert(h, "Via", s.topVia), Added(s, in_rr, paths);
    if k == "Via" { ValuesInserted(h, k, s.topVia); } else { ValuesInsertedOther(h, "Via", s.topVia, k); }
    if a != [] {
      if k == a[0].0 { ValuesInserted(h1, k, a[0].1); } else { ValuesInsertedOther(h1, a[0].0, a[0].1, k); }
    }
  }

  // ---- Failover: one send_request per target ----

  function AfterTargets(h: Hdrs, ss: seq<Sender>, in_rr: InRR, paths: bool): Hdrs
    decreases |ss|
  {
    if ss == [] then h else AfterTargets(AfterSend(h, ss[0], in_rr, paths), ss[1..], in_rr, paths)
  }

  function PathValues(ss: seq<Sender>): seq<string> {
    if ss == [] then [] else PathValues(ss[1..]) + ["<sip:" + ss[0].routeToken + ss[0].pathFragment]
  }

  lemma NoneEmptyInserted(h: Hdrs, k: string, v: string)
    requires NoneEmpty(h)
    ensures NoneEmpty(Insert(h, k, v)) && NoneEmpty(DeleteTop(h, k))
  {
    NoneEmptyPushed(h, k, v);
    if !Has(h, k) {
      var h' := [(k, [v])] + h;
      forall i | 0 <= i < |h'| ensures h'[i].1 != [] {
        if i > 0 { assert h'[i] == h[i - 1]; }
      }
    }
  }

  lemma {:induction false} NoneEmptyPushed(h: Hdrs, k: string, v: string)
    requires NoneEmpty(h)
    ensures NoneEmpty(Push(h, k, v)) && NoneEmpty(DeleteTop(h, k))
    decreases |h|
  {
    if h != [] {
      NoneEmptyPushed(h[1..], k, v);
      NoneEmptyTail(h);
    }
  }

  lemma NoneEmptyTail(h: Hdrs)
    requires NoneEmpty(h) && h != []
    ensures NoneEmpty(h[1..]) && h[0].1 != []
  {}

  lemma WrongSend(h: Hdrs, s: Sender)
    requires NoneEmpty(h)
    ensures NoneEmpty(AfterSend(h, s, BothPath, true))
    ensures Values(AfterSend(h, s, BothPath, true), "Path")
         == ["<sip:" + s.routeToken + s.pathFragment] + Values(h, "Path")
  {
    hide Insert, DeleteTop, Values, AfterSend, NoneEmpty;
    var v := "<sip:" + s.routeToken + s.pathFragment;
    SendRestoresIff(h, s, BothPath, true);
    PathGrew(h, v);
    NoneEmptyInserted(h, "Record-Route", v);
    NoneEmptyInserted(DeleteTop(h, "Record-Route"), "Path", v);
  }

  /** In the one wrong case the Path values of all targets pile up, the latest first. */
  lemma {:induction false} PathsPileUp(h: Hdrs, ss: seq<Sender>)
    requires NoneEmpty(h)
    ensures Values(AfterTargets(h, ss, BothPath, true), "Path") == PathValues(ss) + Values(h, "Path")
    decreases |ss|
  {
    hide Values, AfterSend, NoneEmpty;
    if ss != [] {
      WrongSend(h, ss[0]);
      PathsPileUp(AfterSend(h, ss[0], BothPath, true), ss[1..]);
    }
  }

  /** Over any list of targets the headers stay as they were, unless in that case. */
  lemma {:induction false} TargetsStartEqual(h: Hdrs, ss: seq<Sender>, in_rr: InRR, paths: bool)
    requires NoneEmpty(h)
    ensures AfterTargets(h, ss, in_rr, paths) == h <==> ss == [] || !(paths && in_rr == BothPath)
    decreases |ss|
  {
    if ss != [] {
      hide Values, AfterSend, NoneEmpty, PathValues;
      if paths && in_rr == BothPath {
        PathsPileUp(h, ss);
        PathValuesCount(ss);
        assert |PathValues(ss) + Values(h, "Path")| > |Values(h, "Path")|;
      } else {
        SendRestoresIff(h, ss[0], in_rr, paths);
        TargetsStartEqual(h, ss[1..], in_rr, paths);
      }
    }
  }

  lemma {:induction false} PathValuesCount(ss: seq<Sender>)
    ensures |PathValues(ss)| == |ss|
  {
    if ss != [] { PathValuesCount(ss[1..]); }
  }
}

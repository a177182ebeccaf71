/** The header hash of a request as objects: `headers["Via"]` and `@hdr_via`, from which replies are
    built, are one and the same array. */
module RequestHeaders {
  import opened Headers

  predicate FirstAt(h: Hdrs, k: string, i: nat) {
    i < |h| && h[i].0 == k && forall j :: 0 <= j < i ==> h[j].0 != k
  }

  lemma FirstInTail(h: Hdrs, k: string, i: nat)
    requires FirstAt(h, k, i) && i > 0
    ensures i < |h| && h[0].0 != k && FirstAt(h[1..], k, i - 1) && h[1..][i - 1] == h[i]
  {
    assert forall j :: 0 <= j < i - 1 ==> h[1..][j] == h[j + 1];
  }

  lemma {:induction false} PushAt(h: Hdrs, k: string, v: string, i: nat)
    requires FirstAt(h, k, i)
    ensures i < |h| && Push(h, k, v) == h[i := (k, [v] + h[i].1)] && Values(h, k) == h[i].1
    decreases i
  {
    hide FirstAt;
    if i > 0 {
      FirstInTail(h, k, i);
      PushAt(h[1..], k, v, i - 1);
      Reassemble(h, i, (k, [v] + h[i].1));
    } else {
      FirstMeans(h, k, 0);
    }
  }

  lemma InsertAt(h: Hdrs, k: string, v: string, i: nat)
    requires FirstAt(h, k, i)
    ensures Has(h, k) && i < |h|
    ensures Insert(h, k, v) == h[i := (k, [v] + h[i].1)] && Values(h, k) == h[i].1
  {
    hide Push, Values;
    PushAt(h, k, v, i);
  }

  lemma {:induction false} DeleteAt(h: Hdrs, k: string, i: nat)
    requires FirstAt(h, k, i)
    ensures DeleteTop(h, k) == if |h[i].1| > 1 then h[i := (k, h[i].1[1..])] else h[..i] + h[i + 1..]
    decreases i
  {
    hide FirstAt;
    if i > 0 {
      FirstInTail(h, k, i);
      DeleteAt(h[1..], k, i - 1);
      Reassemble(h, i, (k, if |h[i].1| > 1 then h[i].1[1..] else []));
    } else {
      FirstMeans(h, k, 0);
    }
  }

  lemma FirstMeans(h: Hdrs, k: string, i: nat)
    requires FirstAt(h, k, i)
    ensures i < |h| && h[i].0 == k
  {}

  lemma Reassemble(h: Hdrs, i: nat, x: (string, seq<string>))
    requires 0 < i < |h|
    ensures [h[0]] + h[1..][i - 1 := x] == h[i := x]
    ensures [h[0]] + (h[1..][..i - 1] + h[1..][i..]) == h[..i] + h[i + 1..]
  {}

  lemma {:induction false} DeleteAbsent(h: Hdrs, k: string, v: string)
    requires forall j :: 0 <= j < |h| ==> h[j].0 != k
    ensures DeleteTop(h, k) == h && Insert(h, k, v) == [(k, [v])] + h
    decreases |h|
  {
    if h != [] { DeleteAbsent(h[1..], k, v); }
  }

  lemma {:induction false} ValuesPushedOther(h: Hdrs, k: string, v: string, k': string)
    requires k != k'
    ensures Values(Push(h, k, v), k') == Values(h, k')
    decreases |h|
  {
    if h != [] { ValuesPushedOther(h[1..], k, v, k'); }
  }

  lemma ValuesInsertedOther(h: Hdrs, k: string, v: string, k': string)
    requires k != k'
    ensures Values(Insert(h, k, v), k') == Values(h, k')
  {
    ValuesPushedOther(h, k, v, k');
    if !Has(h, k) { assert ([(k, [v])] + h)[1..] == h; }
  }

  /** The Via values survive in every case. */
  lemma ViaKept(h: Hdrs, s: Sender, in_rr: InRR, paths: bool)
    requires NoneEmpty(h)
    ensures Values(AfterSend(h, s, in_rr, paths), "Via") == Values(h, "Via")
  {
    hide Insert, DeleteTop, Values, AfterSend;
    SendRestoresIff(h, s, in_rr, paths);
    if paths && in_rr == BothPath {
      ValuesAfterDeleteOther(h, "Via", "Record-Route");
      ValuesInsertedOther(DeleteTop(h, "Record-Route"), "Path", "<sip:" + s.routeToken + s.pathFragment, "Via");
    }
  }

  class HeaderArray {
    var values: seq<string>

    constructor (v: string)
      ensures values == [v]
    {
      values := [v];
    }
  }

  datatype Entry = Entry(name: string, list: HeaderArray)

  /** One entry and one array per name. */
  predicate Hash(es: seq<Entry>) {
    forall i, j :: 0 <= i < j < |es| ==> es[i].name != es[j].name && es[i].list != es[j].list
  }

  lemma HashWithout(es: seq<Entry>, i: nat)
    requires Hash(es) && i < |es|
    ensures var r := es[..i] + es[i + 1..];
      Hash(r) && (forall e :: e in r <==> e in es && e != es[i])
  {
    var r := es[..i] + es[i + 1..];
    assert forall j :: 0 <= j < |r| ==> r[j] == es[if j < i then j else j + 1];
    forall e | e in es && e != es[i] ensures e in r {
      var v :| 0 <= v < |es| && es[v] == e;
      assert r[if v < i then v else v - 1] == e;
    }
  }

  lemma HashWith(es: seq<Entry>, e: Entry)
    requires Hash(es) && forall j :: 0 <= j < |es| ==> es[j].name != e.name && es[j].list != e.list
    ensures Hash([e] + es) && Hash(es + [e])
  {
    var r := [e] + es;
    assert forall j :: 0 < j < |r| ==> r[j] == es[j - 1];
  }

  // ---- What the parser makes of the header fields ----

  function Append(h: Hdrs, k: string, v: string): Hdrs {
    if h == [] then [(k, [v])]
    else if h[0].0 == k then [(k, h[0].1 + [v])] + h[1..]
    else [h[0]] + Append(h[1..], k, v)
  }

  function Parsed(fields: seq<(string, string)>): Hdrs {
    if fields == [] then []
    else
      var f := fields[|fields| - 1];
      Append(Parsed(fields[..|fields| - 1]), f.0, f.1)
  }

  lemma {:induction false} AppendAt(h: Hdrs, k: string, v: string, i: nat)
    requires FirstAt(h, k, i)
    ensures Append(h, k, v) == h[i := (k, h[i].1 + [v])]
    decreases i
  {
    if i > 0 {
      FirstInTail(h, k, i);
      AppendAt(h[1..], k, v, i - 1);
    }
  }

  lemma {:induction false} AppendAbsent(h: Hdrs, k: string, v: string)
    requires forall j :: 0 <= j < |h| ==> h[j].0 != k
    ensures Append(h, k, v) == h + [(k, [v])]
    decreases |h|
  {
    if h != [] { AppendAbsent(h[1..], k, v); }
  }

  lemma {:induction false} AppendNonEmpty(h: Hdrs, k: string, v: string)
    requires NoneEmpty(h)
    ensures NoneEmpty(Append(h, k, v))
    decreases |h|
  {
    if h != [] {
      NoneEmptyTail(h);
      AppendNonEmpty(h[1..], k, v);
    }
  }

  /** One of the first n fields has the name k. */
  predicate Brings(fields: seq<(string, string)>, n: nat, k: string)
    requires n <= |fields|
  {
    exists i :: 0 <= i < n && fields[i].0 == k
  }

  lemma ParsedStart(fields: seq<(string, string)>)
    ensures Parsed(fields[..0]) == [] && !Brings(fields, 0, "Via")
  {}

  lemma ParsedNext(fields: seq<(string, string)>, i: nat)
    requires i < |fields|
    ensures Parsed(fields[..i + 1]) == Append(Parsed(fields[..i]), fields[i].0, fields[i].1)
    ensures Brings(fields, i + 1, "Via") <==> Brings(fields, i, "Via") || fields[i].0 == "Via"
  {
    assert fields[..i + 1][..i] == fields[..i];
  }

  lemma {:induction false} ParsedNonEmpty(fields: seq<(string, string)>)
    ensures NoneEmpty(Parsed(fields))
    decreases |fields|
  {
    if fields != [] {
      var f := fields[|fields| - 1];
      ParsedNonEmpty(fields[..|fields| - 1]);
      AppendNonEmpty(Parsed(fields[..|fields| - 1]), f.0, f.1);
    }
  }

  class Request {
    var headers: seq<Entry>
    /** `@hdr_via`, null for nil. */
    var hdrVia: HeaderArray?

    constructor ()
      ensures headers == [] && hdrVia == null && Parsing() && View() == []
    {
      headers, hdrVia := [], null;
    }

    /** `@hdr_via` and the array of the Via header are one object. */
    ghost predicate Aliased()
      reads this
    {
      hdrVia != null && Entry("Via", hdrVia) in headers
    }

    /** While the parser fills the hash: the first Via value sets `@hdr_via`. */
    ghost predicate Parsing()
      reads this
    {
      Valid() && if hdrVia == null then forall e :: e in headers ==> e.name != "Via" else Aliased()
    }

    /** `header` of the parser. */
    method Header(name: string, value: string)
      requires Parsing()
      modifies this`headers, this`hdrVia, Arrays()
      ensures Parsing() && fresh(Arrays() - old(Arrays())) && View() == Append(old(View()), name, value)
      ensures Aliased() <==> old(Aliased()) || name == "Via"
    {
      hide Append, ViewOf, Hash;
      ghost var h := View();
      var i := Find(name);
      if i < |headers| {
        AppendAt(h, name, value, i);
        assert headers[i] in headers;
        ReplaceValues(i, headers[i].list.values + [value]);
      } else {
        AppendAbsent(h, name, value);
        assert name == "Via" ==> hdrVia == null;
        var el := AppendEntry(name, value);
        if name == "Via" { hdrVia := el; }
      }
    }

    /** `rb_hash_aset` of a new array. */
    method AppendEntry(name: string, value: string) returns (el: HeaderArray)
      requires Valid() && forall j :: 0 <= j < |headers| ==> headers[j].name != name
      modifies this`headers
      ensures Valid() && fresh(Arrays() - old(Arrays())) && fresh(el)
      ensures headers == old(headers) + [Entry(name, el)] && Entry(name, el) in headers
      ensures View() == old(View()) + [(name, [value])]
    {
      hide ViewOf, Hash;
      ghost var h := View();
      ghost var all := Arrays();
      assert forall j :: 0 <= j < |headers| ==> headers[j] in headers && headers[j].list in all;
      el := new HeaderArray(value);
      HashWith(headers, Entry(name, el));
      headers := headers + [Entry(name, el)];
      assert headers[|headers| - 1] == Entry(name, el);
      assert View() == h + [(name, [value])];
    }

    /** A message with these header fields, parsed into a new hash. */
    method Parse(fields: seq<(string, string)>)
      requires headers == [] && hdrVia == null
      modifies this`headers, this`hdrVia
      ensures Valid() && fresh(Arrays()) && View() == Parsed(fields) && NoneEmpty(View())
      ensures Aliased() <==> Brings(fields, |fields|, "Via")
    {
      assert Parsing();
      hide Parsed, Append, ViewOf, Hash, NoneEmpty, Brings;
      ParsedStart(fields);
      for i := 0 to |fields|
        invariant Parsing() && fresh(Arrays()) && View() == Parsed(fields[..i])
        invariant Aliased() <==> Brings(fields, i, "Via")
      {
        ParsedNext(fields, i);
        Header(fields[i].0, fields[i].1);
      }
      assert fields[..|fields|] == fields;
      ParsedNonEmpty(fields);
    }

    ghost function Arrays(): set<HeaderArray>
      reads this
    {
      set e | e in headers :: e.list
    }

    ghost predicate Valid()
      reads this
    {
      Hash(headers)
    }

    ghost function View(): (h: Hdrs)
      reads this, Arrays()
      ensures |h| == |headers|
      ensures forall i :: 0 <= i < |h| ==> h[i] == (headers[i].name, headers[i].list.values)
    {
      ViewOf(headers)
    }

    static ghost function ViewOf(es: seq<Entry>): (h: Hdrs)
      reads set e | e in es :: e.list
      ensures |h| == |es|
      ensures forall i :: 0 <= i < |h| ==> h[i] == (es[i].name, es[i].list.values)
    {
      if es == [] then [] else [(es[0].name, es[0].list.values)] + ViewOf(es[1..])
    }

    lemma ViaAlias()
      requires Valid() && Aliased()
      ensures Has(View(), "Via") && Values(View(), "Via") == hdrVia.values
    {
      var i :| 0 <= i < |headers| && headers[i] == Entry("Via", hdrVia);
      InsertAt(View(), "Via", "", i);
    }

    method Find(name: string) returns (i: nat)
      ensures i <= |headers| && (forall j :: 0 <= j < i ==> headers[j].name != name)
      ensures i < |headers| ==> headers[i].name == name
    {
      i := 0;
      while i < |headers| && headers[i].name != name
        invariant i <= |headers| && forall j :: 0 <= j < i ==> headers[j].name != name
      {
        i := i + 1;
      }
    }

    method InsertHeader(name: string, value: string)
      requires Valid()
      modifies this`headers, Arrays()
      ensures Valid() && fresh(Arrays() - old(Arrays())) && (old(Aliased()) ==> Aliased())
      ensures View() == Insert(old(View()), name, value)
    {
      hide Insert, Push, Values, Has, ViewOf, Hash;
      ghost var h := View();
      var i := Find(name);
      if i < |headers| {
        InsertAt(h, name, value, i);
        ReplaceValues(i, [value] + headers[i].list.values);
      } else {
        DeleteAbsent(h, name, value);
        AddEntry(name, value);
      }
    }

    /** `unshift` and `shift` on the array of the entry at i. */
    method ReplaceValues(i: nat, values: seq<string>)
      requires Valid() && i < |headers|
      modifies headers[i].list
      ensures View() == old(View())[i := (headers[i].name, values)] && headers[i].list.values == values
    {
      hide ViewOf;
      ghost var h := View();
      headers[i].list.values := values;
      assert View() == h[i := (headers[i].name, values)];
    }

    /** `{ name => [value] }.merge! @headers` */
    method AddEntry(name: string, value: string)
      requires Valid() && forall j :: 0 <= j < |headers| ==> headers[j].name != name
      modifies this`headers
      ensures Valid() && fresh(Arrays() - old(Arrays())) && (old(Aliased()) ==> Aliased())
      ensures View() == [(name, [value])] + old(View())
    {
      hide ViewOf, Hash;
      ghost var h := View();
      ghost var all := Arrays();
      assert forall j :: 0 <= j < |headers| ==> headers[j] in headers && headers[j].list in all;
      var a := new HeaderArray(value);
      HashWith(headers, Entry(name, a));
      headers := [Entry(name, a)] + headers;
      assert View() == [(name, [value])] + h;
    }

    /** Deleting the only Via value drops the header; `@hdr_via` then keeps the value, on its own. */
    method DeleteHeaderTop(name: string)
      requires Valid()
      modifies this`headers, Arrays()
      ensures Valid() && Arrays() <= old(Arrays())
      ensures View() == DeleteTop(old(View()), name)
      ensures old(Aliased()) ==> (Aliased() <==> name != "Via" || |old(hdrVia.values)| > 1)
      ensures old(Aliased()) && !Aliased() ==> hdrVia.values == old(hdrVia.values)
    {
      hide DeleteTop, Insert, ViewOf;
      ghost var h := View();
      var i := Find(name);
      if i < |headers| {
        DeleteAt(h, name, i);
        OneVia(i);
        if |headers[i].list.values| > 1 {
          ReplaceValues(i, headers[i].list.values[1..]);
        } else {
          DeleteEntry(i);
        }
      } else {
        DeleteAbsent(h, name, "");
        assert forall e :: e in headers ==> e.name != name;
      }
    }

    lemma OneVia(i: nat)
      requires Valid() && i < |headers|
      ensures Aliased() ==> (headers[i].name == "Via" <==> headers[i] == Entry("Via", hdrVia))
    {
      if Aliased() {
        var v :| 0 <= v < |headers| && headers[v] == Entry("Via", hdrVia);
      }
    }

    /** `@headers.delete` of the entry at i. */
    method DeleteEntry(i: nat)
      requires Valid() && i < |headers|
      modifies this`headers
      ensures Valid() && Arrays() <= old(Arrays())
      ensures View() == old(View())[..i] + old(View())[i + 1..]
      ensures forall e :: e in headers <==> e in old(headers) && e != old(headers)[i]
    {
      hide ViewOf, Hash;
      ghost var h := View();
      HashWithout(headers, i);
      headers := headers[..i] + headers[i + 1..];
      assert View() == h[..i] + h[i + 1..];
    }

    /** The `case @request.in_rr` of both transactions; outRR is `@out_rr`, empty for nil. */
    method InsertRouting(s: Sender, in_rr: InRR, paths: bool) returns (outRR: string)
      requires Valid()
      modifies this`headers, Arrays()
      ensures Valid() && fresh(Arrays() - old(Arrays())) && (old(Aliased()) ==> Aliased())
      ensures View() == var a := Added(s, in_rr, paths);
                        if a == [] then old(View()) else Insert(old(View()), a[0].0, a[0].1)
      ensures outRR == var r := Removed(s, in_rr, paths); if r == [] then "" else r[0]
    {
      hide Insert, ViewOf;
      outRR := "";
      match in_rr {
        case NoRR =>
        case RR =>
          if !s.sameClass {
            outRR := "Record-Route";
            InsertHeader("Record-Route", s.recordRoute);
          }
        case OutgoingRR =>
          outRR := "Record-Route";
          InsertHeader("Record-Route", s.recordRoute);
        case IncomingRR =>
          outRR := "Record-Route";
          InsertHeader("Record-Route", "<sip:" + s.routeToken + s.rrFragment);
        case BothRR =>
          outRR := "Record-Route";
          InsertHeader("Record-Route", "<sip:" + s.routeToken + s.rrFragment);
        case Path =>
          if paths && !s.sameClass {
            outRR := "Path";
            InsertHeader("Path", s.recordRoute);
          }
        case OutgoingPath =>
          if paths {
            outRR := "Path";
            InsertHeader("Path", s.recordRoute);
          }
        case IncomingPath =>
          if paths {
            outRR := "Path";
            InsertHeader("Path", "<sip:" + s.routeToken + s.pathFragment);
          }
        case BothPath =>
          if paths {
            outRR := "Record-Route";
            InsertHeader("Path", "<sip:" + s.routeToken + s.pathFragment);
          }
      }
    }

    method AddHeaders(s: Sender, in_rr: InRR, paths: bool) returns (outRR: string)
      requires Valid() && Aliased() && NoneEmpty(View())
      modifies this`headers, Arrays()
      ensures Valid() && Aliased() && fresh(Arrays() - old(Arrays()))
      ensures View() == Sent(old(View()), s, in_rr, paths) && |hdrVia.values| > 1
      ensures outRR == var r := Removed(s, in_rr, paths); if r == [] then "" else r[0]
    {
      hide Insert, DeleteTop, Values, AfterSend, NoneEmpty, Has, Added, Removed, Sent, ViewOf, Hash;
      ViaAlias();
      TwoVias(View(), s, in_rr, paths);
      InsertHeader("Via", s.topVia);
      outRR := InsertRouting(s, in_rr, paths);
      ViaAlias();
    }

    method TakeOff(outRR: string)
      requires Valid() && Aliased() && |hdrVia.values| > 1 && outRR in {"", "Record-Route", "Path"}
      modifies this`headers, Arrays()
      ensures Valid() && Aliased() && fresh(Arrays() - old(Arrays()))
      ensures View() == var h := DeleteTop(old(View()), "Via"); if outRR == "" then h else DeleteTop(h, outRR)
    {
      hide DeleteTop, ViewOf;
      DeleteHeaderTop("Via");
      if outRR != "" { DeleteHeaderTop(outRR); }
    }

    /** The header work of `send_request`: sent is what `to_s` prints between insertion and deletion. */
    method SendRequest(s: Sender, in_rr: InRR, paths: bool) returns (ghost sent: Hdrs)
      requires Valid() && Aliased() && NoneEmpty(View())
      modifies this`headers, Arrays()
      ensures Valid() && Aliased() && fresh(Arrays() - old(Arrays()))
      ensures sent == Sent(old(View()), s, in_rr, paths)
      ensures View() == AfterSend(old(View()), s, in_rr, paths)
      ensures !(paths && in_rr == BothPath) ==> View() == old(View())
      ensures hdrVia.values == old(hdrVia.values)
    {
      hide Insert, DeleteTop, Values, AfterSend, NoneEmpty, Has, Added, Removed, Sent, ViewOf, Hash;
      ghost var h := View();
      ViaAlias();
      ViaKept(h, s, in_rr, paths);
      SendRestoresIff(h, s, in_rr, paths);
      SentTakenOff(h, s, in_rr, paths);
      var outRR := AddHeaders(s, in_rr, paths);
      sent := View();
      TakeOff(outRR);
      ViaAlias();
    }
  }

  lemma TwoVias(h: Hdrs, s: Sender, in_rr: InRR, paths: bool)
    requires Has(h, "Via") && NoneEmpty(h)
    ensures |Values(Sent(h, s, in_rr, paths), "Via")| > 1
    ensures Sent(h, s, in_rr, paths)
         == var h1, a := Insert(h, "Via", s.topVia), Added(s, in_rr, paths);
            if a == [] then h1 else Insert(h1, a[0].0, a[0].1)
  {
    hide Insert, Values, Has, NoneEmpty;
    ValuesNonEmpty(h, "Via");
    ValuesInserted(h, "Via", s.topVia);
    var a := Added(s, in_rr, paths);
    if a != [] { ValuesInsertedOther(Insert(h, "Via", s.topVia), a[0].0, a[0].1, "Via"); }
  }

  lemma SentTakenOff(h: Hdrs, s: Sender, in_rr: InRR, paths: bool)
    ensures AfterSend(h, s, in_rr, paths)
         == var h1, r := DeleteTop(Sent(h, s, in_rr, paths), "Via"), Removed(s, in_rr, paths);
            if r == [] then h1 else DeleteTop(h1, r[0])
    ensures Sent(h, s, in_rr, paths)
         == var h1, a := Insert(h, "Via", s.topVia), Added(s, in_rr, paths);
            if a == [] then h1 else Insert(h1, a[0].0, a[0].1)
    ensures Removed(s, in_rr, paths) in {[], ["Record-Route"], ["Path"]}
  {}
}

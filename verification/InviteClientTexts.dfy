/** The ACK and the CANCEL of an INVITE client transaction, read back header by header. */
module InviteClientTexts {
  import opened Wrappers
  import opened InviteClient

  // ---- Reading a message ----

  /** Where the first line of s ends. */
  function LineEnd(s: string): (n: nat)
    ensures n <= |s|
  {
    if |s| < 2 then |s| else if s[0] == '\r' && s[1] == '\n' then 0 else 1 + LineEnd(s[1..])
  }

  /** The values of the header fields called name, from the lines before the empty one. */
  function Values(s: string, name: string): seq<string>
    decreases |s|
  {
    var n := LineEnd(s);
    if n == 0 || n + 2 > |s| then []
    else (if name + ": " <= s[..n] then [s[|name| + 2..n]] else []) + Values(s[n + 2..], name)
  }

  function StartLine(text: string): string { text[..LineEnd(text)] }

  /** The values of a header of the message. */
  function Header(text: string, name: string): seq<string> {
    var n := LineEnd(text);
    if n + 2 > |text| then [] else Values(text[n + 2..], name)
  }

  predicate OneLine(s: string) { '\r' !in s }

  predicate IsName(s: string) { s != "" && OneLine(s) && ':' !in s }

  predicate AllOneLine(values: seq<string>) { forall k :: 0 <= k < |values| ==> OneLine(values[k]) }

  lemma {:induction false} FirstLine(line: string, rest: string)
    requires OneLine(line)
    ensures LineEnd(line + (CRLF + rest)) == |line|
  {
    var s := line + (CRLF + rest);
    if line != "" {
      assert s[1..] == line[1..] + (CRLF + rest);
      assert s[0] == line[0] && line[0] in line;
      FirstLine(line[1..], rest);
    } else {
      assert s[0] == '\r' && s[1] == '\n';
    }
  }

  /** Names without a colon: a line belongs to one of them only. */
  lemma NamedOnce(name: string, value: string, n: string)
    requires IsName(name) && IsName(n)
    ensures n + ": " <= name + ": " + value <==> n == name
  {
    var line := name + ": " + value;
    if n == name {
      assert line[..|n| + 2] == n + ": ";
    } else {
      assert line[|name|] == ':' && (n + ": ")[|n|] == ':';
      assert |n| == |name| ==> line[..|n|] == name && (n + ": ")[..|n|] == n;
      assert |n| < |name| ==> line[|n|] == name[|n|];
      assert |n| > |name| ==> (n + ": ")[|name|] == n[|name|];
    }
  }

  lemma FieldValues(name: string, value: string, rest: string, n: string)
    requires IsName(name) && IsName(n) && OneLine(value)
    ensures Values(Field(name, value) + rest, n) == (if n == name then [value] else []) + Values(rest, n)
  {
    var line := name + ": " + value;
    var s := Field(name, value) + rest;
    assert s == line + (CRLF + rest);
    FirstLine(line, rest);
    assert s[..|line|] == line && s[|line| + 2..] == rest;
    NamedOnce(name, value, n);
    assert line[|name| + 2..] == value;
    if n == name { assert s[|n| + 2..|line|] == line[|n| + 2..]; }
  }

  lemma {:induction false} LinesValues(name: string, values: seq<string>, rest: string, n: string)
    requires IsName(name) && IsName(n) && AllOneLine(values)
    ensures Values(Lines(name, values) + rest, n) == (if n == name then values else []) + Values(rest, n)
  {
    if values == [] {
      assert Lines(name, values) + rest == rest;
    } else {
      assert Lines(name, values) + rest == Field(name, values[0]) + (Lines(name, values[1..]) + rest);
      FieldValues(name, values[0], Lines(name, values[1..]) + rest, n);
      LinesValues(name, values[1..], rest, n);
      assert [values[0]] + values[1..] == values;
    }
  }

  lemma FromToValues(r: Request, to: string, method_: string, n: string)
    requires IsName(n) && OneLine(r.from) && OneLine(to) && OneLine(r.callId) && OneLine(r.cseq) && OneLine(method_)
    ensures Values(FromTo(r, to, method_), n) == EndValues(r, to, method_, n)
  {
    hide Field, Values, IsName, EndValues;
    var f6 := Field("User-Agent", "OverSIP") + CRLF;
    var f5 := Field("Content-Length", "0") + f6;
    var f4 := Field("CSeq", r.cseq + " " + method_) + f5;
    var f3 := Field("Call-ID", r.callId) + f4;
    var f2 := Field("To", to) + f3;
    NoValues(n);
    AreNames();
    FieldValues("User-Agent", "OverSIP", CRLF, n);
    FieldValues("Content-Length", "0", f6, n);
    FieldValues("CSeq", r.cseq + " " + method_, f5, n);
    FieldValues("Call-ID", r.callId, f4, n);
    FieldValues("To", to, f3, n);
    FieldValues("From", r.from, f2, n);
    OneOfThem(r, to, method_, n);
  }

  lemma AreNames()
    ensures IsName("From") && IsName("To") && IsName("Call-ID") && IsName("CSeq")
    ensures IsName("Content-Length") && IsName("User-Agent") && OneLine("OverSIP") && OneLine("0") && OneLine(" ")
  {}

  function EndValues(r: Request, to: string, method_: string, n: string): seq<string> {
    if n == "From" then [r.from] else if n == "To" then [to] else if n == "Call-ID" then [r.callId]
    else if n == "CSeq" then [r.cseq + " " + method_] else if n == "Content-Length" then ["0"]
    else if n == "User-Agent" then ["OverSIP"] else []
  }

  lemma OneOfThem(r: Request, to: string, method_: string, n: string)
    ensures (if n == "From" then [r.from] else []) + ((if n == "To" then [to] else [])
      + ((if n == "Call-ID" then [r.callId] else []) + ((if n == "CSeq" then [r.cseq + " " + method_] else [])
      + ((if n == "Content-Length" then ["0"] else []) + ((if n == "User-Agent" then ["OverSIP"] else []) + [])))))
      == EndValues(r, to, method_, n)
  {}

  lemma NoValues(n: string)
    ensures Values(CRLF, n) == []
  {}

  /** All header values in one line each. */
  predicate Readable(r: Request, topVia: string) {
    && OneLine(r.ruri) && OneLine(topVia) && AllOneLine(r.routes) && OneLine(r.from) && OneLine(r.to) && OneLine(r.callId)
    && OneLine(r.cseq)
  }

  /** The lines before a text. */
  lemma AfterStart(line: string, rest: string, n: string)
    requires OneLine(line)
    ensures StartLine(line + CRLF + rest) == line && Header(line + CRLF + rest, n) == Values(rest, n)
  {
    hide Values;
    var text := line + CRLF + rest;
    assert text == line + (CRLF + rest);
    FirstLine(line, rest);
    assert text[..|line|] == line && text[|line| + 2..] == rest;
  }

  lemma AckValues(r: Request, topVia: string, toTag: Option<string>, n: string)
    requires Readable(r, topVia) && (toTag.Some? ==> OneLine(toTag.value)) && IsName(n)
    ensures var to := r.to + if !r.inDialog && toTag.Some? then ";tag=" + toTag.value else "";
      && StartLine(AckText(r, topVia, toTag)) == "ACK " + r.ruri + " SIP/2.0"
      && Header(AckText(r, topVia, toTag), n)
         == (if n == "Via" then [topVia] else [])
          + ((if n == "Route" then r.routes else []) + Values(FromTo(r, to, "ACK"), n))
  {
    hide Field, Lines, Values, FromTo;
    var to := r.to + if !r.inDialog && toTag.Some? then ";tag=" + toTag.value else "";
    var rest := Lines("Route", r.routes) + FromTo(r, to, "ACK");
    AfterStart("ACK " + r.ruri + " SIP/2.0", Field("Via", topVia) + rest, n);
    FieldValues("Via", topVia, rest, n);
    LinesValues("Route", r.routes, FromTo(r, to, "ACK"), n);
  }

  /** The ACK for a 3xx-6xx of section 17.1.1.3 of RFC 3261: the top Via, the Routes, From, Call-ID and CSeq number of
      the INVITE, and the To tag of the response, unless the INVITE was sent inside a dialog. */
  lemma AckReadsBack(r: Request, topVia: string, toTag: Option<string>)
    requires Readable(r, topVia) && (toTag.Some? ==> OneLine(toTag.value))
    ensures var text := AckText(r, topVia, toTag);
      && StartLine(text) == "ACK " + r.ruri + " SIP/2.0"
      && Header(text, "Via") == [topVia] && Header(text, "Route") == r.routes
      && Header(text, "From") == [r.from] && Header(text, "Call-ID") == [r.callId]
      && Header(text, "To") == [if toTag.Some? && !r.inDialog then r.to + ";tag=" + toTag.value else r.to]
      && Header(text, "CSeq") == [r.cseq + " ACK"]
      && Header(text, "Reason") == []
  {
    hide Values, FromTo, AckText, Header, StartLine;
    assert r.cseq + " " + "ACK" == r.cseq + " ACK";
    assert r.to + "" == r.to;
    if toTag.Some? && !r.inDialog { assert r.to + (";tag=" + toTag.value) == r.to + ";tag=" + toTag.value; }
    AckHeader(r, topVia, toTag, "Via");
    AckHeader(r, topVia, toTag, "Route");
    AckHeader(r, topVia, toTag, "From");
    AckHeader(r, topVia, toTag, "Call-ID");
    AckHeader(r, topVia, toTag, "To");
    AckHeader(r, topVia, toTag, "CSeq");
    AckHeader(r, topVia, toTag, "Reason");
  }

  lemma AckHeader(r: Request, topVia: string, toTag: Option<string>, n: string)
    requires Readable(r, topVia) && (toTag.Some? ==> OneLine(toTag.value)) && IsName(n)
    ensures var to := r.to + if !r.inDialog && toTag.Some? then ";tag=" + toTag.value else "";
      && StartLine(AckText(r, topVia, toTag)) == "ACK " + r.ruri + " SIP/2.0"
      && Header(AckText(r, topVia, toTag), n) == Expected(n, topVia, r, to, "ACK", [])
  {
    hide Values, FromTo, AckText, Header, StartLine;
    AckValues(r, topVia, toTag, n);
    FromToValues(r, r.to + if !r.inDialog && toTag.Some? then ";tag=" + toTag.value else "", "ACK", n);
  }

  function Expected(n: string, topVia: string, r: Request, to: string, method_: string, reasons: seq<string>): seq<string> {
    if n == "Via" then [topVia] else if n == "Route" then r.routes else if n == "Reason" then reasons
    else EndValues(r, to, method_, n)
  }

  lemma CancelValues(r: Request, topVia: string, reasons: seq<string>, n: string)
    requires Readable(r, topVia) && AllOneLine(reasons) && IsName(n)
    ensures StartLine(CancelText(r, topVia, reasons)) == "CANCEL " + r.ruri + " SIP/2.0"
    ensures Header(CancelText(r, topVia, reasons), n)
         == (if n == "Via" then [topVia] else []) + ((if n == "Route" then r.routes else [])
            + ((if n == "Reason" then reasons else []) + Values(FromTo(r, r.to, "CANCEL"), n)))
  {
    hide Field, Lines, Values, FromTo;
    var rest := Lines("Reason", reasons) + FromTo(r, r.to, "CANCEL");
    AfterStart("CANCEL " + r.ruri + " SIP/2.0", Field("Via", topVia) + (Lines("Route", r.routes) + rest), n);
    FieldValues("Via", topVia, Lines("Route", r.routes) + rest, n);
    LinesValues("Route", r.routes, rest, n);
    LinesValues("Reason", reasons, FromTo(r, r.to, "CANCEL"), n);
  }

  /** The CANCEL of section 9.1 of RFC 3261, with the Reasons of RFC 3326: the INVITE's top Via, Routes, From, To,
      Call-ID and CSeq number. */
  lemma CancelReadsBack(r: Request, topVia: string, reasons: seq<string>)
    requires Readable(r, topVia) && AllOneLine(reasons)
    ensures var text := CancelText(r, topVia, reasons);
      && StartLine(text) == "CANCEL " + r.ruri + " SIP/2.0"
      && Header(text, "Via") == [topVia] && Header(text, "Route") == r.routes && Header(text, "Reason") == reasons
      && Header(text, "From") == [r.from] && Header(text, "To") == [r.to] && Header(text, "Call-ID") == [r.callId]
      && Header(text, "CSeq") == [r.cseq + " CANCEL"]
  {
    hide Values, FromTo, CancelText, Header, StartLine;
    assert r.cseq + " " + "CANCEL" == r.cseq + " CANCEL";
    CancelHeader(r, topVia, reasons, "Via");
    CancelHeader(r, topVia, reasons, "Route");
    CancelHeader(r, topVia, reasons, "Reason");
    CancelHeader(r, topVia, reasons, "From");
    CancelHeader(r, topVia, reasons, "To");
    CancelHeader(r, topVia, reasons, "Call-ID");
    CancelHeader(r, topVia, reasons, "CSeq");
  }

  lemma CancelHeader(r: Request, topVia: string, reasons: seq<string>, n: string)
    requires Readable(r, topVia) && AllOneLine(reasons) && IsName(n)
    ensures StartLine(CancelText(r, topVia, reasons)) == "CANCEL " + r.ruri + " SIP/2.0"
    ensures Header(CancelText(r, topVia, reasons), n) == Expected(n, topVia, r, r.to, "CANCEL", reasons)
  {
    hide Values, FromTo, CancelText, Header, StartLine;
    CancelValues(r, topVia, reasons, n);
    FromToValues(r, r.to, "CANCEL", n);
  }
}

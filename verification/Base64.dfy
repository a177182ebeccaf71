/** Base64 as `strict_encode64` writes it (section 4 of RFC 4648) and `decode64` reads it. */
module Base64 {
  import opened Wrappers
  import opened Bytes

  type Sextet = v: nat | v < 64

  function Symbol(v: Sextet): char {
    if v < 26 then 'A' + v as char
    else if v < 52 then 'a' + (v - 26) as char
    else if v < 62 then '0' + (v - 52) as char
    else if v == 62 then '+' else '/'
  }

  function SymbolValue(c: char): Option<Sextet> {
    if 'A' <= c <= 'Z' then Some((c - 'A') as nat)
    else if 'a' <= c <= 'z' then Some((c - 'a') as nat + 26)
    else if '0' <= c <= '9' then Some((c - '0') as nat + 52)
    else if c == '+' then Some(62)
    else if c == '/' then Some(63)
    else None
  }

  lemma SymbolRoundTrip(v: Sextet)
    ensures SymbolValue(Symbol(v)) == Some(v) && Symbol(v) != '-' && Symbol(v) != '=' && Symbol(v) != '_'
  {}

  function S1(a: byte): Sextet { a / 4 }
  function S2(a: byte, b: byte): Sextet { a % 4 * 16 + b / 16 }
  function S3(b: byte, c: byte): Sextet { b % 16 * 4 + c / 64 }
  function S4(c: byte): Sextet { c % 64 }

  function Encode(b: seq<byte>): string
    decreases |b|
  {
    if |b| == 0 then ""
    else if |b| == 1 then [Symbol(S1(b[0])), Symbol(S2(b[0], 0)), '=', '=']
    else if |b| == 2 then [Symbol(S1(b[0])), Symbol(S2(b[0], b[1])), Symbol(S3(b[1], 0)), '=']
    else [Symbol(S1(b[0])), Symbol(S2(b[0], b[1])), Symbol(S3(b[1], b[2])), Symbol(S4(b[2]))] + Encode(b[3..])
  }

  function B1(p: Sextet, q: Sextet): byte { p * 4 + q / 16 }
  function B2(q: Sextet, r: Sextet): byte { q % 16 * 16 + r / 4 }
  function B3(r: Sextet, s: Sextet): byte { r % 4 * 64 + s }

  function Flush(p: seq<Sextet>): seq<byte> {
    if |p| == 2 then [B1(p[0], p[1])]
    else if |p| == 3 then [B1(p[0], p[1]), B2(p[1], p[2])]
    else []
  }

  /** Characters outside the alphabet are skipped; a `=` where the third or fourth symbol should be ends
      the text. p holds the symbols of the group being read. */
  function DecodeFrom(p: seq<Sextet>, s: string): seq<byte>
    decreases |s|
  {
    if s == [] then Flush(p)
    else
      var v := SymbolValue(s[0]);
      if v.Some? then
        if |p| == 3 then
          [B1(p[0], p[1]), B2(p[1], p[2]), B3(p[2], v.value)] + DecodeFrom([], s[1..])
        else DecodeFrom(p + [v.value], s[1..])
      else if s[0] == '=' && |p| >= 2 then Flush(p)
      else DecodeFrom(p, s[1..])
  }

  function Decode(s: string): seq<byte> { DecodeFrom([], s) }

  lemma BytesBack(a: byte, b: byte, c: byte)
    ensures B1(S1(a), S2(a, b)) == a && B2(S2(a, b), S3(b, c)) == b && B3(S3(b, c), S4(c)) == c
  {}

  lemma PushSymbol(p: seq<Sextet>, v: Sextet, s: string)
    requires |p| < 3
    ensures DecodeFrom(p, [Symbol(v)] + s) == DecodeFrom(p + [v], s)
  {
    SymbolRoundTrip(v);
    assert ([Symbol(v)] + s)[1..] == s;
  }

  lemma PushLast(p: seq<Sextet>, v: Sextet, s: string)
    requires |p| == 3
    ensures DecodeFrom(p, [Symbol(v)] + s) == [B1(p[0], p[1]), B2(p[1], p[2]), B3(p[2], v)] + DecodeFrom([], s)
  {
    SymbolRoundTrip(v);
    assert ([Symbol(v)] + s)[1..] == s;
  }

  lemma Padded(p: seq<Sextet>, s: string)
    requires |p| >= 2 && s != [] && s[0] == '='
    ensures DecodeFrom(p, s) == Flush(p)
  {}

  lemma OneByte(a: byte, pad: string)
    requires pad != [] && pad[0] == '='
    ensures Decode([Symbol(S1(a))] + ([Symbol(S2(a, 0))] + pad)) == [a]
  {
    hide DecodeFrom, Symbol, S1, S2, S3, S4, B1, B2, B3;
    var v1, v2 := S1(a), S2(a, 0);
    PushSymbol([], v1, [Symbol(v2)] + pad);
    PushSymbol([] + [v1], v2, pad);
    Padded([] + [v1] + [v2], pad);
    BytesBack(a, 0, 0);
  }

  lemma RoundTrip1(a: byte)
    ensures Decode(Encode([a])) == [a]
  {
    hide DecodeFrom, Decode, Symbol;
    var v1, v2 := Symbol(S1(a)), Symbol(S2(a, 0));
    OneByte(a, "==");
    assert Encode([a]) == [v1, v2, '=', '='];
    assert [v1] + ([v2] + "==") == [v1, v2, '=', '='];
  }

  lemma RoundTrip2(a: byte, b: byte)
    ensures Decode(Encode([a, b])) == [a, b]
  {
    hide DecodeFrom;
    var v1, v2, v3 := S1(a), S2(a, b), S3(b, 0);
    assert Encode([a, b]) == [Symbol(v1)] + ([Symbol(v2)] + ([Symbol(v3)] + ['=']));
    PushSymbol([], v1, [Symbol(v2)] + ([Symbol(v3)] + ['=']));
    PushSymbol([] + [v1], v2, [Symbol(v3)] + ['=']);
    PushSymbol([] + [v1] + [v2], v3, ['=']);
    Padded([] + [v1] + [v2] + [v3], ['=']);
    BytesBack(a, b, 0);
  }

  lemma RoundTrip3(a: byte, b: byte, c: byte, t: string)
    ensures Decode([Symbol(S1(a)), Symbol(S2(a, b)), Symbol(S3(b, c)), Symbol(S4(c))] + t) == [a, b, c] + Decode(t)
  {
    hide DecodeFrom;
    var v1, v2, v3, v4 := S1(a), S2(a, b), S3(b, c), S4(c);
    assert [Symbol(v1), Symbol(v2), Symbol(v3), Symbol(v4)] + t
        == [Symbol(v1)] + ([Symbol(v2)] + ([Symbol(v3)] + ([Symbol(v4)] + t)));
    PushSymbol([], v1, [Symbol(v2)] + ([Symbol(v3)] + ([Symbol(v4)] + t)));
    PushSymbol([] + [v1], v2, [Symbol(v3)] + ([Symbol(v4)] + t));
    PushSymbol([] + [v1] + [v2], v3, [Symbol(v4)] + t);
    PushLast([] + [v1] + [v2] + [v3], v4, t);
    BytesBack(a, b, c);
  }

  lemma {:induction false} RoundTrip(b: seq<byte>)
    ensures Decode(Encode(b)) == b
    decreases |b|
  {
    assert Decode("") == [];
    hide DecodeFrom, Symbol, S1, S2, S3, S4;
    if |b| == 1 {
      assert b == [b[0]];
      RoundTrip1(b[0]);
    } else if |b| == 2 {
      assert b == [b[0], b[1]];
      RoundTrip2(b[0], b[1]);
    } else if |b| >= 3 {
      RoundTrip3(b[0], b[1], b[2], Encode(b[3..]));
      RoundTrip(b[3..]);
      assert [b[0], b[1], b[2]] + b[3..] == b;
    }
  }
}

/**
 The table-driven UTF-8 automaton of ext/websocket_framing_utils and the validator
 object built on it, proved against section 4 of RFC 3629.
 */
module Utf8 {
  import opened Bytes

  const ACCEPT := 0
  const REJECT := 1

  // ---- The automaton as the C code has it ----

  /** Character classes of the lead bytes e0..ff. */
  const LEAD: seq<nat> :=
    [ 0xa, 3, 3, 3, 3, 3, 3, 3, 3, 3, 3, 3, 3, 4, 3, 3,
      0xb, 6, 6, 6, 5, 8, 8, 8, 8, 8, 8, 8, 8, 8, 8, 8]

  /** The transition rows s0..s8, one entry per character class. */
  function Row(q: State): seq<nat> {
    match q
    case 0 => [0, 1, 2, 3, 5, 8, 7, 1, 1, 1, 4, 6, 1, 1, 1, 1]
    case 1 => [1, 1, 1, 1, 1, 1, 1, 1, 1, 1, 1, 1, 1, 1, 1, 1]
    case 2 => [1, 0, 1, 1, 1, 1, 1, 0, 1, 0, 1, 1, 1, 1, 1, 1]
    case 3 => [1, 2, 1, 1, 1, 1, 1, 2, 1, 2, 1, 1, 1, 1, 1, 1]
    case 4 => [1, 1, 1, 1, 1, 1, 1, 2, 1, 1, 1, 1, 1, 1, 1, 1]
    case 5 => [1, 2, 1, 1, 1, 1, 1, 1, 1, 2, 1, 1, 1, 1, 1, 1]
    case 6 => [1, 1, 1, 1, 1, 1, 1, 3, 1, 3, 1, 1, 1, 1, 1, 1]
    case 7 => [1, 3, 1, 1, 1, 1, 1, 3, 1, 3, 1, 1, 1, 1, 1, 1]
    case _ => [1, 3, 1, 1, 1, 1, 1, 1, 1, 1, 1, 1, 1, 1, 1, 1]
  }

  /** The 400-entry table: 256 character classes, then nine rows of sixteen. */
  function Utf8d(i: nat): nat
    requires i < 400
  {
    if i < 0x80 then 0
    else if i < 0x90 then 1
    else if i < 0xa0 then 9
    else if i < 0xc0 then 7
    else if i < 0xc2 then 8
    else if i < 0xe0 then 2
    else if i < 0x100 then LEAD[i - 0xe0]
    else Row((i - 256) / 16)[(i - 256) % 16]
  }

  type State = q: nat | q <= 8

  function Class(b: byte): (c: nat)
    ensures c <= 11
  {
    if b >= 0xE0 then LeadMeaning(b); Utf8d(b) else Utf8d(b)
  }

  lemma LeadMeaning(b: byte)
    requires 0xE0 <= b
    ensures LEAD[b - 0xe0] == if b == 0xE0 then 10 else if b == 0xED then 4 else if b <= 0xEF then 3
      else if b == 0xF0 then 11 else if b <= 0xF3 then 6 else if b == 0xF4 then 5 else 8
  {}

  /** What each row holds, by character class. */
  lemma RowMeaning(q: State, c: nat)
    requires c < 16
    ensures Row(q)[c] ==
      (match q
       case 0 => if c == 0 then 0 else if c == 2 then 2 else if c == 3 then 3 else if c == 4 then 5
                 else if c == 5 then 8 else if c == 6 then 7 else if c == 10 then 4 else if c == 11 then 6 else 1
       case 1 => 1
       case 2 => if c == 1 || c == 7 || c == 9 then 0 else 1
       case 3 => if c == 1 || c == 7 || c == 9 then 2 else 1
       case 4 => if c == 7 then 2 else 1
       case 5 => if c == 1 || c == 9 then 2 else 1
       case 6 => if c == 7 || c == 9 then 3 else 1
       case 7 => if c == 1 || c == 7 || c == 9 then 3 else 1
       case _ => if c == 1 then 3 else 1)
  {}

  lemma RowIndex(q: State, c: nat)
    requires c < 16
    ensures Utf8d(256 + q * 16 + c) == Row(q)[c] <= 8
  {
    RowMeaning(q, c);
    assert (256 + q * 16 + c - 256) / 16 == q;
    assert (256 + q * 16 + c - 256) % 16 == c;
  }

  function Next(q: State, b: byte): State {
    RowIndex(q, Class(b));
    Utf8d(256 + q * 16 + Class(b))
  }

  function Shr255(c: nat): nat {
    if c == 0 then 255 else Shr255(c - 1) / 2
  }

  /** codep after one byte; `uint32_t` arithmetic wraps modulo 2^32. The lead-byte mask 0xff >> class
      keeps the low 8 - class bits of the byte. */
  function NextCodep(q: State, codep: nat, b: byte): nat {
    if q != ACCEPT then b % 64 + codep * 64 % 0x1_0000_0000
    else b % (Shr255(Class(b)) + 1)
  }

  function Run(q: State, s: seq<byte>): State
    decreases |s|
  {
    if s == [] then q else Run(Next(q, s[0]), s[1..])
  }

  function RunCodep(q: State, codep: nat, s: seq<byte>): nat
    decreases |s|
  {
    if s == [] then codep else RunCodep(Next(q, s[0]), NextCodep(q, codep, s[0]), s[1..])
  }

  // ---- Section 4 of RFC 3629 ----

  predicate Tail(b: byte) { 0x80 <= b <= 0xBF }

  predicate IsChar(c: seq<byte>) {
    || (|c| == 1 && c[0] <= 0x7F)
    || (|c| == 2 && 0xC2 <= c[0] <= 0xDF && Tail(c[1]))
    || (|c| == 3 && Tail(c[2]) &&
        (|| (c[0] == 0xE0 && 0xA0 <= c[1] <= 0xBF)
         || (0xE1 <= c[0] <= 0xEC && Tail(c[1]))
         || (c[0] == 0xED && 0x80 <= c[1] <= 0x9F)
         || (0xEE <= c[0] <= 0xEF && Tail(c[1]))))
    || (|c| == 4 && Tail(c[2]) && Tail(c[3]) &&
        (|| (c[0] == 0xF0 && 0x90 <= c[1] <= 0xBF)
         || (0xF1 <= c[0] <= 0xF3 && Tail(c[1]))
         || (c[0] == 0xF4 && 0x80 <= c[1] <= 0x8F)))
  }

  /** UTF8-octets = *( UTF8-char ) */
  predicate WellFormed(s: seq<byte>)
    decreases |s|
  {
    || s == []
    || (|s| >= 1 && IsChar(s[..1]) && WellFormed(s[1..]))
    || (|s| >= 2 && IsChar(s[..2]) && WellFormed(s[2..]))
    || (|s| >= 3 && IsChar(s[..3]) && WellFormed(s[3..]))
    || (|s| >= 4 && IsChar(s[..4]) && WellFormed(s[4..]))
  }

  predicate IsScalar(v: nat) { v < 0xD800 || 0xE000 <= v <= 0x10FFFF }

  /** The octet sequence of a scalar value (section 3 of RFC 3629). */
  function EncodeScalar(v: nat): seq<byte>
    requires IsScalar(v)
  {
    if v < 0x80 then [v]
    else if v < 0x800 then [0xC0 + v / 64, 0x80 + v % 64]
    else if v < 0x1_0000 then [0xE0 + v / 4096, 0x80 + v / 64 % 64, 0x80 + v % 64]
    else [0xF0 + v / 262144, 0x80 + v / 4096 % 64, 0x80 + v / 64 % 64, 0x80 + v % 64]
  }

  function EncodeAll(vs: seq<nat>): seq<byte>
    requires forall v :: v in vs ==> IsScalar(v)
  {
    if vs == [] then [] else EncodeScalar(vs[0]) + EncodeAll(vs[1..])
  }

  // ---- The automaton accepts exactly the well-formed strings ----

  /** What the table entry of (q, b) means in terms of the byte ranges of RFC 3629. */
  lemma NextMeaning(q: State, b: byte)
    ensures Next(q, b) ==
      (match q
       case 0 =>
         if b <= 0x7F then 0
         else if 0xC2 <= b <= 0xDF then 2
         else if b == 0xE0 then 4
         else if b == 0xED then 5
         else if 0xE1 <= b <= 0xEF then 3
         else if b == 0xF0 then 6
         else if 0xF1 <= b <= 0xF3 then 7
         else if b == 0xF4 then 8
         else 1
       case 1 => 1
       case 2 => if Tail(b) then 0 else 1
       case 3 => if Tail(b) then 2 else 1
       case 4 => if 0xA0 <= b <= 0xBF then 2 else 1
       case 5 => if 0x80 <= b <= 0x9F then 2 else 1
       case 6 => if 0x90 <= b <= 0xBF then 3 else 1
       case 7 => if Tail(b) then 3 else 1
       case _ => if 0x80 <= b <= 0x8F then 3 else 1)
  {
    RowIndex(q, Class(b));
    RowMeaning(q, Class(b));
    if b >= 0xE0 {
      LeadMeaning(b);
    }
  }

  /** The strings that lead from state q back to ACCEPT, by the grammar. */
  ghost predicate Completes(q: State, s: seq<byte>) {
    match q
    case 0 => WellFormed(s)
    case 1 => false
    case 2 => |s| >= 1 && Tail(s[0]) && WellFormed(s[1..])
    case 3 => |s| >= 2 && Tail(s[0]) && Tail(s[1]) && WellFormed(s[2..])
    case 4 => |s| >= 2 && 0xA0 <= s[0] <= 0xBF && Tail(s[1]) && WellFormed(s[2..])
    case 5 => |s| >= 2 && 0x80 <= s[0] <= 0x9F && Tail(s[1]) && WellFormed(s[2..])
    case 6 => |s| >= 3 && 0x90 <= s[0] <= 0xBF && Tail(s[1]) && Tail(s[2]) && WellFormed(s[3..])
    case 7 => |s| >= 3 && Tail(s[0]) && Tail(s[1]) && Tail(s[2]) && WellFormed(s[3..])
    case _ => |s| >= 3 && 0x80 <= s[0] <= 0x8F && Tail(s[1]) && Tail(s[2]) && WellFormed(s[3..])
  }

  /** One grammar step mirrors one table step. */
  lemma CompletesStep(q: State, s: seq<byte>)
    requires |s| > 0
    ensures Completes(q, s) <==> Completes(Next(q, s[0]), s[1..])
  {
    NextMeaning(q, s[0]);
    var t := s[1..];
    assert forall k :: 1 <= k <= |s| ==> t[k - 1..] == s[k..];
    assert forall k :: 1 <= k < |s| ==> t[k - 1] == s[k];
    if q == 0 {
      assert |s| >= 1 ==> IsChar(s[..1]) == (s[0] <= 0x7F);
    }
  }

  lemma {:induction false} RunCompletes(q: State, s: seq<byte>)
    ensures Run(q, s) == ACCEPT <==> Completes(q, s)
    decreases |s|
  {
    if s != [] {
      CompletesStep(q, s);
      RunCompletes(Next(q, s[0]), s[1..]);
    }
  }

  /** The automaton ends in ACCEPT exactly on the strings of section 4 of RFC 3629. */
  lemma AcceptsExactlyWellFormed(s: seq<byte>)
    ensures Run(ACCEPT, s) == ACCEPT <==> WellFormed(s)
  {
    RunCompletes(ACCEPT, s);
  }

  lemma {:induction false} RejectIsSticky(s: seq<byte>)
    ensures Run(REJECT, s) == REJECT
  {
    if s != [] {
      NextMeaning(REJECT, s[0]);
      RejectIsSticky(s[1..]);
    }
  }

  lemma {:induction false} RunConcat(q: State, a: seq<byte>, b: seq<byte>)
    ensures Run(q, a + b) == Run(Run(q, a), b)
    decreases |a|
  {
    if a == [] {
      assert a + b == b;
    } else {
      assert (a + b)[1..] == a[1..] + b;
      RunConcat(Next(q, a[0]), a[1..], b);
    }
  }

  /** A string is not rejected exactly when it can be continued to a well-formed one. */
  lemma NotRejectedIffExtensible(s: seq<byte>)
    ensures Run(ACCEPT, s) != REJECT <==> exists t :: WellFormed(s + t)
  {
    var q := Run(ACCEPT, s);
    if q == REJECT {
      forall t ensures !WellFormed(s + t) {
        RunConcat(ACCEPT, s, t);
        RejectIsSticky(t);
        AcceptsExactlyWellFormed(s + t);
      }
    } else {
      var t := Completion(q);
      RunConcat(ACCEPT, s, t);
      RunCompletes(q, t);
      AcceptsExactlyWellFormed(s + t);
    }
  }

  /** A shortest string leading from q to ACCEPT. */
  ghost function Completion(q: State): (t: seq<byte>)
    requires q != REJECT
    ensures Completes(q, t)
  {
    match q
    case 0 => []
    case 2 => [0x80]
    case 3 => [0x80, 0x80]
    case 4 => [0xA0, 0x80]
    case 5 => [0x80, 0x80]
    case 6 => [0x90, 0x80, 0x80]
    case _ => [0x80, 0x80, 0x80]
  }

  // ---- Scalar values ----

  /** Decoding the octets of a scalar value returns to ACCEPT with codep equal to that value,
      and not before the last octet. */
  lemma CodepIsTheScalar(v: nat, codep: nat)
    requires IsScalar(v)
    ensures var s := EncodeScalar(v);
      && Run(ACCEPT, s) == ACCEPT && RunCodep(ACCEPT, codep, s) == v
      && forall k :: 0 < k < |s| ==> Run(ACCEPT, s[..k]) != ACCEPT
  {
    var s := EncodeScalar(v);
    ScalarIsChar(v);
    DecodeEncoded(v);
    CodepOfChar(s, codep);
    forall k | 0 < k < |s| ensures Run(ACCEPT, s[..k]) != ACCEPT {
      AcceptsExactlyWellFormed(s[..k]);
      ProperPrefixNotWellFormed(s, k);
    }
    assert s[..|s|] == s;
    AcceptsExactlyWellFormed(s);
  }

  lemma ProperPrefixNotWellFormed(c: seq<byte>, k: nat)
    requires IsChar(c) && 0 < k < |c|
    ensures !WellFormed(c[..k])
  {
    var p := c[..k];
    assert p[0] == c[0];
    assert forall n :: 1 <= n <= |p| ==> p[..n][0] == c[0];
  }

  /** Whatever codep held before, after one character it holds that character's scalar value. */
  lemma CodepOfChar(s: seq<byte>, codep: nat)
    requires IsChar(s)
    ensures RunCodep(ACCEPT, codep, s) == DecodeChar(s)
  {
    LeadCodep(s[0], codep);
    NextMeaning(ACCEPT, s[0]);
    var q, c := Next(ACCEPT, s[0]), NextCodep(ACCEPT, codep, s[0]);
    assert RunCodep(ACCEPT, codep, s) == RunCodep(q, c, s[1..]);
    if |s| == 1 {
      assert s[1..] == [];
    } else if |s| == 2 {
      TailCodep1(q, c, s[1]);
      assert s[1..] == [s[1]];
    } else if |s| == 3 {
      NextMeaning(q, s[1]);
      TailCodep2(q, c, s[1], s[2]);
      assert s[1..] == [s[1], s[2]];
    } else {
      CodepOf4(q, c, s);
    }
  }

  lemma CodepOf4(q: State, c: nat, s: seq<byte>)
    requires |s| == 4 && 0xF0 <= s[0] <= 0xF4 && Tail(s[1]) && Tail(s[2]) && Tail(s[3])
    requires q in {6, 7, 8} && (q == 6 ==> s[1] >= 0x90) && (q == 8 ==> s[1] <= 0x8F)
    requires c + 0xF0 == s[0] && IsChar(s)
    ensures RunCodep(q, c, s[1..]) == DecodeChar(s)
  {
    TailCodep3(q, c, s[1], s[2], s[3]);
    assert s[1..] == [s[1], s[2], s[3]];
  }

  lemma DecodeEncoded(v: nat)
    requires IsScalar(v)
    ensures IsChar(EncodeScalar(v)) && DecodeChar(EncodeScalar(v)) == v
  {
    ScalarIsChar(v);
    assert v / 4096 == v / 64 / 64 && v / 262144 == v / 64 / 64 / 64;
  }

  lemma Shift(q: State, codep: nat, b: byte)
    requires q != ACCEPT && codep < 0x10_0000 && Tail(b)
    ensures NextCodep(q, codep, b) == codep * 64 + (b - 0x80)
  {}

  lemma TailCodep1(q: State, codep: nat, x: byte)
    requires q != ACCEPT && codep < 0x10_0000 && Tail(x)
    ensures RunCodep(q, codep, [x]) == codep * 64 + (x - 0x80)
  {
    Shift(q, codep, x);
    assert [x][1..] == [];
  }

  lemma TailCodep2(q: State, codep: nat, x: byte, y: byte)
    requires q != ACCEPT && codep < 0x1000 && Tail(x) && Tail(y)
    requires Next(q, x) != ACCEPT
    ensures RunCodep(q, codep, [x, y]) == codep * 4096 + (x - 0x80) * 64 + (y - 0x80)
  {
    Shift(q, codep, x);
    assert [x, y][1..] == [y];
    TailCodep1(Next(q, x), codep * 64 + (x - 0x80), y);
  }

  lemma TailCodep3(q: State, codep: nat, x: byte, y: byte, z: byte)
    requires q in {6, 7, 8} && codep < 0x20 && Tail(x) && Tail(y) && Tail(z)
    requires q == 6 ==> x >= 0x90
    requires q == 8 ==> x <= 0x8F
    ensures RunCodep(q, codep, [x, y, z]) == codep * 262144 + (x - 0x80) * 4096 + (y - 0x80) * 64 + (z - 0x80)
  {
    NextMeaning(q, x);
    NextMeaning(3, y);
    Shift(q, codep, x);
    assert [x, y, z][1..] == [y, z];
    TailCodep2(3, codep * 64 + (x - 0x80), y, z);
  }

  lemma ClassMeaning(b: byte)
    ensures b <= 0x7F ==> Class(b) == 0
    ensures 0xC2 <= b <= 0xDF ==> Class(b) == 2
    ensures 0xE0 <= b <= 0xEF ==> Class(b) == if b == 0xE0 then 10 else if b == 0xED then 4 else 3
    ensures 0xF0 <= b <= 0xF4 ==> Class(b) == if b == 0xF0 then 11 else if b == 0xF4 then 5 else 6
  {
    if b >= 0xE0 { LeadMeaning(b); }
  }

  lemma Masks()
    ensures Shr255(0) == 255 && Shr255(2) == 63 && Shr255(3) == 31 && Shr255(4) == 15
    ensures Shr255(5) == 7 && Shr255(6) == 3 && Shr255(10) == 0 && Shr255(11) == 0
  {
    assert Shr255(3) == 31;
    assert Shr255(6) == 3;
    assert Shr255(8) == 0;
  }

  /** The bits a lead byte contributes. */
  lemma LeadCodep(b: byte, codep: nat)
    ensures b <= 0x7F ==> NextCodep(ACCEPT, codep, b) == b
    ensures 0xC2 <= b <= 0xDF ==> NextCodep(ACCEPT, codep, b) == b - 0xC0
    ensures 0xE0 <= b <= 0xEF ==> NextCodep(ACCEPT, codep, b) == b - 0xE0
    ensures 0xF0 <= b <= 0xF4 ==> NextCodep(ACCEPT, codep, b) == b - 0xF0
  {
    hide Class, Shr255;
    ClassMeaning(b);
    Masks();
  }

  lemma ThreeOctets(v: nat)
    requires 0x800 <= v < 0x1_0000 && IsScalar(v)
    ensures IsChar(EncodeScalar(v))
  {
    var hi := v / 4096;
    assert hi == 0 ==> v / 64 % 64 >= 0x20;
    assert hi == 13 ==> v / 64 % 64 < 0x20;
  }

  lemma FourOctets(v: nat)
    requires 0x1_0000 <= v && IsScalar(v)
    ensures IsChar(EncodeScalar(v))
  {
    var hi := v / 262144;
    assert hi == 0 ==> v / 4096 % 64 >= 0x10;
    assert hi == 4 ==> v / 4096 % 64 < 0x10;
  }

  lemma ScalarIsChar(v: nat)
    requires IsScalar(v)
    ensures IsChar(EncodeScalar(v)) && WellFormed(EncodeScalar(v))
  {
    if 0x800 <= v < 0x1_0000 {
      ThreeOctets(v);
    } else if v >= 0x1_0000 {
      FourOctets(v);
    }
    CharWellFormed(EncodeScalar(v));
  }

  lemma CharWellFormed(c: seq<byte>)
    requires IsChar(c)
    ensures WellFormed(c)
  {
    assert c[..|c|] == c && c[|c|..] == [];
  }

  function DecodeChar(c: seq<byte>): int
    requires IsChar(c)
  {
    var b0: int := c[0];
    if |c| == 1 then b0 else
    var b1: int := c[1];
    if |c| == 2 then (b0 - 0xC0) * 64 + (b1 - 0x80) else
    var b2: int := c[2];
    if |c| == 3 then (b0 - 0xE0) * 4096 + (b1 - 0x80) * 64 + (b2 - 0x80) else
    var b3: int := c[3];
    (b0 - 0xF0) * 262144 + (b1 - 0x80) * 4096 + (b2 - 0x80) * 64 + (b3 - 0x80)
  }

  lemma Sextets(a: int, b: int, c: int, d: int, v: int)
    requires 0 <= a && 0 <= b < 64 && 0 <= c < 64 && 0 <= d < 64
    requires v == a * 262144 + b * 4096 + c * 64 + d
    ensures v / 262144 == a && v / 4096 == a * 64 + b && v / 64 == a * 4096 + b * 64 + c
    ensures v / 4096 % 64 == b && v / 64 % 64 == c && v % 64 == d
  {
    var v1 := a * 4096 + b * 64 + c;
    var v2 := a * 64 + b;
    DivMod64(v, v1, d);
    DivMod64(v1, v2, c);
    DivMod64(v2, a, b);
    assert v / 4096 == v / 64 / 64 && v / 262144 == v / 64 / 64 / 64;
  }

  lemma DivMod64(x: int, q: int, r: int)
    requires x == q * 64 + r && 0 <= r < 64
    ensures x / 64 == q && x % 64 == r
  {}

  lemma TwoCharIsScalar(c: seq<byte>)
    requires IsChar(c) && |c| <= 2
    ensures DecodeChar(c) >= 0 && IsScalar(DecodeChar(c)) && EncodeScalar(DecodeChar(c)) == c
  {
    if |c| == 2 { Sextets(0, 0, c[0] - 0xC0, c[1] - 0x80, DecodeChar(c)); }
  }

  lemma ThreeCharIsScalar(c: seq<byte>)
    requires IsChar(c) && |c| == 3
    ensures DecodeChar(c) >= 0 && IsScalar(DecodeChar(c)) && EncodeScalar(DecodeChar(c)) == c
  {
    Sextets(0, c[0] - 0xE0, c[1] - 0x80, c[2] - 0x80, DecodeChar(c));
  }

  lemma FourCharIsScalar(c: seq<byte>)
    requires IsChar(c) && |c| == 4
    ensures DecodeChar(c) >= 0 && IsScalar(DecodeChar(c)) && EncodeScalar(DecodeChar(c)) == c
  {
    Sextets(c[0] - 0xF0, c[1] - 0x80, c[2] - 0x80, c[3] - 0x80, DecodeChar(c));
  }

  lemma CharIsScalar(c: seq<byte>)
    requires IsChar(c)
    ensures DecodeChar(c) >= 0 && IsScalar(DecodeChar(c)) && EncodeScalar(DecodeChar(c)) == c
  {
    hide DecodeChar, EncodeScalar, IsScalar;
    if |c| <= 2 {
      TwoCharIsScalar(c);
    } else if |c| == 3 {
      ThreeCharIsScalar(c);
    } else {
      FourCharIsScalar(c);
    }
  }

  lemma {:induction false} WellFormedAppend(c: seq<byte>, s: seq<byte>)
    requires IsChar(c) && WellFormed(s)
    ensures WellFormed(c + s)
  {
    assert (c + s)[..|c|] == c && (c + s)[|c|..] == s;
  }

  /** The well-formed strings are exactly the encodings of scalar value sequences. */
  lemma WellFormedIffEncoding(s: seq<byte>)
    ensures WellFormed(s) <==> exists vs: seq<nat> :: (forall v :: v in vs ==> IsScalar(v)) && EncodeAll(vs) == s
  {
    if WellFormed(s) {
      var vs := Scalars(s);
    }
    forall vs: seq<nat> | (forall v :: v in vs ==> IsScalar(v)) && EncodeAll(vs) == s
      ensures WellFormed(s)
    {
      EncodeAllWellFormed(vs);
    }
  }

  lemma FirstChar(s: seq<byte>) returns (n: nat)
    requires WellFormed(s) && s != []
    ensures 1 <= n <= |s| && IsChar(s[..n]) && WellFormed(s[n..])
  {
    n :| 1 <= n <= 4 && n <= |s| && IsChar(s[..n]) && WellFormed(s[n..]);
  }

  lemma EncodeCons(v: nat, vs: seq<nat>)
    requires IsScalar(v) && forall w :: w in vs ==> IsScalar(w)
    ensures EncodeAll([v] + vs) == EncodeScalar(v) + EncodeAll(vs)
  {
    assert ([v] + vs)[1..] == vs;
  }

  lemma {:induction false} Scalars(s: seq<byte>) returns (vs: seq<nat>)
    requires WellFormed(s)
    ensures forall v :: v in vs ==> IsScalar(v)
    ensures EncodeAll(vs) == s
    decreases |s|
  {
    if s == [] {
      vs := [];
    } else {
      hide WellFormed, IsChar, EncodeAll, EncodeScalar, DecodeChar, IsScalar;
      var n := FirstChar(s);
      var rest := Scalars(s[n..]);
      CharIsScalar(s[..n]);
      EncodeCons(DecodeChar(s[..n]), rest);
      vs := [DecodeChar(s[..n])] + rest;
    }
  }

  lemma {:induction false} EncodeAllWellFormed(vs: seq<nat>)
    requires forall v :: v in vs ==> IsScalar(v)
    ensures WellFormed(EncodeAll(vs))
  {
    if vs != [] {
      ScalarIsChar(vs[0]);
      EncodeAllWellFormed(vs[1..]);
      WellFormedAppend(EncodeScalar(vs[0]), EncodeAll(vs[1..]));
    }
  }

  // ---- The validator object ----

  /** true, nil and false of `Utf8Validator#validate`. */
  datatype Verdict = Valid | Incomplete | Invalid

  function VerdictOf(q: State): Verdict {
    if q == ACCEPT then Valid else if q == REJECT then Invalid else Incomplete
  }

  class Utf8Validator {
    var codepoint: nat
    var state: State

    constructor ()
      ensures state == ACCEPT
    {
      state := ACCEPT;
      codepoint := 0;
    }

    method Reset()
      modifies this
      ensures state == ACCEPT && codepoint == old(codepoint)
    {
      state := ACCEPT;
    }

    /** Stops at the first rejected byte; the state it leaves is that of the whole string all the same. An empty
        string is never invalid. */
    method Validate(s: seq<byte>) returns (v: Verdict)
      modifies this
      ensures state == Run(old(state), s)
      ensures v == if s == [] && state == REJECT then Incomplete else VerdictOf(state)
      ensures v != Invalid ==> codepoint == RunCodep(old(state), old(codepoint), s)
    {
      var i := 0;
      while i < |s|
        invariant 0 <= i <= |s|
        invariant Run(old(state), s) == Run(state, s[i..])
        invariant RunCodep(old(state), old(codepoint), s) == RunCodep(state, codepoint, s[i..])
        invariant i > 0 ==> state != REJECT
      {
        assert s[i..][0] == s[i] && s[i..][1..] == s[i + 1..];
        codepoint, state := NextCodep(state, codepoint, s[i]), Next(state, s[i]);
        i := i + 1;
        if state == REJECT {
          RejectIsSticky(s[i..]);
          return Invalid;
        }
      }
      if state == ACCEPT {
        return Valid;
      } else {
        return Incomplete;
      }
    }
  }
}

/** Octets, the XOR used for frame masking, and sequence concatenation. */
module Bytes {

  type byte = b: int | 0 <= b < 256

  /** Concatenation of a list of sequences. */
  function Concat<T>(parts: seq<seq<T>>): seq<T> {
    if parts == [] then [] else parts[0] + Concat(parts[1..])
  }

  lemma {:induction false} ConcatAppend<T>(a: seq<seq<T>>, b: seq<seq<T>>)
    ensures Concat(a + b) == Concat(a) + Concat(b)
  {
    if a == [] {
      assert a + b == b;
    } else {
      assert (a + b)[1..] == a[1..] + b;
      ConcatAppend(a[1..], b);
    }
  }

  lemma {:induction false} ConcatSnoc<T>(a: seq<seq<T>>, x: seq<T>)
    ensures Concat(a + [x]) == Concat(a) + x
  {
    ConcatAppend(a, [x]);
    assert Concat([x]) == x + Concat([]);
  }

  // ---- XOR of octets, bit by bit ----

  function Pow2(k: nat): (p: nat)
    ensures p > 0
  {
    if k == 0 then 1 else 2 * Pow2(k - 1)
  }

  function BitXor(a: nat, b: nat): nat { if a % 2 == b % 2 then 0 else 1 }

  /** XOR of the k low bits of a and b. */
  function XorBits(k: nat, a: nat, b: nat): nat {
    if k == 0 then 0 else BitXor(a, b) + 2 * XorBits(k - 1, a / 2, b / 2)
  }

  lemma {:induction false} XorBitsBound(k: nat, a: nat, b: nat)
    ensures XorBits(k, a, b) < Pow2(k)
  {
    if k > 0 {
      XorBitsBound(k - 1, a / 2, b / 2);
    }
  }

  lemma Halves(x: nat, d: nat, r: nat)
    requires x == d + 2 * r && d <= 1
    ensures x / 2 == r && x % 2 == d
  {}

  lemma {:induction false} XorBitsTwice(k: nat, a: nat, b: nat)
    requires a < Pow2(k)
    ensures XorBits(k, XorBits(k, a, b), b) == a
  {
    if k > 0 {
      var x := XorBits(k, a, b);
      Halves(x, BitXor(a, b), XorBits(k - 1, a / 2, b / 2));
      XorBitsTwice(k - 1, a / 2, b / 2);
      assert BitXor(x, b) == a % 2;
    }
  }

  lemma Pow2Of8()
    ensures Pow2(8) == 256
  {
    assert Pow2(4) == 16;
  }

  function Xor(a: byte, b: byte): byte {
    XorBitsBound(8, a, b);
    Pow2Of8();
    XorBits(8, a, b)
  }

  lemma XorTwice(a: byte, b: byte)
    ensures Xor(Xor(a, b), b) == a
  {
    Pow2Of8();
    XorBitsTwice(8, a, b);
  }
}

/** The CRC-32 signature of collective memory (the CRC-32 of section 2.3.1 of
    RFC 1952: reflected, polynomial 0xEDB88320), its algebra over all message
    lengths, and the search for the nearest signature. */
module Crc {

  const POLYNOMIAL: bv32 := 0xEDB88320
  const ONES: bv32 := 0xFFFFFFFF

  // ----- one bit, one byte, one message -----

  function Add(a: bv32, b: bv32): bv32 {
    a ^ b
  }

  function Widen(b: bv8): bv32 {
    b as bv32
  }

  function Bit(c: bv32): bv32 {
    if c & 1 == 1 then (c >> 1) ^ POLYNOMIAL else c >> 1
  }

  function Bits(c: bv32, n: nat): bv32
    decreases n
  {
    if n == 0 then c else Bits(Bit(c), n - 1)
  }

  function Byte(c: bv32, b: bv8): bv32 {
    Bits(Add(c, Widen(b)), 8)
  }

  /** What a message leaves in a register that started as c. */
  function Register(c: bv32, data: seq<bv8>): bv32 {
    if data == [] then c else Byte(Register(c, data[..|data| - 1]), data[|data| - 1])
  }

  /** The signature of a message. */
  function Signature(data: seq<bv8>): bv32 {
    Add(Register(ONES, data), ONES)
  }

  /** The loops of the original, with its branch-free bit step. */
  method SignatureHash(data: seq<bv8>) returns (signature: bv32)
    ensures signature == Signature(data)
  {
    hide Bit, Add, Widen;
    var crc: bv32 := ONES;
    for i := 0 to |data|
      invariant crc == Register(ONES, data[..i])
    {
      assert data[..i + 1][..i] == data[..i];
      crc := FeedByte(crc, data[i]);
    }
    assert data[..|data|] == data;
    signature := Add(crc, ONES);
  }

  method FeedByte(c: bv32, b: bv8) returns (crc: bv32)
    ensures crc == Byte(c, b)
  {
    hide Bit, Add, Widen;
    crc := Add(c, Widen(b));
    for j := 0 to 8
      invariant Bits(Add(c, Widen(b)), 8) == Bits(crc, 8 - j)
    {
      crc := MaskedBit(crc);
    }
  }

  method MaskedBit(c: bv32) returns (crc: bv32)
    ensures crc == Bit(c)
  {
    var mask := 0 - (c & 1);
    crc := (c >> 1) ^ (POLYNOMIAL & mask);
  }

  // ----- exclusive or as addition -----

  lemma {:induction false} Assoc(a: bv32, b: bv32, c: bv32)
    ensures Add(Add(a, b), c) == Add(a, Add(b, c))
  {
  }

  lemma {:induction false} Comm(a: bv32, b: bv32)
    ensures Add(a, b) == Add(b, a)
  {
  }

  lemma {:induction false} Neutral(a: bv32)
    ensures Add(a, 0) == a && Add(0, a) == a && Add(a, a) == 0
  {
  }

  lemma {:induction false} Interchange(a: bv32, b: bv32, x: bv32, y: bv32)
    ensures Add(Add(a, b), Add(x, y)) == Add(Add(a, x), Add(b, y))
  {
    hide Add;
    Assoc(a, b, Add(x, y));
    Assoc(b, x, y);
    Comm(b, x);
    Assoc(x, b, y);
    Assoc(a, x, Add(b, y));
  }

  lemma {:induction false} Cancel(s: bv32, t: bv32, d: bv32)
    requires Add(s, d) == Add(t, d)
    ensures s == t
  {
    hide Add;
    Assoc(s, d, d);
    Assoc(t, d, d);
    Neutral(d);
    Neutral(s);
    Neutral(t);
  }

  lemma {:induction false} WidenLinear(a: bv8, b: bv8)
    ensures Widen(a ^ b) == Add(Widen(a), Widen(b))
  {
  }

  // ----- every step is a linear bijection -----

  function Half(c: bv32): bv32 {
    c >> 1
  }

  predicate Odd(c: bv32) {
    c & 1 == 1
  }

  /** One bit step, from the register's upper bits and its lowest one. */
  function Step(half: bv32, odd: bool): bv32 {
    if odd then Add(half, POLYNOMIAL) else half
  }

  lemma {:induction false} BitIs(c: bv32)
    ensures Bit(c) == Step(Half(c), Odd(c))
  {
  }

  lemma {:induction false} StepLinear(p: bv32, q: bv32, x: bool, y: bool)
    ensures Step(Add(p, q), x != y) == Add(Step(p, x), Step(q, y))
  {
    hide Add;
    var r := POLYNOMIAL;
    if x && y {
      Interchange(p, r, q, r);
      Neutral(r);
      Neutral(Add(p, q));
    } else if x {
      Comm(q, r);
      Assoc(p, q, r);
      Assoc(p, r, q);
    } else if y {
      Assoc(p, q, r);
    }
  }

  lemma {:induction false} HalfLinear(a: bv32, b: bv32)
    ensures Half(Add(a, b)) == Add(Half(a), Half(b))
    ensures Odd(Add(a, b)) <==> Odd(a) != Odd(b)
  {
  }

  lemma {:induction false} BitInjective(a: bv32, b: bv32)
    requires Bit(a) == Bit(b)
    ensures a == b
  {
  }

  lemma {:induction false} BitsLinear(a: bv32, b: bv32, n: nat)
    ensures Bits(Add(a, b), n) == Add(Bits(a, n), Bits(b, n))
    decreases n
  {
    hide Bit, Add, Half, Odd, Step;
    if n > 0 {
      BitIs(a);
      BitIs(b);
      BitIs(Add(a, b));
      HalfLinear(a, b);
      StepLinear(Half(a), Half(b), Odd(a), Odd(b));
      BitsLinear(Bit(a), Bit(b), n - 1);
    }
  }

  lemma {:induction false} BitsInjective(a: bv32, b: bv32, n: nat)
    requires Bits(a, n) == Bits(b, n)
    ensures a == b
    decreases n
  {
    hide Bit;
    if n > 0 {
      BitsInjective(Bit(a), Bit(b), n - 1);
      BitInjective(a, b);
    }
  }

  lemma {:induction false} BitsZero(n: nat)
    ensures Bits(0, n) == 0
  {
    if n > 0 {
      assert Bit(0) == 0;
      BitsZero(n - 1);
    }
  }

  lemma {:induction false} BitsTwice(c: bv32, m: nat, n: nat)
    ensures Bits(c, m + n) == Bits(Bits(c, m), n)
    decreases m
  {
    hide Bit;
    if m > 0 { BitsTwice(Bit(c), m - 1, n); }
  }

  // ----- linearity of the signature -----

  function Xor(x: seq<bv8>, y: seq<bv8>): seq<bv8>
    requires |x| == |y|
  {
    seq(|x|, i requires 0 <= i < |x| => x[i] ^ y[i])
  }

  lemma {:induction false} ByteLinear(a: bv32, b: bv32, x: bv8, y: bv8)
    ensures Byte(Add(a, b), x ^ y) == Add(Byte(a, x), Byte(b, y))
  {
    hide Bits, Add, Widen;
    WidenLinear(x, y);
    Interchange(a, b, Widen(x), Widen(y));
    BitsLinear(Add(a, Widen(x)), Add(b, Widen(y)), 8);
  }

  lemma {:induction false} RegisterLinear(a: bv32, b: bv32, x: seq<bv8>, y: seq<bv8>)
    requires |x| == |y|
    ensures Register(Add(a, b), Xor(x, y)) == Add(Register(a, x), Register(b, y))
  {
    hide Byte, Add;
    if x != [] {
      var n := |x| - 1;
      RegisterLinear(a, b, x[..n], y[..n]);
      assert Xor(x, y)[..n] == Xor(x[..n], y[..n]);
      ByteLinear(Register(a, x[..n]), Register(b, y[..n]), x[n], y[n]);
    }
  }

  /** The signature is affine: for equal lengths, the exclusive or of three
      messages has the exclusive or of their signatures. */
  lemma {:induction false} SignatureAffine(x: seq<bv8>, y: seq<bv8>, z: seq<bv8>)
    requires |x| == |y| == |z|
    ensures Signature(Xor(Xor(x, y), z)) == Add(Add(Signature(x), Signature(y)), Signature(z))
  {
    hide Register, Add;
    var a, b, c := Register(ONES, x), Register(ONES, y), Register(ONES, z);
    Interchange(a, ONES, b, ONES);
    RegisterLinear(ONES, ONES, x, y);
    RegisterLinear(0, ONES, Xor(x, y), z);
    Neutral(ONES);
    Neutral(Add(a, b));
    Assoc(Add(a, b), c, ONES);
  }
}

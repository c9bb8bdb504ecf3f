/** The signature as a remainder of polynomials over the two-element field. A
    polynomial is the list of its coefficients, the highest first. */
module CrcDivision {
  import opened Crc
  import opened CrcBursts
  import Nearest

  type Poly = seq<bool>

  // ----- long division -----

  /** The exponents of the CRC-32 generator. */
  const EXPONENTS: set<int> := {32, 26, 23, 22, 16, 12, 11, 10, 8, 7, 5, 4, 2, 1, 0}

  function Generator(): (g: Poly)
    ensures |g| == 33 && g[0]
  {
    seq(33, i => 32 - i in EXPONENTS)
  }

  function Zeros(n: nat): (r: Poly)
    ensures |r| == n && forall i :: 0 <= i < n ==> !r[i]
  {
    seq(n, _ => false)
  }

  function Ones(n: nat): (r: Poly)
    ensures |r| == n && forall i :: 0 <= i < n ==> r[i]
  {
    seq(n, _ => true)
  }

  /** Sum and difference, coefficient by coefficient. */
  function Plus(a: Poly, b: Poly): (r: Poly)
    requires |a| == |b|
    ensures |r| == |a| && forall i :: 0 <= i < |a| ==> r[i] == (a[i] != b[i])
  {
    seq(|a|, i requires 0 <= i < |a| => a[i] != b[i])
  }

  /** Long division by the generator: while more than 32 coefficients are left, take
      the generator away if the first one is set, and drop it. */
  function Remainder(a: Poly): (r: Poly)
    requires |a| >= 32
    ensures |r| == 32
    decreases |a|
  {
    if |a| == 32 then a
    else if a[0] then Remainder(Plus(a[..33], Generator())[1..] + a[33..])
    else Remainder(a[1..])
  }

  /** The remainder of a message: multiplied by x^32, its first 32 coefficients
      inverted, divided by the generator, and the remainder inverted. */
  function Checksum(message: Poly): Poly {
    var shifted := message + Zeros(32);
    Plus(Remainder(Plus(Ones(32) + Zeros(|message|), shifted)), Ones(32))
  }

  // ----- registers as polynomials -----

  /** The n lowest bits of a register, the lowest, which stands for the highest
      coefficient, first. */
  function Row(v: bv32, n: nat): (r: Poly)
    ensures |r| == n
    decreases n
  {
    if n == 0 then [] else [Odd(v)] + Row(Half(v), n - 1)
  }

  lemma {:induction false} RowOfSum(a: bv32, b: bv32, n: nat)
    ensures Row(Add(a, b), n) == Plus(Row(a, n), Row(b, n))
    decreases n
  {
    hide Add, Half, Odd;
    if n > 0 {
      HalfLinear(a, b);
      RowOfSum(Half(a), Half(b), n - 1);
    }
  }

  lemma {:induction false} RowOfZero(n: nat)
    ensures Row(0, n) == Zeros(n)
    decreases n
  {
    if n > 0 {
      assert Half(0) == 0 && !Odd(0);
      RowOfZero(n - 1);
    }
  }

  lemma {:induction false} RowOfOne(bit: bool, n: nat)
    requires n > 0
    ensures Row(One(bit), n) == [bit] + Zeros(n - 1)
  {
    assert Half(One(bit)) == 0 && (Odd(One(bit)) <==> bit);
    RowOfZero(n - 1);
  }

  /** Above its highest bit a register shows zeros. */
  lemma {:induction false} RowBeyond(v: bv32, n: nat)
    requires Nearest.Fits(v, n)
    ensures Row(v, n + 1) == Row(v, n) + [false]
    decreases n
  {
    if n == 0 {
      assert !Odd(0) && Row(v, 1) == [Odd(v)] + Row(Half(v), 0);
    } else {
      hide Half, Odd;
      RowBeyond(Half(v), n - 1);
    }
  }

  lemma {:induction false} RowOfHalf(v: bv32)
    ensures Row(Half(v), 32) == Row(v, 32)[1..] + [false]
  {
    hide Half, Odd;
    Nearest.AllFit(v);
    RowBeyond(v, 32);
    assert Row(v, 33) == [Odd(v)] + Row(Half(v), 32);
    hide Row;
    assert Row(v, 33)[1..] == Row(Half(v), 32);
    assert (Row(v, 32) + [false])[1..] == Row(v, 32)[1..] + [false];
  }

  /** Different registers have different rows. */
  lemma {:induction false} RowInjective(a: bv32, b: bv32)
    requires Row(a, 32) == Row(b, 32)
    ensures a == b
  {
    hide Add, Row;
    RowOfSum(a, b, 32);
    Nearest.AllFit(Add(a, b));
    OnlyZero(Add(a, b), 32);
    Neutral(b);
    Cancel(a, b, b);
  }

  lemma {:induction false} OnlyZero(v: bv32, n: nat)
    requires Nearest.Fits(v, n) && Row(v, n) == Zeros(n)
    ensures v == 0
    decreases n
  {
    if n > 0 {
      assert Row(v, n)[0] == Odd(v) && Row(v, n)[1..] == Row(Half(v), n - 1) && Zeros(n)[1..] == Zeros(n - 1);
      OnlyZero(Half(v), n - 1);
      Nearest.HalfAndLow(v);
    }
  }

  lemma {:induction false} RowByFour(v: bv32, n: nat)
    ensures Row(v, n + 4)
      == [Odd(v), Odd(Half(v)), Odd(Half(Half(v))), Odd(Half(Half(Half(v))))] + Row(Half(Half(Half(Half(v)))), n)
  {
    hide Half, Odd;
    assert Row(v, n + 4) == [Odd(v)] + Row(Half(v), n + 3);
    assert Row(Half(v), n + 3) == [Odd(Half(v))] + Row(Half(Half(v)), n + 2);
    assert Row(Half(Half(v)), n + 2) == [Odd(Half(Half(v)))] + Row(Half(Half(Half(v))), n + 1);
    assert Row(Half(Half(Half(v))), n + 1) == [Odd(Half(Half(Half(v))))] + Row(Half(Half(Half(Half(v)))), n);
  }

  function Low(v: bv32): bv8 {
    (v & 0xFF) as bv8
  }

  function Rest(v: bv32): bv32 {
    v >> 8
  }

  /** The lowest eight bits are those of the lowest byte. */
  lemma {:induction false} RowByBytes(v: bv32, n: nat)
    ensures Row(v, n + 8) == BitsOfByte(Low(v)) + Row(Rest(v), n)
  {
    Nearest.HalfEight(v);
    EightBits(v);
    hide Half, Odd, BitsOfByte, Row;
    RowByFour(v, n + 4);
    RowByFour(Half(Half(Half(Half(v)))), n);
  }

  lemma {:induction false} EightBits(v: bv32)
    ensures var a := Half(Half(Half(Half(v))));
      BitsOfByte(Low(v)) == [Odd(v), Odd(Half(v)), Odd(Half(Half(v))), Odd(Half(Half(Half(v)))),
                             Odd(a), Odd(Half(a)), Odd(Half(Half(a))), Odd(Half(Half(Half(a))))]
  {
  }

  lemma {:induction false} RowOfOnes()
    ensures Row(ONES, 32) == Ones(32)
  {
    hide Row;
    RowByBytes(0xFFFFFFFF, 24);
    RowByBytes(0x00FFFFFF, 16);
    RowByBytes(0x0000FFFF, 8);
    RowByBytes(0x000000FF, 0);
  }

  lemma {:induction false} RowOfPolynomial()
    ensures Row(POLYNOMIAL, 32) == Generator()[1..]
  {
    hide Row;
    RowByBytes(0xEDB88320, 24);
    RowByBytes(0x00EDB883, 16);
    RowByBytes(0x0000EDB8, 8);
    RowByBytes(0x000000ED, 0);
  }

  // ----- feeding is dividing -----

  /** One bit step is one step of the division. */
  lemma {:induction false} RowOfBit(c: bv32)
    ensures Row(Bit(c), 32) == Plus(Row(c, 32)[1..] + [false], if Odd(c) then Generator()[1..] else Zeros(32))
  {
    BitIs(c);
    RowOfHalf(c);
    RowOfPolynomial();
    RowOfSum(Half(c), POLYNOMIAL, 32);
    hide Row, Bit, Add, Half, Odd;
  }

  /** The dividend when the register holds `c` and `rest` is still to come. */
  function Dividend(c: bv32, rest: Poly): (r: Poly)
    ensures |r| == |rest| + 32
  {
    Plus(Row(c, 32) + Zeros(|rest|), rest + Zeros(32))
  }

  lemma {:induction false} NothingToCome(c: bv32)
    ensures Dividend(c, []) == Row(c, 32) && Remainder(Row(c, 32)) == Row(c, 32) == Row(Feed(c, []), 32)
  {
    hide Row;
  }

  /** A bit may be added to the register before or after. */
  lemma {:induction false} DividendOf(c: bv32, bit: bool, rest: Poly)
    ensures Dividend(c, [bit] + rest) == Dividend(Add(c, One(bit)), [false] + rest)
  {
    hide *;
    var s, t := Dividend(c, [bit] + rest), Dividend(Add(c, One(bit)), [false] + rest);
    RowOfSum(c, One(bit), 32);
    RowOfOne(bit, 32);
    RowWithBit(Row(c, 32), bit, Row(Add(c, One(bit)), 32));
    forall i | 0 <= i < |s| ensures s[i] == t[i] {
      DividendAt(c, [bit] + rest, i);
      DividendAt(Add(c, One(bit)), [false] + rest, i);
    }
  }

  lemma {:induction false} RowWithBit(r: Poly, bit: bool, u: Poly)
    requires |r| == |u| == 32 && u == Plus(r, [bit] + Zeros(31))
    ensures u[0] == (r[0] != bit) && forall i :: 0 < i < 32 ==> u[i] == r[i]
  {
    assert forall i :: 0 < i < 32 ==> !([bit] + Zeros(31))[i];
  }

  /** The coefficients of a dividend. */
  lemma {:induction false} DividendAt(c: bv32, rest: Poly, i: nat)
    requires i < |rest| + 32
    ensures Dividend(c, rest)[i] == ((i < 32 && Row(c, 32)[i]) != (i < |rest| && rest[i]))
  {
    hide Row;
  }

  /** With the bit in the register, one division step is one register step. */
  lemma {:induction false} DivisionStep(c: bv32, rest: Poly)
    ensures Remainder(Dividend(c, [false] + rest)) == Remainder(Dividend(Bit(c), rest))
  {
    RowOfBit(c);
    assert Row(c, 32)[0] == Odd(c);
    hide Row, Bit, Odd, Remainder;
    NextDividend(c, rest);
    DivideOnce(Dividend(c, [false] + rest));
  }

  lemma {:induction false} DivideOnce(a: Poly)
    requires |a| > 32
    ensures Remainder(a) == Remainder(if a[0] then Plus(a[..33], Generator())[1..] + a[33..] else a[1..])
  {
  }

  lemma {:induction false} NextDividend(c: bv32, rest: Poly)
    requires Row(Bit(c), 32) == Plus(Row(c, 32)[1..] + [false], if Odd(c) then Generator()[1..] else Zeros(32))
    requires Row(c, 32)[0] == Odd(c)
    ensures var s := Dividend(c, [false] + rest);
      |s| > 32 && (if s[0] then Plus(s[..33], Generator())[1..] + s[33..] else s[1..]) == Dividend(Bit(c), rest)
  {
    hide Row, Bit, Odd;
    var s, t := Dividend(c, [false] + rest), Dividend(Bit(c), rest);
    DividendAt(c, [false] + rest, 0);
    var u := if s[0] then Plus(s[..33], Generator())[1..] + s[33..] else s[1..];
    forall i | 0 <= i < |t| ensures u[i] == t[i] {
      DividendAt(c, [false] + rest, i + 1);
      DividendAt(Bit(c), rest, i);
      assert i < |rest| ==> ([false] + rest)[i + 1] == rest[i];
      if i < 32 {
        assert (Row(c, 32)[1..] + [false])[i] == (i < 31 && Row(c, 32)[i + 1]);
        assert u[i] == (s[i + 1] != (s[0] && Generator()[i + 1]));
      } else {
        assert u[i] == s[i + 1];
      }
    }
  }

  /** The register left by a stream of bits is the remainder of the stream after the
      register it started from. */
  lemma {:induction false} FeedDivides(c: bv32, bits: Poly)
    ensures Row(Feed(c, bits), 32) == Remainder(Dividend(c, bits))
    decreases |bits|
  {
    hide *;
    if bits == [] {
      NothingToCome(c);
    } else {
      var rest, next := bits[1..], Bit(Add(c, One(bits[0])));
      FeedFirst(c, bits);
      FeedDivides(next, rest);
      assert bits == [bits[0]] + rest;
      DividendOf(c, bits[0], rest);
      DivisionStep(Add(c, One(bits[0])), rest);
    }
  }

  lemma {:induction false} FeedFirst(c: bv32, bits: Poly)
    requires bits != []
    ensures Feed(c, bits) == Feed(Bit(Add(c, One(bits[0]))), bits[1..])
  {
    hide Bit, Add, One;
    FeedAppend(c, [bits[0]], bits[1..]);
    assert bits == [bits[0]] + bits[1..];
    assert [bits[0]][..0] == [];
    assert Feed(c, [bits[0]]) == Bit(Add(c, One(bits[0])));
  }

  // ----- the signature -----

  /** The signature of every message is its checksum: the inverted remainder of its
      bits after multiplication by x^32 and inversion of the first 32, as section
      2.3.1 of RFC 1952 and the standard behind it define it. */
  lemma {:induction false} SignatureIsChecksum(data: seq<bv8>)
    ensures Row(Signature(data), 32) == Checksum(Stream(data))
  {
    hide Row, Add, Register, Stream, Feed, Remainder;
    RegisterFeeds(ONES, data);
    FeedDivides(ONES, Stream(data));
    RowOfOnes();
    RowOfSum(Register(ONES, data), ONES, 32);
  }

  /** Nothing else is: a word with the checksum's bits is the signature. */
  lemma {:induction false} ChecksumIsSignature(data: seq<bv8>, word: bv32)
    ensures Row(word, 32) == Checksum(Stream(data)) <==> word == Signature(data)
  {
    SignatureIsChecksum(data);
    hide Row, Checksum, Signature, Stream;
    if Row(word, 32) == Row(Signature(data), 32) { RowInjective(word, Signature(data)); }
  }

  // ----- the residue -----

  /** A word as four bytes, the lowest first. */
  function BytesOf(w: bv32): (bytes: seq<bv8>)
    ensures |bytes| == 4
  {
    [Low(w), Low(Rest(w)), Low(Rest(Rest(w))), Low(Rest(Rest(Rest(w))))]
  }

  lemma {:induction false} StreamAppend(a: seq<bv8>, b: seq<bv8>)
    ensures Stream(a + b) == Stream(a) + Stream(b)
  {
    hide BitsOfByte;
    if b == [] {
      assert a + b == a;
    } else {
      var n := |b| - 1;
      StreamAppend(a, b[..n]);
      assert (a + b)[..|a| + n] == a + b[..n];
    }
  }

  lemma {:induction false} StreamOfFour(b: seq<bv8>)
    requires |b| == 4
    ensures Stream(b) == BitsOfByte(b[0]) + BitsOfByte(b[1]) + BitsOfByte(b[2]) + BitsOfByte(b[3])
  {
    hide BitsOfByte;
    assert b[..3][..2] == b[..2] && b[..2][..1] == b[..1] && b[..1][..0] == [];
    assert Stream(b[..1]) == BitsOfByte(b[0]);
    assert Stream(b[..2]) == BitsOfByte(b[0]) + BitsOfByte(b[1]);
  }

  lemma {:induction false} StreamOfWord(w: bv32)
    ensures Stream(BytesOf(w)) == Row(w, 32)
  {
    hide Row, BitsOfByte, Stream, Low, Rest;
    StreamOfFour(BytesOf(w));
    RowByBytes(w, 24);
    RowByBytes(Rest(w), 16);
    RowByBytes(Rest(Rest(w)), 8);
    RowByBytes(Rest(Rest(Rest(w))), 0);
    RowOfNone(Rest(Rest(Rest(Rest(w)))));
  }

  lemma {:induction false} RowOfNone(v: bv32)
    ensures Row(v, 0) == []
  {
  }

  /** Feeding a word is adding it and feeding zeros. */
  lemma {:induction false} FeedRow(c: bv32, w: bv32)
    ensures Feed(c, Row(w, 32)) == Feed(Add(c, w), Zeros(32))
  {
    hide Row, Add, Feed, Remainder;
    FeedDivides(c, Row(w, 32));
    FeedDivides(Add(c, w), Zeros(32));
    RowOfSum(c, w, 32);
    assert Dividend(c, Row(w, 32)) == Dividend(Add(c, w), Zeros(32));
    RowInjective(Feed(c, Row(w, 32)), Feed(Add(c, w), Zeros(32)));
  }

  const FOUR_ZEROS: seq<bv8> := [0, 0, 0, 0]

  lemma {:induction false} OnesThroughZeros()
    ensures Feed(ONES, Zeros(32)) == 0xDEBB20E3
  {
    hide Register, Stream, Feed, BitsOfByte, Zeros;
    StreamOfFour(FOUR_ZEROS);
    StreamOfZeros(FOUR_ZEROS);
    RegisterFeeds(ONES, FOUR_ZEROS);
    RegisterOfZeros();
  }

  lemma {:induction false} RegisterOfZeros()
    ensures Register(ONES, FOUR_ZEROS) == 0xDEBB20E3
  {
    var zeros := FOUR_ZEROS;
    ZeroBytes();
    hide Byte;
    assert zeros[..4] == zeros && forall k :: 0 < k <= 4 ==> zeros[..k][..k - 1] == zeros[..k - 1];
    assert Register(ONES, zeros[..1]) == 0x2DFD1072;
    assert Register(ONES, zeros[..2]) == 0xBE26ED00;
    assert Register(ONES, zeros[..3]) == 0x00BE26ED;
  }

  lemma {:induction false} StreamOfZeros(zeros: seq<bv8>)
    requires zeros == [0, 0, 0, 0]
    requires Stream(zeros) == BitsOfByte(zeros[0]) + BitsOfByte(zeros[1]) + BitsOfByte(zeros[2]) + BitsOfByte(zeros[3])
    ensures Stream(zeros) == Zeros(32)
  {
    var none := BitsOfByte(0);
    assert forall i :: 0 <= i < 8 ==> !none[i];
    hide Stream, BitsOfByte;
  }

  lemma {:induction false} ZeroBytes()
    ensures Byte(ONES, 0) == 0x2DFD1072 && Byte(0x2DFD1072, 0) == 0xBE26ED00
    ensures Byte(0xBE26ED00, 0) == 0x00BE26ED && Byte(0x00BE26ED, 0) == 0xDEBB20E3
  {
  }

  /** A message followed by its own signature, low byte first, always has the same
      signature, and the empty message has signature 0. */
  lemma {:induction false} ResidueIsConstant(data: seq<bv8>)
    ensures Signature(data + BytesOf(Signature(data))) == 0x2144DF1C
    ensures Signature([]) == 0
  {
    var sig, c := Signature(data), Register(ONES, data);
    assert Add(c, sig) == ONES && Add(0xDEBB20E3, ONES) == 0x2144DF1C && Add(ONES, ONES) == 0;
    assert Register(ONES, []) == ONES;
    RegisterFeeds(ONES, data);
    hide Row, Add, Register, Stream, Feed, BytesOf;
    RegisterFeeds(ONES, data + BytesOf(sig));
    StreamAppend(data, BytesOf(sig));
    StreamOfWord(sig);
    FeedAppend(ONES, Stream(data), Row(sig, 32));
    FeedRow(c, sig);
    OnesThroughZeros();
  }
}

/** Which errors a signature is sure to show: any burst of at most 32 bits. */
module CrcBursts {
  import opened Crc

  // ----- the register bit by bit -----

  /** The bits of a byte in the order the register takes them, lowest first. */
  function BitsOfByte(b: bv8): (bits: seq<bool>)
    ensures |bits| == 8
  {
    [b & 1 != 0, b & 2 != 0, b & 4 != 0, b & 8 != 0, b & 16 != 0, b & 32 != 0, b & 64 != 0, b & 128 != 0]
  }

  /** A message as a stream of bits. */
  function Stream(data: seq<bv8>): (bits: seq<bool>)
    ensures |bits| == 8 * |data|
  {
    if data == [] then [] else Stream(data[..|data| - 1]) + BitsOfByte(data[|data| - 1])
  }

  function One(bit: bool): bv32 {
    if bit then 1 else 0
  }

  function Feed(c: bv32, bits: seq<bool>): bv32 {
    if bits == [] then c
    else
      var n := |bits| - 1;
      Bit(Add(Feed(c, bits[..n]), One(bits[n])))
  }

  lemma {:induction false} FeedAppend(c: bv32, a: seq<bool>, b: seq<bool>)
    ensures Feed(c, a + b) == Feed(Feed(c, a), b)
  {
    hide Bit, Add, One;
    if b == [] {
      assert a + b == a;
    } else {
      var n := |b| - 1;
      FeedAppend(c, a, b[..n]);
      assert (a + b)[..|a| + n] == a + b[..n];
    }
  }

  /** Further bits never merge two different registers. */
  lemma {:induction false} FeedInjective(a: bv32, b: bv32, bits: seq<bool>)
    requires Feed(a, bits) == Feed(b, bits)
    ensures a == b
  {
    hide Bit, Add, One;
    if bits != [] {
      var n := |bits| - 1;
      var s, t := Feed(a, bits[..n]), Feed(b, bits[..n]);
      BitInjective(Add(s, One(bits[n])), Add(t, One(bits[n])));
      Cancel(s, t, One(bits[n]));
      FeedInjective(a, b, bits[..n]);
    }
  }

  // ----- up to 32 bits at once -----

  function Double(v: bv32): bv32 {
    v << 1
  }

  /** The bit moved up by n places. */
  function Place(n: nat, bit: bool): bv32 {
    if n == 0 then One(bit) else Double(Place(n - 1, bit))
  }

  /** All places from n up. */
  function Top(n: nat): bv32 {
    if n == 0 then ONES else Double(Top(n - 1))
  }

  /** Up to 32 bits as a word. */
  function Word(bits: seq<bool>): bv32 {
    if bits == [] then 0
    else
      var n := |bits| - 1;
      Add(Word(bits[..n]), Place(n, bits[n]))
  }

  predicate Clear(v: bv32, mask: bv32) {
    v & mask == 0
  }

  predicate Highest(v: bv32) {
    v & 0x80000000 != 0
  }

  predicate Within(a: bv32, b: bv32) {
    a & b == a
  }

  lemma {:induction false} Doubling(v: bv32, top: bv32)
    requires Clear(v, top) && Highest(top)
    ensures Bit(Double(v)) == v && Clear(Double(v), Double(top))
  {
  }

  lemma {:induction false} DoubleWithin(a: bv32, b: bv32)
    requires Within(a, b)
    ensures Within(Double(a), Double(b))
  {
  }

  lemma {:induction false} ClearWithin(v: bv32, w: bv32, a: bv32, b: bv32)
    requires Clear(v, b) && Within(a, b) && Clear(w, a)
    ensures Clear(Add(v, w), a)
  {
  }

  lemma {:induction false} HighestWithin(a: bv32, b: bv32)
    requires Within(a, b) && Highest(a)
    ensures Highest(b)
  {
  }

  lemma {:induction false} StillThere(v: bv32, mask: bv32, top: bv32)
    requires !Clear(v, mask) && Clear(v, top) && Highest(top)
    ensures !Clear(Double(v), Double(mask))
  {
  }

  lemma {:induction false} FirstTops()
    ensures Within(Double(ONES), ONES) && Clear(One(true), Double(ONES)) && Clear(One(false), Double(ONES))
    ensures !Clear(One(true), ONES) && Clear(0, ONES)
  {
  }

  lemma {:induction false} TopShrinks(n: nat)
    ensures Within(Top(n + 1), Top(n))
  {
    FirstTops();
    hide Within, Double, Clear;
    if n > 0 {
      TopShrinks(n - 1);
      DoubleWithin(Top(n), Top(n - 1));
    }
  }

  function Up(v: bv32): bv32 {
    v << 8
  }

  lemma {:induction false} UpIsDouble(v: bv32)
    ensures Up(v) == Double(Double(Double(Double(Double(Double(Double(Double(v))))))))
  {
  }

  lemma {:induction false} TopUp(n: nat)
    ensures Top(n + 8) == Up(Top(n))
  {
    UpIsDouble(Top(n));
    hide Up, Double;
    assert Top(n + 8) == Double(Top(n + 7)) == Double(Double(Top(n + 6)));
    assert Top(n + 6) == Double(Top(n + 5)) == Double(Double(Top(n + 4)));
    assert Top(n + 4) == Double(Top(n + 3)) == Double(Double(Top(n + 2)));
    assert Top(n + 2) == Double(Top(n + 1)) == Double(Double(Top(n)));
  }

  /** There is a place 31 and none above it. */
  lemma {:induction false} LastTop()
    ensures Highest(Top(31)) && Top(32) == 0
  {
    assert Up(Up(Up(Up(ONES)))) == 0 && Up(Up(Up(ONES))) == 0xFF000000;
    LastDoubles();
    hide Up, Double, Highest;
    TopUp(0);
    TopUp(8);
    TopUp(16);
    TopUp(24);
    assert Top(31) == Double(Top(30)) == Double(Double(Top(29)));
    assert Top(29) == Double(Top(28)) == Double(Double(Top(27)));
    assert Top(27) == Double(Top(26)) == Double(Double(Double(Top(24))));
  }

  lemma {:induction false} LastDoubles()
    ensures Highest(Double(Double(Double(Double(Double(Double(Double(0xFF000000))))))))
  {
  }

  lemma {:induction false} TopHigh(n: nat)
    requires n <= 31
    ensures Highest(Top(n))
    decreases 31 - n
  {
    hide Highest, Within, Top;
    if n == 31 {
      LastTop();
    } else {
      TopHigh(n + 1);
      TopShrinks(n);
      HighestWithin(Top(n + 1), Top(n));
    }
  }

  /** A placed bit is at its place and no higher. */
  lemma {:induction false} PlaceIs(n: nat, bit: bool)
    requires n <= 31
    ensures Clear(Place(n, bit), Top(n + 1)) && (bit ==> !Clear(Place(n, bit), Top(n)))
  {
    FirstTops();
    hide Clear, Highest, Double, One;
    assert Top(1) == Double(Top(0));
    if n > 0 {
      PlaceIs(n - 1, bit);
      TopHigh(n);
      Doubling(Place(n - 1, bit), Top(n));
      if bit { StillThere(Place(n - 1, bit), Top(n - 1), Top(n)); }
    }
  }

  /** A bit fed n places early is back at the lowest place n steps later. */
  lemma {:induction false} PlaceReturns(n: nat, bit: bool)
    requires n <= 31
    ensures Bits(Place(n, bit), n) == One(bit)
  {
    hide Bit, Double, One, Clear, Highest;
    if n > 0 {
      PlaceReturns(n - 1, bit);
      PlaceIs(n - 1, bit);
      TopHigh(n);
      Doubling(Place(n - 1, bit), Top(n));
    }
  }

  /** Feeding at most 32 bits is feeding their word at once. */
  lemma {:induction false} FeedWord(c: bv32, bits: seq<bool>)
    requires |bits| <= 32
    ensures Feed(c, bits) == Bits(Add(c, Word(bits)), |bits|)
  {
    Neutral(c);
    hide Bit, Add, One, Place;
    if bits != [] {
      var n := |bits| - 1;
      var w, p := Word(bits[..n]), Place(n, bits[n]);
      FeedWord(c, bits[..n]);
      PlaceReturns(n, bits[n]);
      BitsLinear(Add(c, w), p, n);
      Assoc(c, w, p);
      BitsTwice(Add(c, Word(bits)), n, 1);
      assert Bits(Bits(Add(c, Word(bits)), n), 1) == Bit(Bits(Add(c, Word(bits)), n));
    }
  }

  lemma {:induction false} WordIsShort(bits: seq<bool>)
    requires |bits| <= 32
    ensures Clear(Word(bits), Top(|bits|))
  {
    FirstTops();
    hide Clear, Add, Within, Place, Double;
    if bits != [] {
      var n := |bits| - 1;
      WordIsShort(bits[..n]);
      PlaceIs(n, bits[n]);
      TopShrinks(n);
      ClearWithin(Word(bits[..n]), Place(n, bits[n]), Top(n + 1), Top(n));
    }
  }

  /** Two bits that make the same word at the highest place are equal. */
  lemma {:induction false} HighestBit(v: bv32, w: bv32, p: bv32, top: bv32)
    requires Clear(v, top) && Clear(w, top) && !Clear(p, top)
    ensures Add(v, p) != Add(w, 0)
  {
  }

  lemma {:induction false} PlaceOfFalse(n: nat)
    ensures Place(n, false) == 0
  {
    if n > 0 {
      PlaceOfFalse(n - 1);
      assert Double(0) == 0;
    }
  }

  lemma {:induction false} LastBits(a: bv32, b: bv32, n: nat, p: bool, q: bool)
    requires n <= 31 && Clear(a, Top(n)) && Clear(b, Top(n)) && Add(a, Place(n, p)) == Add(b, Place(n, q))
    ensures p == q && a == b
  {
    hide Clear, Add, Place, Top;
    PlaceIs(n, true);
    PlaceOfFalse(n);
    if p && !q { HighestBit(a, b, Place(n, true), Top(n)); }
    if q && !p { HighestBit(b, a, Place(n, true), Top(n)); }
    Cancel(a, b, Place(n, p));
  }

  lemma {:induction false} WordInjective(v: seq<bool>, w: seq<bool>)
    requires |v| == |w| <= 32 && Word(v) == Word(w)
    ensures v == w
  {
    if v != [] {
      var n := |v| - 1;
      WordStep(v, n);
      WordStep(w, n);
      assert v[..n + 1] == v && w[..n + 1] == w;
      hide Clear, Add, Place, Top, Word;
      WordIsShort(v[..n]);
      WordIsShort(w[..n]);
      LastBits(Word(v[..n]), Word(w[..n]), n, v[n], w[n]);
      WordInjective(v[..n], w[..n]);
      assert v == v[..n] + [v[n]] && w == w[..n] + [w[n]];
    }
  }

  lemma {:induction false} WordStep(bits: seq<bool>, k: nat)
    requires k < |bits|
    ensures Word(bits[..k + 1]) == Add(Word(bits[..k]), Place(k, bits[k]))
  {
    hide Add, Place;
    assert bits[..k + 1][..k] == bits[..k];
  }

  // ----- messages as streams -----

  lemma {:induction false} EightPlaces(b: bv8)
    ensures Add(Add(Add(Add(Add(Add(Add(Add(0,
      Place(0, b & 1 != 0)), Place(1, b & 2 != 0)), Place(2, b & 4 != 0)), Place(3, b & 8 != 0)),
      Place(4, b & 16 != 0)), Place(5, b & 32 != 0)), Place(6, b & 64 != 0)), Place(7, b & 128 != 0)) == Widen(b)
  {
    SmallPlaces();
    PlaceOfFalse(0); PlaceOfFalse(1); PlaceOfFalse(2); PlaceOfFalse(3);
    PlaceOfFalse(4); PlaceOfFalse(5); PlaceOfFalse(6); PlaceOfFalse(7);
    hide Place;
  }

  lemma {:induction false} SmallPlaces()
    ensures Place(0, true) == 1 && Place(1, true) == 2 && Place(2, true) == 4 && Place(3, true) == 8
    ensures Place(4, true) == 16 && Place(5, true) == 32 && Place(6, true) == 64 && Place(7, true) == 128
  {
  }

  lemma {:induction false} WordOfEight(bits: seq<bool>)
    requires |bits| == 8
    ensures Word(bits) == Add(Add(Add(Add(Add(Add(Add(Add(0,
      Place(0, bits[0])), Place(1, bits[1])), Place(2, bits[2])), Place(3, bits[3])),
      Place(4, bits[4])), Place(5, bits[5])), Place(6, bits[6])), Place(7, bits[7]))
  {
    assert Word(bits[..0]) == 0 && bits[..8] == bits;
    hide Word, Add, Place;
    WordStep(bits, 0); WordStep(bits, 1); WordStep(bits, 2); WordStep(bits, 3);
    WordStep(bits, 4); WordStep(bits, 5); WordStep(bits, 6); WordStep(bits, 7);
  }

  lemma {:induction false} WordOfByte(b: bv8)
    ensures Word(BitsOfByte(b)) == Widen(b)
  {
    hide Word, Add, Place, Widen;
    EightPlaces(b);
    WordOfEight(BitsOfByte(b));
  }

  /** The register takes a message bit by bit. */
  lemma {:induction false} RegisterFeeds(c: bv32, data: seq<bv8>)
    ensures Register(c, data) == Feed(c, Stream(data))
  {
    if data != [] {
      hide Add, Bits, Widen, Feed, BitsOfByte, Word;
      var n := |data| - 1;
      var bits, r := BitsOfByte(data[n]), Register(c, data[..n]);
      RegisterFeeds(c, data[..n]);
      FeedAppend(c, Stream(data[..n]), bits);
      FeedWord(r, bits);
      WordOfByte(data[n]);
    }
  }

  lemma {:induction false} ByteInjective(a: bv8, b: bv8)
    requires BitsOfByte(a) == BitsOfByte(b)
    ensures a == b
  {
    var s, t := BitsOfByte(a), BitsOfByte(b);
    assert s[0] == t[0] && s[1] == t[1] && s[2] == t[2] && s[3] == t[3];
    assert s[4] == t[4] && s[5] == t[5] && s[6] == t[6] && s[7] == t[7];
  }

  lemma {:induction false} StreamInjective(x: seq<bv8>, y: seq<bv8>)
    requires |x| == |y| && Stream(x) == Stream(y)
    ensures x == y
  {
    if x != [] {
      hide BitsOfByte;
      var n := |x| - 1;
      assert Stream(x)[..8 * n] == Stream(x[..n]) && Stream(y)[..8 * n] == Stream(y[..n]);
      assert Stream(x)[8 * n..] == BitsOfByte(x[n]) && Stream(y)[8 * n..] == BitsOfByte(y[n]);
      StreamInjective(x[..n], y[..n]);
      ByteInjective(x[n], y[n]);
      assert x == x[..n] + [x[n]] && y == y[..n] + [y[n]];
    }
  }

  // ----- bursts -----

  /** From bit `from` on the streams may differ for `length` bits, and nowhere else. */
  ghost predicate DifferWithin(x: seq<bv8>, y: seq<bv8>, from: nat, length: nat)
    requires |x| == |y|
  {
    forall q :: 0 <= q < 8 * |x| && (q < from || q >= from + length) ==> Stream(x)[q] == Stream(y)[q]
  }

  /** Streams with the same head and tail and different bits, at most 32, between. */
  lemma {:induction false} WindowIsSeen(c: bv32, head: seq<bool>, v: seq<bool>, w: seq<bool>, tail: seq<bool>)
    requires |v| == |w| <= 32 && v != w
    ensures Feed(c, head + v + tail) != Feed(c, head + w + tail)
  {
    hide Feed, Add, Word, Bits;
    var r := Feed(c, head);
    FeedAppend(c, head + v, tail);
    FeedAppend(c, head + w, tail);
    FeedAppend(c, head, v);
    FeedAppend(c, head, w);
    if Feed(c, head + v + tail) == Feed(c, head + w + tail) {
      FeedInjective(Feed(r, v), Feed(r, w), tail);
      FeedWord(r, v);
      FeedWord(r, w);
      BitsInjective(Add(r, Word(v)), Add(r, Word(w)), |v|);
      Comm(r, Word(v));
      Comm(r, Word(w));
      Cancel(Word(v), Word(w), r);
      WordInjective(v, w);
    }
  }

  /** Two messages of equal length that differ, but only within 32 consecutive bits,
      wherever these begin, never have the same signature. */
  lemma {:induction false} BurstsAreDetected(x: seq<bv8>, y: seq<bv8>, from: nat)
    requires |x| == |y| && x != y && DifferWithin(x, y, from, 32)
    ensures Signature(x) != Signature(y)
  {
    hide Stream, Feed, Register, Add;
    var a, b := Stream(x), Stream(y);
    var i := if from < |a| then from else |a|;
    var j := if from + 32 < |a| then from + 32 else |a|;
    if a == b { StreamInjective(x, y); }
    assert a == a[..i] + a[i..j] + a[j..] && b == b[..i] + b[i..j] + b[j..];
    assert a[..i] == b[..i] && a[j..] == b[j..];
    WindowIsSeen(ONES, a[..i], a[i..j], b[i..j], a[j..]);
    RegisterFeeds(ONES, x);
    RegisterFeeds(ONES, y);
    if Signature(x) == Signature(y) { Cancel(Register(ONES, x), Register(ONES, y), ONES); }
  }

  // ----- 33 bits are too many -----

  const FIVE: seq<bv8> := [0x41, 0x06, 0x71, 0xDB, 0x01]
  const ZEROS: seq<bv8> := [0, 0, 0, 0, 0]

  /** The limit is exact: these two messages differ within 33 bits and share their
      signature. Their difference is the polynomial itself. */
  lemma {:induction false} LongerBurstsCanCollide()
    ensures FIVE != ZEROS && DifferWithin(FIVE, ZEROS, 0, 33) && Signature(FIVE) == Signature(ZEROS)
  {
    WithinFirst33();
    XorZeros();
    hide Register, Add, DifferWithin;
    RegisterLinear(ONES, 0, ZEROS, FIVE);
    PolynomialVanishes();
    Neutral(Register(ONES, ZEROS));
    Neutral(ONES);
  }

  lemma {:induction false} WithinFirst33()
    ensures DifferWithin(FIVE, ZEROS, 0, 33)
  {
    assert forall k :: 1 <= k < 8 ==> BitsOfByte(0x01)[k] == BitsOfByte(0)[k];
    hide BitsOfByte;
    assert forall q :: 32 <= q < 40 ==>
      Stream(FIVE)[q] == BitsOfByte(0x01)[q - 32] && Stream(ZEROS)[q] == BitsOfByte(0)[q - 32];
  }

  lemma {:induction false} XorZeros()
    ensures Xor(ZEROS, FIVE) == FIVE && FIVE != ZEROS
  {
    assert FIVE[4] != ZEROS[4];
    assert (0 as bv8) ^ 0x41 == 0x41 && (0 as bv8) ^ 0x06 == 0x06 && (0 as bv8) ^ 0x71 == 0x71;
    assert (0 as bv8) ^ 0xDB == 0xDB && (0 as bv8) ^ 0x01 == 0x01;
  }

  lemma {:induction false} FirstByte()
    ensures Byte(0, 0x41) == 0x01DB7106
  {
  }

  lemma {:induction false} OtherBytes()
    ensures Byte(0x01DB7106, 0x06) == 0x0001DB71 && Byte(0x0001DB71, 0x71) == 0x000001DB
    ensures Byte(0x000001DB, 0xDB) == 0x00000001 && Byte(0x00000001, 0x01) == 0
  {
  }

  /** A register started at zero and fed the polynomial ends at zero. */
  lemma {:induction false} PolynomialVanishes()
    ensures Register(0, FIVE) == 0
  {
    hide Byte;
    FirstByte();
    OtherBytes();
    assert FIVE[..5] == FIVE && forall k :: 0 < k <= 5 ==> FIVE[..k][..k - 1] == FIVE[..k - 1];
    assert Register(0, FIVE[..1]) == 0x01DB7106;
    assert Register(0, FIVE[..2]) == 0x0001DB71;
    assert Register(0, FIVE[..3]) == 0x000001DB;
    assert Register(0, FIVE[..4]) == 0x00000001;
  }
}

/** The bit-serial read: eight clocked samples of the data line make a byte
    (`shiftInSlow`), three bytes most significant first make one 24-bit
    conversion, and the top bit is replicated into a fourth byte so that the
    32-bit word read as a `long` is the conversion's two's-complement value. */
module Transport {
  import opened CArith

  const TWO_23: int := 0x80_0000
  const TWO_24: int := 0x100_0000

  /** The `bitOrder` argument of `shiftInSlow`. */
  datatype BitOrder = MsbFirst | LsbFirst

  /** The bit position that the `i`-th sampled level lands in. */
  function Position(order: BitOrder, i: nat): (p: nat)
    requires i < 8
    ensures p < 8
  {
    if order == LsbFirst then i else 7 - i
  }

  /** The byte with only bit `p` set, that is `1 << p`. */
  function Mask(p: nat): (m: bv8)
    requires p < 8
  {
    if p == 0 then 0x01 else if p == 1 then 0x02 else if p == 2 then 0x04
    else if p == 3 then 0x08 else if p == 4 then 0x10 else if p == 5 then 0x20
    else if p == 6 then 0x40 else 0x80
  }

  lemma ShiftIsMask(bit: bv8, p: nat)
    requires p < 8 && bit <= 1
    ensures bit << p == if bit == 1 then Mask(p) else 0
  {
    if p == 0 {
    } else if p == 1 {
    } else if p == 2 {
    } else if p == 3 {
    } else if p == 4 {
    } else if p == 5 {
    } else if p == 6 {
    } else {
    }
  }

  predicate BitAt(v: bv8, p: nat)
    requires p < 8
  {
    v & Mask(p) != 0
  }

  /** The levels the data line would have to show, in sampling order, for
      `shiftInSlow` to assemble `v`. */
  function ByteBits(v: bv8, order: BitOrder): (levels: seq<bool>)
    ensures |levels| == 8
  {
    seq(8, i requires 0 <= i < 8 => BitAt(v, Position(order, i)))
  }

  /** Two bytes that agree on every bit position are the same byte. */
  lemma ByteBitsInjective(v: bv8, w: bv8, order: BitOrder)
    requires ByteBits(v, order) == ByteBits(w, order)
    ensures v == w
  {
    forall p: nat | p < 8
      ensures BitAt(v, p) == BitAt(w, p)
    {
      var i := if order == LsbFirst then p else 7 - p;
      assert Position(order, i) == p;
      assert ByteBits(v, order)[i] == ByteBits(w, order)[i];
    }
    assert BitAt(v, 0) == BitAt(w, 0) && BitAt(v, 1) == BitAt(w, 1);
    assert BitAt(v, 2) == BitAt(w, 2) && BitAt(v, 3) == BitAt(w, 3);
    assert BitAt(v, 4) == BitAt(w, 4) && BitAt(v, 5) == BitAt(w, 5);
    assert BitAt(v, 6) == BitAt(w, 6) && BitAt(v, 7) == BitAt(w, 7);
  }

  /** Or-ing a one-bit value in at position `p` sets that bit (if the value is
      one) and leaves the other seven alone. */
  lemma SetBit(v: bv8, p: nat, q: nat, bit: bv8)
    requires p < 8 && q < 8 && bit <= 1
    ensures BitAt(v | (bit << p), q) == if q == p then bit == 1 || BitAt(v, q) else BitAt(v, q)
  {
    ShiftIsMask(bit, p);
  }

  /** `shiftInSlow`: eight clock pulses, one data-line sample each; a high
      sample sets the bit at `Position(order, i)`. The clock writes and delays
      are not modelled; `levels` are the eight samples in the order taken. */
  method ShiftInSlow(levels: seq<bool>, order: BitOrder) returns (value: bv8)
    requires |levels| == 8
    ensures ByteBits(value, order) == levels
    ensures forall w: bv8 :: ByteBits(w, order) == levels ==> w == value
  {
    value := 0;
    var i := 0;
    while i < 8
      invariant 0 <= i <= 8
      invariant forall j :: 0 <= j < i ==> BitAt(value, Position(order, j)) == levels[j]
      invariant forall j :: i <= j < 8 ==> !BitAt(value, Position(order, j))
    {
      var bit: bv8 := if levels[i] then 1 else 0;
      var p := Position(order, i);
      ghost var prev := value;
      value := value | (bit << p);
      forall j | 0 <= j < 8
        ensures BitAt(value, Position(order, j)) == if j == i then levels[i] else BitAt(prev, Position(order, j))
      {
        SetBit(prev, p, Position(order, j), bit);
      }
      i := i + 1;
    }
    forall w: bv8 | ByteBits(w, order) == levels
      ensures w == value
    {
      ByteBitsInjective(w, value, order);
    }
  }

  lemma BytesBack(b: bv8)
    ensures (b as int) as bv8 == b
  {
  }

  /** One conversion as read off the wire: `data[2]`, `data[1]`, `data[0]`. */
  datatype Triple = Triple(hi: Byte, mid: Byte, lo: Byte)

  /** The read handler's three `shiftInSlow` calls, most significant byte first. */
  method ReadTriple(hiLevels: seq<bool>, midLevels: seq<bool>, loLevels: seq<bool>) returns (t: Triple)
    requires |hiLevels| == 8 && |midLevels| == 8 && |loLevels| == 8
    ensures ByteBits(t.hi as bv8, MsbFirst) == hiLevels
    ensures ByteBits(t.mid as bv8, MsbFirst) == midLevels
    ensures ByteBits(t.lo as bv8, MsbFirst) == loLevels
  {
    var hi := ShiftInSlow(hiLevels, MsbFirst);
    var mid := ShiftInSlow(midLevels, MsbFirst);
    var lo := ShiftInSlow(loLevels, MsbFirst);
    t := Triple(hi as int, mid as int, lo as int);
    BytesBack(hi);
    BytesBack(mid);
    BytesBack(lo);
  }

  /** The unsigned 24-bit big-endian number the three bytes spell. */
  function Raw24(t: Triple): (u: nat)
    ensures u < TWO_24
  {
    t.hi * 0x1_0000 + t.mid * 0x100 + t.lo
  }

  /** Two's-complement reading of a 24-bit number: the reference meaning of a
      conversion, independent of how the driver widens it. */
  function Signed24(u: nat): (v: int)
    requires u < TWO_24
    ensures -TWO_23 <= v < TWO_23
    ensures (u - v) % TWO_24 == 0
  {
    if u >= TWO_23 then u - TWO_24 else u
  }

  /** The byte that pads the top of the 32-bit word. */
  function Filler(hi: Byte): Byte {
    if (hi as bv8) & 0x80 != 0 then 0xFF else 0x00
  }

  /** The `unsigned long` the handler builds by or-ing the four bytes shifted
      by 24, 16, 8 and 0 bits. The bytes occupy disjoint eight-bit lanes, so the
      or is their positional sum (`WordLanes` checks this in 32-bit arithmetic). */
  function Word(t: Triple): (w: nat)
    ensures w < TWO_32
  {
    Filler(t.hi) * TWO_24 + Raw24(t)
  }

  lemma WordLanes(f: bv8, h: bv8, m: bv8, l: bv8)
    ensures ((f as bv32) << 24) | ((h as bv32) << 16) | ((m as bv32) << 8) | (l as bv32)
         == (f as bv32) * 0x100_0000 + (h as bv32) * 0x1_0000 + (m as bv32) * 0x100 + (l as bv32)
  {
  }

  /** The filler is all ones exactly when bit 7 of the top byte is set. */
  lemma FillerIsSignBit(hi: Byte)
    ensures Filler(hi) == 0xFF <==> hi >= 0x80
    ensures Filler(hi) == 0x00 <==> hi < 0x80
  {
  }

  /** The sample value one call of the read handler contributes: the word
      reinterpreted as a `long`. */
  function Decode(t: Triple): (v: Long)
    ensures v == Signed24(Raw24(t))
    ensures -TWO_23 <= v < TWO_23
    ensures v < 0 <==> Filler(t.hi) == 0xFF
  {
    FillerIsSignBit(t.hi);
    Wrap32(Word(t))
  }

  /** The three bytes the converter sends for a value in its 24-bit range. */
  function Encode(v: int): (t: Triple)
    requires -TWO_23 <= v < TWO_23
  {
    var u := if v < 0 then v + TWO_24 else v;
    Digits(u);
    Triple(u / 0x1_0000, u / 0x100 % 0x100, u % 0x100)
  }

  /** Base-256 digits of a 24-bit number. */
  lemma Digits(u: int)
    requires 0 <= u < TWO_24
    ensures u == (u / 0x1_0000) * 0x1_0000 + (u / 0x100 % 0x100) * 0x100 + u % 0x100
    ensures u / 0x1_0000 < 0x100
  {
    var q := u / 0x100;
    assert u == q * 0x100 + u % 0x100;
    assert q == (q / 0x100) * 0x100 + q % 0x100;
    assert q / 0x100 == u / 0x1_0000;
  }

  /** Every value in the converter's range is sent as exactly one triple, and
      the handler decodes it back. */
  lemma DecodeEncode(v: int)
    requires -TWO_23 <= v < TWO_23
    ensures Decode(Encode(v)) == v
  {
    var u := if v < 0 then v + TWO_24 else v;
    Digits(u);
    assert Raw24(Encode(v)) == u;
  }

  /** Decoding loses nothing: the triple is recovered from its value. */
  lemma EncodeDecode(t: Triple)
    ensures Encode(Decode(t)) == t
  {
    var u := Raw24(t);
    var v := Decode(t);
    assert (if v < 0 then v + TWO_24 else v) == u;
    RawDigits(t);
  }

  lemma RawDigits(t: Triple)
    ensures Raw24(t) / 0x1_0000 == t.hi
    ensures Raw24(t) / 0x100 % 0x100 == t.mid
    ensures Raw24(t) % 0x100 == t.lo
  {
    Digits3(t.hi, t.mid, t.lo);
  }

  lemma Digits3(h: nat, m: nat, l: nat)
    requires h < 0x100 && m < 0x100 && l < 0x100
    ensures (h * 0x1_0000 + m * 0x100 + l) / 0x1_0000 == h
    ensures (h * 0x1_0000 + m * 0x100 + l) / 0x100 % 0x100 == m
    ensures (h * 0x1_0000 + m * 0x100 + l) % 0x100 == l
  {
    var u := h * 0x1_0000 + m * 0x100 + l;
    assert u == (h * 0x100 + m) * 0x100 + l;
    ShiftDigit(h * 0x100 + m, l);
    ShiftDigit(h, m);
    DivDiv(u);
  }

  lemma ShiftDigit(x: nat, y: nat)
    requires y < 0x100
    ensures (x * 0x100 + y) / 0x100 == x
    ensures (x * 0x100 + y) % 0x100 == y
  {
  }

  lemma DivDiv(u: nat)
    ensures u / 0x1_0000 == u / 0x100 / 0x100
  {
  }

  /** The worked values of a 24-bit two's-complement reading. */
  lemma DecodeExamples()
    ensures Decode(Triple(0x00, 0x00, 0x01)) == 1
    ensures Decode(Triple(0xFF, 0xFF, 0xFF)) == -1
    ensures Decode(Triple(0x80, 0x00, 0x00)) == -0x80_0000
    ensures Decode(Triple(0x7F, 0xFF, 0xFF)) == 0x7F_FFFF
  {
  }
}

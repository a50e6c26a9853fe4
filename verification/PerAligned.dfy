/** Aligned constrained whole numbers of asn1_utils.cc (X.691 section 10.5.7).

    The encoder and the decoder take different branches at range size 65536, and the decoder of
    the long form adds the lower bound twice.  `AlignedRoundTrip` says exactly when the two
    nevertheless agree. */
module PerAligned {
  import opened BitSeq
  import opened Octets
  import opened BitCursor
  import opened PerInteger

  /** `(bits + 7) / 8` */
  function Octs(bits: nat): (n: nat)
    ensures 8 * n >= bits
    ensures bits > 0 ==> n > 0
  {
    if bits == 0 then 0 else if bits <= 8 then 1 else 1 + Octs(bits - 8)
  }

  lemma {:induction false} OctsIs(bits: nat)
    ensures Octs(bits) == (bits + 7) / 8
  {
    if bits > 8 {
      OctsIs(bits - 8);
    }
  }

  /** Width of the length field of the long form. */
  function LengthWidth(range: nat): nat
  {
    CeilLog2(Octs(CeilLog2(range)))
  }

  /** The number v, right-justified in whole octets. */
  function OctetAligned(v: nat, width: nat): (b: seq<bool>)
    ensures |b| == 8 * Octs(width)
  {
    Zeros(8 * Octs(width) - width) + Enc(v, width)
  }

  /** What the encoder writes for the offset v into a range, when it starts at position d. */
  function AlignedBits(v: nat, range: nat, d: nat): seq<bool>
    requires range > 65536 ==> v > 0
  {
    if range == 1 then []
    else if range < 256 then Enc(v, CeilLog2(range))
    else if range <= 65536 then Zeros(Padding(d)) + OctetAligned(v, CeilLog2(range))
    else
      var k := LengthWidth(range);
      Enc(Octs(BitLength(v)) - 1, k) + (Zeros(Padding(d + k)) + OctetAligned(v, BitLength(v)))
  }

  /** The aligned form starting at position d: skip to an octet boundary, then read whole octets. */
  function ParseOctets(s: seq<bool>, d: nat, octets: nat): Parse<nat>
  {
    Field(s, d + Padding(d), 8 * octets)
  }

  function Plus(p: Parse<nat>, k: int): Parse<int>
  {
    if p.Parsed? then Parsed(p.value + k, p.pos) else Failed
  }

  /** The long form: an octet count less one, then the number on an octet boundary. */
  function ParseCounted(s: seq<bool>, d: nat, countWidth: nat): Parse<nat>
  {
    match Field(s, d, countWidth)
    case Failed => Failed
    case Parsed(k, p) => ParseOctets(s, p, k + 1)
  }

  function ParseAligned(s: seq<bool>, d: nat, lb: int, ub: int): Parse<int>
    requires lb <= ub
  {
    var range := ub - lb + 1;
    if range == 1 then Parsed(lb, d)
    else if range < 256 then Plus(Field(s, d, CeilLog2(range)), lb)
    else if range < 65536 then Plus(ParseOctets(s, d, Octs(CeilLog2(range))), lb)
    else Plus(ParseCounted(s, d, LengthWidth(range)), lb + lb)
  }

  // ---- Reading back what was written

  lemma PadAt(s: seq<bool>, d: nat, v: nat, pad: nat, width: nat)
    requires At(s, d, Zeros(pad) + Enc(v, width)) && v < Pow2(width)
    ensures Field(s, d, pad + width) == Parsed(v, d + pad + width)
  {
    EncPadLeft(v, pad, width);
    Pow2Monotone(width, pad + width);
    FieldAt(s, d, v, pad + width);
  }

  lemma OctetAlignedAt(s: seq<bool>, d: nat, v: nat, width: nat)
    requires At(s, d, OctetAligned(v, width)) && v < Pow2(width)
    ensures Field(s, d, 8 * Octs(width)) == Parsed(v, d + 8 * Octs(width))
  {
    PadAt(s, d, v, 8 * Octs(width) - width, width);
  }

  lemma PaddedAt(s: seq<bool>, d: nat, v: nat, width: nat)
    requires At(s, d, Zeros(Padding(d)) + OctetAligned(v, width)) && v < Pow2(width)
    ensures ParseOctets(s, d, Octs(width)) == Parsed(v, d + Padding(d) + 8 * Octs(width))
  {
    AtParts(s, d, Zeros(Padding(d)), OctetAligned(v, width));
    OctetAlignedAt(s, d + Padding(d), v, width);
  }

  lemma {:induction false} CeilLog2Monotone(x: nat, y: nat)
    requires x <= y
    ensures CeilLog2(x) <= CeilLog2(y)
  {
    if x > 1 {
      CeilLog2Monotone((x + 1) / 2, (y + 1) / 2);
    }
  }

  lemma {:induction false} BitLengthLeast(x: nat, n: nat)
    requires x < Pow2(n)
    ensures BitLength(x) <= n
  {
    if x > 0 {
      BitLengthLeast(x / 2, n - 1);
    }
  }

  lemma {:induction false} OctsMonotone(a: nat, b: nat)
    requires a <= b
    ensures Octs(a) <= Octs(b)
  {
    if a > 8 {
      OctsMonotone(a - 8, b - 8);
    }
  }

  /** The octet count of the long form fits its length field. */
  lemma LengthFits(v: nat, range: nat)
    requires 1 <= v < range
    ensures 1 <= Octs(BitLength(v)) <= Octs(CeilLog2(range))
    ensures Octs(BitLength(v)) - 1 < Pow2(LengthWidth(range))
  {
    CeilLog2Bounds(range);
    BitLengthLeast(v, CeilLog2(range));
    BitLengthBounds(v);
    OctsMonotone(BitLength(v), CeilLog2(range));
    CeilLog2Bounds(Octs(CeilLog2(range)));
  }

  lemma CountAt(s: seq<bool>, d: nat, count: nat, k: nat, rest: seq<bool>)
    requires count < Pow2(k) && At(s, d, Enc(count, k) + rest)
    ensures Field(s, d, k) == Parsed(count, d + k) && At(s, d + k, rest)
  {
    AtParts(s, d, Enc(count, k), rest);
    FieldAt(s, d, count, k);
  }

  lemma CountedAt(s: seq<bool>, d: nat, k: nat, v: nat, w: nat)
    requires v < Pow2(w) && w > 0 && Octs(w) - 1 < Pow2(k)
    requires At(s, d, Enc(Octs(w) - 1, k) + (Zeros(Padding(d + k)) + OctetAligned(v, w)))
    ensures ParseCounted(s, d, k) == Parsed(v, d + k + Padding(d + k) + 8 * Octs(w))
  {
    CountAt(s, d, Octs(w) - 1, k, Zeros(Padding(d + k)) + OctetAligned(v, w));
    PaddedAt(s, d + k, v, w);
  }

  lemma LowOctet(v: nat)
    ensures Low(v, 8) == v % 256
  {
    ShrAndLow(v, 8);
    Pow2Eight();
  }

  lemma LogConstants()
    ensures Pow2(16) == 65536 && Pow2(15) == 32768
    ensures CeilLog2(65536) == 16 && LengthWidth(65536) == 1
  {
    Pow2Fourteen();
    assert Pow2(15) == 2 * Pow2(14);
    CeilLog2Bounds(65536);
    if CeilLog2(65536) < 16 { Pow2Monotone(CeilLog2(65536), 15); }
    if CeilLog2(65536) > 16 { Pow2Monotone(16, CeilLog2(65536) - 1); }
  }

  // ---- Range size 65536, where the encoder writes two octets and the decoder expects a length

  lemma HalfFormUnaligned(s: seq<bool>, d: nat, v: nat, w: nat)
    requires d % 8 != 0 && w == 16
    requires At(s, d, Zeros(Padding(d)) + OctetAligned(v, w))
    ensures ParseCounted(s, d, 1).Parsed? && ParseCounted(s, d, 1).pos == d + Padding(d) + 8
  {
    AtParts(s, d, Zeros(Padding(d)), OctetAligned(v, w));
    PaddingMod(d);
    PaddingNext(d);
    assert s[d] == s[d..d + Padding(d)][0] == false;
    assert Read(s, d, 1) == 0;
  }

  lemma TopBit(v: nat, w: nat)
    requires v < 65536 && w == 16
    ensures Shr(v, w - 1) == if v < 32768 then 0 else 1
  {
    LogConstants();
    ShrAndLow(v, 15);
  }

  /** The two octets of v, and its first bit. */
  lemma HalfFields(s: seq<bool>, d: nat, v: nat, w: nat)
    requires v < 65536 && w == 16 && At(s, d, Enc(v, w))
    ensures Field(s, d, 1) == Parsed(if v < 32768 then 0 else 1, d + 1)
    ensures Field(s, d + 8, 8) == Parsed(v % 256, d + 16)
  {
    EncSplit(v, w, 1);
    EncSplit(v, w, 8);
    AtParts(s, d, Enc(Shr(v, w - 1), 1), Enc(v, w - 1));
    AtParts(s, d, Enc(Shr(v, w - 8), 8), Enc(v, w - 8));
    LowOctet(v);
    EncLow(v, w - 8);
    LowSmall(v, w - 8);
    FieldAt(s, d + 8, Low(v, w - 8), w - 8);
    TopBit(v, w);
    FieldAt(s, d, Shr(v, w - 1), 1);
  }

  lemma HalfFormAligned(s: seq<bool>, d: nat, v: nat, w: nat)
    requires d % 8 == 0 && v < 65536 && w == 16 && At(s, d, Enc(v, w))
    ensures v < 32768 ==> ParseCounted(s, d, 1) == Parsed(v % 256, d + 16)
    ensures v >= 32768 && ParseCounted(s, d, 1).Parsed? ==> ParseCounted(s, d, 1).pos == d + 24
  {
    HalfFields(s, d, v, w);
    PaddingMod(d);
    PaddingNext(d);
  }

  // ---- The exact round trip

  /** When the aligned decoder returns what the aligned encoder was given: always for range sizes
      below 65536, only with lower bound zero above, and at 65536 only on an octet boundary, for
      the offsets of one particular octet. */
  predicate AlignedAgrees(v: nat, lb: int, range: nat, d: nat)
  {
    range < 65536
    || (range == 65536 && d % 8 == 0 && v < 32768 && lb == v - v % 256)
    || (range > 65536 && lb == 0)
  }

  lemma ShortForms(s: seq<bool>, d: nat, v: nat, lb: int, range: nat)
    requires v < range < 65536
    requires At(s, d, AlignedBits(v, range, d))
    ensures ParseAligned(s, d, lb, lb + range - 1) == Parsed(lb + v, d + |AlignedBits(v, range, d)|)
  {
    CeilLog2Bounds(range);
    if range == 1 {
    } else if range < 256 {
      FieldAt(s, d, v, CeilLog2(range));
    } else {
      PaddedAt(s, d, v, CeilLog2(range));
    }
  }

  lemma LongForm(s: seq<bool>, d: nat, v: nat, lb: int, range: nat)
    requires 1 <= v < range && range > 65536
    requires At(s, d, AlignedBits(v, range, d))
    ensures ParseAligned(s, d, lb, lb + range - 1) == Parsed(lb + v + lb, d + |AlignedBits(v, range, d)|)
  {
    var k, w := LengthWidth(range), BitLength(v);
    LengthFits(v, range);
    BitLengthBounds(v);
    assert AlignedBits(v, range, d) == Enc(Octs(w) - 1, k) + (Zeros(Padding(d + k)) + OctetAligned(v, w));
    CountedAt(s, d, k, v, w);
  }

  lemma HalfRange(s: seq<bool>, d: nat, v: nat, w: nat)
    requires v < 65536 && w == 16 && At(s, d, Zeros(Padding(d)) + OctetAligned(v, w))
    ensures ParseCounted(s, d, 1).Parsed? && ParseCounted(s, d, 1).pos == d + Padding(d) + 16
            <==> d % 8 == 0 && v < 32768
    ensures d % 8 == 0 && v < 32768 ==> ParseCounted(s, d, 1).value == v % 256
  {
    PaddingMod(d);
    if d % 8 == 0 {
      OctsIs(w);
      assert Zeros(0) + (Zeros(0) + Enc(v, w)) == Enc(v, w);
      HalfFormAligned(s, d, v, w);
    } else {
      HalfFormUnaligned(s, d, v, w);
    }
  }

  lemma HalfForm(s: seq<bool>, d: nat, v: nat, lb: int, range: nat)
    requires v < range && range == 65536
    requires At(s, d, AlignedBits(v, range, d))
    ensures ParseAligned(s, d, lb, lb + range - 1) == Parsed(lb + v, d + |AlignedBits(v, range, d)|)
            <==> d % 8 == 0 && v < 32768 && lb == v - v % 256
  {
    LogConstants();
    OctsIs(16);
    HalfRange(s, d, v, CeilLog2(range));
  }

  lemma AlignedRoundTrip(s: seq<bool>, d: nat, v: nat, lb: int, range: nat)
    requires v < range && (range > 65536 ==> v > 0)
    requires At(s, d, AlignedBits(v, range, d))
    ensures ParseAligned(s, d, lb, lb + range - 1) == Parsed(lb + v, d + |AlignedBits(v, range, d)|)
            <==> AlignedAgrees(v, lb, range, d)
    ensures range > 65536 ==>
      ParseAligned(s, d, lb, lb + range - 1) == Parsed(lb + v + lb, d + |AlignedBits(v, range, d)|)
  {
    if range < 65536 {
      ShortForms(s, d, v, lb, range);
    } else if range == 65536 {
      HalfForm(s, d, v, lb, range);
    } else {
      LongForm(s, d, v, lb, range);
    }
  }

  /** The number 2 of the range from 1 to 65537 is decoded as 3. */
  lemma LongFormFails(s: seq<bool>, d: nat)
    requires At(s, d, AlignedBits(2 - 1, 65537, d))
    ensures ParseAligned(s, d, 1, 65537).Parsed? && ParseAligned(s, d, 1, 65537).value == 3
  {
    AlignedRoundTrip(s, d, 1, 1, 65537);
  }

  /** The numbers from 32768 to 65535 of the range from 0 to 65535 are never decoded as themselves with
      the cursor at the end of the field. */
  lemma HalfRangeFails(s: seq<bool>, d: nat, v: nat, range: nat)
    requires 32768 <= v < range == 65536 && At(s, d, AlignedBits(v, range, d))
    ensures ParseAligned(s, d, 0, 0 + range - 1) != Parsed(0 + v, d + |AlignedBits(v, range, d)|)
  {
    AlignedRoundTrip(s, d, v, 0, range);
  }

  // ---- The methods

  method PackOctets(bref: BitRef, v: nat, width: nat) returns (code: Code)
    requires bref.Valid() && width <= 31
    modifies bref`ptr, bref`offset, bref.buf
    ensures bref.Valid()
    ensures code.Success? <==>
      old(bref.Distance()) + Padding(old(bref.Distance())) + 8 * Octs(width) <= |bref.Stream()|
    ensures code.Success? ==>
      Wrote(old(bref.Stream()), old(bref.Distance()),
            Zeros(Padding(old(bref.Distance()))) + OctetAligned(v, width), bref.Stream(), bref.Distance())
  {
    ghost var s, d := bref.Stream(), bref.Distance();
    OctsIs(width);
    var octets := (width + 7) / 8;
    code := bref.AlignBytesZero();
    ghost var s1, d1 := bref.Stream(), bref.Distance();
    code := bref.Pack(0, octets * 8 - width);
    if !code.Success? { return; }
    EncZero(octets * 8 - width);
    ghost var s2, d2 := bref.Stream(), bref.Distance();
    code := bref.Pack(v, width);
    if !code.Success? { return; }
    WroteThen(s1, d1, Zeros(octets * 8 - width), s2, d2, Enc(v, width), bref.Stream(), bref.Distance());
    WroteThen(s, d, Zeros(Padding(d)), s1, d1, OctetAligned(v, width), bref.Stream(), bref.Distance());
  }

  lemma {:induction false} CeilLog2Least(x: nat, k: nat)
    requires x <= Pow2(k)
    ensures CeilLog2(x) <= k
  {
    if x > 1 {
      CeilLog2Least((x + 1) / 2, k - 1);
    }
  }

  lemma Pow2ThirtyTwo()
    ensures Pow2(31) == 0x8000_0000 && Pow2(32) == 0x1_0000_0000
  {
    LogConstants();
    assert Pow2(18) == 4 * Pow2(16);
    assert Pow2(20) == 4 * Pow2(18);
    assert Pow2(22) == 4 * Pow2(20);
    assert Pow2(24) == 4 * Pow2(22);
    assert Pow2(26) == 4 * Pow2(24);
    assert Pow2(28) == 4 * Pow2(26);
    assert Pow2(30) == 4 * Pow2(28);
    assert Pow2(32) == 4 * Pow2(30);
  }

  /** Every width the aligned forms hand to `pack` and `unpack` is one these accept. */
  lemma WidthBounds(range: nat)
    requires 1 <= range < 0x1_0000_0000
    ensures range < 256 ==> CeilLog2(range) <= 8
    ensures range <= 65536 ==> CeilLog2(range) <= 16
    ensures Octs(CeilLog2(range)) <= 4 && LengthWidth(range) <= 2
  {
    Pow2ThirtyTwo();
    Pow2Eight();
    LogConstants();
    CeilLog2Least(range, 32);
    if range < 256 { CeilLog2Least(range, 8); }
    if range <= 65536 { CeilLog2Least(range, 16); }
    FourOctets(CeilLog2(range));
  }

  lemma FourOctets(bits: nat)
    requires bits <= 32
    ensures Octs(bits) <= 4 && CeilLog2(Octs(bits)) <= 2
  {
    OctsIs(bits);
    CeilLog2Least(Octs(bits), 2);
  }

  lemma AlignedEnd(d: nat, octets: nat)
    ensures Padding(d + Padding(d) + 8 * octets) == 0
  {
    PaddingMod(d);
    PaddingMod(d + Padding(d) + 8 * octets);
  }

  /** The form for range sizes from 256 to 65536: the padding after the octets is always empty. */
  method PackPadded(bref: BitRef, v: nat, width: nat) returns (code: Code)
    requires bref.Valid() && width <= 31
    modifies bref`ptr, bref`offset, bref.buf
    ensures bref.Valid()
    ensures code.Success? <==>
      old(bref.Distance()) + Padding(old(bref.Distance())) + 8 * Octs(width) <= |bref.Stream()|
    ensures code.Success? ==>
      Wrote(old(bref.Stream()), old(bref.Distance()),
            Zeros(Padding(old(bref.Distance()))) + OctetAligned(v, width), bref.Stream(), bref.Distance())
  {
    ghost var d := bref.Distance();
    code := PackOctets(bref, v, width);
    if !code.Success? { return; }
    AlignedEnd(d, Octs(width));
    OverwriteNothing(bref.Stream(), bref.Distance());
    assert Zeros(0) == [];
    code := bref.AlignBytesZero();
  }

  /** A difference as the unsigned argument of `pack`. */
  function U32(x: int): nat
  {
    x % 0x1_0000_0000
  }

  /** The encoder does not compare the number with its bounds; outside them it sends the low bits of the
      difference. */
  method PackAlignInteger(bref: BitRef, n: int, lb: int, ub: int) returns (code: Code)
    requires bref.Valid()
    requires lb <= ub && ub - lb + 1 < 0x1_0000_0000
    requires ub - lb + 1 > 65536 ==> 1 <= n - lb < 0x8000_0000
    modifies bref`ptr, bref`offset, bref.buf
    ensures bref.Valid()
    ensures code.Success? <==>
      old(bref.Distance()) + |AlignedBits(U32(n - lb), ub - lb + 1, old(bref.Distance()))| <= |bref.Stream()|
    ensures code.Success? ==>
      Wrote(old(bref.Stream()), old(bref.Distance()),
            AlignedBits(U32(n - lb), ub - lb + 1, old(bref.Distance())), bref.Stream(), bref.Distance())
  {
    ghost var s, d := bref.Stream(), bref.Distance();
    var ra := ub - lb + 1;
    if ra == 1 {
      OverwriteNothing(s, d);
      return Success;
    }
    var nBits, toEncode := CeilLog2(ra), U32(n - lb);
    WidthBounds(ra);
    if ra < 256 {
      code := bref.Pack(toEncode, nBits);
    } else if ra <= 65536 {
      code := PackPadded(bref, toEncode, nBits);
    } else {
      OctsIs(nBits);
      code := PackCounted(bref, toEncode, CeilLog2((nBits + 7) / 8));
    }
  }

  /** The long form: an octet count less one, then the number on an octet boundary. */
  method PackCounted(bref: BitRef, v: nat, countWidth: nat) returns (code: Code)
    requires bref.Valid() && 1 <= v < 0x8000_0000 && countWidth <= 2
    modifies bref`ptr, bref`offset, bref.buf
    ensures bref.Valid()
    ensures code.Success? <==>
      old(bref.Distance()) + countWidth + Padding(old(bref.Distance()) + countWidth) + 8 * Octs(BitLength(v))
      <= |bref.Stream()|
    ensures code.Success? ==>
      Octs(BitLength(v)) > 0
      && Wrote(old(bref.Stream()), old(bref.Distance()),
               Enc(Octs(BitLength(v)) - 1, countWidth)
               + (Zeros(Padding(old(bref.Distance()) + countWidth)) + OctetAligned(v, BitLength(v))),
               bref.Stream(), bref.Distance())
  {
    ghost var s, d := bref.Stream(), bref.Distance();
    var nBits := BitLength(v);
    Pow2ThirtyTwo();
    BitLengthLeast(v, 31);
    BitLengthBounds(v);
    OctsIs(nBits);
    code := bref.Pack((nBits + 7) / 8 - 1, countWidth);
    if !code.Success? { return; }
    ghost var s1, d1 := bref.Stream(), bref.Distance();
    code := PackOctets(bref, v, nBits);
    if !code.Success? { return; }
    WroteThen(s, d, Enc(Octs(nBits) - 1, countWidth), s1, d1,
              Zeros(Padding(d1)) + OctetAligned(v, nBits), bref.Stream(), bref.Distance());
  }

  method UnpackOctets(bref: BitRef, octets: nat) returns (n: nat, code: Code)
    requires bref.Valid() && octets <= 4
    modifies bref`ptr, bref`offset
    ensures bref.Valid()
    ensures code.Success? <==> ParseOctets(bref.Stream(), old(bref.Distance()), octets).Parsed?
    ensures code.Success? ==> ParseOctets(bref.Stream(), old(bref.Distance()), octets) == Parsed(n, bref.Distance())
  {
    code := bref.AlignBytes();
    n, code := bref.Unpack(octets * 8);
  }

  method UnpackAlignInteger(bref: BitRef, lb: int, ub: int) returns (n: int, code: Code)
    requires bref.Valid()
    requires lb <= ub && ub - lb + 1 < 0x1_0000_0000
    modifies bref`ptr, bref`offset
    ensures bref.Valid()
    ensures code.Success? <==> ParseAligned(bref.Stream(), old(bref.Distance()), lb, ub).Parsed?
    ensures code.Success? ==> ParseAligned(bref.Stream(), old(bref.Distance()), lb, ub) == Parsed(n, bref.Distance())
  {
    ghost var s, d := bref.Stream(), bref.Distance();
    var ra := ub - lb + 1;
    if ra == 1 {
      return lb, Success;
    }
    var nBits := CeilLog2(ra);
    WidthBounds(ra);
    OctsIs(nBits);
    if ra < 256 {
      n, code := bref.Unpack(nBits);
    } else if ra < 65536 {
      n, code := UnpackOctets(bref, (nBits + 7) / 8);
      if !code.Success? { return; }
      AlignedEnd(d, Octs(nBits));
      code := bref.AlignBytes();
    } else {
      n, code := UnpackCounted(bref, CeilLog2((nBits + 7) / 8));
      if !code.Success? { return; }
      n := n + lb;
    }
    n := n + lb;
  }

  /** The long form: an octet count less one, then the number on an octet boundary. */
  method UnpackCounted(bref: BitRef, countWidth: nat) returns (n: nat, code: Code)
    requires bref.Valid() && countWidth <= 2
    modifies bref`ptr, bref`offset
    ensures bref.Valid()
    ensures code.Success? <==> ParseCounted(bref.Stream(), old(bref.Distance()), countWidth).Parsed?
    ensures code.Success? ==>
      ParseCounted(bref.Stream(), old(bref.Distance()), countWidth) == Parsed(n, bref.Distance())
  {
    ghost var s, d := bref.Stream(), bref.Distance();
    var octets;
    octets, code := bref.Unpack(countWidth);
    if !code.Success? { return octets, code; }
    SmallCount(s, d, countWidth);
    n, code := UnpackOctets(bref, octets + 1);
  }

  lemma SmallCount(s: seq<bool>, d: nat, width: nat)
    requires d + width <= |s| && width <= 2
    ensures Read(s, d, width) <= 3
  {
    ReadBound(s, d, width);
    Pow2Monotone(width, 2);
  }
}

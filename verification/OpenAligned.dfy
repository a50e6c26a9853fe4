/** Aligned whole numbers inside open type fields.

    The guard encodes its contents as if they began on an octet boundary, and the decoder reads them
    where they stand.  `IntegerRoundTrip` says for every form of the encoding, every number and every
    position of the field exactly when the number comes back. */
module OpenAligned {
  import opened BitSeq
  import opened BitCursor
  import opened PerInteger
  import opened PerAligned
  import opened OpenField

  function AlignedDecoder(lb: int, ub: int): Decoder<int>
    requires lb <= ub
  {
    (s: seq<bool>, d: nat) => ParseAligned(s, d, lb, ub)
  }

  /** When an aligned number comes back from an open field that begins at position d: always in the
      unaligned form, on octet boundaries only in the form of one or two octets.  The long form loses as
      many low bits as the field is off its boundary, and runs out of the field at seven; the range size
      of 65536 is read as a long form of one octet. */
  predicate Survives(v: nat, lb: int, range: nat, d: nat)
  {
    var off := d % 8;
    || range < 256
    || (256 <= range < 65536 && off == 0)
    || (range == 65536 && v < 32768 && lb == v - v / Pow2(off) % 256)
    || (range > 65536 && off < 7 && lb == v - v / Pow2(off))
  }

  lemma PaddingIs(d: nat)
    ensures Padding(d) == if d % 8 == 0 then 0 else 8 - d % 8
  {
    PaddingAt(d / 8, d % 8);
  }

  lemma {:induction false} OctsOfOctets(n: nat)
    ensures Octs(8 * n) == n
  {
    if n > 0 { OctsOfOctets(n - 1); }
  }

  /** A decoder that stays within its field has seen x and stands `off` bits before the end; otherwise it
      has gone beyond the end, or failed. */
  predicate Sees(r: Parse<int>, within: bool, x: int, end: nat, off: nat)
  {
    if within then end >= off && r == Parsed(x, end - off) else r.Parsed? ==> r.pos > end
  }

  // ---- The decoder at the contents, which it finds at position p

  /** The octets of a number, read on the next boundary: all of them if p is one, or too far. */
  lemma OctetsOff(s: seq<bool>, p: nat, v: nat, lb: int, range: nat)
    requires v < range && 256 <= range < 65536 && At(s, p, AlignedBits(v, range, 0))
    ensures var r, end := ParseAligned(s, p, lb, lb + range - 1), p + 8 * Octs(CeilLog2(range));
            if p % 8 == 0 then r == Parsed(lb + v, end) else r.Parsed? ==> r.pos > end
  {
    var c, width := AlignedBits(v, range, 0), CeilLog2(range);
    CeilLog2Bounds(range);
    assert c == OctetAligned(v, width) by { assert Zeros(0) + OctetAligned(v, width) == OctetAligned(v, width); }
    PaddingIs(p);
    if p % 8 == 0 {
      assert Zeros(0) + c == c;
      PaddedAt(s, p, v, width);
    }
  }

  /** A field that begins `off` bits before the end of one it overlaps reads that without `off` low bits. */
  lemma ShiftedField(s: seq<bool>, d: nat, v: nat, lead: nat, n: nat, off: nat)
    requires At(s, d, Enc(v, lead + n + off))
    ensures Field(s, d + lead, n) == Parsed(Low(Shr(v, off), n), d + lead + n)
  {
    EncSplit(v, lead + n + off, lead + n);
    AtParts(s, d, Enc(Shr(v, off), lead + n), Enc(v, off));
    EncSplit(Shr(v, off), lead + n, lead);
    AtParts(s, d, Enc(Shr(Shr(v, off), n), lead), Enc(Shr(v, off), n));
    FieldLow(s, d + lead, Shr(v, off), n);
  }

  lemma TwoBitCount(range: nat)
    requires 65536 < range < 0x1_0000_0000
    ensures LengthWidth(range) == 2
  {
    WidthBounds(range);
    LogConstants();
    CeilLog2Bounds(range);
    if CeilLog2(range) <= 16 { Pow2Monotone(CeilLog2(range), 16); }
    OctsIs(CeilLog2(range));
    assert CeilLog2(3) == 1 + CeilLog2(2) && CeilLog2(4) == 1 + CeilLog2(2) && CeilLog2(2) == 1;
  }

  /** The contents in the long form: two bits of count, and the number with zeros before it. */
  lemma LongContents(v: nat, range: nat, n: nat)
    requires 1 <= v < range && 65536 < range < 0x1_0000_0000 && n == Octs(BitLength(v))
    ensures 1 <= n <= 4 && v < Pow2(8 * n)
    ensures AlignedBits(v, range, 0) == Enc(n - 1, 2) + Enc(v, 6 + 8 * n)
  {
    var w := BitLength(v);
    TwoBitCount(range);
    LengthFits(v, range);
    WidthBounds(range);
    BitLengthBounds(v);
    Pow2Monotone(w, 8 * n);
    LeadingZeros(v, n, w);
    LongParts(v, range, n, w, 2);
  }

  lemma LeadingZeros(v: nat, n: nat, w: nat)
    requires v < Pow2(w) && v < Pow2(8 * n) && n == Octs(w)
    ensures Zeros(6) + OctetAligned(v, w) == Enc(v, 6 + 8 * n)
  {
    EncPadLeft(v, 8 * n - w, w);
    EncPadLeft(v, 6, 8 * n);
  }

  lemma LongParts(v: nat, range: nat, n: nat, w: nat, k: nat)
    requires v > 0 && range > 65536 && n == Octs(w) > 0 && w == BitLength(v) && k == LengthWidth(range) == 2
    ensures AlignedBits(v, range, 0) == Enc(n - 1, k) + (Zeros(6) + OctetAligned(v, w))
  {
    PaddingIs(0 + k);
  }

  /** Where the long form's decoder finds the octets, after a count of k bits that ends an octet of the
      encoder with its padding. */
  lemma OctetsStart(p: nat, k: nat)
    requires 1 <= k <= 2
    ensures var off := p % 8;
            p + k + Padding(p + k) == if off + k <= 8 then p + 8 - off else p + 16 - off
  {
    PaddingIs(p + k);
  }

  lemma CountedFrom(s: seq<bool>, p: nat, k: nat, n: nat, start: nat)
    requires n > 0 && Field(s, p, k) == Parsed(n - 1, p + k) && start == p + k + Padding(p + k)
    ensures ParseCounted(s, p, k) == Field(s, start, 8 * n)
  {
  }

  lemma ShiftedNumber(s: seq<bool>, d: nat, v: nat, lead: nat, n: nat, off: nat, width: nat)
    requires At(s, d, Enc(v, width)) && width == lead + n + off && v < Pow2(n)
    ensures Field(s, d + lead, n) == Parsed(Shr(v, off), d + lead + n)
  {
    ShiftedField(s, d, v, lead, n, off);
    ShrAtMost(v, off);
    LowSmall(Shr(v, off), n);
  }

  lemma {:induction false} ShrAtMost(v: nat, k: nat)
    ensures Shr(v, k) <= v
  {
    if k > 0 { ShrAtMost(v / 2, k - 1); }
  }

  lemma LongCounted(s: seq<bool>, p: nat, v: nat, n: nat, width: nat)
    requires 1 <= n <= 4 && v < Pow2(8 * n) && width == 6 + 8 * n && At(s, p, Enc(n - 1, 2) + Enc(v, width))
    ensures var r, off := ParseCounted(s, p, 2), p % 8;
            if off < 7 then r == Parsed(Shr(v, off), p + 8 * (n + 1) - off)
            else r.Parsed? ==> r.pos > p + 8 * (n + 1)
  {
    var off := p % 8;
    assert Pow2(2) == 4;
    CountAt(s, p, n - 1, 2, Enc(v, width));
    OctetsStart(p, 2);
    CountedFrom(s, p, 2, n, if off < 7 then p + 8 - off else p + 9);
    if off < 7 { ShiftedNumber(s, p + 2, v, 6 - off, 8 * n, off, width); }
  }

  lemma CountedForm(s: seq<bool>, p: nat, lb: int, range: nat, k: nat)
    requires range >= 65536 && k == LengthWidth(range)
    ensures ParseAligned(s, p, lb, lb + range - 1) == Plus(ParseCounted(s, p, k), lb + lb)
  {
  }

  lemma LongOff(s: seq<bool>, p: nat, c: seq<bool>, v: nat, lb: int, range: nat, n: nat, width: nat, off: nat)
    requires range > 65536 && LengthWidth(range) == 2 && 1 <= n <= 4 && v < Pow2(8 * n) && width == 6 + 8 * n
    requires c == Enc(n - 1, 2) + Enc(v, width) && At(s, p, c) && off == p % 8
    ensures Sees(ParseAligned(s, p, lb, lb + range - 1), off < 7, Shr(v, off) + lb + lb, p + 8 * n + 8, off)
  {
    LongCounted(s, p, v, n, width);
    CountedForm(s, p, lb, range, 2);
  }

  lemma HalfOff(s: seq<bool>, p: nat, v: nat, lb: int, range: nat, off: nat)
    requires v < range == 65536 && off == p % 8 && At(s, p, AlignedBits(v, range, 0))
    ensures Sees(ParseAligned(s, p, lb, lb + range - 1), v < 32768, Low(Shr(v, off), 8) + lb + lb, p + 16, off)
  {
    LogConstants();
    OctsIs(16);
    HalfContents(s, p, v, CeilLog2(range), range);
    CountedForm(s, p, lb, range, 1);
  }

  lemma HalfContents(s: seq<bool>, p: nat, v: nat, w: nat, range: nat)
    requires v < 65536 && w == 16 == CeilLog2(range) && Octs(w) == 2 && At(s, p, Zeros(0) + OctetAligned(v, w))
    ensures var r, off := ParseCounted(s, p, 1), p % 8;
            if v < 32768 then r == Parsed(Low(Shr(v, off), 8), p + 16 - off) else r.Parsed? ==> r.pos > p + 16
  {
    assert Zeros(0) + OctetAligned(v, w) == Enc(v, w);
    HalfFields(s, p, v, w);
    HalfCounted(s, p, v, w, p % 8);
  }

  lemma HalfCounted(s: seq<bool>, p: nat, v: nat, w: nat, off: nat)
    requires At(s, p, Enc(v, w)) && w == 16 && off == p % 8
    requires Field(s, p, 1) == Parsed(if v < 32768 then 0 else 1, p + 1)
    ensures var r := ParseCounted(s, p, 1);
            if v < 32768 then r == Parsed(Low(Shr(v, off), 8), p + 16 - off) else r.Parsed? ==> r.pos > p + 16
  {
    OctetsStart(p, 1);
    CountedFrom(s, p, 1, if v < 32768 then 1 else 2, p + 8 - off);
    ShiftedField(s, p, v, 8 - off, 8, off);
  }

  // ---- The field

  /** What the field makes of its decoder's result r, when its contents are n octets at p. */
  function Closed<T>(r: Parse<T>, p: nat, n: nat): Parse<T>
  {
    if r.Parsed? && p <= r.pos <= p + 8 * n then Parsed(r.value, p + 8 * n) else Failed
  }

  lemma OpenResult<T>(dec: Decoder<T>, s: seq<bool>, d: nat, c: seq<bool>, n: nat)
    requires At(s, d, OpenBits(c)) && Octs(|c|) == n <= 5
    ensures At(s, d + 8, c) && |OpenBits(c)| == 8 + 8 * n
    ensures ParseOpen(dec, s, d) == Closed(dec(s, d + 8), d + 8, n)
  {
    OpenAt(s, d, c);
  }

  /** Whether the field is right when its decoder sees x for the number v and adds the lower bound twice. */
  lemma Compare(s: seq<bool>, d: nat, c: seq<bool>, n: nat, v: nat, x: nat, lb: int, range: nat, off: nat, within: bool)
    requires At(s, d, OpenBits(c)) && Octs(|c|) == n <= 5 && off < 8 <= 8 * n && range > 0
    requires Sees(ParseAligned(s, d + 8, lb, lb + range - 1), within, x + lb + lb, d + 8 + 8 * n, off)
    ensures ParseOpen(AlignedDecoder(lb, lb + range - 1), s, d) == Parsed(lb + v, d + |OpenBits(c)|)
            <==> within && lb == v - x
  {
    OpenResult(AlignedDecoder(lb, lb + range - 1), s, d, c, n);
  }

  lemma JoinedOctets(a: seq<bool>, b: seq<bool>, n: nat)
    requires |a| + |b| == 8 * n
    ensures Octs(|a + b|) == n
  {
    OctsOfOctets(n);
  }

  lemma ShortField(s: seq<bool>, d: nat, v: nat, lb: int, range: nat)
    requires v < range < 256 && At(s, d, OpenBits(AlignedBits(v, range, 0)))
    ensures ParseOpen(AlignedDecoder(lb, lb + range - 1), s, d)
            == Parsed(lb + v, d + |OpenBits(AlignedBits(v, range, 0))|)
  {
    var c := AlignedBits(v, range, 0);
    WidthBounds(range);
    CeilLog2Bounds(range);
    OctsIs(|c|);
    OpenResult(AlignedDecoder(lb, lb + range - 1), s, d, c, Octs(|c|));
    ShortForms(s, d + 8, v, lb, range);
  }

  lemma OctetField(s: seq<bool>, d: nat, v: nat, lb: int, range: nat)
    requires v < range && 256 <= range < 65536 && At(s, d, OpenBits(AlignedBits(v, range, 0)))
    ensures ParseOpen(AlignedDecoder(lb, lb + range - 1), s, d)
              == Parsed(lb + v, d + |OpenBits(AlignedBits(v, range, 0))|)
            <==> d % 8 == 0
  {
    var c, n := AlignedBits(v, range, 0), Octs(CeilLog2(range));
    WidthBounds(range);
    JoinedOctets(Zeros(Padding(0)), OctetAligned(v, CeilLog2(range)), n);
    OpenResult(AlignedDecoder(lb, lb + range - 1), s, d, c, n);
    OctetsOff(s, d + 8, v, lb, range);
  }

  lemma HalfLength(v: nat, range: nat)
    requires range == 65536
    ensures Octs(|AlignedBits(v, range, 0)|) == 2
  {
    LogConstants();
    OctsIs(16);
    JoinedOctets(Zeros(Padding(0)), OctetAligned(v, CeilLog2(range)), 2);
  }

  lemma HalfField(s: seq<bool>, d: nat, v: nat, lb: int, range: nat)
    requires v < range == 65536 && At(s, d, OpenBits(AlignedBits(v, range, 0)))
    ensures ParseOpen(AlignedDecoder(lb, lb + range - 1), s, d)
              == Parsed(lb + v, d + |OpenBits(AlignedBits(v, range, 0))|)
            <==> v < 32768 && lb == v - Low(Shr(v, d % 8), 8)
  {
    var c := AlignedBits(v, range, 0);
    HalfLength(v, range);
    OpenResult(AlignedDecoder(lb, lb + range - 1), s, d, c, 2);
    var off := (d + 8) % 8;
    assert off == d % 8;
    HalfOff(s, d + 8, v, lb, range, off);
    Compare(s, d, c, 2, v, Low(Shr(v, off), 8), lb, range, off, v < 32768);
  }

  lemma LongLength(v: nat, range: nat, n: nat)
    requires 1 <= v < range && 65536 < range < 0x1_0000_0000 && n == Octs(BitLength(v))
    ensures 1 <= n <= 4 && Octs(|AlignedBits(v, range, 0)|) == n + 1
  {
    LongContents(v, range, n);
    JoinedOctets(Enc(n - 1, 2), Enc(v, 6 + 8 * n), n + 1);
  }

  lemma LongAt(s: seq<bool>, p: nat, c: seq<bool>, v: nat, lb: int, range: nat, n: nat, off: nat)
    requires 1 <= v < range && 65536 < range < 0x1_0000_0000 && n == Octs(BitLength(v))
    requires c == AlignedBits(v, range, 0) && At(s, p, c) && off == p % 8
    ensures Sees(ParseAligned(s, p, lb, lb + range - 1), off < 7, Shr(v, off) + lb + lb, p + 8 * n + 8, off)
  {
    LongContents(v, range, n);
    TwoBitCount(range);
    LongOff(s, p, c, v, lb, range, n, 6 + 8 * n, off);
  }

  lemma LongField(s: seq<bool>, d: nat, c: seq<bool>, v: nat, lb: int, range: nat)
    requires 1 <= v < range && 65536 < range < 0x1_0000_0000
    requires c == AlignedBits(v, range, 0) && At(s, d, OpenBits(c))
    ensures ParseOpen(AlignedDecoder(lb, lb + range - 1), s, d) == Parsed(lb + v, d + |OpenBits(c)|)
            <==> d % 8 < 7 && lb == v - Shr(v, d % 8)
  {
    var n, off := Octs(BitLength(v)), d % 8;
    assert (d + 8) % 8 == off;
    LongLength(v, range, n);
    OpenResult(AlignedDecoder(lb, lb + range - 1), s, d, c, n + 1);
    LongAt(s, d + 8, c, v, lb, range, n, off);
    Compare(s, d, c, n + 1, v, Shr(v, off), lb, range, off, off < 7);
  }

  /** The exact round trip of aligned numbers in open fields, for all forms and positions. */
  lemma IntegerRoundTrip(s: seq<bool>, d: nat, v: nat, lb: int, range: nat)
    requires v < range < 0x1_0000_0000 && (range > 65536 ==> v > 0)
    requires At(s, d, OpenBits(AlignedBits(v, range, 0)))
    ensures ParseOpen(AlignedDecoder(lb, lb + range - 1), s, d)
              == Parsed(lb + v, d + |OpenBits(AlignedBits(v, range, 0))|)
            <==> Survives(v, lb, range, d)
  {
    if range < 256 {
      ShortField(s, d, v, lb, range);
    } else if range < 65536 {
      OctetField(s, d, v, lb, range);
    } else if range == 65536 {
      HalfField(s, d, v, lb, range);
      ShrAndLow(v, d % 8);
      LowOctet(Shr(v, d % 8));
    } else {
      LongField(s, d, AlignedBits(v, range, 0), v, lb, range);
      ShrAndLow(v, d % 8);
    }
  }

  /** With lower bound zero: on octet boundaries and nowhere else, from range size 256 on and but for
      65536. */
  lemma FromZero(s: seq<bool>, d: nat, v: nat, lb: int, range: nat)
    requires lb == 0 && v < range < 0x1_0000_0000 && 256 <= range != 65536 && (range > 65536 ==> v > 0)
    requires At(s, d, OpenBits(AlignedBits(v, range, 0)))
    ensures ParseOpen(AlignedDecoder(lb, lb + range - 1), s, d)
              == Parsed(lb + v, d + |OpenBits(AlignedBits(v, range, 0))|)
            <==> d % 8 == 0
  {
    IntegerRoundTrip(s, d, v, lb, range);
    ZeroSurvives(v, range, d);
  }

  lemma ZeroSurvives(v: nat, range: nat, d: nat)
    requires v < range && 256 <= range != 65536 && (range > 65536 ==> v > 0)
    ensures Survives(v, 0, range, d) <==> d % 8 == 0
  {
    if range > 65536 && d % 8 > 0 { ShrSmaller(v, d % 8); }
    assert Pow2(0) == 1;
  }

  lemma ShrSmaller(v: nat, k: nat)
    requires v > 0 && k > 0
    ensures v / Pow2(k) < v
  {
    ShrAndLow(v, k);
    ShrAtMost(v / 2, k - 1);
  }

  /** A number of sixteen bits in an open field that begins one bit after a boundary is lost. */
  lemma OffBoundaryFails(s: seq<bool>, v: nat)
    requires v < 60000 && At(s, 1, OpenBits(AlignedBits(v, 60000, 0)))
    ensures ParseOpen(AlignedDecoder(0, 0 + 60000 - 1), s, 1) != Parsed(0 + v, 1 + |OpenBits(AlignedBits(v, 60000, 0))|)
  {
    FromZero(s, 1, v, 0, 60000);
  }
}

/** The encodings of `PerInteger`, `PerAligned`, `OpenField`, `ExtGroups` and `DynBitString` as X.691
    describes them: by their lengths and by the numbers their bits spell. */
module PerForms {
  import opened BitSeq
  import opened Octets
  import opened BitCursor
  import opened PerInteger
  import opened PerAligned
  import opened OpenField
  import opened ExtGroups
  import opened DynBitString

  /** w is the least number of bits that holds every number below n. */
  predicate LeastWidth(w: nat, n: nat)
  {
    n <= Pow2(w) && (w > 0 ==> Pow2(w - 1) < n)
  }

  lemma WidthIsLeast(n: nat)
    requires n > 0
    ensures LeastWidth(CeilLog2(n), n)
  {
    CeilLog2Bounds(n);
  }

  lemma Spelled(v: nat, n: nat)
    requires v < Pow2(n)
    ensures Dec(Enc(v, n)) == v
  {
    DecEnc(v, n);
    LowSmall(v, n);
  }

  /** Section 10.6: seven bits, of which the first is zero. */
  lemma SmallForm(n: nat)
    requires n <= 63
    ensures SmallBits(n) == Enc(n, 7)
  {
    Pow2Six();
    EncPadLeft(n, 1, 6);
    EncZero(1);
  }

  /** Section 10.9: one octet below 128, otherwise two octets with the first bit set. */
  lemma LengthForm(len: nat)
    requires len < LENGTH_LIMIT
    ensures LengthBits(len) == if len < 128 then Enc(len, 8) else Enc(0x8000 + len, 16)
  {
    Pow2Fourteen();
    if len < 128 {
      EncPadLeft(len, 1, 7);
      EncZero(1);
    } else {
      TwoTopBits(len, 14);
    }
  }

  lemma TwoTopBits(v: nat, n: nat)
    requires v < Pow2(n)
    ensures Enc(2 * Pow2(n) + v, n + 2) == Enc(1, 1) + Enc(0, 1) + Enc(v, n)
  {
    EncSplit(2 * Pow2(n) + v, n + 2, 2);
    QuotientUnique(2 * Pow2(n) + v, 2, Pow2(n), v);
    ShrAndLow(2 * Pow2(n) + v, n);
    EncLow(2 * Pow2(n) + v, n);
    assert Enc(2, 2) == Enc(1, 1) + [false] && Enc(0, 1) == [false];
  }

  /** Section 10.5.6: the offset in the least number of bits for its range. */
  lemma UnalignedForm(n: int, lb: int, ub: int)
    requires lb <= n <= ub
    ensures LeastWidth(|UnalignedBits(n, lb, ub)|, ub - lb + 1) && Dec(UnalignedBits(n, lb, ub)) == n - lb
  {
    WidthIsLeast(ub - lb + 1);
    Spelled(n - lb, CeilLog2(ub - lb + 1));
  }

  /** Section 13: without extensions the value in the least width; with them a first bit that says
      whether the value is one, and its index. */
  lemma EnumForm(e: nat, types: nat, exts: nat, hasExt: bool)
    requires exts < types && EnumPackable(e, types, exts, hasExt)
    ensures var b, roots := EnumBits(e, types, exts, hasExt), types - exts;
            if !hasExt then LeastWidth(|b|, types) && Dec(b) == e
            else |b| > 0 && (b[0] <==> e >= roots)
                 && (if e < roots then LeastWidth(|b| - 1, roots) && Dec(b[1..]) == e
                     else |b| == 8 && Dec(b[1..]) == e - roots)
  {
    var roots := types - exts;
    WidthIsLeast(types);
    WidthIsLeast(roots);
    if !hasExt {
      Spelled(e, CeilLog2(types));
    } else if e < roots {
      Spelled(e, CeilLog2(roots));
      FirstBit(false, Enc(e, CeilLog2(roots)));
    } else {
      SmallForm(e - roots);
      Pow2Fourteen();
      Spelled(e - roots, 7);
      FirstBit(true, SmallBits(e - roots));
    }
  }

  lemma FirstBit(f: bool, rest: seq<bool>)
    ensures var b := Enc(if f then 1 else 0, 1) + rest; b[0] == f && b[1..] == rest
  {
    assert Enc(1, 1) == [true] && Enc(0, 1) == [false];
  }

  // ---- Aligned whole numbers

  /** The zeros before an octet boundary, and a number in n octets. */
  predicate InOctets(b: seq<bool>, d: nat, n: nat, v: nat)
  {
    && |b| >= 8 * n && |b| - 8 * n < 8 && (d + |b|) % 8 == 0
    && b[..|b| - 8 * n] == Zeros(|b| - 8 * n) && Dec(b[|b| - 8 * n..]) == v
  }

  lemma OctetsSpell(v: nat, width: nat)
    requires v < Pow2(width)
    ensures Dec(OctetAligned(v, width)) == v
  {
    var pad := 8 * Octs(width) - width;
    EncPadLeft(v, pad, width);
    Pow2Monotone(width, pad + width);
    Spelled(v, pad + width);
  }

  lemma PaddedForm(d: nat, v: nat, width: nat, b: seq<bool>)
    requires v < Pow2(width) && b == Zeros(Padding(d)) + OctetAligned(v, width)
    ensures InOctets(b, d, Octs(width), v)
  {
    PaddingMod(d);
    OctetsSpell(v, width);
    assert b[|b| - 8 * Octs(width)..] == OctetAligned(v, width);
    assert b[..|b| - 8 * Octs(width)] == Zeros(Padding(d));
    OctetsKeepPhase(d + Padding(d), Octs(width));
  }

  lemma OctetsKeepPhase(p: nat, n: nat)
    requires p % 8 == 0
    ensures (p + 8 * n) % 8 == 0
  {
  }

  lemma OneOrTwo(range: nat)
    requires 256 <= range <= 65536
    ensures Octs(CeilLog2(range)) == if range == 256 then 1 else 2
  {
    Pow2Eight();
    LogConstants();
    CeilLog2Bounds(range);
    CeilLog2Least(range, 16);
    if range == 256 { CeilLog2Least(256, 8); }
    if range > 256 && CeilLog2(range) <= 8 { Pow2Monotone(CeilLog2(range), 8); }
    OctsIs(CeilLog2(range));
  }

  /** Section 10.5.7, for range sizes up to 65536: nothing, the least width, or one or two octets on an
      octet boundary. */
  lemma AlignedForm(v: nat, range: nat, d: nat)
    requires v < range <= 65536
    ensures var b := AlignedBits(v, range, d);
            if range == 1 then b == []
            else if range < 256 then LeastWidth(|b|, range) && Dec(b) == v
            else InOctets(b, d, if range == 256 then 1 else 2, v)
  {
    CeilLog2Bounds(range);
    if 1 < range < 256 {
      WidthIsLeast(range);
      Spelled(v, CeilLog2(range));
    } else if range >= 256 {
      OneOrTwo(range);
      PaddedForm(d, v, CeilLog2(range), AlignedBits(v, range, d));
    }
  }

  /** Section 10.5.7.4: the number in the least number n of octets on a boundary, after n - 1 in the
      least width for the octets of the range. */
  lemma LongForm(v: nat, range: nat, d: nat, k: nat, n: nat)
    requires 1 <= v < range && range > 65536 && k == LengthWidth(range) && n == Octs(BitLength(v))
    ensures n > 0 && Pow2(8 * (n - 1)) <= v < Pow2(8 * n) && LeastWidth(k, Octs(CeilLog2(range)))
    ensures var b := AlignedBits(v, range, d);
            |b| >= k && Dec(b[..k]) == n - 1 && InOctets(b[k..], d + k, n, v)
  {
    LengthFits(v, range);
    LongSize(v, BitLength(v), n);
    WidthIsLeast(Octs(CeilLog2(range)));
    Spelled(n - 1, k);
    LongParts(v, range, d, k, BitLength(v), n, AlignedBits(v, range, d));
  }

  lemma LongSize(v: nat, w: nat, n: nat)
    requires v >= 1 && w == BitLength(v) && n == Octs(w)
    ensures n > 0 && v < Pow2(w) && Pow2(8 * (n - 1)) <= v < Pow2(8 * n)
  {
    BitLengthBounds(v);
    OctsIs(w);
    Pow2Monotone(w, 8 * n);
    Pow2Monotone(8 * (n - 1), w - 1);
  }

  lemma LongParts(v: nat, range: nat, d: nat, k: nat, w: nat, n: nat, b: seq<bool>)
    requires v > 0 && range > 65536 && k == LengthWidth(range) && w == BitLength(v) && n == Octs(w) > 0 && v < Pow2(w)
    requires b == AlignedBits(v, range, d)
    ensures |b| >= k && b[..k] == Enc(n - 1, k) && InOctets(b[k..], d + k, n, v)
  {
    var number := Zeros(Padding(d + k)) + OctetAligned(v, w);
    assert b == Enc(n - 1, k) + number;
    assert b[k..] == number;
    PaddedForm(d + k, v, w, number);
  }

  // ---- Open type fields, extension headers and bit strings

  /** Section 10.2: a length in octets, the contents, and less than an octet of zeros. */
  lemma OpenForm(c: seq<bool>)
    ensures var b, n := OpenBits(c), Octs(|c|);
            var head := |LengthBits(n)|;
            && |b| == head + 8 * n && b[..head] == LengthBits(n) && b[head..head + |c|] == c
            && 8 * n - |c| < 8 && b[head + |c|..] == Zeros(8 * n - |c|)
  {
    OctsIs(|c|);
    OpenParts(OpenBits(c), LengthBits(Octs(|c|)), c, Zeros(8 * Octs(|c|) - |c|));
  }

  lemma OpenParts(b: seq<bool>, x: seq<bool>, y: seq<bool>, z: seq<bool>)
    requires b == x + (y + z)
    ensures b[..|x|] == x && b[|x|..|x| + |y|] == y && b[|x| + |y|..] == z
  {
  }

  /** Section 18.8: the number of additions less one in seven bits, and the flags up to the last one set. */
  lemma HeaderForm(groups: seq<bool>, nogroups: nat)
    requires |groups| <= MAX_GROUPS && 1 <= LastSet(groups) + nogroups <= 64
    ensures var b := HeaderBits(groups, nogroups);
            |b| == 7 + LastSet(groups) && Dec(b[..7]) + 1 == LastSet(groups) + nogroups
            && b[7..] == groups[..LastSet(groups)]
  {
    var n := LastSet(groups) + nogroups - 1;
    U32Small(n);
    SmallForm(n);
    Pow2Fourteen();
    Spelled(n, 7);
    OpenParts(HeaderBits(groups, nogroups), SmallBits(n), groups[..LastSet(groups)], []);
    assert HeaderBits(groups, nogroups) == SmallBits(n) + (groups[..LastSet(groups)] + []);
  }

  /** What the source sends before a bit string with an upper bound: the length above the lower bound, in
      the least width for `ub - lb` numbers, and zeros to an octet boundary. */
  lemma DynHeadForm(len: nat, lb: nat, ub: nat, d: nat)
    requires lb <= len <= ub && lb < ub
    ensures var b, w := DynHead(len, lb, ub, d), LenWidth(lb, ub);
            && LeastWidth(w, ub - lb) && |b| >= w && Dec(b[..w]) == (len - lb) % Pow2(w)
            && (d + |b|) % 8 == 0 && |b| - w < 8 && b[w..] == Zeros(|b| - w)
  {
    var w := LenWidth(lb, ub);
    WidthIsLeast(ub - lb);
    DecEnc(len - lb, w);
    ShrAndLow(len - lb, w);
    PaddingMod(d + w);
    OpenParts(DynHead(len, lb, ub, d), Enc(len - lb, w), Zeros(Padding(d + w)), []);
    assert DynHead(len, lb, ub, d) == Enc(len - lb, w) + (Zeros(Padding(d + w)) + []);
  }
}

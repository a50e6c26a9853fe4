/** Integers of asn1_utils.cc: normally small numbers, length determinants, constrained whole
    numbers in their unaligned and aligned forms, and enumerations.  Every codec is described
    twice, as the bits it stands for and as a parser of a bit stream; the methods refine these
    descriptions and the lemmas say when the parser undoes the encoder. */
module PerInteger {
  import opened BitSeq
  import opened BitCursor

  datatype Parse<+T> = Parsed(value: T, pos: nat) | Failed

  /** The stream s has the bits b at position d. */
  predicate At(s: seq<bool>, d: nat, b: seq<bool>)
  {
    d + |b| <= |s| && s[d..d + |b|] == b
  }

  /** A cursor at d of the stream `was` has written b, giving the stream `now`, and stands at e. */
  predicate Wrote(was: seq<bool>, d: nat, b: seq<bool>, now: seq<bool>, e: nat)
  {
    e == d + |b| <= |was| && now == Overwrite(was, d, b)
  }

  lemma WroteAt(was: seq<bool>, d: nat, b: seq<bool>, now: seq<bool>, e: nat)
    requires Wrote(was, d, b, now, e)
    ensures At(now, d, b)
    ensures now[..d] == was[..d] && now[e..] == was[e..]
  {
    OverwriteSlices(was, d, b);
  }

  lemma WroteThen(was: seq<bool>, d: nat, a: seq<bool>, mid: seq<bool>, m: nat, b: seq<bool>, now: seq<bool>, e: nat)
    requires Wrote(was, d, a, mid, m) && Wrote(mid, m, b, now, e)
    ensures Wrote(was, d, a + b, now, e)
  {
    OverwriteAppend(was, d, a, b);
  }

  /** As much of b as there is room for. */
  function Fitting(b: seq<bool>, room: nat): seq<bool>
  {
    if |b| <= room then b else b[..room]
  }

  /** A cursor at d has written b as far as it fits: all of it, or up to the end of the stream. */
  predicate WroteFitting(was: seq<bool>, d: nat, b: seq<bool>, now: seq<bool>, e: nat)
  {
    d <= |was| && Wrote(was, d, Fitting(b, |was| - d), now, e)
  }

  lemma FittingThen(was: seq<bool>, d: nat, a: seq<bool>, mid: seq<bool>, m: nat, b: seq<bool>, now: seq<bool>, e: nat)
    requires WroteFitting(was, d, a, mid, m) && WroteFitting(mid, m, b, now, e)
    ensures WroteFitting(was, d, a + b, now, e)
  {
    var x, y := Fitting(a, |was| - d), Fitting(b, |was| - m);
    WroteThen(was, d, x, mid, m, y, now, e);
    assert x + y == Fitting(a + b, |was| - d);
  }

  /** Once the stream is full, nothing more is written. */
  lemma FittingFull(was: seq<bool>, d: nat, a: seq<bool>, now: seq<bool>, e: nat, b: seq<bool>)
    requires WroteFitting(was, d, a, now, e) && e == |was|
    ensures WroteFitting(was, d, a + b, now, e)
  {
    OverwriteNothing(now, e);
    assert Fitting(b, 0) == [];
    FittingThen(was, d, a, now, e, b, now, e);
  }

  lemma AtParts(s: seq<bool>, d: nat, a: seq<bool>, b: seq<bool>)
    ensures At(s, d, a + b) <==> At(s, d, a) && At(s, d + |a|, b)
  {
    if d + |a + b| <= |s| {
      var x, y := s[d..d + |a|], s[d + |a|..d + |a| + |b|];
      assert s[d..d + |a + b|] == x + y;
      assert (x + y)[..|a|] == x && (x + y)[|a|..] == y && (a + b)[..|a|] == a && (a + b)[|a|..] == b;
    }
  }

  // ---- A fixed-width field

  /** `bit_ref::unpack` as a parser */
  function Field(s: seq<bool>, d: nat, n: nat): Parse<nat>
  {
    if d + n <= |s| then Parsed(Read(s, d, n), d + n) else Failed
  }

  lemma FieldLow(s: seq<bool>, d: nat, v: nat, n: nat)
    requires At(s, d, Enc(v, n))
    ensures Field(s, d, n) == Parsed(Low(v, n), d + n)
  {
    ReadIsDec(s, d, n);
    DecEnc(v, n);
  }

  lemma FieldAt(s: seq<bool>, d: nat, v: nat, n: nat)
    requires At(s, d, Enc(v, n)) && v < Pow2(n)
    ensures Field(s, d, n) == Parsed(v, d + n)
  {
    FieldLow(s, d, v, n);
    LowSmall(v, n);
  }

  // ---- Normally small non-negative whole numbers (X.691 section 10.6)

  function SmallBits(n: nat): seq<bool>
  {
    Enc(0, 1) + Enc(n, 6)
  }

  function ParseSmall(s: seq<bool>, d: nat): Parse<nat>
  {
    match Field(s, d, 1)
    case Failed => Failed
    case Parsed(ext, p) => if ext == 0 then Field(s, p, 6) else Failed
  }

  lemma SmallRoundTrip(s: seq<bool>, d: nat, n: nat)
    requires n <= 63 && At(s, d, SmallBits(n))
    ensures ParseSmall(s, d) == Parsed(n, d + 7)
  {
    AtParts(s, d, Enc(0, 1), Enc(n, 6));
    FieldAt(s, d, 0, 1);
    Pow2Six();
    FieldAt(s, d + 1, n, 6);
  }

  lemma Pow2Six()
    ensures Pow2(6) == 64
  {
    assert Pow2(6) == 2 * Pow2(5) && Pow2(4) == 2 * Pow2(3) && Pow2(2) == 4;
  }

  method PackNormSmall(bref: BitRef, n: nat) returns (code: Code)
    requires bref.Valid()
    modifies bref`ptr, bref`offset, bref.buf
    ensures bref.Valid()
    ensures code.Success? <==> n <= 63 && old(bref.Distance()) + 7 <= |bref.Stream()|
    ensures code.Success? ==>
      Wrote(old(bref.Stream()), old(bref.Distance()), SmallBits(n), bref.Stream(), bref.Distance())
  {
    ghost var s, d := bref.Stream(), bref.Distance();
    if n <= 63 {
      code := bref.Pack(0, 1);
      if !code.Success? { return; }
      ghost var s1, d1 := bref.Stream(), bref.Distance();
      code := bref.Pack(n, 6);
      if !code.Success? { return; }
      WroteThen(s, d, Enc(0, 1), s1, d1, Enc(n, 6), bref.Stream(), bref.Distance());
    } else {
      code := bref.Pack(1, 1);
      if !code.Success? { return; }
      return EncodeFail;
    }
  }

  method UnpackNormSmall(bref: BitRef) returns (n: nat, code: Code)
    requires bref.Valid()
    modifies bref`ptr, bref`offset
    ensures bref.Valid()
    ensures code.Success? <==> ParseSmall(bref.Stream(), old(bref.Distance())).Parsed?
    ensures code.Success? ==> ParseSmall(bref.Stream(), old(bref.Distance())) == Parsed(n, bref.Distance())
  {
    n := 0;
    var ext;
    ext, code := bref.Unpack(1);
    if !code.Success? { return; }
    if ext == 0 {
      n, code := bref.Unpack(6);
    } else {
      code := DecodeFail;
    }
  }

  // ---- Length determinants (X.691 section 10.9)

  /** The exclusive limit the source calls ASN_16K. */
  const LENGTH_LIMIT := 16383

  function LengthBits(len: nat): seq<bool>
  {
    if len < 128 then Enc(0, 1) + Enc(len, 7) else Enc(1, 1) + Enc(0, 1) + Enc(len, 14)
  }

  function ParseLength(s: seq<bool>, d: nat): Parse<nat>
  {
    match Field(s, d, 1)
    case Failed => Failed
    case Parsed(long, p) =>
      if long == 0 then Field(s, p, 7) else
      match Field(s, p, 1)
      case Failed => Failed
      case Parsed(huge, q) => if huge == 0 then Field(s, q, 14) else Failed
  }

  lemma Pow2Fourteen()
    ensures Pow2(1) == 2 && Pow2(7) == 128 && Pow2(14) == 16384
  {
    Pow2Six();
    assert Pow2(8) == 2 * Pow2(7) && Pow2(10) == 2 * Pow2(9) && Pow2(12) == 2 * Pow2(11);
    assert Pow2(14) == 2 * Pow2(13);
  }

  lemma LengthRoundTrip(s: seq<bool>, d: nat, len: nat)
    requires len < LENGTH_LIMIT && At(s, d, LengthBits(len))
    ensures ParseLength(s, d) == Parsed(len, d + |LengthBits(len)|)
  {
    Pow2Fourteen();
    if len < 128 {
      AtParts(s, d, Enc(0, 1), Enc(len, 7));
      FieldAt(s, d, 0, 1);
      FieldAt(s, d + 1, len, 7);
    } else {
      AtParts(s, d, Enc(1, 1) + Enc(0, 1), Enc(len, 14));
      AtParts(s, d, Enc(1, 1), Enc(0, 1));
      FieldAt(s, d, 1, 1);
      FieldAt(s, d + 1, 0, 1);
      FieldAt(s, d + 2, len, 14);
    }
  }

  method PackLength(bref: BitRef, val: nat) returns (code: Code)
    requires bref.Valid()
    modifies bref`ptr, bref`offset, bref.buf
    ensures bref.Valid()
    ensures code.Success? <==>
      val < LENGTH_LIMIT && old(bref.Distance()) + |LengthBits(val)| <= |bref.Stream()|
    ensures val < LENGTH_LIMIT ==>
      WroteFitting(old(bref.Stream()), old(bref.Distance()), LengthBits(val), bref.Stream(), bref.Distance())
    ensures val >= LENGTH_LIMIT ==>
      bref.Stream() == old(bref.Stream()) && bref.Distance() == old(bref.Distance())
  {
    ghost var s, d := bref.Stream(), bref.Distance();
    if val < 128 {
      code := bref.Pack(0, 1);
      ghost var s1, d1 := bref.Stream(), bref.Distance();
      if !code.Success? {
        FittingFull(s, d, Enc(0, 1), s1, d1, Enc(val, 7));
        return;
      }
      code := bref.Pack(val, 7);
      FittingThen(s, d, Enc(0, 1), s1, d1, Enc(val, 7), bref.Stream(), bref.Distance());
    } else if val < LENGTH_LIMIT {
      code := PackOneZero(bref);
      ghost var s2, d2 := bref.Stream(), bref.Distance();
      if !code.Success? {
        FittingFull(s, d, Enc(1, 1) + Enc(0, 1), s2, d2, Enc(val, 14));
        return;
      }
      code := bref.Pack(val, 14);
      FittingThen(s, d, Enc(1, 1) + Enc(0, 1), s2, d2, Enc(val, 14), bref.Stream(), bref.Distance());
    } else {
      code := EncodeFail;
    }
  }

  /** The two bits before a length of fourteen. */
  method PackOneZero(bref: BitRef) returns (code: Code)
    requires bref.Valid()
    modifies bref`ptr, bref`offset, bref.buf
    ensures bref.Valid()
    ensures code.Success? <==> old(bref.Distance()) + 2 <= |bref.Stream()|
    ensures !code.Success? ==> bref.Distance() == |bref.Stream()|
    ensures WroteFitting(old(bref.Stream()), old(bref.Distance()), Enc(1, 1) + Enc(0, 1),
                         bref.Stream(), bref.Distance())
  {
    ghost var a, b := Enc(1, 1), Enc(0, 1);
    ghost var s, d := bref.Stream(), bref.Distance();
    code := PackBit(bref, 1, a);
    ghost var s1, d1 := bref.Stream(), bref.Distance();
    if !code.Success? {
      FittingFull(s, d, a, s1, d1, b);
      return;
    }
    code := PackBit(bref, 0, b);
    FittingThen(s, d, a, s1, d1, b, bref.Stream(), bref.Distance());
  }

  method PackBit(bref: BitRef, v: nat, ghost b: seq<bool>) returns (code: Code)
    requires bref.Valid() && b == Enc(v, 1)
    modifies bref`ptr, bref`offset, bref.buf
    ensures bref.Valid()
    ensures code.Success? <==> old(bref.Distance()) + 1 <= |bref.Stream()|
    ensures !code.Success? ==> bref.Distance() == |bref.Stream()|
    ensures WroteFitting(old(bref.Stream()), old(bref.Distance()), b, bref.Stream(), bref.Distance())
  {
    code := bref.Pack(v, 1);
  }

  method UnpackLength(bref: BitRef) returns (val: nat, code: Code)
    requires bref.Valid()
    modifies bref`ptr, bref`offset
    ensures bref.Valid()
    ensures code.Success? <==> ParseLength(bref.Stream(), old(bref.Distance())).Parsed?
    ensures code.Success? ==> ParseLength(bref.Stream(), old(bref.Distance())) == Parsed(val, bref.Distance())
  {
    val := 0;
    var ext;
    ext, code := bref.Unpack(1);
    if !code.Success? { return; }
    if ext == 0 {
      val, code := bref.Unpack(7);
    } else {
      ext, code := bref.Unpack(1);
      if !code.Success? { return; }
      if ext == 0 {
        val, code := bref.Unpack(14);
      } else {
        code := DecodeFail;
      }
    }
  }

  // ---- Constrained whole numbers, unaligned (X.691 section 10.5)

  function UnalignedBits(n: int, lb: int, ub: int): seq<bool>
    requires lb <= n <= ub
  {
    Enc(n - lb, CeilLog2(ub - lb + 1))
  }

  function ParseUnaligned(s: seq<bool>, d: nat, lb: int, ub: int): (p: Parse<int>)
    ensures p.Parsed? ==> lb <= p.value <= ub
  {
    if ub < lb then Failed else
    match Field(s, d, CeilLog2(ub - lb + 1))
    case Failed => Failed
    case Parsed(v, e) => if v + lb <= ub then Parsed(v + lb, e) else Failed
  }

  lemma UnalignedRoundTrip(s: seq<bool>, d: nat, n: int, lb: int, ub: int)
    requires lb <= n <= ub && At(s, d, UnalignedBits(n, lb, ub))
    ensures ParseUnaligned(s, d, lb, ub) == Parsed(n, d + |UnalignedBits(n, lb, ub)|)
  {
    CeilLog2Bounds(ub - lb + 1);
    FieldAt(s, d, n - lb, CeilLog2(ub - lb + 1));
  }

  /** The result of the inner `pack` is dropped by the source, so success says only that n is in range. */
  method PackUnalignInteger(bref: BitRef, n: int, lb: int, ub: int) returns (code: Code)
    requires bref.Valid()
    requires ub >= lb ==> CeilLog2(ub - lb + 1) <= 31
    modifies bref`ptr, bref`offset, bref.buf
    ensures bref.Valid()
    ensures code.Success? <==> lb <= n <= ub
    ensures code.Success? ==>
      WroteFitting(old(bref.Stream()), old(bref.Distance()), UnalignedBits(n, lb, ub), bref.Stream(), bref.Distance())
    ensures !code.Success? ==> bref.Stream() == old(bref.Stream()) && bref.Distance() == old(bref.Distance())
  {
    if ub < lb || n < lb || n > ub {
      return EncodeFail;
    }
    var ra := ub - lb + 1;
    if ra != 1 {
      var nBits := CeilLog2(ra);
      var _ := bref.Pack(n - lb, nBits);
    } else {
      OverwriteNothing(bref.Stream(), bref.Distance());
    }
    code := Success;
  }

  method UnpackUnalignInteger(bref: BitRef, lb: int, ub: int) returns (n: int, code: Code)
    requires bref.Valid()
    requires ub >= lb ==> CeilLog2(ub - lb + 1) <= 32
    modifies bref`ptr, bref`offset
    ensures bref.Valid()
    ensures code.Success? <==> ParseUnaligned(bref.Stream(), old(bref.Distance()), lb, ub).Parsed?
    ensures code.Success? ==>
      ParseUnaligned(bref.Stream(), old(bref.Distance()), lb, ub) == Parsed(n, bref.Distance())
  {
    n := 0;
    if ub < lb {
      return n, DecodeFail;
    }
    var ra := ub - lb + 1;
    if ra == 1 {
      return lb, Success;
    }
    var nBits := CeilLog2(ra);
    n, code := bref.Unpack(nBits);
    n := n + lb;
    if n < lb || n > ub {
      code := DecodeFail;
    }
  }

  // ---- Enumerations

  function EnumBits(e: nat, types: nat, exts: nat, hasExt: bool): seq<bool>
    requires exts <= types
  {
    if !hasExt then Enc(e, CeilLog2(types))
    else if e < types - exts then Enc(0, 1) + Enc(e, CeilLog2(types - exts))
    else Enc(1, 1) + SmallBits(e - (types - exts))
  }

  /** The values `pack_enum` accepts: those of the type, if an extension value with a small index. */
  predicate EnumPackable(e: nat, types: nat, exts: nat, hasExt: bool)
    requires exts <= types
  {
    e < types && (hasExt && e >= types - exts ==> e - (types - exts) <= 63)
  }

  /** The number an enumeration's bits hold, before it is compared with the number of values. */
  function RawEnum(s: seq<bool>, d: nat, types: nat, exts: nat, hasExt: bool): Parse<nat>
    requires exts <= types
  {
    if !hasExt then Field(s, d, CeilLog2(types)) else
    match Field(s, d, 1)
    case Failed => Failed
    case Parsed(ext, p) =>
      if ext == 0 then Field(s, p, CeilLog2(types - exts)) else
      match ParseSmall(s, p)
      case Failed => Failed
      case Parsed(k, q) => Parsed(k + (types - exts), q)
  }

  function ParseEnum(s: seq<bool>, d: nat, types: nat, exts: nat, hasExt: bool): (p: Parse<nat>)
    requires exts <= types
    ensures p.Parsed? ==> p.value < types
  {
    var raw := RawEnum(s, d, types, exts, hasExt);
    if raw.Parsed? && raw.value < types then raw else Failed
  }

  lemma EnumRoundTrip(s: seq<bool>, d: nat, e: nat, types: nat, exts: nat, hasExt: bool)
    requires exts < types && EnumPackable(e, types, exts, hasExt)
    requires At(s, d, EnumBits(e, types, exts, hasExt))
    ensures ParseEnum(s, d, types, exts, hasExt) == Parsed(e, d + |EnumBits(e, types, exts, hasExt)|)
  {
    if !hasExt {
      CeilLog2Bounds(types);
      FieldAt(s, d, e, CeilLog2(types));
    } else if e < types - exts {
      RootEnumReads(s, d, e, types - exts);
    } else {
      ExtEnumReads(s, d, e - (types - exts));
    }
  }

  lemma RootEnumReads(s: seq<bool>, d: nat, e: nat, roots: nat)
    requires e < roots && At(s, d, Enc(0, 1) + Enc(e, CeilLog2(roots)))
    ensures Field(s, d, 1) == Parsed(0, d + 1) && Field(s, d + 1, CeilLog2(roots)) == Parsed(e, d + 1 + CeilLog2(roots))
  {
    AtParts(s, d, Enc(0, 1), Enc(e, CeilLog2(roots)));
    CeilLog2Bounds(roots);
    FieldAt(s, d, 0, 1);
    FieldAt(s, d + 1, e, CeilLog2(roots));
  }

  lemma ExtEnumReads(s: seq<bool>, d: nat, k: nat)
    requires k <= 63 && At(s, d, Enc(1, 1) + SmallBits(k))
    ensures Field(s, d, 1) == Parsed(1, d + 1) && ParseSmall(s, d + 1) == Parsed(k, d + 8)
  {
    AtParts(s, d, Enc(1, 1), SmallBits(k));
    Pow2Fourteen();
    FieldAt(s, d, 1, 1);
    SmallRoundTrip(s, d + 1, k);
  }

  method PackEnum(bref: BitRef, e: nat, types: nat, exts: nat, hasExt: bool) returns (code: Code)
    requires bref.Valid()
    requires exts < types && CeilLog2(types) <= 31 && CeilLog2(types - exts) <= 31
    modifies bref`ptr, bref`offset, bref.buf
    ensures bref.Valid()
    ensures code.Success? <==>
      EnumPackable(e, types, exts, hasExt)
      && old(bref.Distance()) + |EnumBits(e, types, exts, hasExt)| <= |bref.Stream()|
    ensures code.Success? ==>
      Wrote(old(bref.Stream()), old(bref.Distance()), EnumBits(e, types, exts, hasExt),
            bref.Stream(), bref.Distance())
  {
    ghost var s, d := bref.Stream(), bref.Distance();
    if e >= types {
      return EncodeFail;
    }
    if hasExt {
      var nBits := CeilLog2(types - exts);
      var ext := e >= types - exts;
      code := bref.Pack(if ext then 1 else 0, 1);
      if !code.Success? { return; }
      ghost var s1, d1 := bref.Stream(), bref.Distance();
      if !ext {
        code := bref.Pack(e, nBits);
        if code.Success? {
          WroteThen(s, d, Enc(0, 1), s1, d1, Enc(e, nBits), bref.Stream(), bref.Distance());
        }
      } else {
        code := PackNormSmall(bref, e - (types - exts));
        if code.Success? {
          WroteThen(s, d, Enc(1, 1), s1, d1, SmallBits(e - (types - exts)), bref.Stream(), bref.Distance());
        }
      }
    } else {
      code := bref.Pack(e, CeilLog2(types));
    }
  }

  /** The part before the comparison. */
  method UnpackRawEnum(bref: BitRef, types: nat, exts: nat, hasExt: bool) returns (e: nat, code: Code)
    requires bref.Valid()
    requires exts < types && CeilLog2(types) <= 32 && CeilLog2(types - exts) <= 32
    modifies bref`ptr, bref`offset
    ensures bref.Valid()
    ensures code.Success? <==> RawEnum(bref.Stream(), old(bref.Distance()), types, exts, hasExt).Parsed?
    ensures code.Success? ==>
      RawEnum(bref.Stream(), old(bref.Distance()), types, exts, hasExt) == Parsed(e, bref.Distance())
  {
    e := 0;
    if hasExt {
      var ext;
      ext, code := bref.Unpack(1);
      if !code.Success? { return; }
      if ext == 0 {
        e, code := bref.Unpack(CeilLog2(types - exts));
      } else {
        e, code := UnpackNormSmall(bref);
        e := e + (types - exts);
      }
    } else {
      e, code := bref.Unpack(CeilLog2(types));
    }
  }

  method UnpackEnum(bref: BitRef, types: nat, exts: nat, hasExt: bool) returns (e: nat, code: Code)
    requires bref.Valid()
    requires exts < types && CeilLog2(types) <= 32 && CeilLog2(types - exts) <= 32
    modifies bref`ptr, bref`offset
    ensures bref.Valid()
    ensures code.Success? <==> ParseEnum(bref.Stream(), old(bref.Distance()), types, exts, hasExt).Parsed?
    ensures code.Success? ==>
      ParseEnum(bref.Stream(), old(bref.Distance()), types, exts, hasExt) == Parsed(e, bref.Distance())
  {
    e, code := UnpackRawEnum(bref, types, exts, hasExt);
    if e >= types {
      code := DecodeFail;
    }
  }
}

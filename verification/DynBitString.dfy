/** `dyn_bitstring` of asn1_utils.cc: a bit string of variable size.

    The length field is measured on `ub - lb` where X.691 section 15 asks for `ub - lb + 1`
    values; `DynRoundTrip` says exactly which lengths survive that.  The decoder aligns with the
    clearing form of the alignment, so it writes to the buffer it reads; `DynLeavesBuffer` shows
    that encoder output is not changed by it. */
module DynBitString {
  import opened BitSeq
  import opened Octets
  import opened BitCursor
  import opened PerInteger
  import opened PerAligned
  import opened PerBitString

  /** Width of the length field. */
  function LenWidth(lb: nat, ub: nat): nat
    requires lb < ub
  {
    CeilLog2(ub - lb)
  }

  /** The lengths the encoder accepts. */
  predicate LengthAccepted(len: nat, lb: nat, ub: nat)
  {
    lb <= len && (if ub > 0 then len <= ub else len < LENGTH_LIMIT)
  }

  /** What precedes the string: the length, up to an octet boundary when it has an upper bound. */
  function DynHead(len: nat, lb: nat, ub: nat, d: nat): seq<bool>
    requires lb <= len && (ub > 0 ==> lb < ub)
  {
    if ub > 0 then Enc(len - lb, LenWidth(lb, ub)) + Zeros(Padding(d + LenWidth(lb, ub))) else LengthBits(len)
  }

  function DynBits(text: seq<bool>, lb: nat, ub: nat, d: nat): seq<bool>
    requires lb <= |text| && (ub > 0 ==> lb < ub)
  {
    DynHead(|text|, lb, ub, d) + text
  }

  function ParseHead(s: seq<bool>, d: nat, lb: nat, ub: nat): Parse<nat>
    requires ub > 0 ==> lb < ub
  {
    if ub == 0 then ParseLength(s, d) else
    match Field(s, d, LenWidth(lb, ub))
    case Failed => Failed
    case Parsed(n, p) => Parsed(n + lb, p + Padding(p))
  }

  function ParseDyn(s: seq<bool>, d: nat, lb: nat, ub: nat): Parse<seq<bool>>
    requires ub > 0 ==> lb < ub
  {
    match ParseHead(s, d, lb, ub)
    case Failed => Failed
    case Parsed(len, p) => Take(s, p, len)
  }

  function Take(s: seq<bool>, p: nat, len: nat): Parse<seq<bool>>
  {
    if p + len <= |s| then Parsed(s[p..p + len], p + len) else Failed
  }

  /** The buffer after decoding: what the alignment clears. */
  function Cleared(s: seq<bool>, d: nat, lb: nat, ub: nat): (r: seq<bool>)
    requires ub > 0 ==> lb < ub
    requires ub > 0 ==> d + LenWidth(lb, ub) + Padding(d + LenWidth(lb, ub)) <= |s|
    ensures |r| == |s|
  {
    if ub == 0 then s
    else Overwrite(s, d + LenWidth(lb, ub), Zeros(Padding(d + LenWidth(lb, ub))))
  }

  lemma HeadRoundTrip(s: seq<bool>, d: nat, len: nat, lb: nat, ub: nat)
    requires LengthAccepted(len, lb, ub) && (ub > 0 ==> lb < ub)
    requires At(s, d, DynHead(len, lb, ub, d))
    ensures ParseHead(s, d, lb, ub).Parsed? && ParseHead(s, d, lb, ub).pos == d + |DynHead(len, lb, ub, d)|
    ensures ParseHead(s, d, lb, ub).value == len <==> ub == 0 || len - lb < Pow2(LenWidth(lb, ub))
  {
    if ub == 0 {
      LengthRoundTrip(s, d, len);
    } else {
      AtParts(s, d, Enc(len - lb, LenWidth(lb, ub)), Zeros(Padding(d + LenWidth(lb, ub))));
      FieldLow(s, d, len - lb, LenWidth(lb, ub));
      LowSmall(len - lb, LenWidth(lb, ub));
    }
  }

  /** The length field has room for every length below the bound, and for the bound itself unless the
      number of lengths below it is a power of two. */
  lemma LengthFieldFits(len: nat, lb: nat, ub: nat)
    requires lb <= len <= ub && lb < ub
    ensures len - lb < Pow2(LenWidth(lb, ub)) <==> len < ub || ub - lb < Pow2(LenWidth(lb, ub))
  {
    CeilLog2Bounds(ub - lb);
  }

  /** A bit string comes back exactly when its length does: without an upper bound always, with one
      unless the length is the bound itself and the number of lengths below it is a power of two. */
  lemma DynRoundTrip(s: seq<bool>, d: nat, text: seq<bool>, lb: nat, ub: nat)
    requires LengthAccepted(|text|, lb, ub) && (ub > 0 ==> lb < ub)
    requires At(s, d, DynBits(text, lb, ub, d))
    ensures ParseDyn(s, d, lb, ub) == Parsed(text, d + |DynBits(text, lb, ub, d)|)
            <==> ub == 0 || |text| < ub || ub - lb < Pow2(LenWidth(lb, ub))
  {
    var head := DynHead(|text|, lb, ub, d);
    AtParts(s, d, head, text);
    HeadRoundTrip(s, d, |text|, lb, ub);
    DynComesBack(s, d, text, lb, ub, |head|);
    if ub > 0 { LengthFieldFits(|text|, lb, ub); }
  }

  /** A string of full length, when the number of lengths below it is a power of two, comes back as its
      first lb bits, with the cursor after them. */
  lemma FullLengthCut(s: seq<bool>, d: nat, text: seq<bool>, lb: nat, ub: nat)
    requires lb < ub == |text| && ub - lb == Pow2(LenWidth(lb, ub)) && At(s, d, DynBits(text, lb, ub, d))
    ensures ParseDyn(s, d, lb, ub) == Parsed(text[..lb], d + |DynHead(|text|, lb, ub, d)| + lb)
  {
    var w, head := LenWidth(lb, ub), DynHead(|text|, lb, ub, d);
    AtParts(s, d, head, text);
    AtParts(s, d, Enc(ub - lb, w), Zeros(Padding(d + w)));
    FieldLow(s, d, ub - lb, w);
    LowOfPower(w);
    TakeFirst(s, d + |head|, text, lb);
  }

  lemma {:induction false} LowOfPower(n: nat)
    ensures Low(Pow2(n), n) == 0
  {
    if n > 0 { LowOfPower(n - 1); }
  }

  lemma TakeFirst(s: seq<bool>, p: nat, text: seq<bool>, n: nat)
    requires At(s, p, text) && n <= |text|
    ensures Take(s, p, n) == Parsed(text[..n], p + n)
  {
    assert s[p..p + n] == s[p..p + |text|][..n];
  }

  /** Five bits, where one to five are allowed, come back as one. */
  lemma FullLengthLost(s: seq<bool>, d: nat, text: seq<bool>)
    requires |text| == 5 && At(s, d, DynBits(text, 1, 5, d))
    ensures ParseDyn(s, d, 1, 5).Parsed? && ParseDyn(s, d, 1, 5).value == [text[0]]
  {
    assert LenWidth(1, 5) == 2 by { assert CeilLog2(4) == 1 + CeilLog2(2); }
    assert Pow2(2) == 4;
    FullLengthCut(s, d, text, 1, 5);
    assert text[..1] == [text[0]];
  }

  /** The string comes back if its length does. */
  lemma DynComesBack(s: seq<bool>, d: nat, text: seq<bool>, lb: nat, ub: nat, headLength: nat)
    requires (ub > 0 ==> lb < ub) && ParseHead(s, d, lb, ub).Parsed?
    requires ParseHead(s, d, lb, ub).pos == d + headLength && At(s, d + headLength, text)
    ensures ParseDyn(s, d, lb, ub) == Parsed(text, d + headLength + |text|)
            <==> ParseHead(s, d, lb, ub).value == |text|
  {
    DynParses(s, d, lb, ub);
    TakeAt(s, d + headLength, text, ParseHead(s, d, lb, ub).value);
  }

  lemma DynParses(s: seq<bool>, d: nat, lb: nat, ub: nat)
    requires (ub > 0 ==> lb < ub) && ParseHead(s, d, lb, ub).Parsed?
    ensures ParseDyn(s, d, lb, ub) == Take(s, ParseHead(s, d, lb, ub).pos, ParseHead(s, d, lb, ub).value)
  {
  }

  lemma TakeAt(s: seq<bool>, p: nat, text: seq<bool>, len: nat)
    requires At(s, p, text)
    ensures Take(s, p, len) == Parsed(text, p + |text|) <==> len == |text|
  {
  }

  /** Bits after what was written are as before. */
  lemma TakeAfter(was: seq<bool>, d: nat, b: seq<bool>, now: seq<bool>, p: nat, text: seq<bool>)
    requires Wrote(was, d, b, now, p) && At(now, p, text)
    ensures Take(was, p, |text|) == Parsed(text, p + |text|)
  {
    WroteAt(was, d, b, now, p);
    assert was[p..p + |text|] == was[p..][..|text|] == now[p..][..|text|] == now[p..p + |text|];
  }

  /** Decoding what the encoder wrote does not change the buffer. */
  lemma DynLeavesBuffer(s: seq<bool>, d: nat, text: seq<bool>, lb: nat, ub: nat)
    requires lb <= |text| && (ub > 0 ==> lb < ub)
    requires At(s, d, DynBits(text, lb, ub, d))
    ensures ub > 0 ==> d + LenWidth(lb, ub) + Padding(d + LenWidth(lb, ub)) <= |s|
    ensures Cleared(s, d, lb, ub) == s
  {
    AtParts(s, d, DynHead(|text|, lb, ub, d), text);
    if ub > 0 {
      var w := LenWidth(lb, ub);
      AtParts(s, d, Enc(|text| - lb, w), Zeros(Padding(d + w)));
      OverwriteSame(s, d + w, Zeros(Padding(d + w)));
    }
  }

  lemma OverwriteSame(s: seq<bool>, d: nat, b: seq<bool>)
    requires At(s, d, b)
    ensures Overwrite(s, d, b) == s
  {
    OverwriteSlices(s, d, b);
  }

  class DynBitstring {
    var octets: array<Octet>
    var nBits: nat

    ghost predicate Valid()
      reads this
    {
      octets.Length == Octs(nBits)
    }

    /** The string in wire order. */
    ghost function Text(): (t: seq<bool>)
      requires Valid()
      reads this, octets
      ensures |t| == nBits
    {
      WireBits(octets[..], nBits)
    }

    constructor (size: nat)
      ensures Valid() && fresh(octets) && Text() == Zeros(size)
    {
      OctsIs(size);
      nBits := size;
      octets := new Octet[(size + 7) / 8](_ => 0);
      new;
      WireZeros(octets[..], 0, size);
    }

    /** Gives the string a new size, all bits cleared. */
    method Resize(size: nat)
      modifies this
      ensures Valid() && fresh(octets) && nBits == size && Text() == Zeros(size)
    {
      OctsIs(size);
      nBits := size;
      octets := new Octet[(size + 7) / 8](_ => 0);
      WireZeros(octets[..], 0, size);
    }

    method Pack(bref: BitRef, lb: nat, ub: nat) returns (code: Code)
      requires Valid() && bref.Valid() && octets != bref.buf && nBits > 0
      requires ub > 0 && lb <= nBits <= ub ==> lb < ub && LenWidth(lb, ub) <= 31
      modifies bref`ptr, bref`offset, bref.buf
      ensures Valid() && bref.Valid()
      ensures code.Success? <==>
        LengthAccepted(nBits, lb, ub)
        && old(bref.Distance()) + |DynBits(Text(), lb, ub, old(bref.Distance()))| <= |bref.Stream()|
      ensures code.Success? ==>
        Wrote(old(bref.Stream()), old(bref.Distance()),
              DynBits(Text(), lb, ub, old(bref.Distance())), bref.Stream(), bref.Distance())
    {
      ghost var s, d := bref.Stream(), bref.Distance();
      if nBits < lb {
        return EncodeFail;
      }
      if ub > 0 {
        if ub < nBits {
          return EncodeFail;
        }
        code := PackSize(bref, nBits - lb, CeilLog2(ub - lb));
      } else {
        code := PackLength(bref, nBits);
      }
      if !code.Success? { return; }
      ghost var s1, d1 := bref.Stream(), bref.Distance();
      code := PackCommonBitstring(bref, octets, nBits);
      if !code.Success? { return; }
      WroteThen(s, d, DynHead(nBits, lb, ub, d), s1, d1, Text(), bref.Stream(), bref.Distance());
    }

    method Unpack(bref: BitRef, lb: nat, ub: nat) returns (code: Code)
      requires bref.Valid() && octets != bref.buf
      requires ub > 0 ==> lb < ub && LenWidth(lb, ub) <= 32
      requires ParseHead(bref.Stream(), bref.Distance(), lb, ub).Parsed? ==>
                 ParseHead(bref.Stream(), bref.Distance(), lb, ub).value > 0
      modifies this, bref`ptr, bref`offset, bref.buf
      ensures bref.Valid()
      ensures code.Success? <==> ParseDyn(old(bref.Stream()), old(bref.Distance()), lb, ub).Parsed?
      ensures code.Success? ==>
        Valid() && fresh(octets) && Clean(octets[..], nBits)
        && ParseDyn(old(bref.Stream()), old(bref.Distance()), lb, ub) == Parsed(Text(), bref.Distance())
        && (ub > 0 ==> old(bref.Distance()) + LenWidth(lb, ub) + Padding(old(bref.Distance()) + LenWidth(lb, ub))
                       <= |bref.Stream()|)
        && bref.Stream() == Cleared(old(bref.Stream()), old(bref.Distance()), lb, ub)
    {
      ghost var s, d := bref.Stream(), bref.Distance();
      var len;
      len, code := UnpackHead(bref, lb, ub);
      if !code.Success? { return; }
      ghost var s1, d1 := bref.Stream(), bref.Distance();
      Resize(len);
      code := UnpackCommonBitstring(octets, bref, len);
      DynParses(s, d, lb, ub);
      ghost var text := if code.Success? then Text() else [];
      if code.Success? { ClearedTake(s, d, lb, ub, s1, d1, text); }
    }
  }

  /** What follows the head is not touched by the alignment. */
  lemma ClearedTake(s: seq<bool>, d: nat, lb: nat, ub: nat, now: seq<bool>, p: nat, text: seq<bool>)
    requires ub > 0 ==> lb < ub
    requires ub > 0 ==> d + LenWidth(lb, ub) + Padding(d + LenWidth(lb, ub)) <= |s|
    requires now == Cleared(s, d, lb, ub) && At(now, p, text)
    requires ub > 0 ==> p == d + LenWidth(lb, ub) + Padding(d + LenWidth(lb, ub))
    ensures Take(s, p, |text|) == Parsed(text, p + |text|)
  {
    if ub > 0 {
      TakeAfter(s, d + LenWidth(lb, ub), Zeros(Padding(d + LenWidth(lb, ub))), now, p, text);
    }
  }

  /** The length, and the alignment after a bounded one. */
  method UnpackHead(bref: BitRef, lb: nat, ub: nat) returns (len: nat, code: Code)
    requires bref.Valid()
    requires ub > 0 ==> lb < ub && LenWidth(lb, ub) <= 32
    modifies bref`ptr, bref`offset, bref.buf
    ensures bref.Valid()
    ensures code.Success? <==> ParseHead(old(bref.Stream()), old(bref.Distance()), lb, ub).Parsed?
    ensures code.Success? ==>
      ParseHead(old(bref.Stream()), old(bref.Distance()), lb, ub) == Parsed(len, bref.Distance())
      && (ub > 0 ==> old(bref.Distance()) + LenWidth(lb, ub) + Padding(old(bref.Distance()) + LenWidth(lb, ub))
                     <= |bref.Stream()|)
      && bref.Stream() == Cleared(old(bref.Stream()), old(bref.Distance()), lb, ub)
  {
    if ub > 0 {
      len, code := UnpackSize(bref, CeilLog2(ub - lb));
      len := len + lb;
    } else {
      len, code := UnpackLength(bref);
    }
  }

  /** The bounded length field, and the alignment after it. */
  method PackSize(bref: BitRef, v: nat, width: nat) returns (code: Code)
    requires bref.Valid() && width <= 31
    modifies bref`ptr, bref`offset, bref.buf
    ensures bref.Valid()
    ensures code.Success? <==>
      old(bref.Distance()) + width + Padding(old(bref.Distance()) + width) <= |bref.Stream()|
    ensures code.Success? ==>
      Wrote(old(bref.Stream()), old(bref.Distance()),
            Enc(v, width) + Zeros(Padding(old(bref.Distance()) + width)), bref.Stream(), bref.Distance())
  {
    ghost var s, d := bref.Stream(), bref.Distance();
    code := bref.Pack(v, width);
    if !code.Success? { return; }
    ghost var s1, d1 := bref.Stream(), bref.Distance();
    code := bref.AlignBytesZero();
    WroteThen(s, d, Enc(v, width), s1, d1, Zeros(Padding(d1)), bref.Stream(), bref.Distance());
  }

  method UnpackSize(bref: BitRef, width: nat) returns (v: nat, code: Code)
    requires bref.Valid() && width <= 32
    modifies bref`ptr, bref`offset, bref.buf
    ensures bref.Valid()
    ensures code.Success? <==> old(bref.Distance()) + width <= |bref.Stream()|
    ensures !code.Success? ==> bref.Stream() == old(bref.Stream())
    ensures code.Success? ==>
      v == Read(old(bref.Stream()), old(bref.Distance()), width)
      && Wrote(old(bref.Stream()), old(bref.Distance()) + width,
               Zeros(Padding(old(bref.Distance()) + width)), bref.Stream(), bref.Distance())
  {
    v, code := bref.Unpack(width);
    if !code.Success? { return; }
    code := bref.AlignBytesZero();
  }

  lemma {:induction false} WireZeros(buf: seq<Octet>, i: nat, nBits: nat)
    requires |buf| == i + Octs(nBits) && forall k | i <= k < |buf| :: buf[k] == 0
    ensures Wire(buf, i, nBits) == Zeros(nBits)
    decreases nBits
  {
    if nBits > 0 {
      EncZero(if nBits <= 8 then nBits else 8);
      if nBits > 8 { WireZeros(buf, i + 1, nBits - 8); }
    }
  }
}

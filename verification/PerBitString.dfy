/** Bit strings of asn1_utils.cc (X.691 section 15).

    Octets store the string least significant bit first, the wire carries it most significant bit
    first.  The variable-size form measures its length field on `ub - lb` instead of
    `ub - lb + 1`; `DynRoundTrip` says exactly which lengths survive that. */
module PerBitString {
  import opened BitSeq
  import opened Octets
  import opened BitCursor
  import opened PerInteger
  import opened PerAligned

  /** `bitstring_get` */
  predicate GetBit(buf: seq<Octet>, i: nat)
    requires i < 8 * |buf|
  {
    Shr(buf[i / 8], i % 8) % 2 == 1
  }

  /** The octets from i on in wire order: from the last to octet i, the last one cut to size. */
  function Wire(buf: seq<Octet>, i: nat, nBits: nat): (b: seq<bool>)
    requires |buf| == i + Octs(nBits)
    ensures |b| == nBits
    decreases nBits
  {
    if nBits == 0 then [] else if nBits <= 8 then Enc(buf[i], nBits)
    else Wire(buf, i + 1, nBits - 8) + Enc(buf[i], 8)
  }

  function WireBits(buf: seq<Octet>, nBits: nat): (b: seq<bool>)
    requires |buf| == Octs(nBits)
    ensures |b| == nBits
  {
    Wire(buf, 0, nBits)
  }

  /** The bit at index 8 * q + r of the string, counted from the last bit of the wire. */
  lemma {:induction false} WireBit(buf: seq<Octet>, i: nat, nBits: nat, q: nat, r: nat)
    requires |buf| == i + Octs(nBits) && 8 * q + r < nBits && r < 8
    ensures i + q < |buf|
    ensures Wire(buf, i, nBits)[nBits - 1 - (8 * q + r)] <==> Shr(buf[i + q], r) % 2 == 1
    decreases nBits
  {
    if nBits <= 8 {
      EncBit(buf[i], nBits, nBits - 1 - r);
    } else if q > 0 {
      WireBit(buf, i + 1, nBits - 8, q - 1, r);
    } else {
      EncBit(buf[i], 8, 7 - r);
    }
  }

  /** Wire order is the order of `bitstring_to_string`. */
  lemma WireOrder(buf: seq<Octet>, nBits: nat, i: nat)
    requires |buf| == Octs(nBits) && i < nBits
    ensures i < 8 * |buf| && (WireBits(buf, nBits)[nBits - 1 - i] <==> GetBit(buf, i))
  {
    WireBit(buf, 0, nBits, i / 8, i % 8);
  }

  /** Number of bits of the string in its last octet. */
  function LastOctetBits(nBits: nat): (n: nat)
    ensures n <= 8
  {
    if nBits <= 8 then nBits else LastOctetBits(nBits - 8)
  }

  lemma {:induction false} LastOctetBitsIs(nBits: nat)
    requires nBits > 0
    ensures LastOctetBits(nBits) == (nBits - 1) % 8 + 1
    ensures nBits == 8 * (Octs(nBits) - 1) + LastOctetBits(nBits)
  {
    if nBits > 8 {
      LastOctetBitsIs(nBits - 8);
    }
  }

  /** No bit above the string is set in the last octet. */
  predicate Clean(buf: seq<Octet>, nBits: nat)
    requires |buf| == Octs(nBits)
  {
    nBits > 0 ==> buf[|buf| - 1] < Pow2(LastOctetBits(nBits))
  }

  lemma {:induction false} WireSame(a: seq<Octet>, b: seq<Octet>, i: nat, nBits: nat)
    requires |a| == |b| == i + Octs(nBits)
    requires forall k | i <= k < |a| :: a[k] == b[k]
    ensures Wire(a, i, nBits) == Wire(b, i, nBits)
    decreases nBits
  {
    if nBits > 8 {
      WireSame(a, b, i + 1, nBits - 8);
    }
  }

  lemma {:induction false} WireEqual(a: seq<Octet>, b: seq<Octet>, i: nat, nBits: nat)
    requires |a| == |b| == i + Octs(nBits)
    requires nBits > 0 ==> a[|a| - 1] < Pow2(LastOctetBits(nBits)) && b[|b| - 1] < Pow2(LastOctetBits(nBits))
    requires Wire(a, i, nBits) == Wire(b, i, nBits)
    ensures forall k | i <= k < |a| :: a[k] == b[k]
    decreases nBits
  {
    if nBits == 0 {
    } else if nBits <= 8 {
      EncInjective(a[i], b[i], nBits);
    } else {
      var n := nBits - 8;
      assert Wire(a, i + 1, n) == Wire(a, i, nBits)[..n] == Wire(b, i + 1, n);
      assert Enc(a[i], 8) == Wire(a, i, nBits)[n..] == Enc(b[i], 8);
      Pow2Eight();
      EncInjective(a[i], b[i], 8);
      WireEqual(a, b, i + 1, n);
    }
  }

  /** Clean octets are determined by the string they hold. */
  lemma WireDetermines(a: seq<Octet>, b: seq<Octet>, nBits: nat)
    requires |a| == |b| == Octs(nBits) && Clean(a, nBits) && Clean(b, nBits)
    requires WireBits(a, nBits) == WireBits(b, nBits)
    ensures a == b
  {
    WireEqual(a, b, 0, nBits);
  }

  method PackCommonBitstring(bref: BitRef, buf: array<Octet>, nBits: nat) returns (code: Code)
    requires bref.Valid() && nBits > 0 && buf.Length == Octs(nBits) && buf != bref.buf
    modifies bref`ptr, bref`offset, bref.buf
    ensures bref.Valid()
    ensures code.Success? <==> old(bref.Distance()) + nBits <= |bref.Stream()|
    ensures code.Success? ==>
      Wrote(old(bref.Stream()), old(bref.Distance()), WireBits(buf[..], nBits), bref.Stream(), bref.Distance())
  {
    LastOctetBitsIs(nBits);
    OctsIs(nBits);
    var nOcts, last := (nBits + 7) / 8, (nBits - 1) % 8 + 1;
    code := bref.Pack(buf[nOcts - 1], last);
    if !code.Success? { return; }
    code := PackRest(bref, buf, nOcts, last, old(bref.Stream()), old(bref.Distance()));
  }

  /** The loop of `pack_common_bitstring`: the octets before the last, in descending order. */
  method PackRest(bref: BitRef, buf: array<Octet>, nOcts: nat, last: nat, ghost s: seq<bool>, ghost d: nat)
    returns (code: Code)
    requires bref.Valid() && 0 < last <= 8 && buf.Length == nOcts > 0 && buf != bref.buf
    requires Wrote(s, d, Enc(buf[nOcts - 1], last), bref.Stream(), bref.Distance())
    modifies bref`ptr, bref`offset, bref.buf
    ensures bref.Valid()
    ensures code.Success? <==> d + last + 8 * (nOcts - 1) <= |bref.Stream()|
    ensures code.Success? ==>
      Octs(last + 8 * (nOcts - 1)) == nOcts
      && Wrote(s, d, WireBits(buf[..], last + 8 * (nOcts - 1)), bref.Stream(), bref.Distance())
  {
    ghost var octets, size := buf[..], last;
    code := Success;
    for i := 1 to nOcts
      invariant bref.Valid() && buf[..] == octets && code.Success? && |bref.Stream()| == |s|
      invariant size == last + 8 * (i - 1) && Octs(size) == i
      invariant Wrote(s, d, Wire(octets, nOcts - i, size), bref.Stream(), bref.Distance())
    {
      ghost var s1, d1 := bref.Stream(), bref.Distance();
      code := bref.Pack(buf[nOcts - 1 - i], 8);
      if !code.Success? { return; }
      WroteThen(s, d, Wire(octets, nOcts - i, size), s1, d1, Enc(octets[nOcts - 1 - i], 8),
                bref.Stream(), bref.Distance());
      size := size + 8;
    }
  }

  // ---- Unpacking

  lemma OctetRead(s: seq<bool>, d: nat, n: nat)
    requires d + n <= |s| && n <= 8
    ensures Read(s, d, n) < Pow2(n) <= 256
    ensures At(s, d, Enc(Read(s, d, n), n))
  {
    ReadBound(s, d, n);
    Pow2Monotone(n, 8);
    Pow2Eight();
    EncRead(s, d, n);
  }

  method UnpackCommonBitstring(buf: array<Octet>, bref: BitRef, nBits: nat) returns (code: Code)
    requires bref.Valid() && nBits > 0 && buf.Length == Octs(nBits) && buf != bref.buf
    modifies bref`ptr, bref`offset, buf
    ensures bref.Valid()
    ensures code.Success? <==> old(bref.Distance()) + nBits <= |bref.Stream()|
    ensures code.Success? ==>
      bref.Distance() == old(bref.Distance()) + nBits
      && At(bref.Stream(), old(bref.Distance()), WireBits(buf[..], nBits)) && Clean(buf[..], nBits)
  {
    LastOctetBitsIs(nBits);
    OctsIs(nBits);
    var nOcts, last := (nBits + 7) / 8, (nBits - 1) % 8 + 1;
    ghost var d := bref.Distance();
    var octet;
    octet, code := bref.Unpack(last);
    if !code.Success? { return; }
    OctetRead(bref.Stream(), d, last);
    buf[nOcts - 1] := octet;
    code := UnpackRest(buf, bref, nOcts, last, d);
  }

  /** The octets from k on are the string of `size` bits found at position d. */
  predicate Held(s: seq<bool>, d: nat, octets: seq<Octet>, k: nat, size: nat)
  {
    |octets| == k + Octs(size) && At(s, d, Wire(octets, k, size))
  }

  /** The loop of `unpack_common_bitstring`: the octets before the last, in descending order. */
  method UnpackRest(buf: array<Octet>, bref: BitRef, nOcts: nat, last: nat, ghost d: nat) returns (code: Code)
    requires bref.Valid() && 0 < last <= 8 && buf.Length == nOcts > 0 && buf != bref.buf
    requires bref.Distance() == d + last && At(bref.Stream(), d, Enc(buf[nOcts - 1], last))
    modifies bref`ptr, bref`offset, buf
    ensures bref.Valid() && buf[nOcts - 1] == old(buf[nOcts - 1])
    ensures code.Success? <==> d + last + 8 * (nOcts - 1) <= |bref.Stream()|
    ensures code.Success? ==> bref.Distance() == d + last + 8 * (nOcts - 1)
    ensures code.Success? ==> Held(bref.Stream(), d, buf[..], 0, last + 8 * (nOcts - 1))
  {
    ghost var size, s, top := last, bref.Stream(), buf[nOcts - 1];
    code := Success;
    for i := 1 to nOcts
      invariant bref.Valid() && code.Success? && buf[nOcts - 1] == top && bref.Stream() == s
      invariant size == last + 8 * (i - 1) && Octs(size) == i
      invariant bref.Distance() == d + size && Held(s, d, buf[..], nOcts - i, size)
    {
      code := UnpackNext(buf, bref, nOcts - 1 - i, size, d);
      if !code.Success? { return; }
      size := size + 8;
    }
  }

  /** One iteration: the octet at index k goes below the `size` bits already read. */
  method UnpackNext(buf: array<Octet>, bref: BitRef, k: nat, ghost size: nat, ghost d: nat) returns (code: Code)
    requires bref.Valid() && buf != bref.buf && size > 0
    requires bref.Distance() == d + size && Held(bref.Stream(), d, buf[..], k + 1, size)
    modifies bref`ptr, bref`offset, buf
    ensures bref.Valid()
    ensures code.Success? <==> d + size + 8 <= |bref.Stream()|
    ensures code.Success? ==> bref.Distance() == d + size + 8 && Octs(size + 8) == 1 + Octs(size)
    ensures code.Success? ==> Held(bref.Stream(), d, buf[..], k, size + 8)
    ensures buf[buf.Length - 1] == old(buf[buf.Length - 1])
  {
    ghost var was, s := buf[..], bref.Stream();
    var octet;
    octet, code := bref.Unpack(8);
    if !code.Success? { return; }
    OctetRead(s, d + size, 8);
    buf[k] := octet;
    WireSame(was, buf[..], k + 1, size);
    AtParts(s, d, Wire(buf[..], k + 1, size), Enc(octet, 8));
  }
}

/** Open type fields of asn1_utils.cc: the pair of guards that wrap whatever is packed or unpacked
    during their life in a length determinant and whole octets (X.691 section 10.2). */
module OpenField {
  import opened BitSeq
  import opened Octets
  import opened BitCursor
  import opened PerInteger
  import opened PerAligned

  const GUARD_OCTETS := 1024

  type Decoder<T> = (seq<bool>, nat) -> Parse<T>

  /** dec reads v back from the bits b wherever they stand (on octet boundaries only, if aligned),
      and stops where they end. */
  ghost predicate Undoes<T(!new)>(dec: Decoder<T>, b: seq<bool>, v: T, aligned: bool)
  {
    forall s: seq<bool>, d: nat | At(s, d, b) && (aligned ==> Padding(d) == 0) :: dec(s, d) == Parsed(v, d + |b|)
  }

  /** The open field that holds the bits c. */
  function OpenBits(c: seq<bool>): (b: seq<bool>)
    ensures |b| == |LengthBits(Octs(|c|))| + 8 * Octs(|c|)
  {
    LengthBits(Octs(|c|)) + (c + Zeros(8 * Octs(|c|) - |c|))
  }

  /** Reading an open field: its length, its contents, and what is left of its octets. */
  function ParseOpen<T>(dec: Decoder<T>, s: seq<bool>, d: nat): Parse<T>
  {
    match ParseLength(s, d)
    case Failed => Failed
    case Parsed(len, p) =>
      match dec(s, p)
      case Failed => Failed
      case Parsed(v, q) => if p <= q <= p + 8 * len <= |s| then Parsed(v, p + 8 * len) else Failed
  }

  function Open<T>(dec: Decoder<T>): Decoder<T>
  {
    (s: seq<bool>, d: nat) => ParseOpen(dec, s, d)
  }

  lemma LengthKeepsPhase(d: nat, len: nat)
    ensures Padding(d + |LengthBits(len)|) == Padding(d)
  {
    assert Padding(d + 8) == Padding(d);
    assert Padding(d + 8 + 8) == Padding(d + 8);
  }

  /** Where the contents of an open field stand. */
  lemma OpenAt(s: seq<bool>, d: nat, c: seq<bool>)
    requires At(s, d, OpenBits(c)) && Octs(|c|) < LENGTH_LIMIT
    ensures ParseLength(s, d) == Parsed(Octs(|c|), d + |LengthBits(Octs(|c|))|)
    ensures At(s, d + |LengthBits(Octs(|c|))|, c)
  {
    var pad := Zeros(8 * Octs(|c|) - |c|);
    AtParts(s, d, LengthBits(Octs(|c|)), c + pad);
    AtParts(s, d + |LengthBits(Octs(|c|))|, c, pad);
    LengthRoundTrip(s, d, Octs(|c|));
  }

  lemma OpenReads<T(!new)>(dec: Decoder<T>, c: seq<bool>, v: T, aligned: bool, s: seq<bool>, d: nat)
    requires Undoes(dec, c, v, aligned) && Octs(|c|) < LENGTH_LIMIT
    requires At(s, d, OpenBits(c)) && (aligned ==> Padding(d) == 0)
    ensures ParseOpen(dec, s, d) == Parsed(v, d + |OpenBits(c)|)
  {
    OpenAt(s, d, c);
    LengthKeepsPhase(d, Octs(|c|));
    assert dec(s, d + |LengthBits(Octs(|c|))|) == Parsed(v, d + |LengthBits(Octs(|c|))| + |c|);
  }

  /** A codec that round-trips still does inside an open field. */
  lemma OpenUndoes<T(!new)>(dec: Decoder<T>, c: seq<bool>, v: T, aligned: bool)
    requires Undoes(dec, c, v, aligned) && Octs(|c|) < LENGTH_LIMIT
    ensures Undoes(Open(dec), OpenBits(c), v, aligned)
  {
    forall s: seq<bool>, d: nat | At(s, d, OpenBits(c)) && (aligned ==> Padding(d) == 0)
      ensures Open(dec)(s, d) == Parsed(v, d + |OpenBits(c)|)
    {
      OpenReads(dec, c, v, aligned, s, d);
    }
  }

  // ---- Open fields in open fields

  function NestBits(c: seq<bool>, depth: nat): seq<bool>
  {
    if depth == 0 then c else OpenBits(NestBits(c, depth - 1))
  }

  function Nest<T>(dec: Decoder<T>, depth: nat): Decoder<T>
  {
    if depth == 0 then dec else Open(Nest(dec, depth - 1))
  }

  lemma {:induction false} NestUndoes<T(!new)>(dec: Decoder<T>, c: seq<bool>, v: T, aligned: bool, depth: nat)
    requires Undoes(dec, c, v, aligned)
    requires forall k | 0 <= k < depth :: |NestBits(c, k)| <= 8 * GUARD_OCTETS
    ensures Undoes(Nest(dec, depth), NestBits(c, depth), v, aligned)
  {
    if depth > 0 {
      NestUndoes(dec, c, v, aligned, depth - 1);
      GuardFits(NestBits(c, depth - 1));
      OpenUndoes(Nest(dec, depth - 1), NestBits(c, depth - 1), v, aligned);
    }
  }

  /** What fits the guard's buffer has a length that can be sent. */
  lemma GuardFits(c: seq<bool>)
    requires |c| <= 8 * GUARD_OCTETS
    ensures Octs(|c|) < LENGTH_LIMIT
  {
    OctsIs(|c|);
  }

  // ---- The guards

  lemma {:induction false} PaddingOcts(d: nat)
    ensures d + Padding(d) == 8 * Octs(d)
  {
    if d >= 8 { PaddingOcts(d - 8); }
  }

  lemma {:induction false} BufBitsTake(s: seq<Octet>, n: nat)
    requires n <= |s|
    ensures BufBits(s)[..8 * n] == BufBits(s[..n])
  {
    if n > 0 {
      BufBitsTake(s[1..], n - 1);
      assert s[..n][1..] == s[1..][..n - 1];
      assert BufBits(s)[..8 * n] == Enc(s[0], 8) + BufBits(s[1..])[..8 * (n - 1)];
    }
  }

  class PackGuard {
    const start: BitRef
    const tracker: BitRef
    const buffer: array<Octet>

    /** The caller's cursor writes into the guard's buffer, the guard remembers where it was. */
    ghost predicate Valid()
      reads this, start, tracker
    {
      buffer.Length == GUARD_OCTETS && tracker != start && tracker.buf == buffer && start.buf != buffer
      && start.Valid() && tracker.Valid()
    }

    /** What has been packed since the guard was made. */
    ghost function Contents(): (c: seq<bool>)
      requires Valid()
      reads this, start, tracker, buffer
      ensures |c| == tracker.Distance()
    {
      tracker.Stream()[..tracker.Distance()]
    }

    constructor (bref: BitRef)
      requires bref.Valid()
      modifies bref
      ensures Valid() && fresh(buffer) && fresh(start) && tracker == bref
      ensures start.buf == old(bref.buf) && start.Distance() == old(bref.Distance())
      ensures Contents() == []
    {
      var saved := new BitRef.Copy(bref);
      var region := new Octet[GUARD_OCTETS];
      var inner := new BitRef(region);
      start := saved;
      buffer := region;
      tracker := bref;
      new;
      bref.Assign(inner);
    }

    /** The destructor.  It ignores every result, so without room it writes what fits of the field. */
    method Close()
      requires Valid()
      modifies start, tracker, buffer, start.buf
      ensures tracker.Valid() && tracker.buf == start.buf == old(start.buf)
      ensures WroteFitting(old(start.Stream()), old(start.Distance()), OpenBits(old(Contents())),
                           tracker.Stream(), tracker.Distance())
    {
      ghost var c := Contents();
      var octets := FillSpare();
      PackField(start, buffer, octets, c);
      tracker.Assign(start);
    }

    /** Fills the last octet with zero bits and counts the octets. */
    method FillSpare() returns (octets: nat)
      requires Valid()
      modifies tracker`ptr, tracker`offset, buffer
      ensures Valid() && octets == Octs(old(|Contents()|)) <= GUARD_OCTETS
      ensures BufBits(buffer[..octets]) == old(Contents()) + Zeros(8 * octets - old(|Contents()|))
    {
      ghost var s, d := tracker.Stream(), tracker.Distance();
      PaddingOcts(d);
      OctsIs(d);
      var leftover := Leftover(tracker.Distance());
      EncZero(leftover);
      var _ := tracker.Pack(0, leftover);
      octets := tracker.Distance() / 8;
      BufBitsTake(buffer[..], octets);
      OverwriteSlices(s, d, Zeros(leftover));
      assert buffer[..][..octets] == buffer[..octets];
    }
  }

  /** `7 - ((d - 1) % 8)` in unsigned arithmetic, where the remainder of 0 - 1 is 7. */
  method Leftover(d: nat) returns (n: nat)
    ensures n == Padding(d)
  {
    PaddingMod(d);
    var before := if d == 0 then 0xFFFF_FFFF else d - 1;
    n := 7 - before % 8;
  }

  /** The length and the octets of a field. */
  method PackField(bref: BitRef, buffer: array<Octet>, octets: nat, ghost c: seq<bool>)
    requires bref.Valid() && buffer != bref.buf && octets == Octs(|c|) <= GUARD_OCTETS == buffer.Length
    requires BufBits(buffer[..octets]) == c + Zeros(8 * octets - |c|)
    modifies bref`ptr, bref`offset, bref.buf
    ensures bref.Valid()
    ensures WroteFitting(old(bref.Stream()), old(bref.Distance()), OpenBits(c), bref.Stream(), bref.Distance())
  {
    ghost var s, d, b := bref.Stream(), bref.Distance(), BufBits(buffer[..octets]);
    var _ := PackLength(bref, octets);
    ghost var s1, d1 := bref.Stream(), bref.Distance();
    PackBuffer(bref, buffer, octets);
    FittingThen(s, d, LengthBits(octets), s1, d1, b, bref.Stream(), bref.Distance());
  }

  method PackBuffer(bref: BitRef, octets: array<Octet>, n: nat)
    requires bref.Valid() && n <= octets.Length && octets != bref.buf
    modifies bref`ptr, bref`offset, bref.buf
    ensures bref.Valid()
    ensures WroteFitting(old(bref.Stream()), old(bref.Distance()), BufBits(octets[..n]), bref.Stream(), bref.Distance())
  {
    ghost var s, d, content := bref.Stream(), bref.Distance(), octets[..];
    OverwriteNothing(s, d);
    for i := 0 to n
      invariant bref.Valid() && octets[..] == content
      invariant WroteFitting(s, d, BufBits(content[..i]), bref.Stream(), bref.Distance())
    {
      ghost var s1, d1 := bref.Stream(), bref.Distance();
      var _ := bref.Pack(octets[i], 8);
      BufBitsConcat(content[..i], [content[i]]);
      BufBitsOne(content[i]);
      assert content[..i + 1] == content[..i] + [content[i]];
      FittingThen(s, d, BufBits(content[..i]), s1, d1, Enc(content[i], 8), bref.Stream(), bref.Distance());
    }
    assert content[..n] == octets[..n];
  }

  class UnpackGuard {
    var len: nat
    const start: BitRef
    const tracker: BitRef

    ghost predicate Valid()
      reads this, start, tracker
    {
      tracker != start && tracker.buf == start.buf && tracker.Valid() && start.Valid()
    }

    constructor (bref: BitRef)
      requires bref.Valid()
      modifies bref`ptr, bref`offset
      ensures Valid() && tracker == bref && fresh(start)
      ensures start.Distance() == bref.Distance()
      ensures ParseLength(bref.Stream(), old(bref.Distance())).Parsed? ==>
        ParseLength(bref.Stream(), old(bref.Distance())) == Parsed(len, bref.Distance())
    {
      var n, _ := UnpackLength(bref);
      var saved := new BitRef.Copy(bref);
      len := n;
      start := saved;
      tracker := bref;
    }

    /** The destructor: skips what the decoder left of the field, and stops at the end of the stream.  The
        count of bits is unsigned, so after a decoder that went beyond the field it is close to 2^32. */
    method Close()
      requires Valid()
      modifies tracker`ptr, tracker`offset
      ensures Valid()
      ensures tracker.Distance() == Least(
          old(tracker.Distance()) + U32(start.Distance() + 8 * len - old(tracker.Distance())), |tracker.Stream()|)
      ensures old(tracker.Distance()) <= start.Distance() + 8 * len <= |tracker.Stream()| < 0x1_0000_0000 ==>
        tracker.Distance() == start.Distance() + 8 * len
    {
      var _, _ := tracker.Unpack(U32(len * 8 - (tracker.Distance() - start.Distance())));
    }
  }

  function Least(a: nat, b: nat): nat
  {
    if a <= b then a else b
  }
}

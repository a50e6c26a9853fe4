/** `bit_ref`, the mutable bit cursor of asn1_utils.cc. */
module BitCursor {
  import opened BitSeq
  import opened Octets

  datatype Code = Success | EncodeFail | DecodeFail

  // ---- Replacing part of one octet, seen on the whole buffer

  lemma {:induction false} StoreOctet(s: seq<Octet>, p: nat, r: Octet, o: nat, e: seq<bool>)
    requires p < |s| && o + |e| <= 8
    requires Enc(r, 8) == Enc(s[p], 8)[..o] + e + Enc(s[p], 8)[o + |e|..]
    ensures BufBits(s[p := r]) == Overwrite(BufBits(s), 8 * p + o, e)
  {
    if p == 0 {
      assert s[0 := r][1..] == s[1..];
      FirstOctet(Enc(s[0], 8), BufBits(s[1..]), o, e);
    } else {
      StoreOctet(s[1..], p - 1, r, o, e);
      assert s[p := r][1..] == s[1..][p - 1 := r];
      OverwriteTail(Enc(s[0], 8), BufBits(s[1..]), 8 * (p - 1) + o, e);
    }
  }

  lemma FirstOctet(a: seq<bool>, b: seq<bool>, o: nat, e: seq<bool>)
    requires o + |e| <= |a|
    ensures Overwrite(a + b, o, e) == a[..o] + e + a[o + |e|..] + b
  {
    OverwriteSlices(a + b, o, e);
  }

  lemma OverwriteTail(a: seq<bool>, b: seq<bool>, d: nat, e: seq<bool>)
    requires d + |e| <= |b|
    ensures Overwrite(a + b, |a| + d, e) == a + Overwrite(b, d, e)
  {
    OverwriteSlices(a + b, |a| + d, e);
    OverwriteSlices(b, d, e);
  }

  /** The bits of v that one octet takes from a field of n bits, when it has o bits in use. */
  function Chunk(o: nat, n: nat): (c: nat)
    requires o < 8
    ensures c <= n && o + c <= 8 && (n > 0 ==> c > 0)
  {
    if 8 - o > n then n else 8 - o
  }

  /** The octet update of the packing loop: the top bits of the n-bit value v, from bit o on. */
  method MergeTop(b: Octet, o: nat, v: nat, n: nat) returns (r: Octet)
    requires o < 8 && v < Pow2(n)
    ensures Enc(r, 8) == Enc(b, 8)[..o] + Enc(v, n)[..Chunk(o, n)] + Enc(b, 8)[o + Chunk(o, n)..]
  {
    ghost var c := Chunk(o, n);
    ShrBound(v, n, c);
    EncPrefix(v, n, c);
    PutBits(b, o, c, Shr(v, n - c));
    if 8 - o > n {
      r := Put(b, o, n, U8(Shl(v, 8 - o - n)));
    } else {
      r := Put(b, o, 8 - o, U8(Shr(v, n - 8 + o)));
    }
  }

  /** The octet read of the unpacking loop: the next bits of an n-bit value, in place. */
  method TakeTop(b: Octet, o: nat, n: nat) returns (part: nat)
    requires o < 8
    ensures part == Shl(Dec(Enc(b, 8)[o..o + Chunk(o, n)]), n - Chunk(o, n))
  {
    GetBits(b, o, Chunk(o, n));
    if 8 - o > n {
      part := Shr(Get(b, o, n), 8 - o - n);
      ShrShl(Dec(Enc(b, 8)[o..o + n]), 8 - o - n);
    } else {
      part := Shl(Get(b, o, 8 - o), n - 8 + o);
    }
  }

  /** Adding the next c bits of an n-bit field to a value that holds the bits before them. */
  lemma Accumulate(s: seq<bool>, d: nat, done: nat, c: nat, n: nat, val: nat, part: nat)
    requires d + done + c <= |s| && c <= n
    requires val == Shl(Read(s, d, done), n)
    requires part == Shl(Read(s, d + done, c), n - c)
    ensures val + part == Shl(Read(s, d, done + c), n - c)
  {
    ReadParts(s, d, done, c);
    ShlAdd(Shl(Read(s, d, done), c), Read(s, d + done, c), n - c);
    ShlShl(Read(s, d, done), c, n - c);
  }

  lemma {:induction false} OctetSlice(s: seq<Octet>, p: nat, o: nat, n: nat)
    requires p < |s| && o + n <= 8
    ensures BufBits(s)[8 * p + o..8 * p + o + n] == Enc(s[p], 8)[o..o + n]
  {
    if p > 0 {
      OctetSlice(s[1..], p - 1, o, n);
      assert BufBits(s)[8 * p + o..8 * p + o + n] == BufBits(s[1..])[8 * (p - 1) + o..8 * (p - 1) + o + n];
    }
  }

  /** The first k of the bits b are in place, from position d of the stream `was`. */
  predicate Begun(was: seq<bool>, d: nat, b: seq<bool>, k: nat, now: seq<bool>)
  {
    k <= |b| && d + k <= |was| && now == Overwrite(was, d, b[..k])
  }

  /** Writing c more bits, when v holds the n bits that are left. */
  lemma Advance(was: seq<bool>, d: nat, b: seq<bool>, k: nat, mid: seq<bool>, v: nat, n: nat, c: nat, now: seq<bool>)
    requires Begun(was, d, b, k, mid) && Enc(v, n) == b[k..] && c <= n && d + k + c <= |was|
    requires now == Overwrite(mid, d + k, Enc(v, n)[..c])
    ensures Begun(was, d, b, k + c, now) && Enc(v, n - c) == b[k + c..]
  {
    EncSuffix(v, n, c);
    OverwriteAppend(was, d, b[..k], b[k..][..c]);
    assert b[..k] + b[k..][..c] == b[..k + c];
    assert b[k..][c..] == b[k + c..];
  }

  /** Bits from position d to the next octet boundary. */
  function Padding(d: nat): (n: nat)
    ensures n < 8
  {
    if d == 0 then 0 else if d < 8 then 8 - d else Padding(d - 8)
  }

  lemma {:induction false} PaddingMod(d: nat)
    ensures (d + Padding(d)) % 8 == 0
    ensures Padding(d) == 0 <==> d % 8 == 0
  {
    if d >= 8 {
      PaddingMod(d - 8);
    }
  }

  lemma {:induction false} PaddingAt(p: nat, o: nat)
    requires o < 8
    ensures Padding(o + 8 * p) == if o == 0 then 0 else 8 - o
  {
    if p > 0 {
      PaddingAt(p - 1, o);
    }
  }

  /** Skipping one bit before aligning makes no difference inside an octet. */
  lemma {:induction false} PaddingNext(d: nat)
    ensures 1 + Padding(d + 1) == if Padding(d) == 0 then 8 else Padding(d)
  {
    if d >= 8 {
      PaddingNext(d - 8);
    }
  }

  /** The octet update of `align_bytes_zero`: keeps the o bits in use and clears the rest. */
  method ClearTail(b: Octet, o: nat) returns (r: Octet)
    requires 0 < o < 8
    ensures Enc(r, 8) == Enc(b, 8)[..o] + Zeros(8 - o) + Enc(b, 8)[o + (8 - o)..]
  {
    MaskedBits(b, o, 8 - o);
    Pow2Monotone(8 - o, 8);
    Pow2Eight();
    r := And(b, U8(256 - Pow2(8 - o)));
  }

  class BitRef {
    var buf: array<Octet>
    var ptr: nat
    var offset: nat

    ghost predicate Valid()
      reads this
    {
      offset < 8 && Distance() <= 8 * buf.Length
    }

    /** A cursor at the start of a region; the region is the array. */
    constructor (region: array<Octet>)
      ensures Valid() && buf == region && Distance() == 0
    {
      buf := region;
      ptr := 0;
      offset := 0;
    }

    /** A copy of another cursor. */
    constructor Copy(other: BitRef)
      ensures buf == other.buf && ptr == other.ptr && offset == other.offset
    {
      buf := other.buf;
      ptr := other.ptr;
      offset := other.offset;
    }

    /** Assignment of one cursor to another. */
    method Assign(other: BitRef)
      modifies this
      ensures buf == other.buf && ptr == other.ptr && offset == other.offset
    {
      buf := other.buf;
      ptr := other.ptr;
      offset := other.offset;
    }

    /** Bits from the start of the region to the cursor. */
    function Distance(): nat
      reads this
    {
      offset + 8 * ptr
    }

    /** The bits of the whole region. */
    ghost function Stream(): (s: seq<bool>)
      reads this, buf
      ensures |s| == 8 * buf.Length
    {
      BufBits(buf[..])
    }

    method Pack(val: nat, nBits: nat) returns (code: Code)
      requires Valid() && nBits <= 31
      modifies this`ptr, this`offset, buf
      ensures Valid()
      ensures code == if old(Distance()) + nBits <= 8 * buf.Length then Success else EncodeFail
      ensures code.Success? ==>
                Distance() == old(Distance()) + nBits
                && Stream() == Overwrite(old(Stream()), old(Distance()), Enc(val, nBits))
      ensures !code.Success? ==>
                Distance() == 8 * buf.Length
                && Distance() - old(Distance()) <= nBits
                && Stream() == Overwrite(old(Stream()), old(Distance()),
                                         Enc(val, nBits)[..Distance() - old(Distance())])
    {
      ghost var start, was, b, k: nat := Distance(), Stream(), Enc(val, nBits), 0;
      var v: nat, n: nat := val, nBits;
      OverwriteNothing(was, start);
      while n > 0
        invariant Valid() && k + n == nBits && Distance() == start + k
        invariant Enc(v, n) == b[k..] && Begun(was, start, b, k, Stream())
        decreases n
      {
        if ptr >= buf.Length {
          return EncodeFail;
        }
        EncLow(v, n);
        LowSmall(v, n);
        v := Low(v, n);
        ghost var c, mid, left := Chunk(offset, n), Stream(), n;
        n := PackOctet(v, n);
        Advance(was, start, b, k, mid, v, left, c, Stream());
        k := k + c;
      }
      assert b[..k] == b;
      code := Success;
    }

    /** Replaces the current octet by one that differs in the bits e from offset o on. */
    method Store(octet: Octet, ghost o: nat, ghost e: seq<bool>)
      requires Valid() && ptr < buf.Length && o + |e| <= 8
      requires Enc(octet, 8) == Enc(buf[ptr], 8)[..o] + e + Enc(buf[ptr], 8)[o + |e|..]
      modifies buf
      ensures Stream() == Overwrite(old(Stream()), 8 * ptr + o, e)
    {
      StoreOctet(buf[..], ptr, octet, o, e);
      ghost var now := buf[..];
      buf[ptr] := octet;
      assert buf[..] == now[ptr := octet];
    }

    /** Moves over the bits of the current octet that a field of n bits uses, and returns how many bits
        of the field are left. */
    method Move(n: nat) returns (left: nat)
      requires Valid() && ptr < buf.Length
      modifies this`ptr, this`offset
      ensures Valid() && left == n - Chunk(old(offset), n)
      ensures Distance() == old(Distance()) + Chunk(old(offset), n)
    {
      if 8 - offset > n {
        offset := offset + n;
        left := 0;
      } else {
        left := n - (8 - offset);
        offset := 0;
        ptr := ptr + 1;
      }
    }

    /** One iteration of the packing loop: fills what the current octet has room for. */
    method PackOctet(v: nat, n: nat) returns (left: nat)
      requires Valid() && ptr < buf.Length && v < Pow2(n)
      modifies this`ptr, this`offset, buf
      ensures Valid() && left == n - Chunk(old(offset), n)
      ensures Distance() == old(Distance()) + Chunk(old(offset), n)
      ensures Stream() == Overwrite(old(Stream()), old(Distance()), Enc(v, n)[..Chunk(old(offset), n)])
    {
      var octet := MergeTop(buf[ptr], offset, v, n);
      Store(octet, offset, Enc(v, n)[..Chunk(offset, n)]);
      left := Move(n);
    }

    /** Beyond 32 bits the source shifts by more than the width of its value; the cursor moves all the
        same, and nothing is said of the value. */
    method Unpack(nBits: nat) returns (val: nat, code: Code)
      requires Valid()
      modifies this`ptr, this`offset
      ensures Valid()
      ensures code == if old(Distance()) + nBits <= 8 * buf.Length then Success else DecodeFail
      ensures code.Success? ==>
                Distance() == old(Distance()) + nBits
                && (nBits <= 32 ==> val == Read(Stream(), old(Distance()), nBits))
      ensures !code.Success? ==>
                Distance() == 8 * buf.Length
                && (nBits <= 32 ==> val == Shl(Read(Stream(), old(Distance()), Distance() - old(Distance())),
                                               nBits - (Distance() - old(Distance()))))
    {
      ghost var start, s, done: nat := Distance(), Stream(), 0;
      var n: nat := nBits;
      val := 0;
      ShlZero(n);
      while n > 0
        invariant Valid() && done + n == nBits
        invariant Distance() == start + done <= |s|
        invariant val == Shl(Read(s, start, done), n)
        decreases n
      {
        if ptr >= buf.Length {
          return val, DecodeFail;
        }
        ghost var c := Chunk(offset, n);
        var part, left := UnpackOctet(n);
        Accumulate(s, start, done, c, n, val, part);
        val := val + part;
        n := left;
        done := done + c;
      }
      code := Success;
    }

    /** One iteration of the unpacking loop: what the current octet contributes to the value. */
    method UnpackOctet(n: nat) returns (part: nat, left: nat)
      requires Valid() && ptr < buf.Length
      modifies this`ptr, this`offset
      ensures Valid() && left == n - Chunk(old(offset), n)
      ensures Distance() == old(Distance()) + Chunk(old(offset), n)
      ensures part == Shl(Read(Stream(), old(Distance()), Chunk(old(offset), n)), left)
    {
      ReadIsDec(Stream(), Distance(), Chunk(offset, n));
      OctetSlice(buf[..], ptr, offset, Chunk(offset, n));
      part := TakeTop(buf[ptr], offset, n);
      left := Move(n);
    }

    method AlignBytes() returns (code: Code)
      requires Valid()
      modifies this`ptr, this`offset
      ensures Valid() && code == Success
      ensures Distance() == old(Distance()) + Padding(old(Distance()))
    {
      PaddingAt(ptr, offset);
      if offset == 0 {
        return Success;
      }
      if ptr >= buf.Length {
        return DecodeFail;
      }
      offset := 0;
      ptr := ptr + 1;
      code := Success;
    }

    method AlignBytesZero() returns (code: Code)
      requires Valid()
      modifies this`ptr, this`offset, buf
      ensures Valid() && code == Success
      ensures Distance() == old(Distance()) + Padding(old(Distance()))
      ensures Distance() <= 8 * buf.Length
      ensures Stream() == Overwrite(old(Stream()), old(Distance()), Zeros(Padding(old(Distance()))))
    {
      OverwriteNothing(Stream(), Distance());
      PaddingAt(ptr, offset);
      if offset == 0 {
        assert Zeros(0) == [];
        return Success;
      }
      if ptr >= buf.Length {
        return EncodeFail;
      }
      var octet := ClearTail(buf[ptr], offset);
      Store(octet, offset, Zeros(8 - offset));
      offset := 0;
      ptr := ptr + 1;
      code := Success;
    }
  }
}

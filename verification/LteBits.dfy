/** The bit and byte conversions of liblte_common.cc, where a bit is an octet that is 0 or 1. */
module LteBits {
  import opened BitSeq
  import opened Octets

  /** `v | (1 << k)` */
  function SetBit(v: nat, k: nat): nat
  {
    if k == 0 then v / 2 * 2 + 1 else 2 * SetBit(v / 2, k - 1) + v % 2
  }

  /** `v | (b << k)`, for a bit b */
  function OrBit(v: nat, b: Octet, k: nat): nat
  {
    if b == 1 then SetBit(v, k) else v
  }

  predicate AreBits(s: seq<Octet>)
  {
    forall i | 0 <= i < |s| :: s[i] <= 1
  }

  /** The bit string that octets 0 and 1 stand for. */
  function BitsOf(s: seq<Octet>): (b: seq<bool>)
    ensures |b| == |s|
  {
    seq(|s|, i requires 0 <= i < |s| => s[i] == 1)
  }

  lemma {:induction false} EncSetBit(v: nat, n: nat, k: nat)
    requires k < n
    ensures Enc(SetBit(v, k), n) == Enc(v, n)[n - 1 - k := true]
  {
    if k > 0 {
      EncSetBit(v / 2, n - 1, k - 1);
    } else {
      assert SetBit(v, 0) / 2 == v / 2;
    }
  }

  lemma {:induction false} SetBitBound(v: nat, n: nat, k: nat)
    requires k < n && v < Pow2(n)
    ensures SetBit(v, k) < Pow2(n)
  {
    if k > 0 {
      SetBitBound(v / 2, n - 1, k - 1);
    }
  }

  /** Setting the first of the low bits of a number whose low bits are clear. */
  lemma {:induction false} SetBitShl(x: nat, k: nat)
    ensures SetBit(Shl(x, k + 1), k) == Shl(2 * x + 1, k)
  {
    if k > 0 {
      SetBitShl(x, k - 1);
      assert Shl(x, k + 1) == 2 * Shl(x, k);
    } else {
      assert Shl(x, 1) == 2 * Shl(x, 0);
    }
  }

  lemma BitsAre(s: seq<Octet>, e: seq<bool>)
    requires |s| == |e| && forall k | 0 <= k < |s| :: s[k] == if e[k] then 1 else 0
    ensures AreBits(s) && BitsOf(s) == e
  {
  }

  /** `liblte_value_2_bits`: writes n bits from a position on and returns the position after them. */
  method Value2Bits(value: nat, bits: array<Octet>, at: nat, n: nat) returns (next: nat)
    requires at + n <= bits.Length && n <= 32
    modifies bits
    ensures next == at + n
    ensures AreBits(bits[at..next]) && BitsOf(bits[at..next]) == Enc(value, n)
    ensures bits[..at] == old(bits[..at]) && bits[next..] == old(bits[next..])
  {
    for i := 0 to n
      invariant forall k | 0 <= k < i :: bits[at + k] == if Enc(value, n)[k] then 1 else 0
      invariant bits[..at] == old(bits[..at]) && bits[at + n..] == old(bits[at + n..])
    {
      EncBit(value, n, i);
      bits[at + i] := Shr(value, n - i - 1) % 2;
    }
    next := at + n;
    BitsAre(bits[at..next], Enc(value, n));
  }

  lemma DecStep(b: seq<bool>, i: nat)
    requires i < |b|
    ensures Dec(b[..i + 1]) == 2 * Dec(b[..i]) + if b[i] then 1 else 0
  {
    ReadSame(b[..i + 1], 0, b[..i], 0, i);
  }

  /** `liblte_bits_2_value` */
  method Bits2Value(bits: array<Octet>, at: nat, n: nat) returns (value: nat, next: nat)
    requires at + n <= bits.Length && n <= 32 && AreBits(bits[at..at + n])
    ensures next == at + n && value == Dec(BitsOf(bits[at..next]))
  {
    ghost var b := BitsOf(bits[at..at + n]);
    value := 0;
    ShlZero(n);
    for i := 0 to n
      invariant value == Shl(Dec(b[..i]), n - i)
    {
      assert bits[at..at + n][i] == bits[at + i];
      DecStep(b, i);
      SetBitShl(Dec(b[..i]), n - i - 1);
      ShlShl(Dec(b[..i]), 1, n - i - 1);
      ShlOne(Dec(b[..i]));
      value := OrBit(value, bits[at + i], n - i - 1);
    }
    assert b[..n] == b;
    next := at + n;
  }

  lemma ShlOne(x: nat)
    ensures Shl(x, 1) == 2 * x
  {
    assert Shl(x, 0) == x;
  }

  // ---- Whole messages

  /** What `liblte_pack` makes of a bit string: eight bits to an octet, the bits that are left over
      right-justified in a last one. */
  function Packed(b: seq<bool>): (s: seq<Octet>)
    ensures |s| == (|b| + 7) / 8
  {
    if |b| == 0 then []
    else if |b| < 8 then ReadBound(b, 0, |b|); Pow2Monotone(|b|, 8); Pow2Eight(); [Dec(b)]
    else OctetBound(b[..8]); [Dec(b[..8])] + Packed(b[8..])
  }

  /** Packing the bits of octets gives the octets back. */
  lemma {:induction false} PackedBits(s: seq<Octet>)
    ensures Packed(BufBits(s)) == s
  {
    if |s| > 0 {
      PackedBits(s[1..]);
      assert BufBits(s)[..8] == Enc(s[0], 8) && BufBits(s)[8..] == BufBits(s[1..]);
      OctetRoundTrip(s[0]);
      assert s == [s[0]] + s[1..];
    }
  }

  lemma {:induction false} WholePacked(b: seq<bool>)
    requires |b| % 8 == 0
    ensures BufBits(Packed(b)) == b
  {
    if |b| > 0 {
      WholePacked(b[8..]);
      EncDec(b[..8]);
      assert Packed(b)[1..] == Packed(b[8..]);
      assert b == b[..8] + b[8..];
    }
  }

  lemma LeftOver(b: seq<bool>)
    requires 0 < |b| < 8
    ensures BufBits(Packed(b)) == Zeros(8 - |b|) + b
  {
    ReadBound(b, 0, |b|);
    EncPadLeft(Dec(b), 8 - |b|, |b|);
    EncDec(b);
    BufBitsOne(Packed(b)[0]);
  }

  /** Unpacking what was packed gives the bits back, with zeros before the bits that were left over: */
  lemma BitsPacked(whole: seq<bool>, rest: seq<bool>)
    requires |whole| % 8 == 0 && |rest| < 8
    ensures BufBits(Packed(whole + rest)) == whole + (if rest == [] then [] else Zeros(8 - |rest|) + rest)
  {
    PackedConcat(whole, rest);
    BufBitsConcat(Packed(whole), Packed(rest));
    WholePacked(whole);
    if |rest| > 0 { LeftOver(rest); }
  }

  /** the whole message survives exactly if it is a whole number of octets. */
  lemma PackThenUnpack(b: seq<bool>)
    ensures BufBits(Packed(b)) == b <==> |b| % 8 == 0
  {
    if |b| % 8 == 0 {
      WholePacked(b);
    } else {
      Eightfold(|Packed(b)|);
    }
  }

  lemma Eightfold(n: nat)
    ensures 8 * n % 8 == 0
  {
  }

  /** `liblte_unpack` */
  method Unpack(bytes: array<Octet>, nBytes: nat, bits: array<Octet>) returns (nBits: nat)
    requires nBytes <= bytes.Length && 8 * nBytes <= bits.Length && bytes != bits
    modifies bits
    ensures nBits == 8 * nBytes && AreBits(bits[..nBits]) && BitsOf(bits[..nBits]) == BufBits(bytes[..nBytes])
  {
    var ptr := 0;
    for i := 0 to nBytes
      invariant ptr == 8 * i && AreBits(bits[..ptr]) && BitsOf(bits[..ptr]) == BufBits(bytes[..i])
    {
      ghost var before := bits[..ptr];
      ptr := Value2Bits(bytes[i], bits, ptr, 8);
      assert bits[..ptr] == before + bits[8 * i..ptr];
      BufBitsConcat(bytes[..i], [bytes[i]]);
      BufBitsOne(bytes[i]);
      assert bytes[..i + 1] == bytes[..i] + [bytes[i]];
      BitsOfConcat(before, bits[8 * i..ptr]);
    }
    nBits := nBytes * 8;
  }

  lemma BitsOfConcat(a: seq<Octet>, b: seq<Octet>)
    ensures BitsOf(a + b) == BitsOf(a) + BitsOf(b)
  {
  }

  /** The loop of `liblte_pack`: the whole octets. */
  method PackWhole(bits: array<Octet>, q: nat, bytes: array<Octet>)
    requires 8 * q <= bits.Length && q <= bytes.Length && bytes != bits && AreBits(bits[..8 * q])
    modifies bytes
    ensures bytes[..q] == Packed(BitsOf(bits[..8 * q]))
  {
    for i := 0 to q
      invariant bytes[..i] == Packed(BitsOf(bits[..8 * i]))
    {
      BitsPrefix(bits[..], 8 * q, 8 * i + 8);
      PackOne(bits, i, bytes);
    }
  }

  lemma BitsPrefix(s: seq<Octet>, n: nat, k: nat)
    requires k <= n <= |s| && AreBits(s[..n])
    ensures AreBits(s[..k])
  {
    assert forall i | 0 <= i < k :: s[..k][i] == s[..n][i];
  }

  lemma BitsSlice(s: seq<Octet>, n: nat, at: nat, k: nat)
    requires at + k <= n <= |s| && AreBits(s[..n])
    ensures AreBits(s[at..at + k])
  {
    assert forall i | 0 <= i < n :: s[i] == s[..n][i];
  }

  /** One iteration of the loop. */
  method PackOne(bits: array<Octet>, q: nat, bytes: array<Octet>)
    requires 8 * q + 8 <= bits.Length && q < bytes.Length && bytes != bits
    requires AreBits(bits[..8 * q + 8]) && bytes[..q] == Packed(BitsOf(bits[..8 * q]))
    modifies bytes
    ensures bytes[..q + 1] == Packed(BitsOf(bits[..8 * q + 8]))
  {
    ghost var before, next := bits[..8 * q], bits[8 * q..8 * q + 8];
    assert bits[..8 * q + 8] == before + next;
    BitsSlice(bits[..], 8 * q + 8, 8 * q, 8);
    OneMore(before, next);
    var value, _ := Bits2Value(bits, 8 * q, 8);
    bytes[q] := value;
    assert bytes[..q + 1] == bytes[..q] + [value];
  }

  lemma OneMore(before: seq<Octet>, next: seq<Octet>)
    requires |before| % 8 == 0 && |next| == 8
    ensures Dec(BitsOf(next)) < 256
    ensures Packed(BitsOf(before + next)) == Packed(BitsOf(before)) + [Dec(BitsOf(next))]
  {
    BitsOfConcat(before, next);
    PackedConcat(BitsOf(before), BitsOf(next));
    OctetBound(BitsOf(next));
    assert BitsOf(next)[..8] == BitsOf(next) && BitsOf(next)[8..] == [];
  }

  lemma OneLast(before: seq<Octet>, next: seq<Octet>)
    requires |before| % 8 == 0 && 0 < |next| < 8
    ensures Dec(BitsOf(next)) < 256
    ensures Packed(BitsOf(before + next)) == Packed(BitsOf(before)) + [Dec(BitsOf(next))]
  {
    BitsOfConcat(before, next);
    PackedConcat(BitsOf(before), BitsOf(next));
    ReadBound(BitsOf(next), 0, |next|);
    Pow2Monotone(|next|, 8);
    Pow2Eight();
  }

  /** The octet of the bits that are left over. */
  method PackLast(bits: array<Octet>, q: nat, rest: nat, bytes: array<Octet>)
    requires 8 * q + rest <= bits.Length && 0 < rest < 8 && q < bytes.Length && bytes != bits
    requires AreBits(bits[..8 * q + rest]) && bytes[..q] == Packed(BitsOf(bits[..8 * q]))
    modifies bytes
    ensures bytes[..q + 1] == Packed(BitsOf(bits[..8 * q + rest]))
  {
    ghost var before, next := bits[..8 * q], bits[8 * q..8 * q + rest];
    assert bits[..8 * q + rest] == before + next;
    BitsSlice(bits[..], 8 * q + rest, 8 * q, rest);
    OneLast(before, next);
    var value, _ := Bits2Value(bits, 8 * q, rest);
    bytes[q] := value;
    assert bytes[..q + 1] == bytes[..q] + [value];
  }

  /** `liblte_pack` */
  method Pack(bits: array<Octet>, nBits: nat, bytes: array<Octet>) returns (nBytes: nat)
    requires nBits <= bits.Length && AreBits(bits[..nBits]) && (nBits + 7) / 8 <= bytes.Length && bytes != bits
    modifies bytes
    ensures nBytes == (nBits + 7) / 8 && bytes[..nBytes] == Packed(BitsOf(bits[..nBits]))
  {
    nBytes := nBits / 8;
    BitsPrefix(bits[..], nBits, 8 * nBytes);
    PackWhole(bits, nBytes, bytes);
    if nBits % 8 > 0 {
      PackLast(bits, nBytes, nBits % 8, bytes);
      nBytes := nBytes + 1;
    }
  }

  lemma {:induction false} PackedConcat(a: seq<bool>, b: seq<bool>)
    requires |a| % 8 == 0
    ensures Packed(a + b) == Packed(a) + Packed(b)
  {
    if |a| > 0 {
      PackedConcat(a[8..], b);
      assert (a + b)[..8] == a[..8] && (a + b)[8..] == a[8..] + b;
    } else {
      assert a + b == b;
    }
  }
}

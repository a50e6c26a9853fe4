/** Bit strings, and the unsigned arithmetic that moves integers in and out of them.

    A bit string is a `seq<bool>`, first transmitted bit first.  `Enc` and `Dec` are the
    fixed-width big-endian conversions of X.691 section 10.5; everything the codec writes or
    reads is described by them.  The C operators on unsigned words are defined by recursion on
    the amount, so that each law about them is a short induction. */
module BitSeq {

  function Pow2(n: nat): (p: nat)
    ensures p > 0
  {
    if n == 0 then 1 else 2 * Pow2(n - 1)
  }

  /** `v >> k` */
  function Shr(v: nat, k: nat): nat
  {
    if k == 0 then v else Shr(v / 2, k - 1)
  }

  /** `v << k`, where nothing is shifted out */
  function Shl(v: nat, k: nat): nat
  {
    if k == 0 then v else 2 * Shl(v, k - 1)
  }

  /** `v & ((1 << n) - 1)` */
  function Low(v: nat, n: nat): nat
  {
    if n == 0 then 0 else 2 * Low(v / 2, n - 1) + v % 2
  }

  /** The exact form of `ceil(log2(x))`, for x >= 1. */
  function CeilLog2(x: nat): nat
  {
    if x <= 1 then 0 else 1 + CeilLog2((x + 1) / 2)
  }

  /** The exact form of `floor(log2(x)) + 1`, for x >= 1. */
  function BitLength(x: nat): nat
  {
    if x == 0 then 0 else 1 + BitLength(x / 2)
  }

  /** The n low bits of v, most significant first. */
  function Enc(v: nat, n: nat): (b: seq<bool>)
    ensures |b| == n
  {
    if n == 0 then [] else Enc(v / 2, n - 1) + [v % 2 == 1]
  }

  /** The n-bit number found at position d of a bit string. */
  function Read(s: seq<bool>, d: nat, n: nat): nat
    requires d + n <= |s|
  {
    if n == 0 then 0 else 2 * Read(s, d, n - 1) + (if s[d + n - 1] then 1 else 0)
  }

  /** The number a bit string spells, most significant bit first. */
  function Dec(b: seq<bool>): nat
  {
    Read(b, 0, |b|)
  }

  function Zeros(n: nat): (b: seq<bool>)
    ensures |b| == n
  {
    seq(n, _ => false)
  }

  /** `s` with the bits from d on replaced by b. */
  function Overwrite(s: seq<bool>, d: nat, b: seq<bool>): (r: seq<bool>)
    requires d + |b| <= |s|
    ensures |r| == |s|
  {
    if d == 0 then b + s[|b|..] else [s[0]] + Overwrite(s[1..], d - 1, b)
  }

  lemma {:induction false} OverwriteSlices(s: seq<bool>, d: nat, b: seq<bool>)
    requires d + |b| <= |s|
    ensures Overwrite(s, d, b) == s[..d] + b + s[d + |b|..]
  {
    if d > 0 {
      OverwriteSlices(s[1..], d - 1, b);
      assert s == [s[0]] + s[1..];
    }
  }

  // ---- Enc and Dec undo each other

  /** Reading depends only on the bits read. */
  lemma {:induction false} ReadSame(s: seq<bool>, d: nat, t: seq<bool>, e: nat, n: nat)
    requires d + n <= |s| && e + n <= |t|
    requires s[d..d + n] == t[e..e + n]
    ensures Read(s, d, n) == Read(t, e, n)
  {
    if n > 0 {
      assert s[d..d + n][n - 1] == t[e..e + n][n - 1];
      assert s[d..d + n - 1] == s[d..d + n][..n - 1] == t[e..e + n - 1];
      ReadSame(s, d, t, e, n - 1);
    }
  }

  lemma {:induction false} DecEnc(v: nat, n: nat)
    ensures Dec(Enc(v, n)) == Low(v, n)
  {
    if n > 0 {
      DecEnc(v / 2, n - 1);
      ReadSame(Enc(v, n), 0, Enc(v / 2, n - 1), 0, n - 1);
    }
  }

  lemma {:induction false} EncRead(s: seq<bool>, d: nat, n: nat)
    requires d + n <= |s|
    ensures Enc(Read(s, d, n), n) == s[d..d + n]
  {
    if n > 0 {
      EncRead(s, d, n - 1);
      assert s[d..d + n] == s[d..d + n - 1] + [s[d + n - 1]];
    }
  }

  lemma EncDec(b: seq<bool>)
    ensures Enc(Dec(b), |b|) == b
  {
    EncRead(b, 0, |b|);
  }

  lemma {:induction false} ReadBound(s: seq<bool>, d: nat, n: nat)
    requires d + n <= |s|
    ensures Read(s, d, n) < Pow2(n)
  {
    if n > 0 {
      ReadBound(s, d, n - 1);
    }
  }

  lemma {:induction false} LowSmall(v: nat, n: nat)
    ensures Low(v, n) < Pow2(n)
    ensures Low(v, n) == v <==> v < Pow2(n)
  {
    if n > 0 {
      LowSmall(v / 2, n - 1);
    }
  }

  lemma {:induction false} EncLow(v: nat, n: nat)
    ensures Enc(Low(v, n), n) == Enc(v, n)
  {
    if n > 0 {
      EncLow(v / 2, n - 1);
    }
  }

  lemma {:induction false} EncInjective(v: nat, w: nat, n: nat)
    requires v < Pow2(n) && w < Pow2(n) && Enc(v, n) == Enc(w, n)
    ensures v == w
  {
    DecEnc(v, n); DecEnc(w, n);
    LowSmall(v, n); LowSmall(w, n);
  }

  // ---- How Enc splits

  lemma {:induction false} EncPrefix(v: nat, n: nat, c: nat)
    requires c <= n
    ensures Enc(v, n)[..c] == Enc(Shr(v, n - c), c)
    decreases n - c
  {
    if c < n {
      EncPrefix(v / 2, n - 1, c);
      assert Enc(v, n)[..c] == Enc(v / 2, n - 1)[..c];
    }
  }

  lemma {:induction false} EncSuffix(v: nat, n: nat, c: nat)
    requires c <= n
    ensures Enc(v, n)[c..] == Enc(v, n - c)
  {
    if c < n {
      EncSuffix(v / 2, n - 1, c);
      assert Enc(v, n)[c..] == Enc(v / 2, n - 1)[c..] + [v % 2 == 1];
    }
  }

  lemma EncSplit(v: nat, n: nat, c: nat)
    requires c <= n
    ensures Enc(v, n) == Enc(Shr(v, n - c), c) + Enc(v, n - c)
  {
    EncPrefix(v, n, c);
    EncSuffix(v, n, c);
    assert Enc(v, n) == Enc(v, n)[..c] + Enc(v, n)[c..];
  }

  lemma {:induction false} EncBit(v: nat, n: nat, j: nat)
    requires j < n
    ensures Enc(v, n)[j] <==> Shr(v, n - 1 - j) % 2 == 1
  {
    if j < n - 1 {
      EncBit(v / 2, n - 1, j);
    }
  }

  lemma {:induction false} ShrShr(v: nat, j: nat, k: nat)
    ensures Shr(Shr(v, j), k) == Shr(v, j + k)
  {
    if j > 0 {
      ShrShr(v / 2, j - 1, k);
    }
  }

  lemma {:induction false} ShrBound(v: nat, n: nat, c: nat)
    requires c <= n && v < Pow2(n)
    ensures Shr(v, n - c) < Pow2(c)
    decreases n - c
  {
    if c < n {
      ShrBound(v / 2, n - 1, c);
    }
  }


  lemma {:induction false} ShlAdd(x: nat, y: nat, k: nat)
    ensures Shl(x + y, k) == Shl(x, k) + Shl(y, k)
  {
    if k > 0 {
      ShlAdd(x, y, k - 1);
    }
  }

  lemma {:induction false} ShlZero(k: nat)
    ensures Shl(0, k) == 0
  {
    if k > 0 {
      ShlZero(k - 1);
    }
  }

  lemma {:induction false} ShlShl(x: nat, j: nat, k: nat)
    ensures Shl(Shl(x, j), k) == Shl(x, j + k)
  {
    if k > 0 {
      ShlShl(x, j, k - 1);
    }
  }

  lemma ReadIsDec(s: seq<bool>, d: nat, n: nat)
    requires d + n <= |s|
    ensures Read(s, d, n) == Dec(s[d..d + n])
  {
    ReadSame(s, d, s[d..d + n], 0, n);
  }

  /** Reading a field in two parts. */
  lemma {:induction false} ReadParts(s: seq<bool>, d: nat, j: nat, k: nat)
    requires d + j + k <= |s|
    ensures Read(s, d, j + k) == Shl(Read(s, d, j), k) + Read(s, d + j, k)
  {
    if k > 0 {
      ReadParts(s, d, j, k - 1);
    }
  }

  lemma ShlTwice(x: nat, y: nat, z: nat, d: nat, e: nat, j: nat, k: nat)
    requires x == Shl(y, k) + z && y == Shl(d, j) + e
    ensures x == Shl(d, j + k) + Shl(e, k) + z
  {
    ShlAdd(Shl(d, j), e, k);
    ShlShl(d, j, k);
  }

  lemma {:induction false} ReadConcat(a: seq<bool>, b: seq<bool>, n: nat)
    ensures n <= |a| ==> Read(a + b, 0, n) == Read(a, 0, n)
    ensures n <= |b| ==> Read(a + b, |a|, n) == Read(b, 0, n)
  {
    if n > 0 {
      ReadConcat(a, b, n - 1);
    }
  }

  lemma DecConcat(a: seq<bool>, b: seq<bool>)
    ensures Dec(a + b) == Shl(Dec(a), |b|) + Dec(b)
  {
    ReadParts(a + b, 0, |a|, |b|);
    ReadConcat(a, b, |a|);
    ReadConcat(a, b, |b|);
  }

  lemma DecThree(a: seq<bool>, b: seq<bool>, c: seq<bool>, all: seq<bool>)
    requires all == a + b + c
    ensures Dec(all) == Shl(Dec(a), |b| + |c|) + Shl(Dec(b), |c|) + Dec(c)
  {
    DecConcat(a + b, c);
    DecConcat(a, b);
    ShlTwice(Dec(all), Dec(a + b), Dec(c), Dec(a), Dec(b), |b|, |c|);
  }

  lemma {:induction false} EncZero(n: nat)
    ensures Enc(0, n) == Zeros(n)
  {
    if n > 0 {
      EncZero(n - 1);
    }
  }

  /** Leading zeros of a wider encoding. */
  lemma {:induction false} EncPadLeft(v: nat, o: nat, n: nat)
    requires v < Pow2(n)
    ensures Enc(v, o + n) == Zeros(o) + Enc(v, n)
  {
    EncSplit(v, o + n, o);
    ShrBound(v, n, 0);
    EncZero(o);
  }

  // ---- The shifts and the mask as arithmetic

  lemma {:induction false} LowAndShr(v: nat, n: nat)
    ensures v == Shl(Shr(v, n), n) + Low(v, n)
  {
    if n > 0 {
      LowAndShr(v / 2, n - 1);
    }
  }

  lemma {:induction false} ShlIsTimes(v: nat, k: nat)
    ensures Shl(v, k) == v * Pow2(k)
  {
    if k > 0 { ShlIsTimes(v, k - 1); }
  }

  lemma QuotientUnique(v: nat, q: nat, p: nat, r: nat)
    requires p > 0 && v == q * p + r && r < p
    ensures v / p == q && v % p == r
  {
    var k := v / p - q;
    assert k * p == r - v % p;
  }

  lemma ShrAndLow(v: nat, n: nat)
    ensures Shr(v, n) == v / Pow2(n) && Low(v, n) == v % Pow2(n)
  {
    LowAndShr(v, n);
    ShlIsTimes(Shr(v, n), n);
    LowSmall(v, n);
    QuotientUnique(v, Shr(v, n), Pow2(n), Low(v, n));
  }

  // ---- Logarithms

  lemma {:induction false} CeilLog2Bounds(x: nat)
    requires x >= 1
    ensures x <= Pow2(CeilLog2(x))
    ensures x > 1 ==> CeilLog2(x) >= 1 && Pow2(CeilLog2(x) - 1) < x
  {
    if x > 1 {
      CeilLog2Bounds((x + 1) / 2);
    }
  }

  lemma {:induction false} BitLengthBounds(x: nat)
    ensures x < Pow2(BitLength(x))
    ensures x >= 1 ==> BitLength(x) >= 1 && Pow2(BitLength(x) - 1) <= x
  {
    if x > 0 {
      BitLengthBounds(x / 2);
    }
  }

  lemma {:induction false} Pow2Monotone(a: nat, b: nat)
    requires a <= b
    ensures Pow2(a) <= Pow2(b)
  {
    if a < b {
      Pow2Monotone(a, b - 1);
    }
  }

  // ---- Overwrite

  lemma {:induction false} OverwriteNothing(s: seq<bool>, d: nat)
    requires d <= |s|
    ensures Overwrite(s, d, []) == s
  {
    OverwriteSlices(s, d, []);
  }

  lemma {:induction false} OverwriteAppend(s: seq<bool>, d: nat, a: seq<bool>, b: seq<bool>)
    requires d + |a| + |b| <= |s|
    ensures Overwrite(Overwrite(s, d, a), d + |a|, b) == Overwrite(s, d, a + b)
  {
    OverwriteSlices(s, d, a);
    OverwriteSlices(s, d, a + b);
    OverwriteSlices(Overwrite(s, d, a), d + |a|, b);
  }
}

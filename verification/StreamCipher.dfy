/** The output loops of `liblte_security_encryption_eea1`, over abstract bytes and keystream words.

    The source writes whole blocks in one loop and the bytes of the last block in another; both
    write one uniform sum with the bytes of the keystream.  The output may be the message buffer. */
module StreamCipher {
  import opened XorAlgebra

  /** Addition of bytes, the bytes of a word (most significant first), and clearing low bits. */
  datatype Ops<!B, !W> = Ops(g: Group<B>, byte: (W, nat) -> B, clear: (B, nat) -> B)

  predicate ClearAt<B(==), W>(o: Ops<B, W>, x: B, y: B, n: nat)
  {
    o.clear(o.g.add(o.clear(x, n), y), n) == o.clear(o.g.add(x, y), n)
  }

  predicate ClearNoneAt<B(==), W>(o: Ops<B, W>, x: B)
  {
    o.clear(x, 0) == x
  }

  ghost predicate OpsLaws<B(!new), W>(o: Ops<B, W>)
  {
    Laws(o.g) && (forall x, y, n: nat | n < 8 :: ClearAt(o, x, y, n)) && (forall x :: ClearNoneAt(o, x))
  }

  /** Octets of a message of this many bits, words of keystream for it, and unused low bits of its
      last octet. */
  function OctetsOf(bits: nat): nat { (bits + 7) / 8 }
  function WordsOf(bits: nat): nat { (bits + 31) / 32 }
  function SpareBits(bits: nat): nat { (8 - bits % 8) % 8 }

  /** Octet i of the keystream. */
  function KeyOctet<B, W>(o: Ops<B, W>, ks: seq<W>, i: nat): B
    requires i / 4 < |ks|
  {
    o.byte(ks[i / 4], i % 4)
  }

  lemma EnoughWords(bits: nat, i: nat)
    requires i < OctetsOf(bits)
    ensures i / 4 < WordsOf(bits)
  {
  }

  /** The sum of a message and the keystream, with the spare bits of the last octet cleared. */
  function Ciphered<B, W>(o: Ops<B, W>, ks: seq<W>, msg: seq<B>, bits: nat): (c: seq<B>)
    requires |msg| == OctetsOf(bits) && |ks| == WordsOf(bits)
    ensures |c| == |msg|
  {
    seq(|msg|, i requires 0 <= i < |msg| =>
      EnoughWords(bits, i);
      var sum := o.g.add(msg[i], KeyOctet(o, ks, i));
      if i == |msg| - 1 then o.clear(sum, SpareBits(bits)) else sum)
  }

  lemma CipheredAt<B, W>(o: Ops<B, W>, ks: seq<W>, msg: seq<B>, bits: nat, i: nat)
    requires |msg| == OctetsOf(bits) && |ks| == WordsOf(bits) && i < |msg|
    ensures i / 4 < |ks|
    ensures var sum := o.g.add(msg[i], o.byte(ks[i / 4], i % 4));
            Ciphered(o, ks, msg, bits)[i] == if i == |msg| - 1 then o.clear(sum, SpareBits(bits)) else sum
  {
    EnoughWords(bits, i);
    assert KeyOctet(o, ks, i) == o.byte(ks[i / 4], i % 4);
  }

  /** A message with the spare bits of its last octet cleared. */
  function Cleared<B, W>(o: Ops<B, W>, msg: seq<B>, bits: nat): (c: seq<B>)
    requires |msg| == OctetsOf(bits)
    ensures |c| == |msg|
  {
    seq(|msg|, i requires 0 <= i < |msg| => if i == |msg| - 1 then o.clear(msg[i], SpareBits(bits)) else msg[i])
  }

  /** Ciphering twice with the same keystream clears the spare bits and changes nothing else. */
  lemma CipheredTwice<B(!new), W>(o: Ops<B, W>, ks: seq<W>, msg: seq<B>, bits: nat)
    requires OpsLaws(o) && |msg| == OctetsOf(bits) && |ks| == WordsOf(bits)
    ensures Ciphered(o, ks, Ciphered(o, ks, msg, bits), bits) == Cleared(o, msg, bits)
  {
    var once := Ciphered(o, ks, msg, bits);
    forall i | 0 <= i < |msg| ensures Ciphered(o, ks, once, bits)[i] == Cleared(o, msg, bits)[i] {
      EnoughWords(bits, i);
      var key := KeyOctet(o, ks, i);
      assert AssocAt(o.g, msg[i], key, key) && SelfAt(o.g, key) && SelfAt(o.g, msg[i]);
      assert ClearAt(o, o.g.add(msg[i], key), key, SpareBits(bits));
    }
  }

  /** Whole octets are ciphered alike whatever follows them. */
  lemma CipheredPrefix<B(!new), W>(o: Ops<B, W>, ks: seq<W>, msg: seq<B>, bits: nat, n: nat)
    requires OpsLaws(o) && |msg| == OctetsOf(bits) && |ks| == WordsOf(bits) && n < |msg|
    ensures WordsOf(8 * n) <= |ks|
    ensures Ciphered(o, ks[..WordsOf(8 * n)], msg[..n], 8 * n) == Ciphered(o, ks, msg, bits)[..n]
  {
    var part := Ciphered(o, ks[..WordsOf(8 * n)], msg[..n], 8 * n);
    forall i | 0 <= i < n ensures part[i] == Ciphered(o, ks, msg, bits)[i] {
      EnoughWords(8 * n, i);
      EnoughWords(bits, i);
      assert SpareBits(8 * n) == 0;
      var key := KeyOctet(o, ks, i);
      assert KeyOctet(o, ks[..WordsOf(8 * n)], i) == key;
      assert ClearNoneAt(o, o.g.add(msg[i], key));
    }
  }

  /** The first n octets of out are the sum of message and keystream, the others those of was. */
  ghost predicate Summed<B, W>(o: Ops<B, W>, ks: seq<W>, msg: seq<B>, was: seq<B>, out: seq<B>, n: nat)
  {
    n <= |msg| && n <= 4 * |ks| && n <= |out| == |was|
    && (forall i | 0 <= i < n :: out[i] == o.g.add(msg[i], KeyOctet(o, ks, i)))
    && (forall i | n <= i < |out| :: out[i] == was[i])
  }

  /** Four octets at once: the body of the first loop. */
  method SumBlock<B, W>(o: Ops<B, W>, w: W, msg: array<B>, out: array<B>, i: nat)
    requires 4 * i + 4 <= msg.Length && 4 * i + 4 <= out.Length
    modifies out
    ensures forall j | 0 <= j < 4 :: out[4 * i + j] == o.g.add(old(msg[4 * i + j]), o.byte(w, j))
    ensures forall j | 0 <= j < out.Length && !(4 * i <= j < 4 * i + 4) :: out[j] == old(out[j])
  {
    out[4 * i + 0] := o.g.add(msg[4 * i + 0], o.byte(w, 0));
    out[4 * i + 1] := o.g.add(msg[4 * i + 1], o.byte(w, 1));
    out[4 * i + 2] := o.g.add(msg[4 * i + 2], o.byte(w, 2));
    out[4 * i + 3] := o.g.add(msg[4 * i + 3], o.byte(w, 3));
  }

  lemma SummedBlock<B, W>(o: Ops<B, W>, ks: seq<W>, msg: seq<B>, was: seq<B>, mid: seq<B>, out: seq<B>, i: nat)
    requires Summed(o, ks, msg, was, mid, 4 * i) && i < |ks| && 4 * i + 4 <= |msg|
    requires |out| == |mid| >= 4 * i + 4
    requires forall j | 0 <= j < 4 :: out[4 * i + j] == o.g.add(msg[4 * i + j], o.byte(ks[i], j))
    requires forall j | 0 <= j < |out| && !(4 * i <= j < 4 * i + 4) :: out[j] == mid[j]
    ensures Summed(o, ks, msg, was, out, 4 * (i + 1))
  {
    forall k | 0 <= k < 4 * (i + 1) ensures out[k] == o.g.add(msg[k], KeyOctet(o, ks, k)) {
      if k >= 4 * i {
        var j := k - 4 * i;
        assert k / 4 == i && k % 4 == j;
      }
    }
  }

  /** The first loop. */
  method SumBlocks<B, W>(o: Ops<B, W>, ks: seq<W>, msg: array<B>, out: array<B>, blocks: nat)
    requires blocks <= |ks| && 4 * blocks <= msg.Length && 4 * blocks <= out.Length
    modifies out
    ensures Summed(o, ks, old(msg[..]), old(out[..]), out[..], 4 * blocks)
  {
    ghost var m, was := msg[..], out[..];
    for i := 0 to blocks
      invariant Summed(o, ks, m, was, out[..], 4 * i)
      invariant msg != out ==> msg[..] == m
    {
      ghost var mid := out[..];
      SumBlock(o, ks[i], msg, out, i);
      SummedBlock(o, ks, m, was, mid, out[..], i);
    }
  }

  /** The second loop. */
  method SumRest<B, W>(o: Ops<B, W>, ks: seq<W>, msg: array<B>, out: array<B>, start: nat, n: nat,
                       ghost m: seq<B>, ghost was: seq<B>)
    requires start <= n <= msg.Length && n <= out.Length && n <= 4 * |ks|
    requires Summed(o, ks, m, was, out[..], start) && msg[start..] == m[start..] && |m| == msg.Length
    modifies out
    ensures Summed(o, ks, m, was, out[..], n)
  {
    for i := start to n
      invariant Summed(o, ks, m, was, out[..], i)
      invariant forall k | i <= k < msg.Length :: msg[k] == m[k]
    {
      out[i] := o.g.add(msg[i], o.byte(ks[i / 4], i % 4));
    }
  }

  /** Both loops, then `zero_tailing_bits`. */
  method ApplyKeystream<B, W>(o: Ops<B, W>, ks: seq<W>, msg: array<B>, bits: nat, out: array<B>)
    requires bits > 0 && |ks| == WordsOf(bits)
    requires msg.Length >= OctetsOf(bits) && out.Length >= OctetsOf(bits)
    modifies out
    ensures out[..OctetsOf(bits)] == Ciphered(o, ks, old(msg[..OctetsOf(bits)]), bits)
    ensures out[OctetsOf(bits)..] == old(out[OctetsOf(bits)..])
  {
    ghost var m, was := msg[..], out[..];
    var octets, words := (bits + 7) / 8, (bits + 31) / 32;
    SumBlocks(o, ks, msg, out, words - 1);
    SumRest(o, ks, msg, out, (words - 1) * 4, octets, m, was);
    ghost var sum := out[..];
    ClearTail(o, out, bits);
    SummedCiphered(o, ks, m, was, sum, out[..], bits);
  }

  /** `zero_tailing_bits` */
  method ClearTail<B, W>(o: Ops<B, W>, data: array<B>, bits: nat)
    requires bits > 0 && data.Length >= OctetsOf(bits)
    modifies data
    ensures data[..] == old(data[..])[OctetsOf(bits) - 1 := o.clear(old(data[OctetsOf(bits) - 1]), SpareBits(bits))]
  {
    var spare := (8 - bits % 8) % 8;
    data[(bits + 7) / 8 - 1] := o.clear(data[(bits + 7) / 8 - 1], spare);
  }

  lemma SummedCiphered<B, W>(o: Ops<B, W>, ks: seq<W>, msg: seq<B>, was: seq<B>, sum: seq<B>, out: seq<B>, bits: nat)
    requires bits > 0 && |ks| == WordsOf(bits) && Summed(o, ks, msg, was, sum, OctetsOf(bits))
    requires out == sum[OctetsOf(bits) - 1 := o.clear(sum[OctetsOf(bits) - 1], SpareBits(bits))]
    ensures out[..OctetsOf(bits)] == Ciphered(o, ks, msg[..OctetsOf(bits)], bits)
    ensures out[OctetsOf(bits)..] == was[OctetsOf(bits)..]
  {
  }
}

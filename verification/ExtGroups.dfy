/** `ext_groups_header` of asn1_utils.cc: which extension groups are present.

    Trailing absent groups are not sent: the header carries the number of groups up to the last
    present one, as a normally small number, and one flag for each of them. */
module ExtGroups {
  import opened BitSeq
  import opened BitCursor
  import opened PerInteger

  /** Capacity of the source's bounded array. */
  const MAX_GROUPS := 20

  /** Conversion to the 32-bit unsigned type of the counters. */
  function U32(x: int): (r: nat)
    ensures r < 0x1_0000_0000
  {
    x % 0x1_0000_0000
  }

  /** One more than the index of the last group present, zero if there is none. */
  function LastSet(groups: seq<bool>): (n: nat)
    ensures n <= |groups|
    ensures forall i | n <= i < |groups| :: !groups[i]
    ensures n > 0 ==> groups[n - 1]
  {
    if |groups| == 0 then 0 else if groups[|groups| - 1] then |groups| else LastSet(groups[..|groups| - 1])
  }

  /** The number sent in the header; the source computes it in 32 bits. */
  function SentCount(groups: seq<bool>, nogroups: nat): nat
  {
    U32(LastSet(groups) + nogroups - 1)
  }

  function HeaderBits(groups: seq<bool>, nogroups: nat): seq<bool>
  {
    SmallBits(SentCount(groups, nogroups)) + groups[..LastSet(groups)]
  }

  /** Decoding into a header that holds the flags `was`. */
  function ParseHeader(was: seq<bool>, nogroups: nat, s: seq<bool>, d: nat): Parse<seq<bool>>
  {
    match ParseSmall(s, d)
    case Failed => Failed
    case Parsed(n, p) =>
      var count := U32(n + 1 - nogroups);
      if count > |was| || p + count > |s| then Failed else Parsed(s[p..p + count] + was[count..], p + count)
  }

  lemma CountReturns(k: nat, nogroups: nat)
    requires k < 0x1_0000_0000
    ensures U32(U32(k + nogroups - 1) + 1 - nogroups) == k
  {
    var m := 0x1_0000_0000;
    var x := k + nogroups - 1;
    assert x == m * (x / m) + x % m;
    assert U32(x) + 1 - nogroups == k + m * (-(x / m));
    Wraps(k, -(x / m));
  }

  lemma Wraps(k: nat, q: int)
    requires k < 0x1_0000_0000
    ensures U32(k + 0x1_0000_0000 * q) == k
  {
    var m := 0x1_0000_0000;
    assert (k + m * q) / m == q;
  }

  /** Every header the encoder accepts comes back, flag for flag, from a fresh header of its size. */
  lemma HeaderRoundTrip(groups: seq<bool>, nogroups: nat, s: seq<bool>, d: nat)
    requires |groups| <= MAX_GROUPS && SentCount(groups, nogroups) <= 63
    requires At(s, d, HeaderBits(groups, nogroups))
    ensures ParseHeader(Zeros(|groups|), nogroups, s, d)
            == Parsed(groups, d + |HeaderBits(groups, nogroups)|)
  {
    var n, flags := SentCount(groups, nogroups), groups[..LastSet(groups)];
    AtParts(s, d, SmallBits(n), flags);
    SmallRoundTrip(s, d, n);
    CountReturns(|flags|, nogroups);
    HeaderParses(Zeros(|groups|), nogroups, s, d, n, flags);
    TrailingZeros(groups, LastSet(groups));
  }

  lemma HeaderParses(was: seq<bool>, nogroups: nat, s: seq<bool>, d: nat, n: nat, flags: seq<bool>)
    requires ParseSmall(s, d) == Parsed(n, d + 7) && U32(n + 1 - nogroups) == |flags| <= |was|
    requires At(s, d + 7, flags)
    ensures ParseHeader(was, nogroups, s, d) == Parsed(flags + was[|flags|..], d + 7 + |flags|)
  {
  }

  /** The flags that are not sent are those of a fresh header. */
  lemma TrailingZeros(groups: seq<bool>, k: nat)
    requires k <= |groups| && forall i | k <= i < |groups| :: !groups[i]
    ensures groups == groups[..k] + Zeros(|groups|)[k..]
  {
  }

  lemma U32Small(x: int)
    ensures 0 <= x < 0x1_0000_0000 ==> U32(x) == x
    ensures x == -1 ==> U32(x) == 0xFFFF_FFFF
  {
  }

  /** The encoder accepts a header exactly if the groups up to the last present one, together with
      the additions that are not groups, number between 1 and 64. */
  lemma Sendable(groups: seq<bool>, nogroups: nat)
    requires |groups| <= MAX_GROUPS && nogroups <= 0x1_0000_0000 - MAX_GROUPS
    ensures SentCount(groups, nogroups) <= 63 <==> 1 <= LastSet(groups) + nogroups <= 64
  {
    U32Small(LastSet(groups) + nogroups - 1);
  }

  class ExtGroupsHeader {
    var nofGroups: nat
    const nofNogroups: nat
    var groups: seq<bool>

    ghost predicate Valid()
      reads this
    {
      |groups| <= MAX_GROUPS
    }

    constructor (maxNofGroups: nat, nogroups: nat)
      requires maxNofGroups <= MAX_GROUPS
      ensures Valid() && groups == Zeros(maxNofGroups) && nofNogroups == nogroups
    {
      nofNogroups := nogroups;
      groups := Zeros(maxNofGroups);
      nofGroups := maxNofGroups + 1;
    }

    /** The first loop of `pack_nof_groups`. */
    method CountGroups()
      modifies `nofGroups
      ensures nofGroups == LastSet(groups)
    {
      nofGroups := 0;
      for i := 0 to |groups|
        invariant nofGroups == LastSet(groups[..i])
      {
        assert groups[..i + 1][..i] == groups[..i];
        if groups[i] {
          nofGroups := i + 1;
        }
      }
      assert groups[..|groups|] == groups;
    }

    method PackNofGroups(bref: BitRef) returns (code: Code)
      requires Valid() && bref.Valid()
      modifies `nofGroups, bref`ptr, bref`offset, bref.buf
      ensures Valid() && bref.Valid() && nofGroups == LastSet(groups)
      ensures code.Success? <==>
        SentCount(groups, nofNogroups) <= 63 && old(bref.Distance()) + 7 <= |bref.Stream()|
      ensures code.Success? ==>
        Wrote(old(bref.Stream()), old(bref.Distance()), SmallBits(SentCount(groups, nofNogroups)),
              bref.Stream(), bref.Distance())
    {
      CountGroups();
      if nofGroups > |groups| {
        return EncodeFail;
      }
      code := PackNormSmall(bref, U32(nofGroups + nofNogroups - 1));
    }

    method PackGroupFlags(bref: BitRef) returns (code: Code)
      requires Valid() && bref.Valid() && nofGroups <= |groups|
      modifies bref`ptr, bref`offset, bref.buf
      ensures Valid() && bref.Valid()
      ensures code.Success? <==> old(bref.Distance()) + nofGroups <= |bref.Stream()|
      ensures code.Success? ==>
        Wrote(old(bref.Stream()), old(bref.Distance()), groups[..nofGroups], bref.Stream(), bref.Distance())
    {
      ghost var s, d := bref.Stream(), bref.Distance();
      OverwriteNothing(s, d);
      code := Success;
      for i := 0 to nofGroups
        invariant bref.Valid() && code.Success? && |bref.Stream()| == |s|
        invariant Wrote(s, d, groups[..i], bref.Stream(), bref.Distance())
      {
        ghost var s1, d1, sent := bref.Stream(), bref.Distance(), groups[..i];
        code := bref.Pack(if groups[i] then 1 else 0, 1);
        if !code.Success? { return; }
        FlagBit(groups[i]);
        WroteThen(s, d, sent, s1, d1, [groups[i]], bref.Stream(), bref.Distance());
        assert groups[..i + 1] == sent + [groups[i]];
      }
    }

    method Pack(bref: BitRef) returns (code: Code)
      requires Valid() && bref.Valid()
      modifies `nofGroups, bref`ptr, bref`offset, bref.buf
      ensures Valid() && bref.Valid()
      ensures code.Success? <==>
        SentCount(groups, nofNogroups) <= 63
        && old(bref.Distance()) + |HeaderBits(groups, nofNogroups)| <= |bref.Stream()|
      ensures code.Success? ==>
        Wrote(old(bref.Stream()), old(bref.Distance()), HeaderBits(groups, nofNogroups),
              bref.Stream(), bref.Distance())
    {
      ghost var s, d := bref.Stream(), bref.Distance();
      code := PackNofGroups(bref);
      if !code.Success? { return; }
      ghost var s1, d1 := bref.Stream(), bref.Distance();
      code := PackGroupFlags(bref);
      if !code.Success? { return; }
      WroteThen(s, d, SmallBits(SentCount(groups, nofNogroups)), s1, d1, groups[..nofGroups],
                bref.Stream(), bref.Distance());
    }

    method UnpackNofGroups(bref: BitRef) returns (code: Code)
      requires Valid() && bref.Valid()
      modifies `nofGroups, bref`ptr, bref`offset
      ensures Valid() && bref.Valid()
      ensures code.Success? <==>
        ParseSmall(bref.Stream(), old(bref.Distance())).Parsed?
        && U32(ParseSmall(bref.Stream(), old(bref.Distance())).value + 1 - nofNogroups) <= |groups|
      ensures code.Success? ==>
        nofGroups == U32(ParseSmall(bref.Stream(), old(bref.Distance())).value + 1 - nofNogroups)
        && bref.Distance() == ParseSmall(bref.Stream(), old(bref.Distance())).pos
    {
      nofGroups, code := UnpackNormSmall(bref);
      if !code.Success? { return; }
      nofGroups := U32(nofGroups + 1 - nofNogroups);
      if nofGroups > |groups| {
        code := DecodeFail;
      }
    }

    method UnpackGroupFlags(bref: BitRef) returns (code: Code)
      requires Valid() && bref.Valid() && nofGroups <= |groups|
      modifies `groups, bref`ptr, bref`offset
      ensures Valid() && bref.Valid() && |groups| == old(|groups|)
      ensures code.Success? <==> old(bref.Distance()) + nofGroups <= |bref.Stream()|
      ensures code.Success? ==>
        bref.Distance() == old(bref.Distance()) + nofGroups
        && groups == bref.Stream()[old(bref.Distance())..bref.Distance()] + old(groups)[nofGroups..]
    {
      ghost var s, d, was := bref.Stream(), bref.Distance(), groups;
      code := Success;
      for i := 0 to nofGroups
        invariant bref.Valid() && code.Success? && |groups| == |was|
        invariant bref.Distance() == d + i <= |s|
        invariant forall k | 0 <= k < |groups| :: groups[k] == if k < i then s[d + k] else was[k]
      {
        var flag;
        flag, code := bref.Unpack(1);
        if !code.Success? { return; }
        assert Read(s, d + i, 0) == 0;
        groups := groups[i := flag == 1];
      }
    }

    method Unpack(bref: BitRef) returns (code: Code)
      requires Valid() && bref.Valid()
      modifies `nofGroups, `groups, bref`ptr, bref`offset
      ensures Valid() && bref.Valid()
      ensures code.Success? <==>
        ParseHeader(old(groups), nofNogroups, bref.Stream(), old(bref.Distance())).Parsed?
      ensures code.Success? ==>
        ParseHeader(old(groups), nofNogroups, bref.Stream(), old(bref.Distance()))
        == Parsed(groups, bref.Distance())
    {
      code := UnpackNofGroups(bref);
      if !code.Success? { return; }
      code := UnpackGroupFlags(bref);
    }
  }

  lemma FlagBit(flag: bool)
    ensures Enc(if flag then 1 else 0, 1) == [flag]
  {
    assert Enc(if flag then 1 else 0, 1) == Enc(0, 0) + [flag];
  }
}

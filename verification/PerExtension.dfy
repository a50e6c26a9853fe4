/** Extension additions as the generated RRC codecs write them with the two classes of
    asn1_utils.cc: the header that says which groups are present, then one open field for each. */
module PerExtension {
  import opened BitSeq
  import opened BitCursor
  import opened PerInteger
  import opened PerAligned
  import opened OpenField
  import opened ExtGroups

  datatype Option<+T> = Some(value: T) | None

  /** A group that may be sent: its contents, the number they stand for, and its decoder. */
  datatype Group<T> = Group(contents: seq<bool>, value: T, dec: Decoder<T>)

  /** The group comes back from its own codec, and fits the guard. */
  ghost predicate Sound<T(!new)>(g: Group<T>)
  {
    |g.contents| <= 8 * GUARD_OCTETS && Undoes(g.dec, g.contents, g.value, false)
  }

  /** Every group that is present is sound. */
  ghost predicate AllSound<T(!new)>(present: seq<bool>, groups: seq<Group<T>>)
    requires |present| == |groups|
  {
    |present| > 0 ==> (present[0] ==> Sound(groups[0])) && AllSound(present[1..], groups[1..])
  }

  function AdditionBits<T>(present: seq<bool>, groups: seq<Group<T>>): seq<bool>
    requires |present| == |groups|
  {
    if |present| == 0 then []
    else (if present[0] then OpenBits(groups[0].contents) else []) + AdditionBits(present[1..], groups[1..])
  }

  function ExtensionBits<T>(present: seq<bool>, nogroups: nat, groups: seq<Group<T>>): seq<bool>
    requires |present| == |groups|
  {
    HeaderBits(present, nogroups) + AdditionBits(present, groups)
  }

  function ParseAdditions<T>(present: seq<bool>, decs: seq<Decoder<T>>, s: seq<bool>, d: nat): Parse<seq<Option<T>>>
    requires |present| == |decs|
    decreases |present|
  {
    if |present| == 0 then Parsed([], d) else
    match ParseAddition(present[0], decs[0], s, d)
    case Failed => Failed
    case Parsed(v, p) =>
      match ParseAdditions(present[1..], decs[1..], s, p)
      case Failed => Failed
      case Parsed(vs, q) => Parsed([v] + vs, q)
  }

  function ParseAddition<T>(present: bool, dec: Decoder<T>, s: seq<bool>, d: nat): Parse<Option<T>>
  {
    if !present then Parsed(None, d) else
    match ParseOpen(dec, s, d)
    case Failed => Failed
    case Parsed(v, p) => Parsed(Some(v), p)
  }

  function ParseExtension<T>(nogroups: nat, decs: seq<Decoder<T>>, s: seq<bool>, d: nat): Parse<seq<Option<T>>>
  {
    match ParseHeader(Zeros(|decs|), nogroups, s, d)
    case Failed => Failed
    case Parsed(present, p) => if |present| == |decs| then ParseAdditions(present, decs, s, p) else Failed
  }

  function Decoders<T>(groups: seq<Group<T>>): (decs: seq<Decoder<T>>)
    ensures |decs| == |groups|
  {
    if |groups| == 0 then [] else [groups[0].dec] + Decoders(groups[1..])
  }

  /** What the receiver should end up with. */
  function Values<T>(present: seq<bool>, groups: seq<Group<T>>): seq<Option<T>>
    requires |present| == |groups|
  {
    if |present| == 0 then []
    else [if present[0] then Some(groups[0].value) else None] + Values(present[1..], groups[1..])
  }

  lemma AdditionReads<T(!new)>(present: bool, g: Group<T>, s: seq<bool>, d: nat)
    requires present ==> Sound(g) && At(s, d, OpenBits(g.contents))
    ensures ParseAddition(present, g.dec, s, d)
            == if present then Parsed(Some(g.value), d + |OpenBits(g.contents)|) else Parsed(None, d)
  {
    if present {
      OctsIs(|g.contents|);
      OpenReads(g.dec, g.contents, g.value, false, s, d);
    }
  }

  /** One step of the bits, the decoders, the values and the parser. */
  lemma AdditionsStep<T>(present: seq<bool>, groups: seq<Group<T>>, s: seq<bool>, d: nat,
                         v: Option<T>, p: nat, vs: seq<Option<T>>, q: nat)
    requires |present| == |groups| > 0
    requires ParseAddition(present[0], groups[0].dec, s, d) == Parsed(v, p)
    requires ParseAdditions(present[1..], Decoders(groups[1..]), s, p) == Parsed(vs, q)
    ensures ParseAdditions(present, Decoders(groups), s, d) == Parsed([v] + vs, q)
  {
    assert Decoders(groups)[1..] == Decoders(groups[1..]);
  }

  lemma {:induction false} AdditionsRoundTrip<T(!new)>(present: seq<bool>, groups: seq<Group<T>>, s: seq<bool>, d: nat)
    requires |present| == |groups| && AllSound(present, groups)
    requires At(s, d, AdditionBits(present, groups))
    ensures ParseAdditions(present, Decoders(groups), s, d)
            == Parsed(Values(present, groups), d + |AdditionBits(present, groups)|)
    decreases |present|
  {
    if |present| > 0 {
      var first := if present[0] then OpenBits(groups[0].contents) else [];
      var rest := AdditionBits(present[1..], groups[1..]);
      AtParts(s, d, first, rest);
      AdditionReads(present[0], groups[0], s, d);
      AdditionsRoundTrip(present[1..], groups[1..], s, d + |first|);
      AdditionsStep(present, groups, s, d, if present[0] then Some(groups[0].value) else None, d + |first|,
                    Values(present[1..], groups[1..]), d + |first| + |rest|);
    }
  }

  /** A whole extension comes back: the receiver learns which groups were sent and gets each of them,
      whenever the header can be sent at all and each group has a sound codec of its own. */
  lemma ExtensionRoundTrip<T(!new)>(present: seq<bool>, nogroups: nat, groups: seq<Group<T>>, s: seq<bool>, d: nat)
    requires |present| == |groups| <= MAX_GROUPS && SentCount(present, nogroups) <= 63
    requires AllSound(present, groups)
    requires At(s, d, ExtensionBits(present, nogroups, groups))
    ensures ParseExtension(nogroups, Decoders(groups), s, d)
            == Parsed(Values(present, groups), d + |ExtensionBits(present, nogroups, groups)|)
  {
    ExtensionAt(present, nogroups, groups, s, d);
    ExtensionReads(present, nogroups, groups, s, d, d + |HeaderBits(present, nogroups)|);
  }

  lemma ExtensionReads<T(!new)>(present: seq<bool>, nogroups: nat, groups: seq<Group<T>>, s: seq<bool>, d: nat, p: nat)
    requires |present| == |groups| && AllSound(present, groups)
    requires ParseHeader(Zeros(|present|), nogroups, s, d) == Parsed(present, p)
    requires At(s, p, AdditionBits(present, groups))
    ensures ParseExtension(nogroups, Decoders(groups), s, d)
            == Parsed(Values(present, groups), p + |AdditionBits(present, groups)|)
  {
    AdditionsRoundTrip(present, groups, s, p);
    ExtensionParses(nogroups, Decoders(groups), s, d, present, p,
                    Parsed(Values(present, groups), p + |AdditionBits(present, groups)|));
  }

  /** Where the header and the groups stand. */
  lemma ExtensionAt<T>(present: seq<bool>, nogroups: nat, groups: seq<Group<T>>, s: seq<bool>, d: nat)
    requires |present| == |groups| <= MAX_GROUPS && SentCount(present, nogroups) <= 63
    requires At(s, d, ExtensionBits(present, nogroups, groups))
    ensures ParseHeader(Zeros(|present|), nogroups, s, d) == Parsed(present, d + |HeaderBits(present, nogroups)|)
    ensures At(s, d + |HeaderBits(present, nogroups)|, AdditionBits(present, groups))
  {
    AtParts(s, d, HeaderBits(present, nogroups), AdditionBits(present, groups));
    HeaderRoundTrip(present, nogroups, s, d);
  }

  lemma ExtensionParses<T>(nogroups: nat, decs: seq<Decoder<T>>, s: seq<bool>, d: nat,
                           present: seq<bool>, p: nat, result: Parse<seq<Option<T>>>)
    requires ParseHeader(Zeros(|decs|), nogroups, s, d) == Parsed(present, p) && |present| == |decs|
    requires ParseAdditions(present, decs, s, p) == result
    ensures ParseExtension(nogroups, decs, s, d) == result
  {
  }

  // ---- One group of sl_sync_cfg_nfreq_r13_s, with the guards around it

  /** The group that carries `sync_offset_ind_v1430` and `gnss_sync_r14`. */
  datatype SyncGroup = SyncGroup(offset: Option<int>, gnss: bool)

  predicate SyncValid(g: SyncGroup)
  {
    g.offset.Some? ==> 40 <= g.offset.value <= 159
  }

  function Flag(b: bool): nat
  {
    if b then 1 else 0
  }

  function SyncBits(g: SyncGroup): seq<bool>
    requires SyncValid(g)
  {
    Enc(Flag(g.offset.Some?), 1) + Enc(Flag(g.gnss), 1)
    + (if g.offset.Some? then UnalignedBits(g.offset.value, 40, 159) else [])
  }

  function ParseSync(s: seq<bool>, d: nat): Parse<SyncGroup>
  {
    match Field(s, d, 1)
    case Failed => Failed
    case Parsed(present, p) =>
      match Field(s, p, 1)
      case Failed => Failed
      case Parsed(gnss, q) =>
        if present == 0 then Parsed(SyncGroup(None, gnss == 1), q) else
        match ParseUnaligned(s, q, 40, 159)
        case Failed => Failed
        case Parsed(v, e) => Parsed(SyncGroup(Some(v), gnss == 1), e)
  }

  lemma SyncReads(g: SyncGroup, s: seq<bool>, d: nat)
    requires SyncValid(g) && At(s, d, SyncBits(g))
    ensures ParseSync(s, d) == Parsed(g, d + |SyncBits(g)|)
  {
    var a, b := Enc(Flag(g.offset.Some?), 1), Enc(Flag(g.gnss), 1);
    var c := if g.offset.Some? then UnalignedBits(g.offset.value, 40, 159) else [];
    AtParts(s, d, a + b, c);
    AtParts(s, d, a, b);
    Pow2Fourteen();
    FieldAt(s, d, Flag(g.offset.Some?), 1);
    FieldAt(s, d + 1, Flag(g.gnss), 1);
    if g.offset.Some? { UnalignedRoundTrip(s, d + 2, g.offset.value, 40, 159); }
  }

  /** Inside its guards the group comes back. */
  lemma SyncOpenRoundTrip(g: SyncGroup, s: seq<bool>, d: nat)
    requires SyncValid(g) && At(s, d, OpenBits(SyncBits(g)))
    ensures ParseOpen(ParseSync, s, d) == Parsed(g, d + |OpenBits(SyncBits(g))|)
  {
    forall t: seq<bool>, e: nat | At(t, e, SyncBits(g)) ensures ParseSync(t, e) == Parsed(g, e + |SyncBits(g)|) {
      SyncReads(g, t, e);
    }
    SyncSize(g);
    OpenReads(ParseSync, SyncBits(g), g, false, s, d);
  }

  lemma SyncSize(g: SyncGroup)
    requires SyncValid(g)
    ensures 2 <= |SyncBits(g)| <= 9 && Octs(|SyncBits(g)|) <= 2
    ensures CeilLog2(159 - 40 + 1) == 7
  {
    Pow2Fourteen();
    CeilLog2Least(120, 7);
    CeilLog2Bounds(120);
    if CeilLog2(120) <= 6 { Pow2Six(); Pow2Monotone(CeilLog2(120), 6); }
  }

  /** Packing of the group, between the construction and the destruction of the guard. */
  method PackSync(bref: BitRef, g: SyncGroup) returns (code: Code)
    requires bref.Valid() && SyncValid(g)
    modifies bref, bref.buf
    ensures bref.Valid() && bref.buf == old(bref.buf) && code.Success?
    ensures WroteFitting(old(bref.Stream()), old(bref.Distance()), OpenBits(SyncBits(g)),
                         bref.Stream(), bref.Distance())
  {
    ghost var s := bref.Stream();
    SyncSize(g);
    var guard := new PackGuard(bref);
    code := PackSyncContents(bref, g);
    assert guard.start.Stream() == s;
    guard.Close();
  }

  method PackSyncContents(bref: BitRef, g: SyncGroup) returns (code: Code)
    requires bref.Valid() && SyncValid(g) && bref.Distance() + |SyncBits(g)| <= |bref.Stream()|
    modifies bref`ptr, bref`offset, bref.buf
    ensures bref.Valid() && code.Success?
    ensures Wrote(old(bref.Stream()), old(bref.Distance()), SyncBits(g), bref.Stream(), bref.Distance())
  {
    ghost var s, d := bref.Stream(), bref.Distance();
    SyncSize(g);
    ghost var a, b := Enc(Flag(g.offset.Some?), 1), Enc(Flag(g.gnss), 1);
    code := bref.Pack(Flag(g.offset.Some?), 1);
    if !code.Success? { return; }
    ghost var s1, d1 := bref.Stream(), bref.Distance();
    code := bref.Pack(Flag(g.gnss), 1);
    if !code.Success? { return; }
    ghost var s2, d2 := bref.Stream(), bref.Distance();
    WroteThen(s, d, a, s1, d1, b, s2, d2);
    if g.offset.Some? {
      code := PackUnalignInteger(bref, g.offset.value, 40, 159);
      WroteThen(s, d, a + b, s2, d2, UnalignedBits(g.offset.value, 40, 159), bref.Stream(), bref.Distance());
    } else {
      assert SyncBits(g) == a + b;
    }
  }

  /** The group between its guards.  Only its contents can fail it: a field that runs beyond the stream is
      not noticed.  When the whole field can be read, the cursor ends at its end. */
  method UnpackSync(bref: BitRef) returns (g: SyncGroup, code: Code)
    requires bref.Valid() && |bref.Stream()| < 0x1_0000_0000
    modifies bref`ptr, bref`offset
    ensures bref.Valid()
    ensures var len := ParseLength(bref.Stream(), old(bref.Distance()));
            len.Parsed? ==>
              && (code.Success? <==> ParseSync(bref.Stream(), len.pos).Parsed?)
              && (code.Success? ==> ParseSync(bref.Stream(), len.pos).value == g)
    ensures var r := ParseOpen(ParseSync, bref.Stream(), old(bref.Distance()));
            r.Parsed? ==> code.Success? && r == Parsed(g, bref.Distance())
  {
    var guard := new UnpackGuard(bref);
    g, code := UnpackSyncContents(bref);
    guard.Close();
  }

  method UnpackSyncContents(bref: BitRef) returns (g: SyncGroup, code: Code)
    requires bref.Valid()
    modifies bref`ptr, bref`offset
    ensures bref.Valid()
    ensures code.Success? <==> ParseSync(bref.Stream(), old(bref.Distance())).Parsed?
    ensures code.Success? ==> ParseSync(bref.Stream(), old(bref.Distance())) == Parsed(g, bref.Distance())
  {
    g := SyncGroup(None, false);
    Pow2Fourteen();
    SyncSize(g);
    var present, gnss;
    present, code := bref.Unpack(1);
    if !code.Success? { return; }
    gnss, code := bref.Unpack(1);
    if !code.Success? { return; }
    g := SyncGroup(None, gnss == 1);
    if present != 0 {
      var v;
      v, code := UnpackUnalignInteger(bref, 40, 159);
      if !code.Success? { return; }
      g := SyncGroup(Some(v), gnss == 1);
    }
  }
}

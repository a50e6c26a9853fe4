/** Runs of fields: what `bit_ref::pack` and its `unpack` do to a whole list of numbers, as the
    sequence-of packers of asn1_utils.h drive them. */
module PerSequence {
  import opened BitSeq
  import opened BitCursor
  import opened PerInteger
  import opened Sequences

  datatype Item = Item(value: nat, width: nat)

  function ItemBits(items: seq<Item>): seq<bool>
  {
    if |items| == 0 then [] else ItemBits(Init(items)) + Enc(Last(items).value, Last(items).width)
  }

  /** Reading as many fields as there are widths. */
  function ParseItems(s: seq<bool>, d: nat, widths: seq<nat>): Parse<seq<nat>>
    decreases |widths|
  {
    if |widths| == 0 then Parsed([], d) else
    match ParseItems(s, d, Init(widths))
    case Failed => Failed
    case Parsed(vs, p) =>
      match Field(s, p, Last(widths))
      case Failed => Failed
      case Parsed(v, q) => Parsed(vs + [v], q)
  }

  function Widths(items: seq<Item>): (w: seq<nat>)
    ensures |w| == |items|
  {
    seq(|items|, i requires 0 <= i < |items| => items[i].width)
  }

  /** The values modulo 2^width. */
  function Truncated(items: seq<Item>): (v: seq<nat>)
    ensures |v| == |items|
  {
    seq(|items|, i requires 0 <= i < |items| => Low(items[i].value, items[i].width))
  }

  function Sum(widths: seq<nat>): nat
  {
    if |widths| == 0 then 0 else Sum(Init(widths)) + Last(widths)
  }

  lemma {:induction false} ItemBitsLength(items: seq<Item>)
    ensures |ItemBits(items)| == Sum(Widths(items))
  {
    if |items| > 0 {
      ItemBitsLength(Init(items));
      assert Init(Widths(items)) == Widths(Init(items));
    }
  }

  /** Every list of fields comes back, each value modulo its width, from any position, and the reader
      stops after the sum of the widths. */
  lemma {:induction false} ItemsRoundTrip(s: seq<bool>, d: nat, items: seq<Item>)
    requires At(s, d, ItemBits(items))
    ensures ParseItems(s, d, Widths(items)) == Parsed(Truncated(items), d + Sum(Widths(items)))
    decreases |items|
  {
    if |items| > 0 {
      var x := Last(items);
      AtParts(s, d, ItemBits(Init(items)), Enc(x.value, x.width));
      ItemBitsLength(Init(items));
      ItemsRoundTrip(s, d, Init(items));
      FieldLow(s, d + Sum(Widths(Init(items))), x.value, x.width);
      assert Init(Widths(items)) == Widths(Init(items));
      assert Truncated(items) == Truncated(Init(items)) + [Low(x.value, x.width)];
    }
  }

  /** Two lists that send the same bits under the same widths hold the same truncated values. */
  lemma ItemsInjective(a: seq<Item>, b: seq<Item>)
    requires Widths(a) == Widths(b) && ItemBits(a) == ItemBits(b)
    ensures Truncated(a) == Truncated(b)
  {
    var s := ItemBits(a);
    assert s[0..0 + |s|] == s;
    ItemsRoundTrip(s, 0, a);
    ItemsRoundTrip(s, 0, b);
  }

  lemma {:induction false} PrefixFits(items: seq<Item>, i: nat)
    requires i <= |items|
    ensures |ItemBits(items[..i])| <= |ItemBits(items)|
  {
    if i < |items| {
      PrefixFits(Init(items), i);
      assert Init(items)[..i] == items[..i];
    } else {
      assert items[..i] == items;
    }
  }

  /** `pack_fixed_seq_of`, with a packer for each item. */
  method PackItems(bref: BitRef, items: seq<Item>) returns (code: Code)
    requires bref.Valid() && forall i | 0 <= i < |items| :: items[i].width <= 31
    modifies bref`ptr, bref`offset, bref.buf
    ensures bref.Valid()
    ensures code.Success? <==> old(bref.Distance()) + Sum(Widths(items)) <= |bref.Stream()|
    ensures code.Success? ==>
      Wrote(old(bref.Stream()), old(bref.Distance()), ItemBits(items), bref.Stream(), bref.Distance())
  {
    ghost var s, d := bref.Stream(), bref.Distance();
    OverwriteNothing(s, d);
    ItemBitsLength(items);
    code := Success;
    for i := 0 to |items|
      invariant bref.Valid() && code.Success? && |bref.Stream()| == |s|
      invariant Wrote(s, d, ItemBits(items[..i]), bref.Stream(), bref.Distance())
    {
      ghost var s1, d1 := bref.Stream(), bref.Distance();
      assert Init(items[..i + 1]) == items[..i];
      PrefixFits(items, i + 1);
      code := bref.Pack(items[i].value, items[i].width);
      if !code.Success? { return; }
      WroteThen(s, d, ItemBits(items[..i]), s1, d1, Enc(items[i].value, items[i].width),
                bref.Stream(), bref.Distance());
    }
    assert items[..|items|] == items;
  }

  lemma {:induction false} ParsePrefix(s: seq<bool>, d: nat, widths: seq<nat>, i: nat)
    requires i <= |widths| && ParseItems(s, d, widths).Parsed?
    ensures ParseItems(s, d, widths[..i]).Parsed?
    decreases |widths|
  {
    if i < |widths| {
      ParsePrefix(s, d, Init(widths), i);
      assert Init(widths)[..i] == widths[..i];
    } else {
      assert widths[..i] == widths;
    }
  }

  /** `unpack_fixed_seq_of` */
  method UnpackItems(bref: BitRef, widths: seq<nat>) returns (values: seq<nat>, code: Code)
    requires bref.Valid() && forall i | 0 <= i < |widths| :: widths[i] <= 32
    modifies bref`ptr, bref`offset
    ensures bref.Valid()
    ensures code.Success? <==> ParseItems(bref.Stream(), old(bref.Distance()), widths).Parsed?
    ensures code.Success? ==>
      ParseItems(bref.Stream(), old(bref.Distance()), widths) == Parsed(values, bref.Distance())
  {
    ghost var s, d := bref.Stream(), bref.Distance();
    code := Success;
    values := [];
    for i := 0 to |widths|
      invariant bref.Valid() && code.Success? && bref.Stream() == s
      invariant ParseItems(s, d, widths[..i]) == Parsed(values, bref.Distance())
    {
      assert Init(widths[..i + 1]) == widths[..i];
      if ParseItems(s, d, widths).Parsed? { ParsePrefix(s, d, widths, i + 1); }
      var v;
      v, code := bref.Unpack(widths[i]);
      if !code.Success? { return; }
      values := values + [v];
    }
    assert widths[..|widths|] == widths;
  }
}

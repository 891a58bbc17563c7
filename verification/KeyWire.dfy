/** The encoded index keys an MPI record carries, as `encode_frame_keys` writes and `put_encoded` reads them. */
module KeyWire {
  import opened Prelude
  import opened Utf8
  import opened Keys
  import opened Store
  import FrameCodec

  predicate FitsU32(keys: seq<Bytes>) {
    |keys| <= U32_MAX && forall i :: 0 <= i < |keys| ==> |keys[i]| <= U32_MAX
  }

  function EncItems(keys: seq<Bytes>): Bytes {
    if keys == [] then [] else Le32(|keys[0]|) + keys[0] + EncItems(keys[1..])
  }

  function EncList(keys: seq<Bytes>): Result<Bytes> {
    if FitsU32(keys) then Ok(Le32(|keys|) + EncItems(keys)) else Err(Message("encoded key length exceeds u32"))
  }

  function EncLists(lists: seq<seq<Bytes>>): Result<Bytes> {
    if lists == [] then Ok([])
    else
      var first :- EncList(lists[0]);
      var rest :- EncLists(lists[1..]);
      Ok(first + rest)
  }

  /** The key lists of one frame in wire order. */
  function Lists(p: Prepared): (ls: seq<seq<Bytes>>)
    ensures |ls| == 10
  {
    [p.symbolKeys, p.elemCountKeys, p.formulaK, p.energyK, p.fmaxK,
     p.massK, p.volumeK, p.pbcK, p.flagKeys, p.metaKeys]
  }

  /** The key width each list must have; 0 is any width. */
  const WIDTHS: seq<nat> := [0, 0, 0, 20, 20, 20, 20, 13, 13, 21]

  function EncodeKeys(p: Prepared): Result<Bytes> {
    var lists :- EncLists(Lists(p));
    Ok(p.hash + p.natomsK + lists)
  }

  // ---------------------------------------------------------------------
  // Reading
  // ---------------------------------------------------------------------

  function Take(buf: Bytes, n: nat): (r: Result<(Bytes, Bytes)>)
    ensures r.Ok? ==> |r.value.0| == n && |r.value.1| == |buf| - n
  {
    if |buf| < n then Err(Truncated) else Ok((buf[..n], buf[n..]))
  }

  function ReadU32(buf: Bytes): Result<(u32, Bytes)> {
    var (b, rest) :- Take(buf, 4);
    Ok((FromLe32(b), rest))
  }

  function ReadItems(buf: Bytes, n: nat): Result<(seq<Bytes>, Bytes)> {
    if n == 0 then Ok(([], buf))
    else
      var (len, b1) :- ReadU32(buf);
      var (key, b2) :- Take(b1, len);
      var (keys, b3) :- ReadItems(b2, n - 1);
      Ok(([key] + keys, b3))
  }

  function ReadList(buf: Bytes): Result<(seq<Bytes>, Bytes)> {
    var (n, rest) :- ReadU32(buf);
    ReadItems(rest, n)
  }

  predicate AllWide(keys: seq<Bytes>, width: nat) {
    width == 0 || forall i :: 0 <= i < |keys| ==> |keys[i]| == width
  }

  function ReadLists(buf: Bytes, widths: seq<nat>): (r: Result<seq<seq<Bytes>>>)
    ensures r.Ok? ==> |r.value| == |widths|
    decreases |widths|
  {
    if widths == [] then Ok([])
    else
      var (keys, rest) :- ReadList(buf);
      if AllWide(keys, widths[0]) then
        var more :- ReadLists(rest, widths[1..]);
        Ok([keys] + more)
      else Err(Message("bad MPI key width"))
  }

  /** `Vec::pop` on a list that stands for an optional key. */
  function Pop(keys: seq<Bytes>): seq<Bytes> {
    if keys == [] then [] else [keys[|keys| - 1]]
  }

  function DecodeKeys(fk: FrameKey, enc: Bytes, stored: Bytes): Result<Prepared> {
    var (hash, b1) :- Take(enc, 16);
    var (natomsK, b2) :- Take(b1, 16);
    var ls :- ReadLists(b2, WIDTHS);
    Ok(Prepared(fk, stored, hash, natomsK, ls[0], ls[1], Pop(ls[2]), Pop(ls[3]), Pop(ls[4]),
                Pop(ls[5]), Pop(ls[6]), Pop(ls[7]), ls[8], ls[9]))
  }

  // ---------------------------------------------------------------------
  // Round trip
  // ---------------------------------------------------------------------

  lemma U32Reads(n: u32, rest: Bytes)
    ensures ReadU32(Le32(n) + rest) == Ok((n, rest))
  {
    Le32RoundTrip(n);
    assert (Le32(n) + rest)[..4] == Le32(n);
    assert (Le32(n) + rest)[4..] == rest;
  }

  lemma TakeReads(b: Bytes, rest: Bytes)
    ensures Take(b + rest, |b|) == Ok((b, rest))
  {
    assert (b + rest)[..|b|] == b;
    assert (b + rest)[|b|..] == rest;
  }

  lemma {:induction false} ItemsRead(keys: seq<Bytes>, rest: Bytes)
    requires FitsU32(keys)
    ensures ReadItems(EncItems(keys) + rest, |keys|) == Ok((keys, rest))
  {
    if keys == [] {
      assert EncItems(keys) + rest == rest;
    } else {
      hide ReadU32, Take, Le32;
      var key, tail := keys[0], EncItems(keys[1..]) + rest;
      assert EncItems(keys) + rest == Le32(|key|) + (key + tail);
      U32Reads(|key|, key + tail);
      TakeReads(key, tail);
      ItemsRead(keys[1..], rest);
      assert keys == [key] + keys[1..];
    }
  }

  lemma ListReads(keys: seq<Bytes>, rest: Bytes)
    requires EncList(keys).Ok?
    ensures ReadList(EncList(keys).value + rest) == Ok((keys, rest))
  {
    assert EncList(keys).value + rest == Le32(|keys|) + (EncItems(keys) + rest);
    U32Reads(|keys|, EncItems(keys) + rest);
    ItemsRead(keys, rest);
  }

  lemma {:induction false} ListsRead(lists: seq<seq<Bytes>>, widths: seq<nat>)
    requires |lists| == |widths| && EncLists(lists).Ok?
    requires forall i :: 0 <= i < |lists| ==> AllWide(lists[i], widths[i])
    ensures ReadLists(EncLists(lists).value, widths) == Ok(lists)
  {
    if lists != [] {
      hide EncList, ReadList, AllWide;
      ListReads(lists[0], EncLists(lists[1..]).value);
      ListsRead(lists[1..], widths[1..]);
      assert lists == [lists[0]] + lists[1..];
    }
  }

  /** A prepared frame whose key lists have the shapes `build_index_puts` gives them. */
  predicate Shaped(p: Prepared) {
    && |p.natomsK| == 16
    && |p.formulaK| <= 1 && |p.energyK| <= 1 && |p.fmaxK| <= 1 && |p.massK| <= 1 && |p.volumeK| <= 1 && |p.pbcK| <= 1
    && AllWide(p.energyK, 20) && AllWide(p.fmaxK, 20) && AllWide(p.massK, 20) && AllWide(p.volumeK, 20)
    && AllWide(p.pbcK, 13) && AllWide(p.flagKeys, 13) && AllWide(p.metaKeys, 21)
  }

  lemma ShapedLists(p: Prepared, i: nat)
    requires Shaped(p) && i < 10
    ensures AllWide(Lists(p)[i], WIDTHS[i])
  {}

  lemma BuiltIsShaped(w: World, fk: FrameKey, p: Proj, text: Text, compress: bool)
    ensures Shaped(Build(w, fk, p, text, compress))
  {
    hide SymbolKeys, ElemCountKeys, DistinctSymbols, BinKey, MetaKey, FrameCodec.StoreFrame, FlagKey, PbcKey, Suffixed;
  }

  /** Encoding loses nothing but the stored bytes and the frame key, which travel beside it. */
  lemma KeysRoundTrip(p: Prepared, stored: Bytes)
    requires Shaped(p) && EncodeKeys(p).Ok?
    ensures DecodeKeys(p.fk, EncodeKeys(p).value, stored) == Ok(p.(stored := stored))
  {
    hide EncLists, ReadLists, AllWide;
    var lists := EncLists(Lists(p)).value;
    assert p.hash + p.natomsK + lists == p.hash + (p.natomsK + lists);
    TakeReads(p.hash, p.natomsK + lists);
    TakeReads(p.natomsK, lists);
    forall i | 0 <= i < 10 ensures AllWide(Lists(p)[i], WIDTHS[i]) {
      ShapedLists(p, i);
    }
    ListsRead(Lists(p), WIDTHS);
    PopOne(p.formulaK); PopOne(p.energyK); PopOne(p.fmaxK); PopOne(p.massK); PopOne(p.volumeK); PopOne(p.pbcK);
  }

  lemma PopOne(keys: seq<Bytes>)
    requires |keys| <= 1
    ensures Pop(keys) == keys
  {}

  // ---------------------------------------------------------------------
  // Widths
  // ---------------------------------------------------------------------

  /** The same number of keys, each as long as its counterpart. */
  predicate SameWidths(a: seq<Bytes>, b: seq<Bytes>) {
    |a| == |b| && forall i :: 0 <= i < |a| ==> |a[i]| == |b[i]|
  }

  lemma {:induction false} ItemsWidth(a: seq<Bytes>, b: seq<Bytes>)
    requires SameWidths(a, b)
    ensures |EncItems(a)| == |EncItems(b)|
  {
    if a != [] {
      ItemsWidth(a[1..], b[1..]);
    }
  }

  lemma ListWidth(a: seq<Bytes>, b: seq<Bytes>)
    requires SameWidths(a, b)
    ensures EncList(a).Ok? <==> EncList(b).Ok?
    ensures EncList(a).Ok? ==> |EncList(a).value| == |EncList(b).value|
  {
    ItemsWidth(a, b);
  }

  lemma {:induction false} ListsWidth(a: seq<seq<Bytes>>, b: seq<seq<Bytes>>)
    requires |a| == |b| && forall i :: 0 <= i < |a| ==> SameWidths(a[i], b[i])
    ensures EncLists(a).Ok? <==> EncLists(b).Ok?
    ensures EncLists(a).Ok? ==> |EncLists(a).value| == |EncLists(b).value|
  {
    if a != [] {
      hide EncList, SameWidths;
      ListWidth(a[0], b[0]);
      ListsWidth(a[1..], b[1..]);
    }
  }

  lemma {:induction false} MetaWidths(meta: seq<Option<F64>>, f: FrameKey, g: FrameKey)
    ensures SameWidths(MetaKeys(meta, f), MetaKeys(meta, g))
  {
    if meta != [] {
      MetaWidths(meta[..|meta| - 1], f, g);
    }
  }

  lemma OptBinWidths(x: Option<F64>, f: FrameKey, g: FrameKey)
    ensures SameWidths(OptBin(x, f), OptBin(x, g))
  {
    hide Suffixed;
  }

  lemma FlagWidths(p: Proj, f: FrameKey, g: FrameKey)
    ensures SameWidths(FlagKeys(p, f), FlagKeys(p, g))
  {
    hide FlagKey;
  }

  lemma SpeciesWidths(p: Proj, f: FrameKey, g: FrameKey)
    ensures SameWidths(SymbolKeys(DistinctSymbols(p.species), f), SymbolKeys(DistinctSymbols(p.species), g))
    ensures SameWidths(ElemCountKeys(p.species, f), ElemCountKeys(p.species, g))
  {
    hide DistinctSymbols, FrameKeyBytes, BigEndian, SymbolKeys, ElemCountKeys;
  }

  lemma BuiltWidths(w: World, p: Proj, text: Text, compress: bool, f: FrameKey, g: FrameKey, i: nat)
    requires i < 10
    ensures SameWidths(Lists(Build(w, f, p, text, compress))[i], Lists(Build(w, g, p, text, compress))[i])
  {
    hide MetaKeys, FlagKeys, SymbolKeys, ElemCountKeys, OptBin, FrameCodec.StoreFrame, DistinctSymbols, FrameKeyBytes, BigEndian;
    SpeciesWidths(p, f, g);
    OptBinWidths(p.energy, f, g);
    OptBinWidths(p.fmax, f, g);
    OptBinWidths(p.mass, f, g);
    OptBinWidths(p.volume, f, g);
    FlagWidths(p, f, g);
    MetaWidths(p.meta, f, g);
  }

  /** Frames with the same text encode their keys in the same number of bytes. */
  lemma SameTextWidth(w: World, p: Proj, text: Text, compress: bool, f: FrameKey, g: FrameKey)
    ensures var a, b := EncodeKeys(Build(w, f, p, text, compress)), EncodeKeys(Build(w, g, p, text, compress));
      (a.Ok? <==> b.Ok?) && (a.Ok? ==> |a.value| == |b.value|)
  {
    var a, b := Build(w, f, p, text, compress), Build(w, g, p, text, compress);
    forall i | 0 <= i < 10 ensures SameWidths(Lists(a)[i], Lists(b)[i]) {
      BuiltWidths(w, p, text, compress, f, g, i);
    }
    assert |a.hash| == |b.hash| && |a.natomsK| == |b.natomsK|;
    hide Build, Lists, EncLists, SameWidths;
    ListsWidth(Lists(a), Lists(b));
  }
}

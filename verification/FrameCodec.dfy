/**
 * On-disk `frames` values: raw UTF-8, one tagged zstd frame, a zstd group of an
 * aligned run, or a redirect to the head of such a group.
 */
module FrameCodec {
  import opened Prelude
  import opened Utf8

  /** zstd as a deterministic compressor and its partial inverse. */
  datatype Zstd = Zstd(Compress: Bytes -> Bytes, Decompress: Bytes -> Option<Bytes>)

  /** What the model asks of zstd; a zstd frame starts with a 4-byte magic number. */
  ghost predicate Lawful(z: Zstd) {
    forall x: Bytes :: |z.Compress(x)| >= 4 && z.Decompress(z.Compress(x)) == Some(x)
  }

  const GROUP_LEN: nat := 64
  /** The aligned run a frame index belongs to. */
  function GroupOf(idx: u32): u32 {
    idx / 64
  }

  const REDIR_LEN: nat := 10

  const FRAME_TAG: Bytes := [0xFD, 0x01]
  const REDIR_TAG: Bytes := [0xFD, 0x02]
  const GROUP_TAG: Bytes := [0xFD, 0x03]

  datatype Frame = Frame(idx: u32, text: Text)

  function Texts(frames: seq<Frame>): (ts: seq<Text>)
    ensures |ts| == |frames|
    ensures forall i :: 0 <= i < |frames| ==> ts[i] == frames[i].text
  {
    seq(|frames|, i requires 0 <= i < |frames| => frames[i].text)
  }

  predicate Increasing(frames: seq<Frame>) {
    forall i, j :: 0 <= i < j < |frames| ==> frames[i].idx < frames[j].idx
  }

  predicate IsTagged(stored: Bytes) {
    FRAME_TAG <= stored
  }

  predicate IsRedirect(stored: Bytes) {
    REDIR_TAG <= stored
  }

  predicate IsGroup(stored: Bytes) {
    GROUP_TAG <= stored
  }

  // ---------------------------------------------------------------------
  // Encoding
  // ---------------------------------------------------------------------

  function StoreFrame(z: Zstd, text: Text, compress: bool): Bytes {
    if !compress then text
    else
      var c := z.Compress(text);
      if SatAdd(|c|, |FRAME_TAG|) >= |text| then text else FRAME_TAG + c
  }

  function EncodeRedirect(head: u32, slot: nat): Bytes {
    REDIR_TAG + Le32(head) + Le32(slot)
  }

  predicate FitsU32(texts: seq<Text>) {
    forall i :: 0 <= i < |texts| ==> |texts[i]| <= U32_MAX
  }

  function LengthPrefixed(text: Text): Bytes {
    Le32(|text|) + text
  }

  function GroupPayload(texts: seq<Text>): Bytes {
    if texts == [] then [] else LengthPrefixed(texts[0]) + GroupPayload(texts[1..])
  }

  function GroupHeader(n: nat): (h: Bytes)
    ensures |h| == 6
  {
    GROUP_TAG + Le32(n)
  }

  function EncodeGroup(z: Zstd, texts: seq<Text>): Result<Bytes> {
    if FitsU32(texts) then Ok(GroupHeader(|texts|) + z.Compress(GroupPayload(texts)))
    else Err(FrameTooLong)
  }

  function Singles(z: Zstd, run: seq<Frame>): (s: seq<Bytes>)
    ensures |s| == |run|
    ensures forall i :: 0 <= i < |run| ==> s[i] == StoreFrame(z, run[i].text, true)
  {
    seq(|run|, i requires 0 <= i < |run| => StoreFrame(z, run[i].text, true))
  }

  function Redirects(head: u32, n: nat): (s: seq<Bytes>)
    ensures |s| == n
    ensures forall i :: 0 <= i < n ==> s[i] == EncodeRedirect(head, i + 1)
  {
    seq(n, i requires 0 <= i => EncodeRedirect(head, i + 1))
  }

  /** The values of one aligned run: a group and its redirects when that is strictly shorter. */
  function PackRun(z: Zstd, run: seq<Frame>): (r: Result<seq<Bytes>>)
    requires run != []
    ensures r.Ok? ==> |r.value| == |run|
  {
    var singles := Singles(z, run);
    if |run| == 1 then Ok(singles)
    else
      var grouped :- EncodeGroup(z, Texts(run));
      if SatAdd(|grouped|, Min(10 * (|run| - 1), USIZE_MAX)) < Min(|Flatten(singles)|, USIZE_MAX)
      then Ok([grouped] + Redirects(run[0].idx, |run| - 1))
      else Ok(singles)
  }

  /** How many leading frames lie in the aligned group `gid`. */
  function Leading(frames: seq<Frame>, gid: nat): (n: nat)
    ensures n <= |frames|
    ensures forall i :: 0 <= i < n ==> GroupOf(frames[i].idx) == gid
    ensures n < |frames| ==> GroupOf(frames[n].idx) != gid
  {
    if frames == [] || GroupOf(frames[0].idx) != gid then 0
    else 1 + Leading(frames[1..], gid)
  }

  function RunLen(frames: seq<Frame>): (n: nat)
    requires frames != []
    ensures 1 <= n <= |frames|
  {
    Leading(frames, GroupOf(frames[0].idx))
  }

  /** What packing a frame list means: each maximal aligned run is packed by itself, in order. */
  function PackAligned(z: Zstd, frames: seq<Frame>): (r: Result<seq<Bytes>>)
    ensures r.Ok? ==> |r.value| == |frames|
  {
    if frames == [] then Ok([])
    else
      var n := RunLen(frames);
      var first :- PackRun(z, frames[..n]);
      var rest :- PackAligned(z, frames[n..]);
      Ok(first + rest)
  }

  lemma {:induction false} LeadingSkip(frames: seq<Frame>, gid: nat, k: nat)
    requires k <= |frames|
    requires forall i :: 0 <= i < k ==> GroupOf(frames[i].idx) == gid
    ensures Leading(frames, gid) == k + Leading(frames[k..], gid)
  {
    if k > 0 {
      LeadingSkip(frames[1..], gid, k - 1);
      assert frames[1..][k - 1..] == frames[k..];
    } else {
      assert frames[0..] == frames;
    }
  }

  lemma {:induction false} PayloadSnoc(texts: seq<Text>, last: Text)
    ensures GroupPayload(texts + [last]) == GroupPayload(texts) + LengthPrefixed(last)
  {
    if texts == [] {
      assert GroupPayload([last]) == LengthPrefixed(last) + GroupPayload([]) by {
        assert [last][1..] == [];
      }
    } else {
      assert GroupPayload(texts + [last]) == LengthPrefixed(texts[0]) + GroupPayload(texts[1..] + [last]) by {
        assert (texts + [last])[1..] == texts[1..] + [last];
      }
      PayloadSnoc(texts[1..], last);
    }
  }

  method EncodeGroupLoop(z: Zstd, texts: seq<Text>) returns (r: Result<Bytes>)
    ensures r == EncodeGroup(z, texts)
  {
    var payload: Bytes := [];
    for i := 0 to |texts|
      invariant forall k :: 0 <= k < i ==> |texts[k]| <= U32_MAX
      invariant payload == GroupPayload(texts[..i])
    {
      if |texts[i]| > U32_MAX {
        return Err(FrameTooLong);
      }
      PayloadSnoc(texts[..i], texts[i]);
      assert texts[..i + 1] == texts[..i] + [texts[i]];
      payload := payload + (Le32(|texts[i]|) + texts[i]);
    }
    assert texts[..|texts|] == texts;
    r := Ok(GroupHeader(|texts|) + z.Compress(payload));
  }

  method SinglesLoop(z: Zstd, run: seq<Frame>) returns (singles: seq<Bytes>, singleSum: nat)
    ensures singles == Singles(z, run)
    ensures singleSum == Min(|Flatten(singles)|, USIZE_MAX)
  {
    singles, singleSum := [], 0;
    for k := 0 to |run|
      invariant |singles| == k
      invariant forall i :: 0 <= i < k ==> singles[i] == StoreFrame(z, run[i].text, true)
      invariant singleSum == Min(|Flatten(singles)|, USIZE_MAX)
    {
      hide StoreFrame;
      var one := StoreFrame(z, run[k].text, true);
      FlattenSnoc(singles, one);
      singleSum := SatAdd(singleSum, |one|);
      singles := singles + [one];
    }
  }

  method RedirectsLoop(head: u32, n: nat) returns (out: seq<Bytes>)
    ensures out == Redirects(head, n)
  {
    out := [];
    for slot := 1 to n + 1
      invariant |out| == slot - 1
      invariant forall i :: 0 <= i < slot - 1 ==> out[i] == EncodeRedirect(head, i + 1)
    {
      hide EncodeRedirect;
      out := out + [EncodeRedirect(head, slot)];
    }
  }

  method PackRunLoop(z: Zstd, run: seq<Frame>) returns (r: Result<seq<Bytes>>)
    requires run != []
    ensures r == PackRun(z, run)
  {
    var singles, singleSum := SinglesLoop(z, run);
    if |run| > 1 {
      var grouped :- EncodeGroupLoop(z, Texts(run));
      if SatAdd(|grouped|, Min(10 * (|run| - 1), USIZE_MAX)) < singleSum {
        var redirects := RedirectsLoop(run[0].idx, |run| - 1);
        return Ok([grouped] + redirects);
      }
    }
    r := Ok(singles);
  }

  lemma PrefixedStep(z: Zstd, frames: seq<Frame>, n: nat, done: seq<Bytes>)
    requires frames != [] && n == RunLen(frames)
    ensures Prefixed(done, PackAligned(z, frames)) ==
      var first := PackRun(z, frames[..n]);
      if first.Ok? then Prefixed(done + first.value, PackAligned(z, frames[n..]))
      else Err(first.error)
  {
    hide PackRun;
    var first, rest := PackRun(z, frames[..n]), PackAligned(z, frames[n..]);
    if first.Ok? && rest.Ok? {
      assert done + (first.value + rest.value) == (done + first.value) + rest.value;
    }
  }

  lemma PackLoopStep(z: Zstd, frames: seq<Frame>, i: nat, j: nat, done: seq<Bytes>)
    requires i < j <= |frames|
    requires forall k :: i <= k < j ==> GroupOf(frames[k].idx) == GroupOf(frames[i].idx)
    requires j < |frames| ==> GroupOf(frames[j].idx) != GroupOf(frames[i].idx)
    ensures Prefixed(done, PackAligned(z, frames[i..])) ==
      (var first := PackRun(z, frames[i..j]);
       if first.Ok? then Prefixed(done + first.value, PackAligned(z, frames[j..])) else Err(first.error))
  {
    hide PackRun;
    RunEndsAt(frames, i, j);
    assert frames[i..j] == frames[i..][..j - i];
    assert frames[i..][j - i..] == frames[j..];
    PrefixedStep(z, frames[i..], j - i, done);
  }

  method RunEnd(frames: seq<Frame>, i: nat) returns (j: nat)
    requires i < |frames|
    ensures i < j <= |frames|
    ensures forall k :: i <= k < j ==> GroupOf(frames[k].idx) == GroupOf(frames[i].idx)
    ensures j < |frames| ==> GroupOf(frames[j].idx) != GroupOf(frames[i].idx)
  {
    j := i + 1;
    while j < |frames| && GroupOf(frames[j].idx) == GroupOf(frames[i].idx)
      invariant i < j <= |frames|
      invariant forall k :: i <= k < j ==> GroupOf(frames[k].idx) == GroupOf(frames[i].idx)
    {
      j := j + 1;
    }
  }

  /** `pack_aligned`: one pass with two cursors over the frame list. */
  method PackAlignedLoop(z: Zstd, frames: seq<Frame>) returns (r: Result<seq<Bytes>>)
    ensures r == PackAligned(z, frames)
  {
    var out: seq<Bytes> := [];
    var i := 0;
    assert frames[0..] == frames;
    PrefixedNothing(PackAligned(z, frames));
    while i < |frames|
      invariant 0 <= i <= |frames|
      invariant PackAligned(z, frames) == Prefixed(out, PackAligned(z, frames[i..]))
    {
      var j := RunEnd(frames, i);
      PackLoopStep(z, frames, i, j, out);
      var packed :- PackRunLoop(z, frames[i..j]);
      out := out + packed;
      i := j;
    }
    assert frames[|frames|..] == [];
    JoinedNothing(Ok(out));
    r := Ok(out);
  }

  lemma RunEndsAt(frames: seq<Frame>, i: nat, j: nat)
    requires i < j <= |frames|
    requires forall k :: i <= k < j ==> GroupOf(frames[k].idx) == GroupOf(frames[i].idx)
    requires j < |frames| ==> GroupOf(frames[j].idx) != GroupOf(frames[i].idx)
    ensures RunLen(frames[i..]) == j - i
  {
    var tail := frames[i..];
    LeadingSkip(tail, GroupOf(frames[i].idx), j - i);
    assert tail[j - i..] == frames[j..];
  }

  // ---------------------------------------------------------------------
  // Decoding
  // ---------------------------------------------------------------------

  function AsText(b: Bytes): Result<Text> {
    if Valid(b) then Ok(b) else Err(CorruptFrame)
  }

  function LoadFrame(z: Zstd, stored: Bytes): Result<Text> {
    if IsGroup(stored) || IsRedirect(stored) then Err(CorruptFrame)
    else if IsTagged(stored) then
      match z.Decompress(stored[|FRAME_TAG|..])
      case None => Err(CorruptFrame)
      case Some(plain) => AsText(plain)
    else AsText(stored)
  }

  function ParseRedirect(stored: Bytes): Result<(u32, u32)> {
    if |stored| != REDIR_LEN then Err(CorruptFrame)
    else
      var slot := FromLe32(stored[6..10]);
      if slot == 0 then Err(CorruptFrame) else Ok((FromLe32(stored[2..6]), slot))
  }

  /** The length-prefixed text at cursor `i`, and the cursor behind it. */
  function NextText(plain: Bytes, i: nat): (r: Result<(Text, nat)>)
    requires i <= |plain|
    ensures r.Ok? ==> i < r.value.1 <= |plain|
  {
    if |plain| - i < 4 then Err(CorruptFrame)
    else
      var n := FromLe32(plain[i..i + 4]);
      if |plain| - (i + 4) < n then Err(CorruptFrame)
      else
        var text :- AsText(plain[i + 4..i + 4 + n]);
        Ok((text, i + 4 + n))
  }

  /** The length-prefixed texts that fill `plain` exactly. */
  function ParseTexts(plain: Bytes): Result<seq<Text>> {
    if plain == [] then Ok([])
    else
      var (text, n) :- NextText(plain, 0);
      var rest :- ParseTexts(plain[n..]);
      Ok([text] + rest)
  }

  function DecodeGroup(z: Zstd, stored: Bytes): Result<seq<Text>> {
    if |stored| < 6 + 4 then Err(CorruptFrame)
    else
      var n := FromLe32(stored[2..6]);
      if n < 2 then Err(CorruptFrame)
      else
        match z.Decompress(stored[6..])
        case None => Err(CorruptFrame)
        case Some(plain) =>
          var texts :- ParseTexts(plain);
          if |texts| != n then Err(CorruptFrame) else Ok(texts)
  }

  lemma NextTextShift(plain: Bytes, i: nat)
    requires i <= |plain|
    ensures NextText(plain[i..], 0) ==
      (var r := NextText(plain, i); if r.Ok? then Ok((r.value.0, r.value.1 - i)) else Err(r.error))
  {
    var here := plain[i..];
    if 4 <= |here| {
      assert here[0..4] == plain[i..i + 4];
      var n := FromLe32(plain[i..i + 4]);
      if n <= |here| - 4 {
        assert here[4..4 + n] == plain[i + 4..i + 4 + n];
      }
    }
  }

  lemma ParseStep(plain: Bytes, done: seq<Text>, i: nat)
    requires i < |plain|
    ensures Prefixed(done, ParseTexts(plain[i..])) ==
      (var r := NextText(plain, i);
       if r.Ok? then Prefixed(done + [r.value.0], ParseTexts(plain[r.value.1..])) else Err(r.error))
  {
    NextTextShift(plain, i);
    var r := NextText(plain, i);
    if r.Ok? {
      var (text, j) := r.value;
      assert plain[i..][j - i..] == plain[j..];
      var rest := ParseTexts(plain[j..]);
      if rest.Ok? {
        assert done + ([text] + rest.value) == done + [text] + rest.value;
      }
    }
  }

  /** The parsing loop of `decode_group`: a cursor walks the decompressed payload. */
  method ParseTextsLoop(plain: Bytes) returns (r: Result<seq<Text>>)
    ensures r == ParseTexts(plain)
  {
    var out: seq<Text> := [];
    var i := 0;
    assert plain[0..] == plain;
    PrefixedNothing(ParseTexts(plain));
    while i < |plain|
      invariant 0 <= i <= |plain|
      invariant ParseTexts(plain) == Prefixed(out, ParseTexts(plain[i..]))
      decreases |plain| - i
    {
      ParseStep(plain, out, i);
      var next :- NextText(plain, i);
      out := out + [next.0];
      i := next.1;
    }
    assert plain[|plain|..] == [];
    assert out + [] == out;
    r := Ok(out);
  }

  /** `decode_group`: the header checks, then the parsing loop, then the count it promised. */
  method DecodeGroupLoop(z: Zstd, stored: Bytes) returns (r: Result<seq<Text>>)
    ensures r == DecodeGroup(z, stored)
  {
    hide ParseTexts, FromLe32;
    if |stored| < 6 + 4 {
      return Err(CorruptFrame);
    }
    var n := FromLe32(stored[2..6]);
    if n < 2 {
      return Err(CorruptFrame);
    }
    var plain := z.Decompress(stored[6..]);
    if plain.None? {
      return Err(CorruptFrame);
    }
    var texts :- ParseTextsLoop(plain.value);
    r := if |texts| == n then Ok(texts) else Err(CorruptFrame);
  }

  function OpenGroupOrSingle(z: Zstd, stored: Bytes): Result<seq<Text>> {
    if IsGroup(stored) then DecodeGroup(z, stored)
    else
      var text :- LoadFrame(z, stored);
      Ok([text])
  }

  /** One frame's UTF-8; `fetch` loads the value a redirect names, and is asked at most once. */
  function DecodeFrame(z: Zstd, stored: Bytes, fetch: u32 -> Result<Bytes>): Result<Text> {
    if IsRedirect(stored) then
      var (head, slot) :- ParseRedirect(stored);
      var headBytes :- fetch(head);
      if IsRedirect(headBytes) then Err(CorruptFrame)
      else
        var texts :- OpenGroupOrSingle(z, headBytes);
        if slot < |texts| then Ok(texts[slot]) else Err(CorruptFrame)
    else
      var texts :- OpenGroupOrSingle(z, stored);
      if |texts| > 0 then Ok(texts[0]) else Err(CorruptFrame)
  }

  // ---------------------------------------------------------------------
  // Round trips
  // ---------------------------------------------------------------------

  lemma TextIsUntagged(text: Text)
    ensures !IsTagged(text) && !IsRedirect(text) && !IsGroup(text)
  {
    NoHighBytes(text);
  }

  lemma TaggedLoads(z: Zstd, text: Text)
    requires Lawful(z)
    ensures var s := FRAME_TAG + z.Compress(text);
      IsTagged(s) && !IsRedirect(s) && !IsGroup(s) && LoadFrame(z, s) == Ok(text)
  {
    var c := z.Compress(text);
    var s := FRAME_TAG + c;
    assert s[1] == 0x01;
    assert s[|FRAME_TAG|..] == c;
  }

  lemma StoreLoads(z: Zstd, text: Text, compress: bool)
    requires Lawful(z)
    ensures var s := StoreFrame(z, text, compress);
      !IsRedirect(s) && !IsGroup(s) && LoadFrame(z, s) == Ok(text)
  {
    TextIsUntagged(text);
    TaggedLoads(z, text);
  }

  /** A single value is the text itself or something strictly shorter. */
  lemma StoreNeverLonger(z: Zstd, text: Text, compress: bool)
    requires |text| <= USIZE_MAX
    ensures StoreFrame(z, text, compress) == text || |StoreFrame(z, text, compress)| < |text|
    ensures StoreFrame(z, text, compress) == text <== |z.Compress(text)| + 2 >= |text|
  {}

  lemma {:induction false} PayloadParses(texts: seq<Text>)
    requires FitsU32(texts)
    ensures ParseTexts(GroupPayload(texts)) == Ok(texts)
  {
    if texts != [] {
      var t, rest := texts[0], GroupPayload(texts[1..]);
      PayloadParses(texts[1..]);
      Le32RoundTrip(|t|);
      var plain := LengthPrefixed(t) + rest;
      assert plain[..4] == Le32(|t|);
      assert plain[4..4 + |t|] == t;
      assert plain[4 + |t|..] == rest;
      assert texts == [t] + texts[1..];
    }
  }

  lemma GroupTags(z: Zstd, texts: seq<Text>)
    requires Lawful(z)
    requires EncodeGroup(z, texts).Ok?
    ensures var g := EncodeGroup(z, texts).value;
      IsGroup(g) && !IsRedirect(g) && !IsTagged(g) && |g| >= 10
      && g[2..6] == Le32(|texts|) && g[6..] == z.Compress(GroupPayload(texts))
  {
    var g := EncodeGroup(z, texts).value;
    assert g[0] == 0xFD && g[1] == 0x03;
  }

  lemma GroupDecodes(z: Zstd, texts: seq<Text>)
    requires Lawful(z)
    requires 2 <= |texts| <= U32_MAX
    requires EncodeGroup(z, texts).Ok?
    ensures DecodeGroup(z, EncodeGroup(z, texts).value) == Ok(texts)
  {
    GroupTags(z, texts);
    Le32RoundTrip(|texts|);
    PayloadParses(texts);
  }

  lemma RedirectParses(head: u32, slot: u32)
    requires slot != 0
    ensures IsRedirect(EncodeRedirect(head, slot))
    ensures ParseRedirect(EncodeRedirect(head, slot)) == Ok((head, slot))
  {
    var s := EncodeRedirect(head, slot);
    Le32RoundTrip(head);
    Le32RoundTrip(slot);
    assert s[2..6] == Le32(head);
    assert s[6..10] == Le32(slot);
  }

  lemma SpanOfGroup(frames: seq<Frame>, n: nat)
    requires Increasing(frames) && n <= |frames|
    requires forall i :: 0 <= i < n ==> GroupOf(frames[i].idx) == GroupOf(frames[0].idx)
    ensures n <= GROUP_LEN
  {
    if n > 0 {
      IndexGrows(frames, n - 1);
    }
  }

  lemma {:induction false} IndexGrows(frames: seq<Frame>, k: nat)
    requires Increasing(frames) && k < |frames|
    ensures frames[0].idx + k <= frames[k].idx
  {
    if k > 0 {
      IndexGrows(frames, k - 1);
    }
  }

  lemma PackRunDecodes(z: Zstd, run: seq<Frame>, k: nat, fetch: u32 -> Result<Bytes>)
    requires Lawful(z)
    requires k < |run| <= GROUP_LEN
    requires PackRun(z, run).Ok?
    requires fetch(run[0].idx) == Ok(PackRun(z, run).value[0])
    ensures DecodeFrame(z, PackRun(z, run).value[k], fetch) == Ok(run[k].text)
  {
    var packed := PackRun(z, run).value;
    if packed == Singles(z, run) {
      StoreLoads(z, run[k].text, true);
    } else {
      GroupTags(z, Texts(run));
      GroupDecodes(z, Texts(run));
      if k > 0 {
        assert packed[k] == EncodeRedirect(run[0].idx, k);
        RedirectParses(run[0].idx, k);
      }
    }
  }

  /**
   * Every packed value decodes to its own frame's text when redirects are followed
   * inside the same packed result.
   */
  lemma {:induction false} PackDecodes(z: Zstd, frames: seq<Frame>, k: nat, fetch: u32 -> Result<Bytes>)
    requires Lawful(z)
    requires Increasing(frames) && k < |frames|
    requires PackAligned(z, frames).Ok?
    requires forall i :: 0 <= i < |frames| ==> fetch(frames[i].idx) == Ok(PackAligned(z, frames).value[i])
    ensures DecodeFrame(z, PackAligned(z, frames).value[k], fetch) == Ok(frames[k].text)
    decreases |frames|
  {
    var n := RunLen(frames);
    var packed := PackAligned(z, frames).value;
    var first := PackRun(z, frames[..n]).value;
    var rest := PackAligned(z, frames[n..]).value;
    assert packed == first + rest;
    SpanOfGroup(frames, n);
    if k < n {
      assert fetch(frames[0].idx) == Ok(packed[0]);
      PackRunDecodes(z, frames[..n], k, fetch);
    } else {
      forall i | 0 <= i < |frames[n..]|
        ensures fetch(frames[n..][i].idx) == Ok(rest[i])
      {
        assert fetch(frames[n + i].idx) == Ok(packed[n + i]);
      }
      PackDecodes(z, frames[n..], k - n, fetch);
    }
  }

  /** Packing splits exactly where the aligned group changes. */
  lemma {:induction false} PackSplits(z: Zstd, a: seq<Frame>, b: seq<Frame>)
    requires a != [] && b != [] ==> GroupOf(a[|a| - 1].idx) != GroupOf(b[0].idx)
    ensures PackAligned(z, a + b) == Joined(PackAligned(z, a), PackAligned(z, b))
    decreases |a|
  {
    hide PackRun, RunLen, GroupOf;
    if a == [] {
      assert a + b == b;
      PrefixedNothing(PackAligned(z, b));
    } else if b == [] {
      assert a + b == a;
      JoinedNothing(PackAligned(z, a));
    } else {
      var n := RunLen(a);
      LeadingStops(a, b);
      assert (a + b)[..n] == a[..n];
      assert (a + b)[n..] == a[n..] + b;
      PackSplits(z, a[n..], b);
      JoinedAssociates(PackRun(z, a[..n]), PackAligned(z, a[n..]), PackAligned(z, b));
    }
  }

  lemma LeadingStops(a: seq<Frame>, b: seq<Frame>)
    requires a != [] && b != []
    requires GroupOf(a[|a| - 1].idx) != GroupOf(b[0].idx)
    ensures RunLen(a + b) == RunLen(a)
  {
    var n := RunLen(a);
    assert (a + b)[0..] == a + b;
    RunEndsAt(a + b, 0, n);
  }

  /** A group replaces the per-frame values only when it is shorter, so packing never costs bytes. */
  lemma {:induction false} PackNeverLonger(z: Zstd, frames: seq<Frame>)
    requires PackAligned(z, frames).Ok?
    ensures |Flatten(PackAligned(z, frames).value)| <= |Flatten(Singles(z, frames))|
    decreases |frames|
  {
    hide PackRun, StoreFrame;
    if frames != [] {
      hide Flatten;
      var n := RunLen(frames);
      var first, rest := PackRun(z, frames[..n]).value, PackAligned(z, frames[n..]).value;
      RunNeverLonger(z, frames[..n]);
      PackNeverLonger(z, frames[n..]);
      FlattenAppend(first, rest);
      assert |Flatten(Singles(z, frames))| == |Flatten(Singles(z, frames[..n]))| + |Flatten(Singles(z, frames[n..]))| by {
        FlattenAppend(Singles(z, frames[..n]), Singles(z, frames[n..]));
        assert Singles(z, frames[..n]) + Singles(z, frames[n..]) == Singles(z, frames);
      }
    }
  }

  lemma RunNeverLonger(z: Zstd, run: seq<Frame>)
    requires run != [] && PackRun(z, run).Ok?
    ensures |Flatten(PackRun(z, run).value)| <= |Flatten(Singles(z, run))|
  {
    var packed := PackRun(z, run).value;
    if packed != Singles(z, run) {
      RedirectBytes(run[0].idx, |run| - 1);
      assert packed[1..] == Redirects(run[0].idx, |run| - 1);
    }
  }

  lemma {:induction false} RedirectBytes(head: u32, n: nat)
    ensures |Flatten(Redirects(head, n))| == REDIR_LEN * n
  {
    if n > 0 {
      RedirectBytes(head, n - 1);
      assert Redirects(head, n) == Redirects(head, n - 1) + [EncodeRedirect(head, n)];
      FlattenSnoc(Redirects(head, n - 1), EncodeRedirect(head, n));
    }
  }

  // ---------------------------------------------------------------------
  // When packing fails
  // ---------------------------------------------------------------------

  /** No text longer than `u32` shares its aligned run with another frame. */
  predicate Groupable(frames: seq<Frame>) {
    forall i :: 0 <= i < |frames| ==> ShortOrAlone(frames, i)
  }

  predicate ShortOrAlone(frames: seq<Frame>, i: nat)
    requires i < |frames|
  {
    |frames[i].text| <= U32_MAX
    || forall j :: 0 <= j < |frames| && GroupOf(frames[j].idx) == GroupOf(frames[i].idx) ==> j == i
  }

  lemma RunPacks(z: Zstd, run: seq<Frame>)
    requires run != []
    ensures PackRun(z, run).Ok? <==> |run| == 1 || FitsU32(Texts(run))
  {
    hide GroupHeader, GroupPayload;
  }

  /** The frames behind the leading run lie in later groups. */
  lemma RestIsLater(frames: seq<Frame>, i: nat, j: nat)
    requires Increasing(frames) && frames != []
    requires i < RunLen(frames) <= j < |frames|
    ensures GroupOf(frames[i].idx) != GroupOf(frames[j].idx)
  {
    var n := RunLen(frames);
    assert frames[0].idx < frames[n].idx <= frames[j].idx;
  }

  lemma RunGroupable(frames: seq<Frame>, n: nat)
    requires Increasing(frames) && frames != [] && n == RunLen(frames)
    ensures (n == 1 || FitsU32(Texts(frames[..n]))) <==> forall i :: 0 <= i < n ==> ShortOrAlone(frames, i)
  {
    hide RunLen;
    assert forall i :: 0 <= i < n ==> GroupOf(frames[i].idx) == GroupOf(frames[0].idx) by {
      LeadingAlike(frames);
    }
    forall i, j | 0 <= i < n <= j < |frames| ensures GroupOf(frames[i].idx) != GroupOf(frames[j].idx) {
      RestIsLater(frames, i, j);
    }
    if n > 1 {
      forall i | 0 <= i < n && ShortOrAlone(frames, i) ensures |frames[..n][i].text| <= U32_MAX {
        var j := if i == 0 then 1 else 0;
        assert GroupOf(frames[j].idx) == GroupOf(frames[i].idx);
      }
      assert forall i :: 0 <= i < n ==> Texts(frames[..n])[i] == frames[i].text;
    }
  }

  lemma LeadingAlike(frames: seq<Frame>)
    requires frames != []
    ensures forall i :: 0 <= i < RunLen(frames) ==> GroupOf(frames[i].idx) == GroupOf(frames[0].idx)
  {}

  lemma RestGroupable(frames: seq<Frame>, n: nat)
    requires Increasing(frames) && frames != [] && n == RunLen(frames)
    ensures Groupable(frames[n..]) <==> forall i :: n <= i < |frames| ==> ShortOrAlone(frames, i)
  {
    hide RunLen, ShortOrAlone;
    forall i | n <= i < |frames| ensures ShortOrAlone(frames[n..], i - n) <==> ShortOrAlone(frames, i) {
      ShortOrAloneShift(frames, n, i);
    }
    if Groupable(frames[n..]) {
      forall i | n <= i < |frames| ensures ShortOrAlone(frames, i) {
        assert ShortOrAlone(frames[n..], i - n);
      }
    }
    if forall i :: n <= i < |frames| ==> ShortOrAlone(frames, i) {
      forall k | 0 <= k < |frames[n..]| ensures ShortOrAlone(frames[n..], k) {
        assert ShortOrAlone(frames, n + k);
      }
    }
  }

  lemma ShortOrAloneShift(frames: seq<Frame>, n: nat, i: nat)
    requires Increasing(frames) && frames != [] && n == RunLen(frames) && n <= i < |frames|
    ensures ShortOrAlone(frames[n..], i - n) <==> ShortOrAlone(frames, i)
  {
    hide RunLen;
    var rest := frames[n..];
    forall j | 0 <= j < n ensures GroupOf(frames[j].idx) != GroupOf(frames[i].idx) {
      RestIsLater(frames, j, i);
    }
    assert forall k :: 0 <= k < |rest| ==> rest[k] == frames[n + k];
    if ShortOrAlone(rest, i - n) && |frames[i].text| > U32_MAX {
      forall j | 0 <= j < |frames| && GroupOf(frames[j].idx) == GroupOf(frames[i].idx) ensures j == i {
        assert j >= n && rest[j - n] == frames[j];
      }
    }
  }

  /** Packing fails exactly when a text longer than `u32` shares its aligned run with another frame. */
  lemma {:induction false} PackSucceeds(z: Zstd, frames: seq<Frame>)
    requires Increasing(frames)
    ensures PackAligned(z, frames).Ok? <==> Groupable(frames)
    decreases |frames|
  {
    hide PackRun, RunLen, ShortOrAlone;
    if frames != [] {
      var n := RunLen(frames);
      RunPacks(z, frames[..n]);
      RunGroupable(frames, n);
      RestGroupable(frames, n);
      PackSucceeds(z, frames[n..]);
    }
  }
}

/** How many bytes the codec stores: exactly the smaller of the forms it may choose from. */
module CodecSizes {
  import opened Prelude
  import opened Utf8
  import opened FrameCodec

  // ---------------------------------------------------------------------
  // One frame
  // ---------------------------------------------------------------------

  /** The bytes of a single value: the text, or two tag bytes and its compressed form when that is shorter. */
  function SingleBytes(z: Zstd, text: Text): nat {
    Min(|text|, |z.Compress(text)| + 2)
  }

  /** `s` is the smaller single form of `text`, and its tag tells which. */
  predicate SmallestSingle(z: Zstd, text: Text, s: Bytes) {
    |s| == SingleBytes(z, text) && (IsTagged(s) <==> |z.Compress(text)| + 2 < |text|)
  }

  lemma StoredSize(z: Zstd, text: Text)
    requires |text| <= USIZE_MAX
    ensures SmallestSingle(z, text, StoreFrame(z, text, true))
  {
    TextIsUntagged(text);
  }

  // ---------------------------------------------------------------------
  // One aligned run
  // ---------------------------------------------------------------------

  function SinglesBytes(z: Zstd, run: seq<Frame>): nat {
    if run == [] then 0 else SingleBytes(z, run[0].text) + SinglesBytes(z, run[1..])
  }

  /** A group of the run's texts and a redirect for every other frame. */
  function GroupedBytes(z: Zstd, run: seq<Frame>): int {
    6 + |z.Compress(GroupPayload(Texts(run)))| + 10 * (|run| - 1)
  }

  /** Frames that a 64-bit machine can hold. */
  predicate Held(z: Zstd, frames: seq<Frame>) {
    SinglesBytes(z, frames) <= USIZE_MAX && forall i :: 0 <= i < |frames| ==> |frames[i].text| <= USIZE_MAX
  }

  lemma {:induction false} SinglesSize(z: Zstd, run: seq<Frame>)
    requires forall i :: 0 <= i < |run| ==> |run[i].text| <= USIZE_MAX
    ensures |Flatten(Singles(z, run))| == SinglesBytes(z, run)
  {
    hide StoreFrame, SingleBytes;
    if run != [] {
      assert |StoreFrame(z, run[0].text, true)| == SingleBytes(z, run[0].text) by {
        StoredSize(z, run[0].text);
      }
      SinglesSize(z, run[1..]);
      assert Singles(z, run)[1..] == Singles(z, run[1..]);
    }
  }

  /**
   * The values of a run take as few bytes as a shared group or the single forms allow; the head is a group exactly
   * when sharing is strictly shorter, and otherwise every value is the smallest single form.
   */
  predicate SmallestRun(z: Zstd, run: seq<Frame>, vs: seq<Bytes>) {
    && |vs| == |run| > 0
    && (var shares := |run| > 1 && GroupedBytes(z, run) < SinglesBytes(z, run);
        && |Flatten(vs)| == (if shares then GroupedBytes(z, run) else SinglesBytes(z, run))
        && (IsGroup(vs[0]) <==> shares)
        && (shares ==> forall i :: 0 < i < |vs| ==> IsRedirect(vs[i]))
        && (!shares ==> forall i :: 0 <= i < |vs| ==> SmallestSingle(z, run[i].text, vs[i])))
  }

  lemma PackedRun(z: Zstd, run: seq<Frame>)
    requires Lawful(z) && run != [] && PackRun(z, run).Ok? && Held(z, run)
    ensures SmallestRun(z, run, PackRun(z, run).value)
  {
    hide StoreFrame, SinglesBytes, GroupPayload, SmallestSingle, Lawful;
    var vs := PackRun(z, run).value;
    SinglesSize(z, run);
    forall i | 0 <= i < |run| ensures SmallestSingle(z, run[i].text, Singles(z, run)[i]) && !IsGroup(Singles(z, run)[i]) {
      StoredSize(z, run[i].text);
      StoreLoads(z, run[i].text, true);
    }
    if |run| > 1 {
      var g := EncodeGroup(z, Texts(run)).value;
      GroupTags(z, Texts(run));
      RedirectBytes(run[0].idx, |run| - 1);
      if vs != Singles(z, run) {
        assert vs[1..] == Redirects(run[0].idx, |run| - 1);
        RedirectTags(run[0].idx, |run| - 1);
      }
    }
  }

  lemma RedirectTags(head: u32, n: nat)
    ensures forall i :: 0 <= i < n ==> IsRedirect(Redirects(head, n)[i])
  {}

  // ---------------------------------------------------------------------
  // A frame list
  // ---------------------------------------------------------------------

  /** `frames[i..j]` is a maximal aligned run. */
  predicate MaximalRun(frames: seq<Frame>, i: nat, j: nat) {
    && i < j <= |frames|
    && (forall k :: i <= k < j ==> GroupOf(frames[k].idx) == GroupOf(frames[i].idx))
    && (i > 0 ==> GroupOf(frames[i - 1].idx) != GroupOf(frames[i].idx))
    && (j < |frames| ==> GroupOf(frames[j].idx) != GroupOf(frames[i].idx))
  }

  lemma LaterRun(frames: seq<Frame>, i: nat, j: nat)
    requires frames != [] && MaximalRun(frames, i, j) && i > 0
    ensures RunLen(frames) <= i && MaximalRun(frames[RunLen(frames)..], i - RunLen(frames), j - RunLen(frames))
  {
    hide RunLen, GroupOf;
    LeadingAlike(frames);
    var n := RunLen(frames);
    var rest := frames[n..];
    assert forall k :: 0 <= k < |rest| ==> rest[k] == frames[n + k];
  }

  /** Packing treats each maximal aligned run by itself. */
  lemma {:induction false} PackedPart(z: Zstd, frames: seq<Frame>, i: nat, j: nat)
    requires MaximalRun(frames, i, j) && PackAligned(z, frames).Ok?
    ensures PackRun(z, frames[i..j]) == Ok(PackAligned(z, frames).value[i..j])
    decreases |frames|
  {
    hide PackRun, RunLen, MaximalRun;
    RunNonEmpty(frames, i, j);
    var n := RunLen(frames);
    var packed := PackAligned(z, frames).value;
    var first, rest := PackRun(z, frames[..n]).value, PackAligned(z, frames[n..]).value;
    assert packed == first + rest;
    if i == 0 {
      FirstRun(frames, j);
      assert packed[..n] == first;
    } else {
      LaterRun(frames, i, j);
      PackedPart(z, frames[n..], i - n, j - n);
      assert frames[n..][i - n..j - n] == frames[i..j];
      assert packed[i..j] == rest[i - n..j - n];
    }
  }

  lemma RunNonEmpty(frames: seq<Frame>, i: nat, j: nat)
    requires MaximalRun(frames, i, j)
    ensures frames != [] && i < j <= |frames|
  {}

  lemma FirstRun(frames: seq<Frame>, j: nat)
    requires MaximalRun(frames, 0, j)
    ensures RunLen(frames) == j
  {
    hide RunLen;
    RunEndsAt(frames, 0, j);
    assert frames[0..] == frames;
  }

  lemma {:induction false} HeldPart(z: Zstd, frames: seq<Frame>, i: nat, j: nat)
    requires Held(z, frames) && i <= j <= |frames|
    ensures Held(z, frames[i..j])
  {
    hide SingleBytes;
    SinglesPart(z, frames, i, j);
  }

  lemma {:induction false} SinglesPart(z: Zstd, frames: seq<Frame>, i: nat, j: nat)
    requires i <= j <= |frames|
    ensures SinglesBytes(z, frames[i..j]) <= SinglesBytes(z, frames)
    decreases |frames|
  {
    hide SingleBytes;
    if i > 0 {
      SinglesPart(z, frames[1..], i - 1, j - 1);
      assert frames[1..][i - 1..j - 1] == frames[i..j];
    } else if j > 0 {
      SinglesPart(z, frames[1..], 0, j - 1);
      assert frames[0..j][1..] == frames[1..][0..j - 1];
    }
  }

  /** Every maximal aligned run of a packed list is stored in its smallest form. */
  lemma PackedSizes(z: Zstd, frames: seq<Frame>, i: nat, j: nat)
    requires Lawful(z) && MaximalRun(frames, i, j) && PackAligned(z, frames).Ok? && Held(z, frames)
    ensures SmallestRun(z, frames[i..j], PackAligned(z, frames).value[i..j])
  {
    hide Lawful, PackRun, PackAligned, SmallestRun, Held;
    PackedPart(z, frames, i, j);
    HeldPart(z, frames, i, j);
    PackedRun(z, frames[i..j]);
  }
}

/** The packed numeric arrays kept beside a frame's text, and the batch that carries many of them. */
module CookedSoa {
  import opened Prelude
  import opened Utf8
  import opened Keys
  import opened Store
  import opened Corpus

  type Vec3 = (F64, F64, F64)

  const ZERO: Vec3 := (0, 0, 0)

  /** The numbers of one atom of a parsed frame. */
  datatype Atom = Atom(pos: Vec3, force: Option<Vec3>, velocity: Option<Vec3>)

  datatype Cooked = Cooked(natoms: u32, positions: seq<Vec3>, forces: Option<seq<Vec3>>, velocities: Option<seq<Vec3>>)

  const MAGIC: Bytes := [0x52, 0x43, 0x53, 0x4F]
  const BATCH_MAGIC: Bytes := [0x52, 0x43, 0x53, 0x42]
  const HEADER_LEN: nat := 24

  // ---------------------------------------------------------------------
  // What a frame cooks to
  // ---------------------------------------------------------------------

  predicate AnyForce(atoms: seq<Atom>) {
    exists i :: 0 <= i < |atoms| && atoms[i].force.Some?
  }

  predicate AnyVelocity(atoms: seq<Atom>) {
    exists i :: 0 <= i < |atoms| && atoms[i].velocity.Some?
  }

  function Positions(atoms: seq<Atom>): (vs: seq<Vec3>)
    ensures |vs| == |atoms|
    ensures forall i :: 0 <= i < |atoms| ==> vs[i] == atoms[i].pos
  {
    seq(|atoms|, i requires 0 <= i < |atoms| => atoms[i].pos)
  }

  function OrZero(v: Option<Vec3>): Vec3 {
    if v.Some? then v.value else ZERO
  }

  function Forces(atoms: seq<Atom>): (vs: seq<Vec3>)
    ensures |vs| == |atoms|
    ensures forall i :: 0 <= i < |atoms| ==> vs[i] == OrZero(atoms[i].force)
  {
    seq(|atoms|, i requires 0 <= i < |atoms| => OrZero(atoms[i].force))
  }

  function Velocities(atoms: seq<Atom>): (vs: seq<Vec3>)
    ensures |vs| == |atoms|
    ensures forall i :: 0 <= i < |atoms| ==> vs[i] == OrZero(atoms[i].velocity)
  {
    seq(|atoms|, i requires 0 <= i < |atoms| => OrZero(atoms[i].velocity))
  }

  /** The arrays a reader gets from the parsed text. */
  function FromText(atoms: seq<Atom>): Cooked
    requires |atoms| <= U32_MAX
  {
    Cooked(|atoms|, Positions(atoms),
      if AnyForce(atoms) then Some(Forces(atoms)) else None,
      if AnyVelocity(atoms) then Some(Velocities(atoms)) else None)
  }

  // ---------------------------------------------------------------------
  // Encoding
  // ---------------------------------------------------------------------

  function Row(v: Vec3): (b: Bytes)
    ensures |b| == 24
  {
    Le64(v.0) + Le64(v.1) + Le64(v.2)
  }

  function Block(vs: seq<Vec3>): (b: Bytes)
    ensures |b| == 24 * |vs|
  {
    if vs == [] then [] else Block(vs[..|vs| - 1]) + Row(vs[|vs| - 1])
  }

  function Header(natoms: u32, flags: u32): (h: Bytes)
    ensures |h| == HEADER_LEN
  {
    MAGIC + Le32(1) + Le32(natoms) + Le32(flags) + [0] + [0, 0, 0] + Le32(0)
  }

  function Flags(atoms: seq<Atom>): u32 {
    (if AnyForce(atoms) then 1 else 0) + (if AnyVelocity(atoms) then 2 else 0)
  }

  function Encode(atoms: seq<Atom>): Result<Bytes> {
    if |atoms| > U32_MAX then Err(Message("too many atoms for cooked SoA"))
    else Ok(Header(|atoms|, Flags(atoms)) + Block(Positions(atoms))
      + (if AnyForce(atoms) then Block(Forces(atoms)) else [])
      + (if AnyVelocity(atoms) then Block(Velocities(atoms)) else []))
  }

  method PushRows(out: Bytes, vs: seq<Vec3>) returns (r: Bytes)
    ensures r == out + Block(vs)
  {
    r := out;
    for i := 0 to |vs|
      invariant r == out + Block(vs[..i])
    {
      assert vs[..i + 1][..i] == vs[..i];
      assert out + Block(vs[..i]) + Row(vs[i]) == out + (Block(vs[..i]) + Row(vs[i]));
      r := r + Le64(vs[i].0) + Le64(vs[i].1) + Le64(vs[i].2);
    }
    assert vs[..|vs|] == vs;
  }

  /** `encode_frame`. */
  method EncodeLoop(atoms: seq<Atom>) returns (r: Result<Bytes>)
    ensures r == Encode(atoms)
  {
    hide Block, Le32, Le64;
    if |atoms| > U32_MAX {
      return Err(Message("too many atoms for cooked SoA"));
    }
    var hasF, hasV := false, false;
    for i := 0 to |atoms|
      invariant hasF <==> exists j :: 0 <= j < i && atoms[j].force.Some?
      invariant hasV <==> exists j :: 0 <= j < i && atoms[j].velocity.Some?
    {
      hasF := hasF || atoms[i].force.Some?;
      hasV := hasV || atoms[i].velocity.Some?;
    }
    var flags: u32 := (if hasF then 1 else 0) + (if hasV then 2 else 0);
    var out := MAGIC + Le32(1) + Le32(|atoms|) + Le32(flags) + [0] + [0, 0, 0] + Le32(0);
    out := PushRows(out, Positions(atoms));
    if hasF {
      out := PushRows(out, Forces(atoms));
    } else {
      assert out + [] == out;
    }
    if hasV {
      out := PushRows(out, Velocities(atoms));
    } else {
      assert out + [] == out;
    }
    r := Ok(out);
  }

  // ---------------------------------------------------------------------
  // Decoding
  // ---------------------------------------------------------------------

  function Number(b: Bytes, i: nat): F64
    requires i + 8 <= |b|
  {
    FromLe64(b[i..i + 8])
  }

  /** The `n` rows at the start of `b`. */
  function ReadRows(b: Bytes, n: nat): (vs: seq<Vec3>)
    requires 24 * n <= |b|
    ensures |vs| == n
  {
    if n == 0 then []
    else ReadRows(b, n - 1) + [(Number(b, 24 * (n - 1)), Number(b, 24 * (n - 1) + 8), Number(b, 24 * (n - 1) + 16))]
  }

  /** `read_vec3_block`: one cursor over the block. */
  method ReadLoop(b: Bytes, n: nat) returns (r: Result<seq<Vec3>>)
    ensures if 24 * n <= |b| then r == Ok(ReadRows(b, n)) else r.Err?
  {
    hide Number;
    var out: seq<Vec3> := [];
    var i := 0;
    for k := 0 to n
      invariant i == 24 * k <= |b| && out == ReadRows(b, k)
    {
      if i + 24 > |b| {
        return Err(Message("cooked SoA short block"));
      }
      out := out + [(Number(b, i), Number(b, i + 8), Number(b, i + 16))];
      i := i + 24;
    }
    r := Ok(out);
  }

  /** What a cooked value decodes to; anything after the last block is ignored. */
  function Decode(b: Bytes): Result<Cooked> {
    if |b| < HEADER_LEN || b[..4] != MAGIC || FromLe32(b[4..8]) != 1 || b[16] != 0 then Err(Message("cooked SoA header"))
    else
      var n, flags := FromLe32(b[8..12]), FromLe32(b[12..16]);
      var f, v := flags % 2 == 1, (flags / 2) % 2 == 1;
      var size := 24 * n;
      if |b| < HEADER_LEN + size + (if f then size else 0) + (if v then size else 0) then Err(Message("cooked SoA truncated body"))
      else
        var velAt := HEADER_LEN + size + if f then size else 0;
        Ok(Cooked(n, ReadRows(b[HEADER_LEN..], n),
          if f then Some(ReadRows(b[HEADER_LEN + size..], n)) else None,
          if v then Some(ReadRows(b[velAt..], n)) else None))
  }

  lemma RowReads(v: Vec3, rest: Bytes)
    ensures var b := Row(v) + rest;
      Number(b, 0) == v.0 && Number(b, 8) == v.1 && Number(b, 16) == v.2
  {
    hide Le64, FromLe64;
    var b := Row(v) + rest;
    Le64RoundTrip(v.0);
    Le64RoundTrip(v.1);
    Le64RoundTrip(v.2);
    assert b[0..8] == Le64(v.0);
    assert b[8..16] == Le64(v.1);
    assert b[16..24] == Le64(v.2);
  }

  lemma NumberShift(a: Bytes, b: Bytes, i: nat)
    requires i + 8 <= |b|
    ensures Number(a + b, |a| + i) == Number(b, i)
  {
    assert (a + b)[|a| + i..|a| + i + 8] == b[i..i + 8];
  }

  lemma NumberPrefix(a: Bytes, b: Bytes, i: nat)
    requires i + 8 <= |a|
    ensures Number(a + b, i) == Number(a, i)
  {
    assert (a + b)[i..i + 8] == a[i..i + 8];
  }

  lemma {:induction false} ReadPrefix(a: Bytes, b: Bytes, n: nat)
    requires 24 * n <= |a|
    ensures ReadRows(a + b, n) == ReadRows(a, n)
  {
    hide Number;
    if n > 0 {
      ReadPrefix(a, b, n - 1);
      NumberPrefix(a, b, 24 * (n - 1));
      NumberPrefix(a, b, 24 * (n - 1) + 8);
      NumberPrefix(a, b, 24 * (n - 1) + 16);
    }
  }

  /** A block reads back, whatever follows it. */
  lemma {:induction false} BlockReads(vs: seq<Vec3>, rest: Bytes)
    ensures ReadRows(Block(vs) + rest, |vs|) == vs
  {
    hide Number, Row;
    if vs != [] {
      var n := |vs| - 1;
      var init, last := Block(vs[..n]), Row(vs[n]);
      BlockReads(vs[..n], last + rest);
      assert Block(vs) + rest == init + (last + rest);
      RowReads(vs[n], rest);
      NumberShift(init, last + rest, 0);
      NumberShift(init, last + rest, 8);
      NumberShift(init, last + rest, 16);
    }
  }

  lemma HeaderReads(natoms: u32, flags: u32, rest: Bytes)
    ensures var b := Header(natoms, flags) + rest;
      && |b| >= HEADER_LEN && b[..4] == MAGIC && FromLe32(b[4..8]) == 1 && FromLe32(b[8..12]) == natoms
      && FromLe32(b[12..16]) == flags && b[16] == 0 && b[HEADER_LEN..] == rest
  {
    hide Le32, FromLe32;
    var b := Header(natoms, flags) + rest;
    Le32RoundTrip(1);
    Le32RoundTrip(natoms);
    Le32RoundTrip(flags);
    assert b[..4] == MAGIC;
    assert b[4..8] == Le32(1);
    assert b[8..12] == Le32(natoms);
    assert b[12..16] == Le32(flags);
    assert b[HEADER_LEN..] == rest;
  }

  /** Decoding gives exactly the arrays of the parsed text, absent vectors as zeros in a present block. */
  lemma DecodeEncode(atoms: seq<Atom>, rest: Bytes)
    requires |atoms| <= U32_MAX
    ensures Decode(Encode(atoms).value + rest) == Ok(FromText(atoms))
  {
    hide Block, ReadRows, Le32, FromLe32, Header, AnyForce, AnyVelocity, Flags, Encode;
    var n := |atoms|;
    var pos := Block(Positions(atoms));
    var frc := if AnyForce(atoms) then Block(Forces(atoms)) else [];
    var vel := if AnyVelocity(atoms) then Block(Velocities(atoms)) else [];
    EncodedParts(atoms, rest, pos, frc, vel);
    var b := Encode(atoms).value + rest;
    HeaderReads(n, Flags(atoms), pos + (frc + (vel + rest)));
    Tails(Header(n, Flags(atoms)), pos, frc, vel + rest);
    FlagBits(atoms);
    BlockReads(Positions(atoms), frc + (vel + rest));
    BlockReads(Forces(atoms), vel + rest);
    BlockReads(Velocities(atoms), rest);
  }

  lemma EncodedParts(atoms: seq<Atom>, rest: Bytes, pos: Bytes, frc: Bytes, vel: Bytes)
    requires |atoms| <= U32_MAX && pos == Block(Positions(atoms))
    requires frc == (if AnyForce(atoms) then Block(Forces(atoms)) else [])
    requires vel == (if AnyVelocity(atoms) then Block(Velocities(atoms)) else [])
    ensures Encode(atoms).Ok?
    ensures Encode(atoms).value + rest == Header(|atoms|, Flags(atoms)) + (pos + (frc + (vel + rest)))
  {
    hide Block, Header, AnyForce, AnyVelocity, Flags;
    var h := Header(|atoms|, Flags(atoms));
    assert h + pos + frc + vel + rest == h + (pos + (frc + (vel + rest)));
  }

  lemma Tails(h: Bytes, pos: Bytes, frc: Bytes, tail: Bytes)
    ensures var b := h + (pos + (frc + tail));
      && b[|h|..] == pos + (frc + tail)
      && b[|h| + |pos|..] == frc + tail
      && b[|h| + |pos| + |frc|..] == tail
  {}

  lemma FlagBits(atoms: seq<Atom>)
    ensures Flags(atoms) % 2 == 1 <==> AnyForce(atoms)
    ensures (Flags(atoms) / 2) % 2 == 1 <==> AnyVelocity(atoms)
  {
    hide AnyForce, AnyVelocity;
  }

  /** `decode`. */
  method DecodeLoop(b: Bytes) returns (r: Result<Cooked>)
    ensures if Decode(b).Ok? then r == Decode(b) else r.Err?
  {
    hide ReadRows, FromLe32;
    if |b| < HEADER_LEN || b[..4] != MAGIC {
      return Err(Message("cooked SoA bad header"));
    }
    if FromLe32(b[4..8]) != 1 || b[16] != 0 {
      return Err(Message("cooked SoA unsupported version or dtype"));
    }
    var n: nat := FromLe32(b[8..12]);
    var flags := FromLe32(b[12..16]);
    var hasF, hasV := flags % 2 == 1, (flags / 2) % 2 == 1;
    var block := 24 * n;
    var need := HEADER_LEN + block;
    if hasF {
      need := need + block;
    }
    if hasV {
      need := need + block;
    }
    if |b| < need {
      return Err(Message("cooked SoA truncated body"));
    }
    var off := HEADER_LEN;
    ReadSlice(b, off, n);
    var positions := ReadLoop(b[off..off + block], n);
    off := off + block;
    var forces: Option<seq<Vec3>> := None;
    if hasF {
      ReadSlice(b, off, n);
      var f := ReadLoop(b[off..off + block], n);
      off := off + block;
      forces := Some(f.value);
    }
    var velocities: Option<seq<Vec3>> := None;
    if hasV {
      ReadSlice(b, off, n);
      var v := ReadLoop(b[off..off + block], n);
      velocities := Some(v.value);
    }
    r := Ok(Cooked(n, positions.value, forces, velocities));
  }

  /** A block read from its own slice is the block read in place. */
  lemma ReadSlice(b: Bytes, off: nat, n: nat)
    requires off + 24 * n <= |b|
    ensures ReadRows(b[off..off + 24 * n], n) == ReadRows(b[off..], n)
  {
    ReadPrefix(b[off..off + 24 * n], b[off + 24 * n..], n);
    assert b[off..off + 24 * n] + b[off + 24 * n..] == b[off..];
  }

  // ---------------------------------------------------------------------
  // Reading through the cache
  // ---------------------------------------------------------------------

  /** The corpus cooks a frame from the atoms its text parses to. */
  ghost predicate CooksFrom(w: World, AtomsOf: Bytes -> Option<seq<Atom>>) {
    forall t: Bytes :: w.Cook(t) ==
      match AtomsOf(t) {
        case None => None
        case Some(atoms) => if Encode(atoms).Ok? then Some(Encode(atoms).value) else None
      }
  }

  /** `get_cooked_soa`: a value that does not decode counts as absent. */
  function GetCooked(s: Store, fk: FrameKey): Option<Cooked> {
    if fk in s.soa && Decode(s.soa[fk]).Ok? then Some(Decode(s.soa[fk]).value) else None
  }

  /** `get_positions`, `get_forces` and `get_velocities`: the cooked block when there is one, else the parsed text. */
  function GetPositions(s: Store, fk: FrameKey, atoms: seq<Atom>): seq<Vec3> {
    match GetCooked(s, fk)
    case Some(c) => c.positions
    case None => Positions(atoms)
  }

  function GetForces(s: Store, fk: FrameKey, atoms: seq<Atom>): Option<seq<Vec3>> {
    var c := GetCooked(s, fk);
    if c.Some? && c.value.forces.Some? then c.value.forces
    else if AnyForce(atoms) then Some(Forces(atoms)) else None
  }

  function GetVelocities(s: Store, fk: FrameKey, atoms: seq<Atom>): Option<seq<Vec3>> {
    var c := GetCooked(s, fk);
    if c.Some? && c.value.velocities.Some? then c.value.velocities
    else if AnyVelocity(atoms) then Some(Velocities(atoms)) else None
  }

  /** In a consistent environment what was cooked is found, and is what the stored text cooks to. */
  lemma CookedIs(w: World, AtomsOf: Bytes -> Option<seq<Atom>>, s: Store, texts: Texts, fk: FrameKey)
    requires Coherent(w, s, texts) && CooksFrom(w, AtomsOf) && fk in texts && AtomsOf(texts[fk]).Some?
    ensures GetCooked(s, fk).Some? <==> fk in s.soa
    ensures fk in s.soa ==>
      |AtomsOf(texts[fk]).value| <= U32_MAX && GetCooked(s, fk) == Some(FromText(AtomsOf(texts[fk]).value))
  {
    hide Readable, Sound, Numbered, Decode, Encode;
    if fk in s.soa {
      var atoms := AtomsOf(texts[fk]).value;
      assert w.Cook(texts[fk]) == Some(s.soa[fk]);
      EncodeBound(atoms);
      DecodeEncode(atoms, []);
      assert Encode(atoms).value + [] == Encode(atoms).value;
    }
  }

  /** In every consistent environment a read through the cache gives what a read of the text gives. */
  lemma CacheAgrees(w: World, AtomsOf: Bytes -> Option<seq<Atom>>, s: Store, texts: Texts, fk: FrameKey)
    requires Coherent(w, s, texts) && CooksFrom(w, AtomsOf) && fk in texts && AtomsOf(texts[fk]).Some?
    ensures var atoms := AtomsOf(texts[fk]).value;
      && GetPositions(s, fk, atoms) == Positions(atoms)
      && GetForces(s, fk, atoms) == (if AnyForce(atoms) then Some(Forces(atoms)) else None)
      && GetVelocities(s, fk, atoms) == (if AnyVelocity(atoms) then Some(Velocities(atoms)) else None)
  {
    hide Coherent, CooksFrom, GetCooked;
    if GetCooked(s, fk).Some? {
      CookedIs(w, AtomsOf, s, texts, fk);
    }
  }

  lemma EncodeBound(atoms: seq<Atom>)
    ensures Encode(atoms).Ok? <==> |atoms| <= U32_MAX
  {
    hide Header, Block;
  }

  // ---------------------------------------------------------------------
  // Batches
  // ---------------------------------------------------------------------

  predicate BlobsFit(blobs: seq<Bytes>) {
    forall i :: 0 <= i < |blobs| ==> |blobs[i]| <= U32_MAX
  }

  function Blobs(blobs: seq<Bytes>): Bytes {
    if blobs == [] then [] else Blobs(blobs[..|blobs| - 1]) + (Le32(|blobs[|blobs| - 1]|) + blobs[|blobs| - 1])
  }

  function EncodeBatch(blobs: seq<Bytes>): Result<Bytes> {
    if |blobs| > U32_MAX || !BlobsFit(blobs) then Err(Message("pack batch too large"))
    else Ok(BATCH_MAGIC + Le32(1) + Le32(|blobs|) + Blobs(blobs))
  }

  /** `n` length-prefixed blobs from cursor `off` on. */
  function ReadBlobs(b: Bytes, off: nat, n: nat): Result<seq<Bytes>>
    requires off <= |b|
    decreases n
  {
    if n == 0 then Ok([])
    else if off + 4 > |b| then Err(Message("RCSB truncated length"))
    else
      var ln := FromLe32(b[off..off + 4]);
      if off + 4 + ln > |b| then Err(Message("RCSB truncated blob"))
      else
        var rest :- ReadBlobs(b, off + 4 + ln, n - 1);
        Ok([b[off + 4..off + 4 + ln]] + rest)
  }

  function DecodeBatch(b: Bytes): Result<seq<Bytes>> {
    if |b| < 12 || b[..4] != BATCH_MAGIC || FromLe32(b[4..8]) != 1 then Err(Message("RCSB header"))
    else ReadBlobs(b, 12, FromLe32(b[8..12]))
  }

  method EncodeBatchLoop(blobs: seq<Bytes>) returns (r: Result<Bytes>)
    ensures if EncodeBatch(blobs).Ok? then r == EncodeBatch(blobs) else r.Err?
  {
    hide Le32;
    if |blobs| > U32_MAX {
      return Err(Message("too many frames in pack batch"));
    }
    var out := BATCH_MAGIC + Le32(1) + Le32(|blobs|);
    ghost var head := out;
    for i := 0 to |blobs|
      invariant forall j :: 0 <= j < i ==> |blobs[j]| <= U32_MAX
      invariant out == head + Blobs(blobs[..i])
    {
      if |blobs[i]| > U32_MAX {
        return Err(Message("RCSO blob exceeds u32 length"));
      }
      assert blobs[..i + 1][..i] == blobs[..i];
      var next := Le32(|blobs[i]|) + blobs[i];
      assert head + Blobs(blobs[..i]) + next == head + (Blobs(blobs[..i]) + next);
      out := out + next;
    }
    assert blobs[..|blobs|] == blobs;
    r := Ok(out);
  }

  method DecodeBatchLoop(b: Bytes) returns (r: Result<seq<Bytes>>)
    ensures if DecodeBatch(b).Ok? then r == DecodeBatch(b) else r.Err?
  {
    hide FromLe32;
    if |b| < 12 || b[..4] != BATCH_MAGIC || FromLe32(b[4..8]) != 1 {
      return Err(Message("RCSB header"));
    }
    var n := FromLe32(b[8..12]);
    var off: nat := 12;
    var out: seq<Bytes> := [];
    PrefixedNothing(ReadBlobs(b, off, n));
    for k := 0 to n
      invariant off <= |b| && k <= n
      invariant DecodeBatch(b) == Prefixed(out, ReadBlobs(b, off, n - k))
    {
      if off + 4 > |b| {
        return Err(Message("RCSB truncated length"));
      }
      var ln := FromLe32(b[off..off + 4]);
      off := off + 4;
      if off + ln > |b| {
        return Err(Message("RCSB truncated blob"));
      }
      var blob := b[off..off + ln];
      PrefixedMore(out, blob, ReadBlobs(b, off + ln, n - k - 1));
      out := out + [blob];
      off := off + ln;
    }
    JoinedNothing(Ok(out));
    r := Ok(out);
  }

  lemma PrefixedMore(out: seq<Bytes>, blob: Bytes, rest: Result<seq<Bytes>>)
    ensures Prefixed(out, Prefixed([blob], rest)) == Prefixed(out + [blob], rest)
  {
    if rest.Ok? {
      assert out + ([blob] + rest.value) == out + [blob] + rest.value;
    }
  }

  /** Where the `k`-th blob stands, length prefix first. */
  lemma BlobAt(pre: Bytes, blobs: seq<Bytes>, k: nat, rest: Bytes)
    requires BlobsFit(blobs) && k < |blobs|
    ensures var (b, off, blob) := (pre + (Blobs(blobs) + rest), |pre| + |Blobs(blobs[..k])|, blobs[k]);
      && off + 4 + |blob| <= |b| && |Blobs(blobs[..k + 1])| == |Blobs(blobs[..k])| + 4 + |blob|
      && b[off..off + 4] == Le32(|blob|) && b[off + 4..off + 4 + |blob|] == blob
  {
    hide Le32;
    var b, off, blob := pre + (Blobs(blobs) + rest), |pre| + |Blobs(blobs[..k])|, blobs[k];
    BlobsPrefix(blobs, k + 1);
    assert blobs[..k + 1][..k] == blobs[..k];
    assert Blobs(blobs[..k + 1]) == Blobs(blobs[..k]) + (Le32(|blob|) + blob);
    hide Blobs;
    assert b[off..off + 4 + |blob|] == Le32(|blob|) + blob by {
      assert b[|pre|..] == Blobs(blobs) + rest;
      assert b[|pre|..][..|Blobs(blobs[..k + 1])|] == Blobs(blobs[..k + 1]);
    }
    assert b[off..off + 4] == b[off..off + 4 + |blob|][..4];
    assert b[off + 4..off + 4 + |blob|] == b[off..off + 4 + |blob|][4..];
  }

  lemma {:induction false} BlobsRead(pre: Bytes, blobs: seq<Bytes>, k: nat, rest: Bytes)
    requires BlobsFit(blobs) && k <= |blobs|
    ensures var b := pre + (Blobs(blobs) + rest);
      var off := |pre| + |Blobs(blobs[..k])|;
      off <= |b| && ReadBlobs(b, off, |blobs| - k) == Ok(blobs[k..])
    decreases |blobs| - k
  {
    hide Le32, FromLe32, Blobs;
    BlobsPrefix(blobs, k);
    if k == |blobs| {
      assert blobs[..k] == blobs && blobs[k..] == [];
    } else {
      BlobsRead(pre, blobs, k + 1, rest);
      BlobAt(pre, blobs, k, rest);
      Le32RoundTrip(|blobs[k]|);
      assert [blobs[k]] + blobs[k + 1..] == blobs[k..];
    }
  }

  lemma {:induction false} BlobsPrefix(blobs: seq<Bytes>, k: nat)
    requires k <= |blobs|
    ensures Blobs(blobs[..k]) <= Blobs(blobs)
  {
    hide Le32;
    if k == |blobs| {
      assert blobs[..k] == blobs;
    } else {
      var n := |blobs| - 1;
      BlobsPrefix(blobs[..n], k);
      assert blobs[..n][..k] == blobs[..k];
    }
  }

  /** A batch gives back its blobs in order, whatever follows it in the buffer. */
  lemma BatchRoundTrip(blobs: seq<Bytes>, rest: Bytes)
    requires EncodeBatch(blobs).Ok?
    ensures DecodeBatch(EncodeBatch(blobs).value + rest) == Ok(blobs)
  {
    hide Le32, FromLe32, Blobs, ReadBlobs;
    var pre := BATCH_MAGIC + Le32(1) + Le32(|blobs|);
    var b := EncodeBatch(blobs).value + rest;
    Le32RoundTrip(1);
    Le32RoundTrip(|blobs|);
    assert b == pre + (Blobs(blobs) + rest);
    assert b[..4] == BATCH_MAGIC && b[4..8] == Le32(1) && b[8..12] == Le32(|blobs|);
    BlobsRead(pre, blobs, 0, rest);
    NoBlobs();
    assert blobs[..0] == [] && blobs[0..] == blobs;
  }

  lemma NoBlobs()
    ensures Blobs([]) == []
  {}
}

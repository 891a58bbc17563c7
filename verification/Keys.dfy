/** Byte layouts of the primary key and of every secondary index key. */
module Keys {
  import opened Prelude
  import opened Utf8

  /** The bits of a binary64 value. */
  type F64 = u64

  type Hash = h: Bytes | |h| == 16 witness [0, 0, 0, 0, 0, 0, 0, 0, 0, 0, 0, 0, 0, 0, 0, 0]

  datatype Table =
    | Natoms | Symbol | ElemCount | Formula | Energy | Fmax | Mass | Volume | Pbc | Flags | Meta

  /** One row of a secondary index: the tables hold keys and no values. */
  datatype Entry = Entry(table: Table, key: Bytes)

  function FrameKeyBytes(fk: FrameKey): (b: Bytes)
    ensures |b| == 12
  {
    BigEndian(fk.traj, 8) + BigEndian(fk.idx, 4)
  }

  function FrameKeyFromBytes(b: Bytes): Option<FrameKey> {
    if |b| != 12 then None
    else
      Pow256Values();
      Some(FrameKey(FromBigEndian(b[..8]), FromBigEndian(b[8..])))
  }

  lemma FrameKeyRoundTrip(fk: FrameKey)
    ensures FrameKeyFromBytes(FrameKeyBytes(fk)) == Some(fk)
  {
    Pow256Values();
    BigEndianRoundTrip(fk.traj, 8);
    BigEndianRoundTrip(fk.idx, 4);
    assert FrameKeyBytes(fk)[..8] == BigEndian(fk.traj, 8);
    assert FrameKeyBytes(fk)[8..] == BigEndian(fk.idx, 4);
  }

  /** Every index key ends with the key of the frame it was derived from. */
  predicate Names(key: Bytes, fk: FrameKey) {
    |key| >= 12 && key[|key| - 12..] == FrameKeyBytes(fk)
  }

  lemma NamesOne(key: Bytes, a: FrameKey, b: FrameKey)
    requires Names(key, a) && Names(key, b)
    ensures a == b
  {
    FrameKeyRoundTrip(a);
    FrameKeyRoundTrip(b);
  }

  function Suffixed(prefix: Bytes, fk: FrameKey): (k: Bytes)
    ensures Names(k, fk)
    ensures |k| == |prefix| + 12
    ensures k[..|prefix|] == prefix
  {
    prefix + FrameKeyBytes(fk)
  }

  function NatomsKey(n: u32, fk: FrameKey): (k: Bytes)
    ensures |k| == 16
  {
    Suffixed(BigEndian(n, 4), fk)
  }

  /** symbol, formula or topology string, then the separator no text contains. */
  function TextPrefix(text: Text): Bytes {
    text + [0xFF]
  }

  function SymbolKey(symbol: Text, fk: FrameKey): Bytes {
    Suffixed(TextPrefix(symbol), fk)
  }

  function FormulaKey(formula: Text, fk: FrameKey): Bytes {
    Suffixed(TextPrefix(formula), fk)
  }

  function ElemCountKey(symbol: Text, count: u32, fk: FrameKey): Bytes {
    Suffixed(TextPrefix(symbol) + BigEndian(count, 4), fk)
  }

  predicate Finite(x: F64) {
    (x / 0x10_0000_0000_0000) % 0x800 != 0x7FF
  }

  predicate SignNegative(x: F64) {
    x >= 0x8000_0000_0000_0000
  }

  /** Flip every bit of a negative value, the sign bit of a non-negative one. */
  function OrderedBits(x: F64): Option<u64> {
    if !Finite(x) then None
    else if SignNegative(x) then Some(0xFFFF_FFFF_FFFF_FFFF - x)
    else Some(x + 0x8000_0000_0000_0000)
  }

  function BinKey(x: F64, fk: FrameKey): (k: Option<Bytes>)
    ensures k.Some? ==> |k.value| == 20 && Names(k.value, fk)
  {
    match OrderedBits(x)
    case None => None
    case Some(o) => Some(Suffixed(BigEndian(o, 8), fk))
  }

  function FlagKey(flag: byte, fk: FrameKey): (k: Bytes)
    ensures |k| == 13
  {
    Suffixed([flag], fk)
  }

  function MetaKey(channel: byte, x: F64, fk: FrameKey): (k: Option<Bytes>)
    ensures k.Some? ==> |k.value| == 21 && Names(k.value, fk)
  {
    match OrderedBits(x)
    case None => None
    case Some(o) => Some(Suffixed([channel] + BigEndian(o, 8), fk))
  }

  /** Which directions are periodic: x, y, z. */
  type Periodic = (bool, bool, bool)

  /** `pbc_mask_from_bools`. */
  function MaskOf(p: Periodic): byte {
    (if p.0 then 1 else 0) + (if p.1 then 2 else 0) + (if p.2 then 4 else 0)
  }

  /** Bit 0 of the mask is x, bit 1 is y, bit 2 is z, and there is no other bit. */
  lemma MaskBits(p: Periodic)
    ensures MaskOf(p) < 8
    ensures MaskOf(p) % 2 == 1 <==> p.0
    ensures MaskOf(p) / 2 % 2 == 1 <==> p.1
    ensures MaskOf(p) / 4 % 2 == 1 <==> p.2
  {}

  /** So a mask names its directions. */
  lemma MaskOnce(p: Periodic, q: Periodic)
    requires MaskOf(p) == MaskOf(q)
    ensures p == q
  {
    hide MaskOf;
    MaskBits(p);
    MaskBits(q);
  }

  function PbcKey(mask: byte, fk: FrameKey): (k: Bytes)
    ensures |k| == 13
  {
    Suffixed([mask % 8], fk)
  }

  const FLAG_HAS_FORCES: byte := 1
  const FLAG_HAS_VELOCITIES: byte := 2
  const FLAG_HAS_ENERGY: byte := 3
}

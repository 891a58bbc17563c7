/** Unit conversion of stored frames and what the exporter reads from them, over the reals. */
module Units {
  import opened Prelude

  datatype Vec = Vec(x: real, y: real, z: real)

  /** The product, by name: equal factors give equal products without any arithmetic. */
  function Mul(a: real, b: real): real {
    a * b
  }

  // ---------------------------------------------------------------------
  // Units
  // ---------------------------------------------------------------------

  /** A known unit: its dimension and its size in some fixed unit of that dimension. */
  datatype Unit = Unit(dim: int, size: real)

  /** The unit parser, and which spellings the exporter itself knows as nanoseconds. */
  datatype UnitTable = UnitTable(Parse: string -> Option<Unit>, IsNs: string -> bool)

  ghost predicate Lawful(u: UnitTable) {
    && u.Parse("").None?
    && (forall s: string :: u.Parse(s).Some? ==> u.Parse(s).value.size > 0.0)
    && forall s: string :: u.IsNs(s) && u.Parse(s).Some? ==> Factor(u, s, "ps").Some?
  }

  /** `unit_conversion_factor`: units of different dimensions do not convert. */
  function Factor(u: UnitTable, from: string, to: string): Option<real> {
    match (u.Parse(from), u.Parse(to))
    case (Some(a), Some(b)) => if a.dim == b.dim && b.size != 0.0 then Some(a.size / b.size) else None
    case _ => None
  }

  const NATURAL_TIME: string := "(amu*angstrom^2/eV)^0.5"

  /** The `units` object of a header: dimension to unit, absent entries and absent object apart. */
  type Labels = Option<map<string, string>>

  const DEFAULTS: map<string, string> := map["length" := "angstrom", "energy" := "eV", "mass" := "amu", "time" := "fs"]

  function LabelFor(units: Labels, dim: string): Option<string> {
    if units.Some? && dim in units.value then Some(units.value[dim]) else None
  }

  function OrElse(s: Option<string>, other: string): string {
    if s.Some? then s.value else other
  }

  /** `merge_units`: the new labels over the old ones, or over the defaults when the frame has no units at all. */
  function Merge(old_: Labels, given: map<string, string>): map<string, string> {
    (if old_.Some? then old_.value else DEFAULTS) + given
  }

  /** `dim_factor` from the labels of a frame to the labels it will get. */
  function DimFactor(u: UnitTable, from: Labels, to: map<string, string>, dim: string, default_: string): Result<real> {
    var a := OrElse(LabelFor(if from.Some? then from else Some(DEFAULTS), dim), default_);
    var b := OrElse(LabelFor(Some(to), dim), a);
    if a == b then Ok(1.0)
    else
      match Factor(u, a, b)
      case None => Err(Message("unit conversion"))
      case Some(x) => Ok(x)
  }

  // ---------------------------------------------------------------------
  // Frames
  // ---------------------------------------------------------------------

  datatype Atom = Atom(z: int, pos: Vec, vel: Option<Vec>, force: Option<Vec>, energy: Option<real>, mass: real)

  /** A lattice entry may fail to be a number, and a row may fail to be a list. */
  type LatticeRow = Option<seq<Option<real>>>

  datatype Header = Header(
    declaresTime: bool,
    units: Labels,
    boxl: Vec,
    angles: Vec,
    lattice: Option<seq<LatticeRow>>,
    time: Option<real>,
    timestep: Option<real>,
    energy: Option<real>,
    pbc: Option<(bool, bool, bool)>)

  datatype Frame = Frame(header: Header, atoms: seq<Atom>)

  /** The unit a header declares for times; a blank label declares nothing. */
  function DeclaredTime(h: Header): Option<string> {
    var t := LabelFor(h.units, "time");
    if t.Some? && t.value != "" then t else None
  }

  function Positive(x: Option<real>): Option<real> {
    if x.Some? && x.value > 0.0 then x else None
  }

  predicate HasClock(h: Header) {
    h.time.Some? || Positive(h.timestep).Some?
  }

  predicate HasVelocities(atoms: seq<Atom>) {
    exists i :: 0 <= i < |atoms| && atoms[i].vel.Some?
  }

  predicate HasForces(atoms: seq<Atom>) {
    exists i :: 0 <= i < |atoms| && atoms[i].force.Some?
  }

  /** `require_declared_v31_time`: from v3.1 on a clock or velocities need a declared time unit. */
  predicate TimeKnown(f: Frame) {
    !f.header.declaresTime || DeclaredTime(f.header).Some? || (!HasClock(f.header) && !HasVelocities(f.atoms))
  }

  function Times(v: Vec, k: real): Vec {
    Vec(Mul(v.x, k), Mul(v.y, k), Mul(v.z, k))
  }

  function OptTimes(v: Option<Vec>, k: real): Option<Vec> {
    if v.Some? then Some(Times(v.value, k)) else None
  }

  function OptScale(x: Option<real>, k: real): Option<real> {
    if x.Some? then Some(Mul(x.value, k)) else None
  }

  /** The five factors of a rescale: length, time, energy, mass, velocity; the force factor follows. */
  datatype Factors = Factors(lf: real, tf: real, ef: real, mf: real, vf: real, ff: real)

  function FactorsOf(u: UnitTable, h: Header, to: map<string, string>): Result<Factors> {
    var lf :- DimFactor(u, h.units, to, "length", "angstrom");
    var ef :- DimFactor(u, h.units, to, "energy", "eV");
    var tf :- DimFactor(u, h.units, to, "time", "fs");
    var mf :- DimFactor(u, h.units, to, "mass", "amu");
    var vt := if h.declaresTime then tf else 1.0;
    if lf == 0.0 || vt == 0.0 then Err(Message("unit conversion"))
    else Ok(Factors(lf, tf, ef, mf, lf / vt, ef / lf))
  }

  function ScaleAtom(a: Atom, k: Factors): Atom {
    Atom(a.z, Times(a.pos, k.lf), OptTimes(a.vel, k.vf), OptTimes(a.force, k.ff), OptScale(a.energy, k.ef), Mul(a.mass, k.mf))
  }

  function ScaleRow(row: LatticeRow, k: real): LatticeRow {
    if row.None? then None
    else Some(seq(|row.value|, i requires 0 <= i < |row.value| => OptScale(row.value[i], k)))
  }

  function ScaleLattice(rows: seq<LatticeRow>, k: real): (r: seq<LatticeRow>)
    ensures |r| == |rows|
    ensures forall i :: 0 <= i < |rows| ==> r[i] == ScaleRow(rows[i], k)
  {
    seq(|rows|, i requires 0 <= i < |rows| => ScaleRow(rows[i], k))
  }

  function ScaleHeader(h: Header, k: Factors, to: map<string, string>): Header {
    h.(units := Some(to), boxl := Times(h.boxl, k.lf),
       lattice := if h.lattice.Some? then Some(ScaleLattice(h.lattice.value, k.lf)) else None,
       time := OptScale(h.time, k.tf), timestep := OptScale(h.timestep, k.tf), energy := OptScale(h.energy, k.ef))
  }

  function ScaleAtoms(atoms: seq<Atom>, k: Factors): (r: seq<Atom>)
    ensures |r| == |atoms|
    ensures forall i :: 0 <= i < |atoms| ==> r[i] == ScaleAtom(atoms[i], k)
  {
    seq(|atoms|, i requires 0 <= i < |atoms| => ScaleAtom(atoms[i], k))
  }

  /** One frame of `set_trajectory_units`: merge the labels, convert the numbers, store the new labels. */
  function Convert(u: UnitTable, f: Frame, given: map<string, string>): Result<Frame> {
    if !TimeKnown(f) then Err(Message("no units.time"))
    else
      var to := Merge(f.header.units, given);
      var k :- FactorsOf(u, f.header, to);
      Ok(Frame(ScaleHeader(f.header, k, to), ScaleAtoms(f.atoms, k)))
  }

  // ---------------------------------------------------------------------
  // Export
  // ---------------------------------------------------------------------

  /** Square roots and the two trigonometric functions the cell construction uses. */
  datatype Geometry = Geometry(Sqrt: real -> real, Cos: real -> real, Sin: real -> real)

  ghost predicate Roots(g: Geometry) {
    forall x: real :: x >= 0.0 ==> g.Sqrt(x) >= 0.0 && g.Sqrt(x) * g.Sqrt(x) == x
  }

  datatype Edges = Edges(a: Vec, b: Vec, c: Vec)

  function RowOf(row: LatticeRow): Option<Vec> {
    if row.Some? && |row.value| == 3 && row.value[0].Some? && row.value[1].Some? && row.value[2].Some?
    then Some(Vec(row.value[0].value, row.value[1].value, row.value[2].value))
    else None
  }

  predicate Square(a: Vec) {
    Right(a.x) && Right(a.y) && Right(a.z)
  }

  predicate Right(angle: real) {
    angle == 0.0 || (89.999999999 < angle < 90.000000001)
  }

  function Over(a: real, b: real): real {
    if b == 0.0 then 0.0 else a / b
  }

  function Rest(l: real, x: real, y: real): real {
    l * l - x * x - y * y
  }

  function Clip(x: real): real {
    if x > 0.0 then x else 0.0
  }

  /** The third cell length along z: what the other two components leave. */
  function Height(g: Geometry, l: real, x: real, y: real): real {
    g.Sqrt(Clip(Rest(l, x, y)))
  }

  function Lean(ca: real, cb: real, cg: real): real {
    ca - cb * cg
  }

  /** The third row of a tilted cell. */
  function Third(g: Geometry, l: real, ca: real, cb: real, cg: real, sg: real): Vec {
    var cx := Mul(l, cb);
    var cy := Over(Mul(l, Lean(ca, cb, cg)), sg);
    Vec(cx, cy, Height(g, l, cx, cy))
  }

  function Tilted(g: Geometry, l: Vec, ca: real, cb: real, cg: real, sg: real): Edges {
    Edges(Vec(l.x, 0.0, 0.0), Vec(Mul(l.y, cg), Mul(l.y, sg), 0.0), Third(g, l.z, ca, cb, cg, sg))
  }

  /** `boxl_angles_to_edges33`; a cell with a zero sine is no cell. */
  function BoxEdges(g: Geometry, l: Vec, angles: Vec): Edges {
    if Square(angles) then Edges(Vec(l.x, 0.0, 0.0), Vec(0.0, l.y, 0.0), Vec(0.0, 0.0, l.z))
    else Tilted(g, l, g.Cos(angles.x), g.Cos(angles.y), g.Cos(angles.z), g.Sin(angles.z))
  }

  /** Lattice vectors when they are three rows of three numbers, else the box. */
  function EdgesOf(g: Geometry, h: Header): Edges {
    if h.lattice.Some? && |h.lattice.value| == 3 then
      match (RowOf(h.lattice.value[0]), RowOf(h.lattice.value[1]), RowOf(h.lattice.value[2]))
      case (Some(a), Some(b), Some(c)) => Edges(a, b, c)
      case _ => BoxEdges(g, h.boxl, h.angles)
    else BoxEdges(g, h.boxl, h.angles)
  }

  function EdgesTimes(e: Edges, k: real): Edges {
    Edges(Times(e.a, k), Times(e.b, k), Times(e.c, k))
  }

  /** `uc`. */
  function Convertible(u: UnitTable, from: string, to: string): Result<real> {
    match Factor(u, from, to)
    case None => Err(Message("unit conversion"))
    case Some(x) => Ok(x)
  }

  function TimeScale(u: UnitTable, from: string): Result<real> {
    match Factor(u, from, "ps")
    case Some(x) => Ok(x)
    case None => if u.IsNs(from) then Ok(1000.0) else Err(Message("unit conversion"))
  }

  /** The unit of a clock: a declared one, else the caller's where the header should have declared one, else `fs`. */
  function ClockFrom(h: Header, o: Option<string>): Option<string> {
    if DeclaredTime(h).Some? then DeclaredTime(h)
    else if !h.declaresTime then Some("fs")
    else if o.Some? && o.value != "" then o else None
  }

  /** `frame_time_ps`; `o` is the unit the caller may give. */
  function FrameTime(u: UnitTable, h: Header, idx: nat, o: Option<string>): Result<real> {
    if !HasClock(h) then Ok(idx as real)
    else if ClockFrom(h, o).None? then Err(Message("no units.time"))
    else
      var scale :- TimeScale(u, ClockFrom(h, o).value);
      Ok(if h.time.Some? then Mul(h.time.value, scale) else Mul(Mul(Positive(h.timestep).value, idx as real), scale))
  }

  /** `velocity_time_unit_for`: the caller's unit, else before v3.1 the natural unit whatever the label says, then the declared one. */
  function VelocityUnit(h: Header, has: bool, o: Option<string>): Result<string> {
    if o.Some? then Ok(o.value)
    else if !h.declaresTime then Ok(NATURAL_TIME)
    else if DeclaredTime(h).Some? then Ok(DeclaredTime(h).value)
    else if has then Err(Message("no units.time")) else Ok("fs")
  }

  /** One kJ/mol per angstrom in newtons: a thousand joules over Avogadro's number and 1e-10 metres. */
  const KJ_MOL_ANGSTROM: real := 1000.0 / 602214076000000000000000.0 / 0.0000000001

  /** Newtons in the exported force unit. */
  function InForceUnits(x: real): (r: real)
    ensures Mul(r, KJ_MOL_ANGSTROM) == x
  {
    x / KJ_MOL_ANGSTROM
  }

  /** `force_scale_to_engine`. */
  function ForceScale(u: UnitTable, energy: string, length: string): Result<real> {
    var e :- Convertible(u, energy, "J");
    var l :- Convertible(u, length, "m");
    if l == 0.0 then Err(Message("unit conversion")) else Ok(InForceUnits(e / l))
  }

  function ScaledVecs(vs: seq<Vec>, k: real): (r: seq<Vec>)
    ensures |r| == |vs|
    ensures forall i :: 0 <= i < |vs| ==> r[i] == Times(vs[i], k)
  {
    seq(|vs|, i requires 0 <= i < |vs| => Times(vs[i], k))
  }

  function OrZero(v: Option<Vec>): Vec {
    if v.Some? then v.value else Vec(0.0, 0.0, 0.0)
  }

  function Zs(atoms: seq<Atom>): (r: seq<int>)
    ensures |r| == |atoms| && forall i :: 0 <= i < |atoms| ==> r[i] == atoms[i].z
  {
    seq(|atoms|, i requires 0 <= i < |atoms| => atoms[i].z)
  }

  function Pos(atoms: seq<Atom>): (r: seq<Vec>)
    ensures |r| == |atoms| && forall i :: 0 <= i < |atoms| ==> r[i] == atoms[i].pos
  {
    seq(|atoms|, i requires 0 <= i < |atoms| => atoms[i].pos)
  }

  function Vel(atoms: seq<Atom>): (r: seq<Vec>)
    ensures |r| == |atoms| && forall i :: 0 <= i < |atoms| ==> r[i] == OrZero(atoms[i].vel)
  {
    seq(|atoms|, i requires 0 <= i < |atoms| => OrZero(atoms[i].vel))
  }

  function Frc(atoms: seq<Atom>): (r: seq<Vec>)
    ensures |r| == |atoms| && forall i :: 0 <= i < |atoms| ==> r[i] == OrZero(atoms[i].force)
  {
    seq(|atoms|, i requires 0 <= i < |atoms| => OrZero(atoms[i].force))
  }

  /** What one frame contributes to the exported arrays. */
  datatype Shown = Shown(
    zs: seq<int>,
    pbc: (bool, bool, bool),
    time: real,
    edges: Edges,
    positions: seq<Vec>,
    velocities: Option<seq<Vec>>,
    forces: Option<seq<Vec>>)

  /** One pass of `collect_h5md_with`, from a header and the arrays read for it. */
  function ShowFrom(u: UnitTable, g: Geometry, h: Header, zs: seq<int>, pos: seq<Vec>, vel: Option<seq<Vec>>,
      frc: Option<seq<Vec>>, idx: nat, o: Option<string>): Result<Shown>
  {
    var length := OrElse(LabelFor(h.units, "length"), "angstrom");
    var energy := OrElse(LabelFor(h.units, "energy"), "eV");
    var len :- Convertible(u, length, "angstrom");
    var time :- FrameTime(u, h, idx, o);
    var velUnit :- VelocityUnit(h, vel.Some?, o);
    var velTime :- TimeScale(u, velUnit);
    var frcScale :- if frc.Some? then ForceScale(u, energy, length) else Ok(1.0);
    Ok(Shown(zs, if h.pbc.Some? then h.pbc.value else (true, true, true), time,
      EdgesTimes(EdgesOf(g, h), len),
      ScaledVecs(pos, len),
      if vel.Some? then Some(ScaledVecs(vel.value, Over(len, velTime))) else None,
      if frc.Some? then Some(ScaledVecs(frc.value, frcScale)) else None))
  }

  function VelOf(atoms: seq<Atom>): Option<seq<Vec>> {
    if HasVelocities(atoms) then Some(Vel(atoms)) else None
  }

  function FrcOf(atoms: seq<Atom>): Option<seq<Vec>> {
    if HasForces(atoms) then Some(Frc(atoms)) else None
  }

  /** The same for a frame read from its text alone. */
  function Show(u: UnitTable, g: Geometry, f: Frame, idx: nat, o: Option<string>): Result<Shown> {
    ShowFrom(u, g, f.header, Zs(f.atoms), Pos(f.atoms), VelOf(f.atoms), FrcOf(f.atoms), idx, o)
  }

  // ---------------------------------------------------------------------
  // Arithmetic
  // ---------------------------------------------------------------------

  lemma Ratios(a: real, b: real, c: real)
    requires b > 0.0 && c > 0.0
    ensures (a / b) * (b / c) == a / c
  {
    var q, r := a / b, b / c;
    assert q * b == a && r * c == b;
    assert (q * r) * c == q * (r * c) == a;
  }

  lemma Quotients(a: real, b: real, c: real, d: real)
    requires b > 0.0 && d > 0.0
    ensures (a / b) * (c / d) == (a * c) / (b * d)
  {
    var q, r := a / b, c / d;
    assert q * b == a && r * d == c;
    assert (q * r) * (b * d) == (q * b) * (r * d) == a * c;
  }

  lemma TwoSteps(v: real, k: real, y: real, x: real)
    requires Mul(k, y) == x
    ensures Mul(Mul(v, k), y) == Mul(v, x)
  {
    assert (v * k) * y == v * (k * y);
  }

  lemma Commutes(a: real, k: real, b: real)
    ensures Mul(Mul(a, k), b) == Mul(Mul(a, b), k)
  {
    assert (a * k) * b == (a * b) * k;
  }

  lemma ZeroTimes(k: real)
    ensures Mul(0.0, k) == 0.0
  {}

  lemma TimesTimes(v: Vec, k: real, y: real, x: real)
    requires Mul(k, y) == x
    ensures Times(Times(v, k), y) == Times(v, x)
  {
    hide Mul;
    TwoSteps(v.x, k, y, x);
    TwoSteps(v.y, k, y, x);
    TwoSteps(v.z, k, y, x);
  }

  // ---------------------------------------------------------------------
  // Labels
  // ---------------------------------------------------------------------

  /** The label the exporter reads after the merge is the one the factor was computed to. */
  lemma LabelAfter(units: Labels, given: map<string, string>, dim: string, default_: string)
    requires dim in DEFAULTS && DEFAULTS[dim] == default_
    ensures var to := Merge(units, given);
      var a := OrElse(LabelFor(if units.Some? then units else Some(DEFAULTS), dim), default_);
      && a == OrElse(LabelFor(units, dim), default_)
      && OrElse(LabelFor(Some(to), dim), a) == OrElse(LabelFor(Some(to), dim), default_)
  {}

  /** Converting a number and its label leaves what it measures. */
  lemma FactorChain(u: UnitTable, units: Labels, given: map<string, string>, dim: string, default_: string, target: string)
    requires Lawful(u) && dim in DEFAULTS && DEFAULTS[dim] == default_
    requires DimFactor(u, units, Merge(units, given), dim, default_).Ok?
    requires Factor(u, OrElse(LabelFor(units, dim), default_), target).Some?
    ensures var k := DimFactor(u, units, Merge(units, given), dim, default_).value;
      var x := Factor(u, OrElse(LabelFor(units, dim), default_), target);
      var y := Factor(u, OrElse(LabelFor(Some(Merge(units, given)), dim), default_), target);
      k > 0.0 && x.value > 0.0 && y.Some? && y.value > 0.0 && Mul(k, y.value) == x.value
  {
    LabelAfter(units, given, dim, default_);
    var a := OrElse(LabelFor(units, dim), default_);
    var b := OrElse(LabelFor(Some(Merge(units, given)), dim), default_);
    if a != b {
      Ratios(u.Parse(a).value.size, u.Parse(b).value.size, u.Parse(target).value.size);
    }
  }

  lemma FactorPositive(u: UnitTable, units: Labels, to: map<string, string>, dim: string, default_: string)
    requires Lawful(u) && DimFactor(u, units, to, dim, default_).Ok?
    ensures DimFactor(u, units, to, dim, default_).value > 0.0
  {}

  function ClockUnit(h: Header): string {
    OrElse(DeclaredTime(h), "fs")
  }

  /** The same for the clock unit, blank labels and the exporter's own nanoseconds included. */
  lemma ClockChain(u: UnitTable, h: Header, given: map<string, string>)
    requires Lawful(u) && DimFactor(u, h.units, Merge(h.units, given), "time", "fs").Ok?
    requires TimeScale(u, ClockUnit(h)).Ok?
    ensures var tf := DimFactor(u, h.units, Merge(h.units, given), "time", "fs").value;
      var x, y := TimeScale(u, ClockUnit(h)), TimeScale(u, ClockUnit(h.(units := Some(Merge(h.units, given)))));
      tf > 0.0 && x.value > 0.0 && y.Ok? && y.value > 0.0 && Mul(tf, y.value) == x.value
  {
    LabelAfter(h.units, given, "time", "fs");
    var a := OrElse(LabelFor(h.units, "time"), "fs");
    var b := OrElse(LabelFor(Some(Merge(h.units, given)), "time"), "fs");
    if a != b {
      assert a != "" && b != "";
      assert ClockUnit(h) == a;
      assert Factor(u, a, "ps").Some?;
      FactorChain(u, h.units, given, "time", "fs", "ps");
    }
  }

  // ---------------------------------------------------------------------
  // Cells
  // ---------------------------------------------------------------------

  lemma SquareGrows(r: real, s: real)
    requires 0.0 <= r < s
    ensures r * r < s * s
  {
    calc {
      r * r;
    <=
      r * s;
    <
      s * s;
    }
  }

  lemma SameRoot(r: real, s: real)
    requires r >= 0.0 && s >= 0.0 && r * r == s * s
    ensures r == s
  {
    if r < s {
      SquareGrows(r, s);
    } else if s < r {
      SquareGrows(s, r);
    }
  }

  lemma RootScales(g: Geometry, x: real, y: real, k: real)
    requires Roots(g) && x >= 0.0 && k > 0.0 && y == x * k * k
    ensures g.Sqrt(y) == Mul(g.Sqrt(x), k)
  {
    var r, s := g.Sqrt(y), g.Sqrt(x) * k;
    assert x * k >= 0.0;
    assert y >= 0.0;
    assert s * s == y by {
      assert s * s == (g.Sqrt(x) * g.Sqrt(x)) * (k * k);
    }
    SameRoot(r, s);
  }

  lemma RestScales(a: real, b: real, c: real, k: real)
    ensures Rest(Mul(a, k), Mul(b, k), Mul(c, k)) == Rest(a, b, c) * k * k
  {}

  lemma RestSign(rest: real, k: real)
    requires k > 0.0
    ensures rest * k * k > 0.0 <==> rest > 0.0
  {
    assert k * k > 0.0;
    assert rest * k * k == rest * (k * k);
  }

  lemma ClipScales(rest: real, scaled: real, k: real)
    requires k > 0.0 && scaled == rest * k * k
    ensures Clip(rest) >= 0.0 && Clip(scaled) == Clip(rest) * k * k
  {
    RestSign(rest, k);
    if rest <= 0.0 {
      assert 0.0 * k * k == 0.0;
    }
  }

  lemma HeightScales(g: Geometry, l: real, x: real, y: real, k: real)
    requires Roots(g) && k > 0.0
    ensures Height(g, Mul(l, k), Mul(x, k), Mul(y, k)) == Mul(Height(g, l, x, y), k)
  {
    hide Rest, Mul, Clip, Roots;
    var rest, scaled := Rest(l, x, y), Rest(Mul(l, k), Mul(x, k), Mul(y, k));
    RestScales(l, x, y, k);
    ClipScales(rest, scaled, k);
    RootScales(g, Clip(rest), Clip(scaled), k);
  }

  lemma OverScales(a: real, b: real, k: real)
    ensures Over(Mul(a, k), b) == Mul(Over(a, b), k)
  {
    if b != 0.0 {
      var q, r := a * k / b, a / b;
      assert q * b == a * k && r * b == a;
      assert (q - r * k) * b == 0.0;
    }
  }

  lemma ThirdScales(g: Geometry, l: real, ca: real, cb: real, cg: real, sg: real, k: real)
    requires Roots(g) && k > 0.0
    ensures Third(g, Mul(l, k), ca, cb, cg, sg) == Times(Third(g, l, ca, cb, cg, sg), k)
  {
    hide Height, Over, Roots, Lean, Mul;
    var d := Lean(ca, cb, cg);
    Commutes(l, k, cb);
    Commutes(l, k, d);
    OverScales(Mul(l, d), sg, k);
    HeightScales(g, l, Mul(l, cb), Over(Mul(l, d), sg), k);
  }

  lemma TiltedScales(g: Geometry, l: Vec, ca: real, cb: real, cg: real, sg: real, k: real)
    requires Roots(g) && k > 0.0
    ensures Tilted(g, Times(l, k), ca, cb, cg, sg) == EdgesTimes(Tilted(g, l, ca, cb, cg, sg), k)
  {
    hide Third, Roots, Mul;
    ThirdScales(g, l.z, ca, cb, cg, sg, k);
    Commutes(l.y, k, cg);
    Commutes(l.y, k, sg);
    ZeroTimes(k);
  }

  /** Scaling the box lengths scales the cell, whatever its angles. */
  lemma BoxScales(g: Geometry, l: Vec, angles: Vec, k: real)
    requires Roots(g) && k > 0.0
    ensures BoxEdges(g, Times(l, k), angles) == EdgesTimes(BoxEdges(g, l, angles), k)
  {
    hide Square, Tilted, Mul;
    ZeroTimes(k);
    TiltedScales(g, l, g.Cos(angles.x), g.Cos(angles.y), g.Cos(angles.z), g.Sin(angles.z), k);
  }

  lemma RowScales(row: LatticeRow, k: real)
    ensures RowOf(ScaleRow(row, k)) == (if RowOf(row).Some? then Some(Times(RowOf(row).value, k)) else None)
  {
    hide Mul;
    if row.Some? && |row.value| == 3 {
      var r := ScaleRow(row, k).value;
      assert r[0] == OptScale(row.value[0], k) && r[1] == OptScale(row.value[1], k) && r[2] == OptScale(row.value[2], k);
    }
  }

  /** The exported cell of a rescaled header is the old one scaled, malformed lattices included. */
  lemma EdgesScale(g: Geometry, h: Header, k: Factors, to: map<string, string>)
    requires Roots(g) && k.lf > 0.0
    ensures EdgesOf(g, ScaleHeader(h, k, to)) == EdgesTimes(EdgesOf(g, h), k.lf)
  {
    hide BoxEdges, RowOf, ScaleRow;
    BoxScales(g, h.boxl, h.angles, k.lf);
    if h.lattice.Some? && |h.lattice.value| == 3 {
      RowScales(h.lattice.value[0], k.lf);
      RowScales(h.lattice.value[1], k.lf);
      RowScales(h.lattice.value[2], k.lf);
    }
  }

  // ---------------------------------------------------------------------
  // What a unit change leaves alone
  // ---------------------------------------------------------------------

  lemma ScaledTwice(vs: seq<Vec>, ws: seq<Vec>, k: real, y: real, x: real)
    requires |ws| == |vs| && (forall i :: 0 <= i < |vs| ==> ws[i] == Times(vs[i], k)) && Mul(k, y) == x
    ensures ScaledVecs(ws, y) == ScaledVecs(vs, x)
  {
    hide Times, Mul;
    forall i | 0 <= i < |vs| ensures ScaledVecs(ws, y)[i] == ScaledVecs(vs, x)[i] {
      TimesTimes(vs[i], k, y, x);
    }
  }

  /** Absent vectors stay absent, and the zeros that stand for them stay zero. */
  lemma AtomsScale(atoms: seq<Atom>, k: Factors)
    ensures var scaled := ScaleAtoms(atoms, k);
      && Zs(scaled) == Zs(atoms)
      && (forall i :: 0 <= i < |atoms| ==> Pos(scaled)[i] == Times(Pos(atoms)[i], k.lf))
      && (HasVelocities(scaled) <==> HasVelocities(atoms)) && (HasForces(scaled) <==> HasForces(atoms))
  {
    hide Times, Mul;
    var scaled := ScaleAtoms(atoms, k);
    assert forall i :: 0 <= i < |atoms| ==> scaled[i].vel.Some? == atoms[i].vel.Some?;
    assert forall i :: 0 <= i < |atoms| ==> scaled[i].force.Some? == atoms[i].force.Some?;
  }

  lemma ZeroVec(k: real)
    ensures Times(Vec(0.0, 0.0, 0.0), k) == Vec(0.0, 0.0, 0.0)
  {
    ZeroTimes(k);
  }

  lemma VelocitiesScale(atoms: seq<Atom>, k: Factors)
    ensures forall i :: 0 <= i < |atoms| ==> Vel(ScaleAtoms(atoms, k))[i] == Times(Vel(atoms)[i], k.vf)
    ensures forall i :: 0 <= i < |atoms| ==> Frc(ScaleAtoms(atoms, k))[i] == Times(Frc(atoms)[i], k.ff)
  {
    hide Times, Mul;
    ZeroVec(k.vf);
    ZeroVec(k.ff);
    forall i | 0 <= i < |atoms|
      ensures Vel(ScaleAtoms(atoms, k))[i] == Times(Vel(atoms)[i], k.vf) && Frc(ScaleAtoms(atoms, k))[i] == Times(Frc(atoms)[i], k.ff)
    {
      assert ScaleAtoms(atoms, k)[i] == ScaleAtom(atoms[i], k);
    }
  }

  /** A ratio of factors times the ratio of the new scales is the ratio of the old ones. */
  lemma RatioChain(a: real, b: real, x: real, y: real, x1: real, y1: real)
    requires b > 0.0 && y1 > 0.0 && Mul(a, x1) == x && Mul(b, y1) == y
    ensures y > 0.0 && Mul(a / b, x1 / y1) == x / y
  {
    assert b * y1 > 0.0;
    Quotients(a, b, x1, y1);
  }

  /** The factors of a successful conversion, each with the label it belongs to. */
  lemma ConvertParts(u: UnitTable, f: Frame, given: map<string, string>)
    requires Lawful(u) && Convert(u, f, given).Ok?
    ensures var to := Merge(f.header.units, given);
      && FactorsOf(u, f.header, to).Ok? && TimeKnown(f)
      && (var k := FactorsOf(u, f.header, to).value;
          && Convert(u, f, given).value == Frame(ScaleHeader(f.header, k, to), ScaleAtoms(f.atoms, k))
          && DimFactor(u, f.header.units, to, "length", "angstrom") == Ok(k.lf)
          && DimFactor(u, f.header.units, to, "energy", "eV") == Ok(k.ef)
          && DimFactor(u, f.header.units, to, "time", "fs") == Ok(k.tf)
          && k.lf > 0.0 && k.ef > 0.0 && k.tf > 0.0
          && k.vf == k.lf / (if f.header.declaresTime then k.tf else 1.0) && k.ff == k.ef / k.lf)
  {
    hide DimFactor, ScaleHeader, ScaleAtoms, Merge;
    var to := Merge(f.header.units, given);
    FactorPositive(u, f.header.units, to, "length", "angstrom");
    FactorPositive(u, f.header.units, to, "energy", "eV");
    FactorPositive(u, f.header.units, to, "time", "fs");
  }

  lemma PositiveScales(x: Option<real>, k: real)
    requires k > 0.0
    ensures Positive(OptScale(x, k)) == OptScale(Positive(x), k)
  {
    if x.Some? {
      assert x.value * k > 0.0 <==> x.value > 0.0;
    }
  }

  /** The exported time of a frame does not depend on the unit its clock is stored in. */
  lemma TimeUnchanged(u: UnitTable, f: Frame, given: map<string, string>, idx: nat, o: Option<string>)
    requires Lawful(u) && Convert(u, f, given).Ok? && FrameTime(u, f.header, idx, o).Ok?
    ensures FrameTime(u, Convert(u, f, given).value.header, idx, o) == FrameTime(u, f.header, idx, o)
  {
    hide Mul, DimFactor, FactorsOf, Merge, TimeScale, ScaleAtoms;
    ConvertParts(u, f, given);
    var h, to := f.header, Merge(f.header.units, given);
    var k := FactorsOf(u, h, to).value;
    var h1 := ScaleHeader(h, k, to);
    PositiveScales(h.timestep, k.tf);
    if HasClock(h) {
      ClockChain(u, h, given);
      SameClock(h1, h.(units := Some(to)));
      ClockDeclared(u, h, given, k.tf);
      var x, y := TimeScale(u, ClockUnit(h)).value, TimeScale(u, ClockUnit(h1)).value;
      if h.time.Some? {
        TwoSteps(h.time.value, k.tf, y, x);
      } else {
        var dt := Positive(h.timestep).value;
        Commutes(dt, k.tf, idx as real);
        TwoSteps(Mul(dt, idx as real), k.tf, y, x);
      }
    }
  }

  lemma SameClock(a: Header, b: Header)
    requires a.units == b.units
    ensures ClockUnit(a) == ClockUnit(b) && DeclaredTime(a) == DeclaredTime(b)
  {}

  /** A declared clock unit stays declared. */
  lemma ClockDeclared(u: UnitTable, h: Header, given: map<string, string>, tf: real)
    requires Lawful(u) && DimFactor(u, h.units, Merge(h.units, given), "time", "fs") == Ok(tf)
    ensures DeclaredTime(h).Some? ==> DeclaredTime(h.(units := Some(Merge(h.units, given)))).Some?
  {}

  lemma TimeScalePositive(u: UnitTable, unit: string)
    requires Lawful(u) && TimeScale(u, unit).Ok?
    ensures TimeScale(u, unit).value > 0.0
  {}

  /** Before v3.1 the velocity unit ignores the label, from then on it is the clock's. */
  lemma VelocityUnitIs(h: Header, has: bool)
    requires VelocityUnit(h, has, None).Ok?
    ensures VelocityUnit(h, has, None).value == if h.declaresTime then ClockUnit(h) else NATURAL_TIME
  {}

  /** The exported velocity scale absorbs the conversion under both rules. */
  lemma VelocityChain(u: UnitTable, f: Frame, given: map<string, string>, len: real, len1: real)
    requires Lawful(u) && Convert(u, f, given).Ok?
    requires var unit := VelocityUnit(f.header, HasVelocities(f.atoms), None); unit.Ok? && TimeScale(u, unit.value).Ok?
    requires Mul(FactorsOf(u, f.header, Merge(f.header.units, given)).value.lf, len1) == len
    ensures var k := FactorsOf(u, f.header, Merge(f.header.units, given)).value;
      var h1 := ScaleHeader(f.header, k, Merge(f.header.units, given));
      var unit1 := VelocityUnit(h1, HasVelocities(f.atoms), None);
      && unit1.Ok? && TimeScale(u, unit1.value).Ok?
      && Mul(k.vf, Over(len1, TimeScale(u, unit1.value).value))
        == Over(len, TimeScale(u, VelocityUnit(f.header, HasVelocities(f.atoms), None).value).value)
  {
    hide DimFactor, FactorsOf, Merge, TimeScale, ScaleAtoms, HasVelocities, Mul;
    ConvertParts(u, f, given);
    var h, to := f.header, Merge(f.header.units, given);
    var k := FactorsOf(u, h, to).value;
    var h1 := ScaleHeader(h, k, to);
    var has := HasVelocities(f.atoms);
    VelocityUnitIs(h, has);
    if h.declaresTime {
      ClockChain(u, h, given);
      SameClock(h1, h.(units := Some(to)));
      ClockDeclared(u, h, given, k.tf);
      VelocityUnitIs(h1, has);
      var x, y := TimeScale(u, ClockUnit(h)).value, TimeScale(u, ClockUnit(h1)).value;
      RatioChain(k.lf, k.tf, len, x, len1, y);
    } else {
      TimeScalePositive(u, NATURAL_TIME);
      var x := TimeScale(u, NATURAL_TIME).value;
      OneTimes(x);
      RatioChain(k.lf, 1.0, len, x, len1, x);
    }
  }

  lemma OneTimes(x: real)
    ensures Mul(1.0, x) == x
  {}

  lemma ForceUnitsScale(k: real, y: real, x: real)
    requires Mul(k, y) == x
    ensures Mul(k, InForceUnits(y)) == InForceUnits(x)
  {
    Times3(k, InForceUnits(y), KJ_MOL_ANGSTROM);
    SameFactor(Mul(k, InForceUnits(y)), InForceUnits(x));
  }

  lemma Times3(a: real, b: real, c: real)
    ensures Mul(Mul(a, b), c) == Mul(a, Mul(b, c))
  {}

  lemma SameFactor(a: real, b: real)
    requires Mul(a, KJ_MOL_ANGSTROM) == Mul(b, KJ_MOL_ANGSTROM)
    ensures a == b
  {}

  lemma ForceChain(u: UnitTable, f: Frame, given: map<string, string>)
    requires Lawful(u) && Convert(u, f, given).Ok?
    requires ForceScale(u, OrElse(LabelFor(f.header.units, "energy"), "eV"), OrElse(LabelFor(f.header.units, "length"), "angstrom")).Ok?
    ensures var to := Merge(f.header.units, given);
      var before := ForceScale(u, OrElse(LabelFor(f.header.units, "energy"), "eV"), OrElse(LabelFor(f.header.units, "length"), "angstrom"));
      var after := ForceScale(u, OrElse(LabelFor(Some(to), "energy"), "eV"), OrElse(LabelFor(Some(to), "length"), "angstrom"));
      after.Ok? && Mul(FactorsOf(u, f.header, to).value.ff, after.value) == before.value
  {
    hide DimFactor, FactorsOf, Merge, Factor, Mul, LabelFor, InForceUnits;
    ConvertParts(u, f, given);
    FactorChain(u, f.header.units, given, "energy", "eV", "J");
    FactorChain(u, f.header.units, given, "length", "angstrom", "m");
    var to := Merge(f.header.units, given);
    var k := FactorsOf(u, f.header, to).value;
    var e, l := Factor(u, OrElse(LabelFor(f.header.units, "energy"), "eV"), "J").value,
      Factor(u, OrElse(LabelFor(f.header.units, "length"), "angstrom"), "m").value;
    var e1, l1 := Factor(u, OrElse(LabelFor(Some(to), "energy"), "eV"), "J").value,
      Factor(u, OrElse(LabelFor(Some(to), "length"), "angstrom"), "m").value;
    RatioChain(k.ef, k.lf, e, l, e1, l1);
    ForceUnitsScale(k.ef / k.lf, e1 / l1, e / l);
  }

  lemma EdgesTwice(e: Edges, k: real, y: real, x: real)
    requires Mul(k, y) == x
    ensures EdgesTimes(EdgesTimes(e, k), y) == EdgesTimes(e, x)
  {
    hide Times, Mul;
    TimesTimes(e.a, k, y, x);
    TimesTimes(e.b, k, y, x);
    TimesTimes(e.c, k, y, x);
  }

  /** The length scales of the exporter before and after a conversion. */
  function LengthScale(u: UnitTable, units: Labels): Result<real> {
    Convertible(u, OrElse(LabelFor(units, "length"), "angstrom"), "angstrom")
  }

  /** What an export shows of a frame, the velocity scale `v` apart. */
  function Shows(u: UnitTable, g: Geometry, f: Frame, idx: nat, o: Option<string>, len: real, v: real): Shown
    requires FrameTime(u, f.header, idx, o).Ok?
    requires HasForces(f.atoms) ==> ForcesOf(u, f.header.units).Ok?
  {
    var h := f.header;
    Shown(Zs(f.atoms), if h.pbc.Some? then h.pbc.value else (true, true, true), FrameTime(u, h, idx, o).value,
      EdgesTimes(EdgesOf(g, h), len), ScaledVecs(Pos(f.atoms), len),
      if HasVelocities(f.atoms) then Some(ScaledVecs(Vel(f.atoms), v)) else None,
      if HasForces(f.atoms) then Some(ScaledVecs(Frc(f.atoms), ForcesOf(u, h.units).value)) else None)
  }

  function ForcesOf(u: UnitTable, units: Labels): Result<real> {
    ForceScale(u, OrElse(LabelFor(units, "energy"), "eV"), OrElse(LabelFor(units, "length"), "angstrom"))
  }

  lemma ShowIs(u: UnitTable, g: Geometry, f: Frame, idx: nat, o: Option<string>)
    ensures var unit := VelocityUnit(f.header, HasVelocities(f.atoms), o);
      && (Show(u, g, f, idx, o).Ok? <==>
          && LengthScale(u, f.header.units).Ok? && FrameTime(u, f.header, idx, o).Ok?
          && unit.Ok? && TimeScale(u, unit.value).Ok? && (HasForces(f.atoms) ==> ForcesOf(u, f.header.units).Ok?))
      && (Show(u, g, f, idx, o).Ok? ==>
          var len := LengthScale(u, f.header.units).value;
          Show(u, g, f, idx, o).value == Shows(u, g, f, idx, o, len, Over(len, TimeScale(u, unit.value).value)))
  {
    hide FrameTime, VelocityUnit, TimeScale, ForceScale, EdgesOf, EdgesTimes, ScaledVecs, HasVelocities, HasForces, Over,
      Zs, Pos, Vel, Frc, LabelFor, Convertible;
  }

  /** A conversion changes nothing an export shows when the velocity scale absorbs it. */
  lemma ShowsKept(u: UnitTable, g: Geometry, f: Frame, given: map<string, string>, idx: nat, o: Option<string>, v: real, v1: real)
    requires Lawful(u) && Roots(g) && Convert(u, f, given).Ok?
    requires LengthScale(u, f.header.units).Ok? && FrameTime(u, f.header, idx, o).Ok?
    requires HasForces(f.atoms) ==> ForcesOf(u, f.header.units).Ok?
    ensures var f1 := Convert(u, f, given).value;
      && LengthScale(u, f1.header.units).Ok? && FrameTime(u, f1.header, idx, o).Ok?
      && (HasForces(f1.atoms) ==> ForcesOf(u, f1.header.units).Ok?)
      && (HasVelocities(f1.atoms) <==> HasVelocities(f.atoms))
      && LengthScale(u, f.header.units).value > 0.0
      && (var k := FactorsOf(u, f.header, Merge(f.header.units, given)).value;
          var len, len1 := LengthScale(u, f.header.units).value, LengthScale(u, f1.header.units).value;
          && Mul(k.lf, len1) == len
          && (var a, b := Shows(u, g, f, idx, o, len, v), Shows(u, g, f1, idx, o, len1, v1);
              b == a.(velocities := b.velocities) && (Mul(k.vf, v1) == v ==> b == a)))
  {
    hide Lawful, Roots, DimFactor, FactorsOf, Merge, Factor, Mul, LabelFor, FrameTime, VelocityUnit, TimeScale, ForceScale,
      EdgesOf, EdgesTimes, ScaledVecs, HasVelocities, HasForces, Times, ScaleAtoms, Over, Zs, Pos, Vel, Frc, Convert;
    ConvertParts(u, f, given);
    var h, to := f.header, Merge(f.header.units, given);
    var k := FactorsOf(u, h, to).value;
    var f1 := Convert(u, f, given).value;
    FactorChain(u, h.units, given, "length", "angstrom", "angstrom");
    var len := Factor(u, OrElse(LabelFor(h.units, "length"), "angstrom"), "angstrom").value;
    var len1 := Factor(u, OrElse(LabelFor(Some(to), "length"), "angstrom"), "angstrom").value;
    TimeUnchanged(u, f, given, idx, o);
    AtomsScale(f.atoms, k);
    VelocitiesScale(f.atoms, k);
    EdgesScale(g, h, k, to);
    EdgesTwice(EdgesOf(g, h), k.lf, len1, len);
    ScaledTwice(Pos(f.atoms), Pos(f1.atoms), k.lf, len1, len);
    if Mul(k.vf, v1) == v {
      ScaledTwice(Vel(f.atoms), Vel(f1.atoms), k.vf, v1, v);
    }
    if HasForces(f.atoms) {
      ForceChain(u, f, given);
      ScaledTwice(Frc(f.atoms), Frc(f1.atoms), k.ff, ForcesOf(u, Some(to)).value, ForcesOf(u, h.units).value);
    }
  }

  /**
   * A unit change is not visible in an export: positions, cell, forces, velocities and time of the converted
   * frame are those of the stored one, for every frame that could be exported before.
   */
  lemma ShowUnchanged(u: UnitTable, g: Geometry, f: Frame, given: map<string, string>, idx: nat)
    requires Lawful(u) && Roots(g) && Convert(u, f, given).Ok? && Show(u, g, f, idx, None).Ok?
    ensures Show(u, g, Convert(u, f, given).value, idx, None) == Show(u, g, f, idx, None)
  {
    hide *;
    ConvertedHeader(u, f, given);
    var f1 := Convert(u, f, given).value;
    ShowIs(u, g, f, idx, None);
    ShowIs(u, g, f1, idx, None);
    var unit := VelocityUnit(f.header, HasVelocities(f.atoms), None).value;
    var len := LengthScale(u, f.header.units).value;
    ShowsKept(u, g, f, given, idx, None, Over(len, TimeScale(u, unit).value), 0.0);
    var len1 := LengthScale(u, f1.header.units).value;
    VelocityChain(u, f, given, len, len1);
    var unit1 := VelocityUnit(f1.header, HasVelocities(f.atoms), None).value;
    ShowsKept(u, g, f, given, idx, None, Over(len, TimeScale(u, unit).value), Over(len1, TimeScale(u, unit1).value));
  }

  lemma ConvertedHeader(u: UnitTable, f: Frame, given: map<string, string>)
    requires Lawful(u) && Convert(u, f, given).Ok?
    ensures var to := Merge(f.header.units, given);
      FactorsOf(u, f.header, to).Ok?
      && Convert(u, f, given).value.header == ScaleHeader(f.header, FactorsOf(u, f.header, to).value, to)
  {
    hide DimFactor, ScaleHeader, ScaleAtoms, Merge;
    ConvertParts(u, f, given);
  }

  const NOWHERE: Vec := Vec(0.0, 0.0, 0.0)

  predicate AtRest(atoms: seq<Atom>) {
    forall i :: 0 <= i < |atoms| ==> OrZero(atoms[i].vel) == NOWHERE
  }

  /**
   * With a velocity unit given by the caller the label no longer speaks for the stored velocities: the export of a
   * converted frame differs in its velocities only, and not even there exactly when the conversion left the
   * velocity time unit alone or nothing moves.
   */
  lemma OverrideExact(u: UnitTable, g: Geometry, f: Frame, given: map<string, string>, idx: nat, unit: string)
    requires Lawful(u) && Roots(g) && Convert(u, f, given).Ok? && Show(u, g, f, idx, Some(unit)).Ok?
    ensures var tf := DimFactor(u, f.header.units, Merge(f.header.units, given), "time", "fs");
      var a, b := Show(u, g, f, idx, Some(unit)), Show(u, g, Convert(u, f, given).value, idx, Some(unit));
      && b.Ok? && b.value == a.value.(velocities := b.value.velocities)
      && (b == a <==> !f.header.declaresTime || tf == Ok(1.0) || AtRest(f.atoms))
  {
    hide *;
    var f1 := Convert(u, f, given).value;
    ShowIs(u, g, f, idx, Some(unit));
    ShowIs(u, g, f1, idx, Some(unit));
    GivenUnit(u, f.header, f1.header, HasVelocities(f.atoms), HasVelocities(f1.atoms), unit);
    var len, x := LengthScale(u, f.header.units).value, TimeScale(u, unit).value;
    ShowsKept(u, g, f, given, idx, Some(unit), Over(len, x), 0.0);
    var len1 := LengthScale(u, f1.header.units).value;
    ShowsKept(u, g, f, given, idx, Some(unit), Over(len, x), Over(len1, x));
    ScaleExact(u, f, given, len, len1, x);
    ConvertParts(u, f, given);
    VelocitiesSame(u, g, f, f1, given, idx, Some(unit), len, len1, Over(len, x), Over(len1, x));
  }

  lemma GivenUnit(u: UnitTable, h: Header, h1: Header, has: bool, has1: bool, unit: string)
    requires Lawful(u)
    ensures VelocityUnit(h, has, Some(unit)) == Ok(unit) && VelocityUnit(h1, has1, Some(unit)) == Ok(unit)
    ensures TimeScale(u, unit).Ok? ==> TimeScale(u, unit).value > 0.0
  {
    if TimeScale(u, unit).Ok? {
      TimeScalePositive(u, unit);
    }
  }

  /** Two exports that differ in the velocity scale at most are the same exactly when the scale is, or nothing moves. */
  lemma VelocitiesSame(u: UnitTable, g: Geometry, f: Frame, f1: Frame, given: map<string, string>, idx: nat, o: Option<string>,
      len: real, len1: real, v: real, v1: real)
    requires Lawful(u) && Convert(u, f, given) == Ok(f1)
    requires FrameTime(u, f.header, idx, o).Ok? && (HasForces(f.atoms) ==> ForcesOf(u, f.header.units).Ok?)
    requires FrameTime(u, f1.header, idx, o).Ok? && (HasForces(f1.atoms) ==> ForcesOf(u, f1.header.units).Ok?)
    requires var a, b := Shows(u, g, f, idx, o, len, v), Shows(u, g, f1, idx, o, len1, v1); b == a.(velocities := b.velocities)
    ensures var k := FactorsOf(u, f.header, Merge(f.header.units, given)).value;
      Shows(u, g, f1, idx, o, len1, v1) == Shows(u, g, f, idx, o, len, v) <==> Mul(k.vf, v1) == v || AtRest(f.atoms)
  {
    hide Lawful, DimFactor, FactorsOf, Merge, Mul, FrameTime, ForcesOf, EdgesOf, EdgesTimes, HasForces, HasVelocities, Times,
      ScaleAtoms, Over, Zs, Pos, Frc, Convert, AtRest, ScaledVecs, Vel;
    ConvertParts(u, f, given);
    var k := FactorsOf(u, f.header, Merge(f.header.units, given)).value;
    AtomsScale(f.atoms, k);
    VelocitiesScale(f.atoms, k);
    ScaledVecsSame(Vel(f.atoms), Vel(f1.atoms), k.vf, v1, v);
    RestIs(f.atoms);
  }

  lemma RestIs(atoms: seq<Atom>)
    ensures AtRest(atoms) <==> forall i :: 0 <= i < |atoms| ==> Vel(atoms)[i] == NOWHERE
    ensures !HasVelocities(atoms) ==> AtRest(atoms)
  {
    if forall i :: 0 <= i < |atoms| ==> Vel(atoms)[i] == NOWHERE {
      forall i | 0 <= i < |atoms| ensures OrZero(atoms[i].vel) == NOWHERE {
        assert Vel(atoms)[i] == NOWHERE;
      }
    }
  }

  lemma ScaledVecsSame(vs: seq<Vec>, ws: seq<Vec>, k: real, y: real, x: real)
    requires |ws| == |vs| && forall i :: 0 <= i < |vs| ==> ws[i] == Times(vs[i], k)
    ensures ScaledVecs(ws, y) == ScaledVecs(vs, x) <==> Mul(k, y) == x || forall i :: 0 <= i < |vs| ==> vs[i] == NOWHERE
  {
    hide Times, Mul;
    forall i | 0 <= i < |vs| ensures ScaledVecs(ws, y)[i] == ScaledVecs(vs, x)[i] <==> Mul(k, y) == x || vs[i] == NOWHERE {
      TimesTimes(vs[i], k, y, Mul(k, y));
      TimesSame(vs[i], Mul(k, y), x);
    }
    if forall i :: 0 <= i < |vs| ==> ScaledVecs(ws, y)[i] == ScaledVecs(vs, x)[i] {
      assert ScaledVecs(ws, y) == ScaledVecs(vs, x);
    }
  }

  lemma TimesSame(v: Vec, x: real, y: real)
    ensures Times(v, x) == Times(v, y) <==> x == y || v == NOWHERE
  {
    hide Mul;
    MulSame(v.x, x, y);
    MulSame(v.y, x, y);
    MulSame(v.z, x, y);
  }

  lemma MulSame(a: real, x: real, y: real)
    ensures Mul(a, x) == Mul(a, y) <==> x == y || a == 0.0
  {
    if a * x == a * y {
      assert a * (x - y) == 0.0;
    }
  }

  /** The velocity scale absorbs the conversion exactly when the velocity time unit was left alone. */
  lemma ScaleExact(u: UnitTable, f: Frame, given: map<string, string>, len: real, len1: real, x: real)
    requires Lawful(u) && Convert(u, f, given).Ok? && len > 0.0 && x > 0.0
    requires Mul(FactorsOf(u, f.header, Merge(f.header.units, given)).value.lf, len1) == len
    ensures var k := FactorsOf(u, f.header, Merge(f.header.units, given)).value;
      Mul(k.vf, Over(len1, x)) == Over(len, x) <==> !f.header.declaresTime || k.tf == 1.0
  {
    hide DimFactor, FactorsOf, Merge, ScaleAtoms, ScaleHeader, Lawful, Convert, Mul;
    ConvertParts(u, f, given);
    var k := FactorsOf(u, f.header, Merge(f.header.units, given)).value;
    var vt := if f.header.declaresTime then k.tf else 1.0;
    OneTimes(x);
    RatioChain(k.lf, vt, len, Mul(vt, x), len1, x);
    SameQuotient(len, x, vt);
  }

  lemma SameQuotient(a: real, x: real, t: real)
    requires a > 0.0 && x > 0.0 && t > 0.0
    ensures Mul(t, x) > 0.0 && (a / Mul(t, x) == a / x <==> t == 1.0)
  {
    hide Mul;
    if t > 1.0 {
      Grows(t, x);
      DivLess(a, Mul(t, x), x);
    } else if t < 1.0 {
      Shrinks(t, x);
      DivLess(a, x, Mul(t, x));
    } else {
      OneTimes(x);
    }
  }

  lemma Grows(t: real, x: real)
    requires t > 1.0 && x > 0.0
    ensures Mul(t, x) > x
  {}

  lemma Shrinks(t: real, x: real)
    requires 0.0 < t < 1.0 && x > 0.0
    ensures 0.0 < Mul(t, x) < x
  {
    Stays(t, x);
    var rest := 1.0 - t;
    Stays(rest, x);
    assert Mul(rest, x) == x - Mul(t, x);
  }

  lemma Stays(a: real, b: real)
    requires a > 0.0 && b > 0.0
    ensures Mul(a, b) > 0.0
  {}

  lemma DivLess(a: real, w: real, x: real)
    requires a > 0.0 && 0.0 < x < w
    ensures a / w < a / x
  {
    var p, q := a / w, a / x;
    assert p * w == a && q * x == a;
    if p >= q {
      MulLess(q, p, x, w);
    }
  }

  lemma MulLess(q: real, p: real, x: real, w: real)
    requires 0.0 < q <= p && 0.0 < x < w
    ensures q * x < p * w
  {
    calc {
      q * x;
    <
      q * w;
    <=
      p * w;
    }
  }

  // ---------------------------------------------------------------------
  // What a conversion does
  // ---------------------------------------------------------------------

  /** The label a frame's numbers of one dimension are in. */
  function LabelOf(units: Labels, dim: string): string
    requires dim in DEFAULTS
  {
    OrElse(LabelFor(units, dim), DEFAULTS[dim])
  }

  /** The size of a unit; one that does not parse counts as 1, and a conversion never trades such a label for another. */
  function Worth(u: UnitTable, name: string): real {
    if u.Parse(name).Some? then u.Parse(name).value.size else 1.0
  }

  datatype Worths = Worths(length: real, time: real, energy: real, mass: real)

  function WorthsOf(u: UnitTable, units: Labels): Worths {
    Worths(Worth(u, LabelOf(units, "length")), Worth(u, LabelOf(units, "time")),
      Worth(u, LabelOf(units, "energy")), Worth(u, LabelOf(units, "mass")))
  }

  /** Every requested label is there, and every other one is as it was, or the default where the frame had no units. */
  ghost predicate Relabelled(units: Labels, given: map<string, string>, later: Labels) {
    && later.Some?
    && (forall d <- given :: LabelFor(later, d) == Some(given[d]))
    && forall d: string :: d !in given ==> LabelFor(later, d) == LabelFor(if units.Some? then units else Some(DEFAULTS), d)
  }

  /** The same label, or two units of one dimension. */
  predicate Commensurable(u: UnitTable, a: string, b: string) {
    a == b || (u.Parse(a).Some? && u.Parse(b).Some? && u.Parse(a).value.dim == u.Parse(b).value.dim)
  }

  predicate AllCommensurable(u: UnitTable, units: Labels, later: Labels) {
    && Commensurable(u, LabelOf(units, "length"), LabelOf(later, "length"))
    && Commensurable(u, LabelOf(units, "energy"), LabelOf(later, "energy"))
    && Commensurable(u, LabelOf(units, "time"), LabelOf(later, "time"))
    && Commensurable(u, LabelOf(units, "mass"), LabelOf(later, "mass"))
  }

  lemma DimConverts(u: UnitTable, units: Labels, given: map<string, string>, dim: string)
    requires Lawful(u) && dim in DEFAULTS
    ensures DimFactor(u, units, Merge(units, given), dim, DEFAULTS[dim]).Ok? <==>
      Commensurable(u, LabelOf(units, dim), LabelOf(Some(Merge(units, given)), dim))
  {
    LabelAfter(units, given, dim, DEFAULTS[dim]);
  }

  /** A conversion succeeds exactly when the time unit is known where it must be and each label changes within its dimension. */
  lemma ConvertSucceeds(u: UnitTable, f: Frame, given: map<string, string>)
    requires Lawful(u)
    ensures Convert(u, f, given).Ok? <==>
      TimeKnown(f) && AllCommensurable(u, f.header.units, Some(Merge(f.header.units, given)))
  {
    hide Lawful, Merge, DimFactor, Commensurable, LabelOf, ScaleHeader, ScaleAtoms, TimeKnown;
    var units, to := f.header.units, Merge(f.header.units, given);
    DimConverts(u, units, given, "length");
    DimConverts(u, units, given, "energy");
    DimConverts(u, units, given, "time");
    DimConverts(u, units, given, "mass");
    if DimFactor(u, units, to, "length", "angstrom").Ok? {
      FactorPositive(u, units, to, "length", "angstrom");
    }
    if DimFactor(u, units, to, "time", "fs").Ok? {
      FactorPositive(u, units, to, "time", "fs");
    }
  }

  /** `x` in a unit of size `a` is `y` in a unit of size `b`. */
  predicate SameAmount(x: real, a: real, y: real, b: real) {
    x * a == y * b
  }

  predicate SameOpt(x: Option<real>, a: real, y: Option<real>, b: real) {
    x.Some? == y.Some? && (x.Some? ==> SameAmount(x.value, a, y.value, b))
  }

  predicate SameVec(v: Vec, a: real, w: Vec, b: real) {
    SameAmount(v.x, a, w.x, b) && SameAmount(v.y, a, w.y, b) && SameAmount(v.z, a, w.z, b)
  }

  predicate SameOptVec(v: Option<Vec>, a: real, w: Option<Vec>, b: real) {
    v.Some? == w.Some? && (v.Some? ==> SameVec(v.value, a, w.value, b))
  }

  predicate SameRow(r: LatticeRow, a: real, q: LatticeRow, b: real) {
    && r.Some? == q.Some?
    && (r.Some? ==> |r.value| == |q.value| && forall i :: 0 <= i < |r.value| ==> SameOpt(r.value[i], a, q.value[i], b))
  }

  predicate SameLattice(r: Option<seq<LatticeRow>>, a: real, q: Option<seq<LatticeRow>>, b: real) {
    && r.Some? == q.Some?
    && (r.Some? ==> |r.value| == |q.value| && forall i :: 0 <= i < |r.value| ==> SameRow(r.value[i], a, q.value[i], b))
  }

  predicate SameHeader(h: Header, w: Worths, h1: Header, w1: Worths) {
    && h1.declaresTime == h.declaresTime && h1.angles == h.angles && h1.pbc == h.pbc
    && SameVec(h.boxl, w.length, h1.boxl, w1.length) && SameLattice(h.lattice, w.length, h1.lattice, w1.length)
    && SameOpt(h.time, w.time, h1.time, w1.time) && SameOpt(h.timestep, w.time, h1.timestep, w1.time)
    && SameOpt(h.energy, w.energy, h1.energy, w1.energy)
  }

  /** The size of the velocity unit: before v3.1 its time part is not the header's. */
  function SpeedWorth(declaresTime: bool, w: Worths): real {
    if declaresTime then Over(w.length, w.time) else w.length
  }

  predicate SameAtom(declaresTime: bool, a: Atom, w: Worths, a1: Atom, w1: Worths) {
    && a1.z == a.z && SameVec(a.pos, w.length, a1.pos, w1.length) && SameAmount(a.mass, w.mass, a1.mass, w1.mass)
    && SameOpt(a.energy, w.energy, a1.energy, w1.energy)
    && SameOptVec(a.force, Over(w.energy, w.length), a1.force, Over(w1.energy, w1.length))
    && SameOptVec(a.vel, SpeedWorth(declaresTime, w), a1.vel, SpeedWorth(declaresTime, w1))
  }

  /** `f1` is `f` in the requested units: the labels are the requested ones, and every number still measures the same. */
  ghost predicate Requested(u: UnitTable, f: Frame, given: map<string, string>, f1: Frame) {
    && Relabelled(f.header.units, given, f1.header.units) && AllCommensurable(u, f.header.units, f1.header.units)
    && (var w, w1 := WorthsOf(u, f.header.units), WorthsOf(u, f1.header.units);
        && SameHeader(f.header, w, f1.header, w1)
        && |f1.atoms| == |f.atoms|
        && forall i :: 0 <= i < |f.atoms| ==> SameAtom(f.header.declaresTime, f.atoms[i], w, f1.atoms[i], w1))
  }

  /** The factor of a dimension is the ratio of its two labels. */
  lemma FactorWorth(u: UnitTable, units: Labels, given: map<string, string>, dim: string)
    requires Lawful(u) && dim in DEFAULTS && DimFactor(u, units, Merge(units, given), dim, DEFAULTS[dim]).Ok?
    ensures Worth(u, LabelOf(units, dim)) > 0.0 && Worth(u, LabelOf(Some(Merge(units, given)), dim)) > 0.0
    ensures Mul(DimFactor(u, units, Merge(units, given), dim, DEFAULTS[dim]).value, Worth(u, LabelOf(Some(Merge(units, given)), dim)))
      == Worth(u, LabelOf(units, dim))
  {
    LabelAfter(units, given, dim, DEFAULTS[dim]);
    var a, b := LabelOf(units, dim), LabelOf(Some(Merge(units, given)), dim);
    if a != b {
      Undone(Worth(u, a), Worth(u, b));
    } else {
      OneTimes(Worth(u, a));
    }
  }

  lemma Undone(a: real, b: real)
    requires b > 0.0
    ensures Mul(a / b, b) == a
  {}

  lemma AmountScales(x: real, k: real, a: real, b: real)
    requires Mul(k, b) == a
    ensures SameAmount(x, a, Mul(x, k), b)
  {
    TwoSteps(x, k, b, a);
  }

  lemma VecScales(v: Vec, k: real, a: real, b: real)
    requires Mul(k, b) == a
    ensures SameVec(v, a, Times(v, k), b)
  {
    hide Mul, SameAmount;
    AmountScales(v.x, k, a, b);
    AmountScales(v.y, k, a, b);
    AmountScales(v.z, k, a, b);
  }

  lemma OptAmountScales(x: Option<real>, k: real, a: real, b: real)
    requires Mul(k, b) == a
    ensures SameOpt(x, a, OptScale(x, k), b)
  {
    hide Mul, SameAmount;
    if x.Some? {
      AmountScales(x.value, k, a, b);
    }
  }

  lemma OptVecScales(v: Option<Vec>, k: real, a: real, b: real)
    requires Mul(k, b) == a
    ensures SameOptVec(v, a, OptTimes(v, k), b)
  {
    hide Mul, SameVec, Times;
    if v.Some? {
      VecScales(v.value, k, a, b);
    }
  }

  lemma LatticeScales(r: Option<seq<LatticeRow>>, k: real, a: real, b: real)
    requires Mul(k, b) == a
    ensures SameLattice(r, a, if r.Some? then Some(ScaleLattice(r.value, k)) else None, b)
  {
    hide Mul, SameOpt;
    if r.Some? {
      forall i | 0 <= i < |r.value| ensures SameRow(r.value[i], a, ScaleRow(r.value[i], k), b) {
        if r.value[i].Some? {
          forall j | 0 <= j < |r.value[i].value| ensures SameOpt(r.value[i].value[j], a, OptScale(r.value[i].value[j], k), b) {
            OptAmountScales(r.value[i].value[j], k, a, b);
          }
        }
      }
    }
  }

  /** The factors undo the change of labels, dimension by dimension. */
  predicate Undoes(declaresTime: bool, k: Factors, w: Worths, w1: Worths) {
    && Mul(k.lf, w1.length) == w.length && Mul(k.tf, w1.time) == w.time
    && Mul(k.ef, w1.energy) == w.energy && Mul(k.mf, w1.mass) == w.mass
    && Mul(k.vf, SpeedWorth(declaresTime, w1)) == SpeedWorth(declaresTime, w)
    && Mul(k.ff, Over(w1.energy, w1.length)) == Over(w.energy, w.length)
  }

  lemma FactorsUndo(u: UnitTable, f: Frame, given: map<string, string>)
    requires Lawful(u) && Convert(u, f, given).Ok?
    ensures var to := Merge(f.header.units, given);
      FactorsOf(u, f.header, to).Ok? &&
      Undoes(f.header.declaresTime, FactorsOf(u, f.header, to).value, WorthsOf(u, f.header.units), WorthsOf(u, Some(to)))
  {
    hide DimFactor, Merge, Mul, Worth, LabelOf, ScaleHeader, ScaleAtoms, Lawful;
    ConvertParts(u, f, given);
    var h, to := f.header, Merge(f.header.units, given);
    var k, w, w1 := FactorsOf(u, h, to).value, WorthsOf(u, h.units), WorthsOf(u, Some(to));
    FactorWorth(u, h.units, given, "length");
    FactorWorth(u, h.units, given, "time");
    FactorWorth(u, h.units, given, "energy");
    FactorWorth(u, h.units, given, "mass");
    RatioChain(k.ef, k.lf, w.energy, w.length, w1.energy, w1.length);
    if h.declaresTime {
      RatioChain(k.lf, k.tf, w.length, w.time, w1.length, w1.time);
    }
  }

  lemma HeaderMeans(h: Header, k: Factors, to: map<string, string>, w: Worths, w1: Worths)
    requires Undoes(h.declaresTime, k, w, w1)
    ensures SameHeader(h, w, ScaleHeader(h, k, to), w1)
  {
    hide Mul, SameVec, SameOpt, SameLattice, Times, OptScale, ScaleLattice, Over;
    VecScales(h.boxl, k.lf, w.length, w1.length);
    LatticeScales(h.lattice, k.lf, w.length, w1.length);
    OptAmountScales(h.time, k.tf, w.time, w1.time);
    OptAmountScales(h.timestep, k.tf, w.time, w1.time);
    OptAmountScales(h.energy, k.ef, w.energy, w1.energy);
  }

  lemma AtomMeans(declaresTime: bool, a: Atom, k: Factors, w: Worths, w1: Worths)
    requires Undoes(declaresTime, k, w, w1)
    ensures SameAtom(declaresTime, a, w, ScaleAtom(a, k), w1)
  {
    hide Mul, SameVec, SameOpt, SameOptVec, SameAmount, Times, OptScale, OptTimes, Over, SpeedWorth;
    VecScales(a.pos, k.lf, w.length, w1.length);
    AmountScales(a.mass, k.mf, w.mass, w1.mass);
    OptAmountScales(a.energy, k.ef, w.energy, w1.energy);
    OptVecScales(a.force, k.ff, Over(w.energy, w.length), Over(w1.energy, w1.length));
    OptVecScales(a.vel, k.vf, SpeedWorth(declaresTime, w), SpeedWorth(declaresTime, w1));
  }

  lemma MergeRelabels(units: Labels, given: map<string, string>)
    ensures Relabelled(units, given, Some(Merge(units, given)))
  {}

  /** A conversion does what was asked: the requested labels, and every number measuring what it measured before. */
  lemma ConvertMeans(u: UnitTable, f: Frame, given: map<string, string>)
    requires Lawful(u) && Convert(u, f, given).Ok?
    ensures Requested(u, f, given, Convert(u, f, given).value)
  {
    hide Lawful, Merge, FactorsOf, DimFactor, Undoes, SameHeader, SameAtom, Relabelled, WorthsOf, ScaleAtom, Convert, Mul,
      AllCommensurable;
    ConvertParts(u, f, given);
    ConvertSucceeds(u, f, given);
    FactorsUndo(u, f, given);
    var to := Merge(f.header.units, given);
    var k, w, w1 := FactorsOf(u, f.header, to).value, WorthsOf(u, f.header.units), WorthsOf(u, Some(to));
    MergeRelabels(f.header.units, given);
    HeaderMeans(f.header, k, to, w, w1);
    forall i | 0 <= i < |f.atoms| ensures SameAtom(f.header.declaresTime, f.atoms[i], w, ScaleAtom(f.atoms[i], k), w1) {
      AtomMeans(f.header.declaresTime, f.atoms[i], k, w, w1);
    }
  }

  // ---------------------------------------------------------------------
  // In place
  // ---------------------------------------------------------------------

  /** A parsed frame as the conversion changes it. */
  class ConFrame {
    var header: Header
    var atoms: array<Atom>

    function Value(): Frame
      reads this, atoms
    {
      Frame(header, atoms[..])
    }

    constructor (f: Frame)
      ensures Value() == f && fresh(atoms)
    {
      header := f.header;
      atoms := new Atom[|f.atoms|](i requires 0 <= i < |f.atoms| => f.atoms[i]);
      new;
      assert atoms[..] == f.atoms;
    }

    /** `rescale_frame_units`: every number and the labels change together, or nothing does. */
    method Rescale(u: UnitTable, given: map<string, string>) returns (r: Result<()>)
      modifies this, atoms
      ensures atoms == old(atoms)
      ensures if r.Ok? then Convert(u, old(Value()), given) == Ok(Value())
        else Convert(u, old(Value()), given).Err? && Value() == old(Value())
      ensures r.Ok? && Lawful(u) ==> Requested(u, old(Value()), given, Value())
    {
      hide FactorsOf, ScaleAtom, ScaleHeader, Merge, HasVelocities, Lawful, Requested;
      var known := Check(Value());
      if !known {
        return Err(Message("no units.time"));
      }
      var to := Merge(header.units, given);
      var k :- FactorsOf(u, header, to);
      ghost var before := atoms[..];
      for i := 0 to atoms.Length
        modifies atoms
        invariant forall j :: 0 <= j < i ==> atoms[j] == ScaleAtom(before[j], k)
        invariant forall j :: i <= j < atoms.Length ==> atoms[j] == before[j]
      {
        atoms[i] := ScaleAtom(atoms[i], k);
      }
      header := ScaleHeader(header, k, to);
      assert atoms[..] == ScaleAtoms(before, k);
      if Lawful(u) {
        ConvertMeans(u, old(Value()), given);
      }
      r := Ok(());
    }
  }

  method Check(f: Frame) returns (known: bool)
    ensures known == TimeKnown(f)
  {
    known := TimeKnown(f);
  }

  // ---------------------------------------------------------------------
  // A whole trajectory
  // ---------------------------------------------------------------------

  datatype Arrays = Arrays(
    positions: seq<real>,
    edges: seq<real>,
    times: seq<real>,
    forces: Option<seq<real>>,
    velocities: Option<seq<real>>,
    zs: seq<int>,
    boundary: (bool, bool, bool))

  function FlatVecs(vs: seq<Vec>): (r: seq<real>)
    ensures |r| == 3 * |vs|
  {
    if vs == [] then []
    else
      var last := vs[|vs| - 1];
      FlatVecs(vs[..|vs| - 1]) + [last.x, last.y, last.z]
  }

  function PositionBuffer(shown: seq<Shown>): seq<real> {
    if shown == [] then [] else PositionBuffer(shown[..|shown| - 1]) + FlatVecs(shown[|shown| - 1].positions)
  }

  function EdgeBuffer(shown: seq<Shown>): seq<real> {
    if shown == [] then []
    else
      var e := shown[|shown| - 1].edges;
      EdgeBuffer(shown[..|shown| - 1]) + FlatVecs([e.a, e.b, e.c])
  }

  function TimeBuffer(shown: seq<Shown>): (r: seq<real>)
    ensures |r| == |shown|
  {
    seq(|shown|, i requires 0 <= i < |shown| => shown[i].time)
  }

  function Zeros(n: nat): (r: seq<real>)
    ensures |r| == n && forall i :: 0 <= i < n ==> r[i] == 0.0
  {
    seq(n, _ => 0.0)
  }

  /** Rows of a vector that some frames lack: those frames are zeros. */
  function RowBuffer(rows: seq<Option<seq<Vec>>>, n: nat): seq<real> {
    if rows == [] then []
    else
      var last := rows[|rows| - 1];
      RowBuffer(rows[..|rows| - 1], n) + if last.Some? then FlatVecs(last.value) else Zeros(3 * n)
  }

  function OptBuffer(rows: seq<Option<seq<Vec>>>, n: nat): Option<seq<real>> {
    if exists i :: 0 <= i < |rows| && rows[i].Some? then Some(RowBuffer(rows, n)) else None
  }

  function ForceRows(shown: seq<Shown>): (r: seq<Option<seq<Vec>>>)
    ensures |r| == |shown| && forall i :: 0 <= i < |shown| ==> r[i] == shown[i].forces
  {
    seq(|shown|, i requires 0 <= i < |shown| => shown[i].forces)
  }

  function VelocityRows(shown: seq<Shown>): (r: seq<Option<seq<Vec>>>)
    ensures |r| == |shown| && forall i :: 0 <= i < |shown| ==> r[i] == shown[i].velocities
  {
    seq(|shown|, i requires 0 <= i < |shown| => shown[i].velocities)
  }

  function Filled(shown: seq<Shown>): Arrays
    requires shown != []
  {
    var n := |shown[0].zs|;
    Arrays(PositionBuffer(shown), EdgeBuffer(shown), TimeBuffer(shown),
      OptBuffer(ForceRows(shown), n), OptBuffer(VelocityRows(shown), n), shown[0].zs, shown[0].pbc)
  }

  function ShowAll(u: UnitTable, g: Geometry, frames: seq<Frame>, o: Option<string>): (r: Result<seq<Shown>>)
    ensures r.Ok? ==> |r.value| == |frames|
  {
    if frames == [] then Ok([])
    else
      var n := |frames| - 1;
      var before :- ShowAll(u, g, frames[..n], o);
      var last :- Show(u, g, frames[n], n, o);
      Ok(before + [last])
  }

  predicate Uniform(shown: seq<Shown>) {
    forall i :: 0 <= i < |shown| ==> shown[i].zs == shown[0].zs && shown[i].pbc == shown[0].pbc
  }

  /** `collect_h5md`: one row of buffers per frame, all with the first frame's species and boundary. */
  method Collect(u: UnitTable, g: Geometry, frames: seq<Frame>, o: Option<string>) returns (r: Result<Arrays>)
    ensures r.Ok? <==> frames != [] && ShowAll(u, g, frames, o).Ok? && Uniform(ShowAll(u, g, frames, o).value)
    ensures r.Ok? ==> r.value == Filled(ShowAll(u, g, frames, o).value)
  {
    hide Show, FlatVecs, PositionBuffer, EdgeBuffer, TimeBuffer, OptBuffer, Uniform;
    if frames == [] {
      return Err(Message("no frames for traj"));
    }
    NothingShown();
    var shown: seq<Shown> := [];
    var positions, edges, times: seq<real> := [], [], [];
    for t := 0 to |frames|
      invariant ShowAll(u, g, frames[..t], o) == Ok(shown) && |shown| == t && Uniform(shown)
      invariant positions == PositionBuffer(shown) && edges == EdgeBuffer(shown) && times == TimeBuffer(shown)
    {
      assert frames[..t + 1][..t] == frames[..t];
      var one := Show(u, g, frames[t], t, o);
      if one.Err? {
        ShowStops(u, g, frames, t + 1, o);
        return Err(one.error);
      }
      var next := shown + [one.value];
      BuffersSnoc(shown, one.value);
      if one.value.zs != next[0].zs || one.value.pbc != next[0].pbc {
        NotUniform(u, g, frames, t + 1, next, o);
        return Err(Message("H5MD export needs a fixed composition and boundary"));
      }
      positions := positions + FlatVecs(one.value.positions);
      var e := one.value.edges;
      edges := edges + FlatVecs([e.a, e.b, e.c]);
      times := times + [one.value.time];
      shown := next;
    }
    assert frames[..|frames|] == frames;
    var n := |shown[0].zs|;
    var forces := FillRows(ForceRows(shown), n);
    var velocities := FillRows(VelocityRows(shown), n);
    r := Ok(Arrays(positions, edges, times, forces, velocities, shown[0].zs, shown[0].pbc));
  }

  lemma NothingShown()
    ensures Uniform([]) && PositionBuffer([]) == [] && EdgeBuffer([]) == [] && TimeBuffer([]) == []
  {}

  /** One more frame at the end of the buffers. */
  lemma BuffersSnoc(shown: seq<Shown>, one: Shown)
    requires Uniform(shown)
    ensures var next := shown + [one];
      && PositionBuffer(next) == PositionBuffer(shown) + FlatVecs(one.positions)
      && EdgeBuffer(next) == EdgeBuffer(shown) + FlatVecs([one.edges.a, one.edges.b, one.edges.c])
      && TimeBuffer(next) == TimeBuffer(shown) + [one.time]
      && (Uniform(next) <==> one.zs == next[0].zs && one.pbc == next[0].pbc)
  {
    hide FlatVecs;
    var next := shown + [one];
    assert next[..|shown|] == shown && next[|shown|] == one;
    assert shown != [] ==> next[0] == shown[0];
  }

  method FillRows(rows: seq<Option<seq<Vec>>>, n: nat) returns (r: Option<seq<real>>)
    ensures r == OptBuffer(rows, n)
  {
    hide FlatVecs;
    var any := false;
    var buf: seq<real> := [];
    for i := 0 to |rows|
      invariant any <==> exists j :: 0 <= j < i && rows[j].Some?
      invariant buf == RowBuffer(rows[..i], n)
    {
      assert rows[..i + 1][..i] == rows[..i];
      any := any || rows[i].Some?;
      buf := buf + if rows[i].Some? then FlatVecs(rows[i].value) else Zeros(3 * n);
    }
    assert rows[..|rows|] == rows;
    r := if any then Some(buf) else None;
  }

  lemma {:induction false} ShowStops(u: UnitTable, g: Geometry, frames: seq<Frame>, t: nat, o: Option<string>)
    requires t <= |frames| && ShowAll(u, g, frames[..t], o).Err?
    ensures ShowAll(u, g, frames, o).Err?
    decreases |frames| - t
  {
    hide Show;
    if t == |frames| {
      assert frames[..t] == frames;
    } else {
      assert frames[..t + 1][..t] == frames[..t];
      ShowStops(u, g, frames, t + 1, o);
    }
  }

  lemma {:induction false} NotUniform(u: UnitTable, g: Geometry, frames: seq<Frame>, t: nat, shown: seq<Shown>, o: Option<string>)
    requires t <= |frames| && ShowAll(u, g, frames[..t], o) == Ok(shown) && !Uniform(shown)
    ensures ShowAll(u, g, frames, o).Ok? ==> !Uniform(ShowAll(u, g, frames, o).value)
    decreases |frames| - t
  {
    hide Show;
    if t == |frames| {
      assert frames[..t] == frames;
    } else {
      assert frames[..t + 1][..t] == frames[..t];
      if ShowAll(u, g, frames[..t + 1], o).Ok? {
        var next := ShowAll(u, g, frames[..t + 1], o).value;
        var i :| 0 <= i < |shown| && (shown[i].zs != shown[0].zs || shown[i].pbc != shown[0].pbc);
        assert next[i] == shown[i] && next[0] == shown[0];
        NotUniform(u, g, frames, t + 1, next, o);
      } else {
        ShowStops(u, g, frames, t + 1, o);
      }
    }
  }

  // ---------------------------------------------------------------------
  // What stands where in the buffers
  // ---------------------------------------------------------------------

  function Row3(buf: seq<real>, k: nat): Vec
    requires 3 * k + 2 < |buf|
  {
    Vec(buf[3 * k], buf[3 * k + 1], buf[3 * k + 2])
  }

  lemma {:induction false} FlatVecsAt(vs: seq<Vec>, i: nat)
    requires i < |vs|
    ensures Row3(FlatVecs(vs), i) == vs[i]
  {
    if i < |vs| - 1 {
      FlatVecsAt(vs[..|vs| - 1], i);
    }
  }

  predicate EachSized(rows: seq<Option<seq<Vec>>>, n: nat) {
    forall k :: 0 <= k < |rows| && rows[k].Some? ==> |rows[k].value| == n
  }

  /** Row `t * n + i` is atom `i` of frame `t`, or zeros when the frame has no such vectors. */
  lemma {:induction false} RowBufferAt(rows: seq<Option<seq<Vec>>>, n: nat, t: nat, i: nat)
    requires EachSized(rows, n) && t < |rows| && i < n
    ensures |RowBuffer(rows, n)| == 3 * (|rows| * n) && t * n + i < |rows| * n
    ensures Row3(RowBuffer(rows, n), t * n + i) == if rows[t].Some? then rows[t].value[i] else NOWHERE
  {
    hide FlatVecs, Zeros, Row3;
    var last := |rows| - 1;
    RowBufferSize(rows, n);
    RowBufferSize(rows[..last], n);
    assert |rows| * n == last * n + n;
    var piece := if rows[last].Some? then FlatVecs(rows[last].value) else Zeros(3 * n);
    if t < last {
      RowBufferAt(rows[..last], n, t, i);
      Row3Left(RowBuffer(rows[..last], n), piece, t * n + i);
    } else {
      Row3Right(RowBuffer(rows[..last], n), piece, last * n, i);
      if rows[last].Some? {
        FlatVecsAt(rows[last].value, i);
      } else {
        Row3Zeros(3 * n, i);
      }
    }
  }

  lemma {:induction false} RowBufferSize(rows: seq<Option<seq<Vec>>>, n: nat)
    requires EachSized(rows, n)
    ensures |RowBuffer(rows, n)| == 3 * (|rows| * n)
  {
    hide FlatVecs, Zeros;
    if rows != [] {
      RowBufferSize(rows[..|rows| - 1], n);
      assert |rows| * n == (|rows| - 1) * n + n;
    }
  }

  lemma Row3Left(a: seq<real>, b: seq<real>, k: nat)
    requires 3 * k + 2 < |a|
    ensures Row3(a + b, k) == Row3(a, k)
  {}

  lemma Row3Right(a: seq<real>, b: seq<real>, m: nat, i: nat)
    requires |a| == 3 * m && 3 * i + 2 < |b|
    ensures Row3(a + b, m + i) == Row3(b, i)
  {}

  lemma Row3Zeros(n: nat, i: nat)
    requires 3 * i + 2 < n
    ensures Row3(Zeros(n), i) == NOWHERE
  {}

  function PositionRows(shown: seq<Shown>): (r: seq<Option<seq<Vec>>>)
    ensures |r| == |shown| && forall i :: 0 <= i < |shown| ==> r[i] == Some(shown[i].positions)
  {
    seq(|shown|, i requires 0 <= i < |shown| => Some(shown[i].positions))
  }

  function EdgeRows(shown: seq<Shown>): (r: seq<Option<seq<Vec>>>)
    ensures |r| == |shown| && forall i :: 0 <= i < |shown| ==> r[i] == Some([shown[i].edges.a, shown[i].edges.b, shown[i].edges.c])
  {
    seq(|shown|, i requires 0 <= i < |shown| => Some([shown[i].edges.a, shown[i].edges.b, shown[i].edges.c]))
  }

  lemma {:induction false} BuffersAreRows(shown: seq<Shown>, n: nat)
    ensures PositionBuffer(shown) == RowBuffer(PositionRows(shown), n)
    ensures EdgeBuffer(shown) == RowBuffer(EdgeRows(shown), 3)
  {
    hide FlatVecs;
    if shown != [] {
      BuffersAreRows(shown[..|shown| - 1], n);
      assert PositionRows(shown)[..|shown| - 1] == PositionRows(shown[..|shown| - 1]);
      assert EdgeRows(shown)[..|shown| - 1] == EdgeRows(shown[..|shown| - 1]);
    }
  }

  /** Every array of a shown frame has `n` rows, one per atom. */
  predicate Sized(s: Shown, n: nat) {
    && |s.zs| == n && |s.positions| == n
    && (s.velocities.Some? ==> |s.velocities.value| == n)
    && (s.forces.Some? ==> |s.forces.value| == n)
  }

  lemma ShownSized(u: UnitTable, g: Geometry, f: Frame, idx: nat, o: Option<string>)
    requires Show(u, g, f, idx, o).Ok?
    ensures Sized(Show(u, g, f, idx, o).value, |f.atoms|)
  {
    hide FrameTime, VelocityUnit, TimeScale, ForceScale, EdgesOf, EdgesTimes, HasVelocities, HasForces, Over, LabelFor, Convertible;
  }

  lemma {:induction false} ShowAllAt(u: UnitTable, g: Geometry, frames: seq<Frame>, t: nat, o: Option<string>)
    requires ShowAll(u, g, frames, o).Ok? && t < |frames|
    ensures Show(u, g, frames[t], t, o) == Ok(ShowAll(u, g, frames, o).value[t]) && Sized(ShowAll(u, g, frames, o).value[t], |frames[t].atoms|)
  {
    hide Show, Sized;
    if t < |frames| - 1 {
      ShowAllAt(u, g, frames[..|frames| - 1], t, o);
    } else {
      ShownSized(u, g, frames[t], t, o);
    }
  }

  /** `v` is row `i` of the `t`-th of `len` blocks of `n` rows. */
  predicate RowIs(buf: seq<real>, len: nat, n: nat, t: nat, i: nat, v: Vec) {
    |buf| == 3 * (len * n) && t * n + i < len * n && Row3(buf, t * n + i) == v
  }

  function RowOrZero(vs: Option<seq<Vec>>, i: nat): Vec
    requires vs.Some? ==> i < |vs.value|
  {
    if vs.Some? then vs.value[i] else NOWHERE
  }

  /**
   * What stands where: atom `i` of frame `t` is row `t * n + i` of the positions, forces and velocities, its cell the
   * `t`-th block of three rows of the edges; a frame without forces or velocities has zeros in its own place.
   */
  lemma CollectedAt(shown: seq<Shown>, n: nat, t: nat, i: nat)
    requires t < |shown| && i < n && forall k :: 0 <= k < |shown| ==> Sized(shown[k], n)
    ensures Sized(shown[t], n) && |shown[0].zs| == n
    ensures var (a, len, e) := (Filled(shown), |shown|, shown[t].edges);
      && RowIs(a.positions, len, n, t, i, shown[t].positions[i])
      && RowIs(a.edges, len, 3, t, 0, e.a) && RowIs(a.edges, len, 3, t, 1, e.b) && RowIs(a.edges, len, 3, t, 2, e.c)
      && |a.times| == len && a.times[t] == shown[t].time
      && (a.forces.Some? <==> exists k :: 0 <= k < len && shown[k].forces.Some?)
      && (a.forces.Some? ==> RowIs(a.forces.value, len, n, t, i, RowOrZero(shown[t].forces, i)))
      && (a.velocities.Some? <==> exists k :: 0 <= k < len && shown[k].velocities.Some?)
      && (a.velocities.Some? ==> RowIs(a.velocities.value, len, n, t, i, RowOrZero(shown[t].velocities, i)))
  {
    hide RowBuffer, PositionBuffer, EdgeBuffer, Row3;
    assert Sized(shown[0], n) && Sized(shown[t], n);
    BuffersAreRows(shown, n);
    RowBufferAt(PositionRows(shown), n, t, i);
    RowBufferAt(ForceRows(shown), n, t, i);
    RowBufferAt(VelocityRows(shown), n, t, i);
    RowBufferAt(EdgeRows(shown), 3, t, 0);
    RowBufferAt(EdgeRows(shown), 3, t, 1);
    RowBufferAt(EdgeRows(shown), 3, t, 2);
    AnyRows(shown);
  }

  lemma AnyRows(shown: seq<Shown>)
    requires shown != []
    ensures Filled(shown).forces.Some? <==> exists k :: 0 <= k < |shown| && shown[k].forces.Some?
    ensures Filled(shown).velocities.Some? <==> exists k :: 0 <= k < |shown| && shown[k].velocities.Some?
  {
    hide RowBuffer, PositionBuffer, EdgeBuffer;
    if k :| 0 <= k < |shown| && shown[k].forces.Some? {
      assert ForceRows(shown)[k].Some?;
    }
    if k :| 0 <= k < |shown| && shown[k].velocities.Some? {
      assert VelocityRows(shown)[k].Some?;
    }
  }

  /** The exported arrays of a trajectory are the same before and after its units are changed. */
  lemma {:induction false} ExportUnchanged(u: UnitTable, g: Geometry, frames: seq<Frame>, given: map<string, string>, later: seq<Frame>)
    requires Lawful(u) && Roots(g) && |later| == |frames| && ShowAll(u, g, frames, None).Ok?
    requires forall t :: 0 <= t < |frames| ==> Convert(u, frames[t], given) == Ok(later[t])
    ensures ShowAll(u, g, later, None) == ShowAll(u, g, frames, None)
  {
    hide Show, Convert, Lawful, Roots;
    if frames != [] {
      var n := |frames| - 1;
      ExportUnchanged(u, g, frames[..n], given, later[..n]);
      ShowUnchanged(u, g, frames[n], given, n);
    }
  }
}

/** What the exported numbers are, in terms of the stored ones: times, cells and per-atom vectors. */
module ExportMeans {
  import opened Prelude
  import opened Units

  // ---------------------------------------------------------------------
  // Times
  // ---------------------------------------------------------------------

  /** `x` picoseconds are `y` of the unit `name`, or `y` nanoseconds where only the exporter knows the spelling. */
  predicate Picoseconds(u: UnitTable, x: real, y: real, name: string) {
    if Factor(u, name, "ps").Some? then SameAmount(x, Worth(u, "ps"), y, Worth(u, name)) else u.IsNs(name) && x == y * 1000.0
  }

  lemma ScaleMeans(u: UnitTable, y: real, name: string)
    requires Lawful(u) && TimeScale(u, name).Ok?
    ensures Picoseconds(u, Mul(y, TimeScale(u, name).value), y, name)
  {
    if Factor(u, name, "ps").Some? {
      Undone(Worth(u, name), Worth(u, "ps"));
      TwoSteps(y, TimeScale(u, name).value, Worth(u, "ps"), Worth(u, name));
    }
  }

  /**
   * The exported time of frame `idx`: its own time when it has one, else `idx` times a positive timestep, in the unit
   * the header declares (before v3.1 femtoseconds when it declares none); without a clock the index itself.
   */
  lemma TimeMeans(u: UnitTable, h: Header, idx: nat, o: Option<string>)
    requires Lawful(u) && FrameTime(u, h, idx, o).Ok?
    ensures h.time.None? && (h.timestep.None? || h.timestep.value <= 0.0) ==> FrameTime(u, h, idx, o).value == idx as real
    ensures var unit := if DeclaredTime(h).Some? then DeclaredTime(h) else if !h.declaresTime then Some("fs") else o;
      var x := FrameTime(u, h, idx, o).value;
      && (h.time.Some? ==> unit.Some? && Picoseconds(u, x, h.time.value, unit.value))
      && (h.time.None? && h.timestep.Some? && h.timestep.value > 0.0 ==>
          unit.Some? && Picoseconds(u, x, Mul(h.timestep.value, idx as real), unit.value))
  {
    hide TimeScale, DeclaredTime, Picoseconds, Lawful, Mul;
    if HasClock(h) {
      var unit := ClockFrom(h, o).value;
      if h.time.Some? {
        ScaleMeans(u, h.time.value, unit);
      } else {
        ScaleMeans(u, Mul(h.timestep.value, idx as real), unit);
      }
    }
  }

  /** A clock whose header should declare its unit and does not is refused, unless the caller gives one. */
  lemma ClockRefused(u: UnitTable, h: Header, idx: nat, o: Option<string>)
    requires h.declaresTime && DeclaredTime(h).None? && HasClock(h) && (o.None? || o.value == "")
    ensures FrameTime(u, h, idx, o).Err?
  {}

  // ---------------------------------------------------------------------
  // Cells
  // ---------------------------------------------------------------------

  function Dot(a: Vec, b: Vec): real {
    a.x * b.x + a.y * b.y + a.z * b.z
  }

  /** A lattice of three rows of numbers is the cell, row by row. */
  lemma LatticeMeans(g: Geometry, h: Header, rows: seq<seq<real>>)
    requires |rows| == 3 && forall i :: 0 <= i < 3 ==> |rows[i]| == 3
    requires h.lattice.Some? && |h.lattice.value| == 3
    requires forall i :: 0 <= i < 3 ==> h.lattice.value[i].Some? && |h.lattice.value[i].value| == 3
    requires forall i, j :: 0 <= i < 3 && 0 <= j < 3 ==> h.lattice.value[i].value[j] == Some(rows[i][j])
    ensures EdgesOf(g, h) == Edges(Vec(rows[0][0], rows[0][1], rows[0][2]), Vec(rows[1][0], rows[1][1], rows[1][2]),
      Vec(rows[2][0], rows[2][1], rows[2][2]))
  {
    hide BoxEdges;
    assert RowOf(h.lattice.value[0]) == Some(Vec(rows[0][0], rows[0][1], rows[0][2]));
    assert RowOf(h.lattice.value[1]) == Some(Vec(rows[1][0], rows[1][1], rows[1][2]));
    assert RowOf(h.lattice.value[2]) == Some(Vec(rows[2][0], rows[2][1], rows[2][2]));
  }

  /** A right-angled box has its lengths along the axes. */
  lemma SquareMeans(g: Geometry, l: Vec, angles: Vec)
    requires Right(angles.x) && Right(angles.y) && Right(angles.z)
    ensures BoxEdges(g, l, angles) == Edges(Vec(l.x, 0.0, 0.0), Vec(0.0, l.y, 0.0), Vec(0.0, 0.0, l.z))
  {}

  /** The cosine and sine of one angle. */
  predicate OnCircle(c: real, s: real) {
    c * c + s * s == 1.0
  }

  lemma ProductOver(a: real, s: real)
    requires s != 0.0
    ensures s * Over(a, s) == a
  {}

  /** The second row of a tilted cell: its length, and its angle to the first. */
  lemma SecondMeans(lx: real, ly: real, cg: real, sg: real)
    requires OnCircle(cg, sg)
    ensures var a, b := Vec(lx, 0.0, 0.0), Vec(Mul(ly, cg), Mul(ly, sg), 0.0);
      Dot(a, a) == lx * lx && Dot(a, b) == (lx * ly) * cg && Dot(b, b) == ly * ly
  {
    var x, y := ly * cg, ly * sg;
    assert x * x + y * y == (ly * ly) * (cg * cg + sg * sg) by {
      assert x * x == (ly * ly) * (cg * cg);
      assert y * y == (ly * ly) * (sg * sg);
    }
    assert lx * x == (lx * ly) * cg;
  }

  lemma ThirdLength(g: Geometry, l: real, x: real, y: real)
    requires Roots(g) && Rest(l, x, y) >= 0.0
    ensures x * x + y * y + Height(g, l, x, y) * Height(g, l, x, y) == l * l
  {
    assert Clip(Rest(l, x, y)) == Rest(l, x, y);
  }

  /** The third row meets the second at the angle whose cosine is `ca`. */
  lemma ThirdAngle(ly: real, lz: real, ca: real, cb: real, cg: real, sg: real, cy: real)
    requires sg * cy == lz * (ca - cb * cg)
    ensures (ly * cg) * (lz * cb) + (ly * sg) * cy == (ly * lz) * ca
  {
    assert (ly * cg) * (lz * cb) == ly * (lz * (cb * cg));
    assert (ly * sg) * cy == ly * (sg * cy);
    assert ly * (lz * (cb * cg)) + ly * (lz * (ca - cb * cg)) == ly * (lz * (cb * cg) + lz * (ca - cb * cg));
    assert lz * (cb * cg) + lz * (ca - cb * cg) == lz * ca;
    assert ly * (lz * ca) == (ly * lz) * ca;
  }

  lemma DotWithFirst(lx: real, lz: real, cb: real, cy: real, cz: real)
    ensures Dot(Vec(lx, 0.0, 0.0), Vec(Mul(lz, cb), cy, cz)) == (lx * lz) * cb
  {
    assert lx * (lz * cb) == (lx * lz) * cb;
  }

  /**
   * A tilted box has the lengths and angles it is given, whenever such a cell exists: its rows have the box's lengths
   * and enclose, pair by pair, the angles whose cosines are `ca`, `cb` and `cg`.
   */
  lemma TiltedMeans(g: Geometry, l: Vec, ca: real, cb: real, cg: real, sg: real)
    requires Roots(g) && OnCircle(cg, sg) && sg != 0.0
    requires Rest(l.z, Mul(l.z, cb), Over(Mul(l.z, Lean(ca, cb, cg)), sg)) >= 0.0
    ensures var e := Tilted(g, l, ca, cb, cg, sg);
      && Dot(e.a, e.a) == l.x * l.x && Dot(e.b, e.b) == l.y * l.y && Dot(e.c, e.c) == l.z * l.z
      && Dot(e.a, e.b) == (l.x * l.y) * cg && Dot(e.a, e.c) == (l.x * l.z) * cb && Dot(e.b, e.c) == (l.y * l.z) * ca
  {
    hide Roots, Rest, Height, Over, OnCircle;
    var cx, cy := Mul(l.z, cb), Over(Mul(l.z, Lean(ca, cb, cg)), sg);
    var cz := Height(g, l.z, cx, cy);
    SecondMeans(l.x, l.y, cg, sg);
    DotWithFirst(l.x, l.z, cb, cy, cz);
    ThirdLength(g, l.z, cx, cy);
    ProductOver(Mul(l.z, Lean(ca, cb, cg)), sg);
    ThirdAngle(l.y, l.z, ca, cb, cg, sg, cy);
    DotFlat(Mul(l.y, cg), Mul(l.y, sg), cx, cy, cz);
  }

  lemma DotFlat(x: real, y: real, cx: real, cy: real, cz: real)
    ensures Dot(Vec(x, y, 0.0), Vec(cx, cy, cz)) == x * cx + y * cy
  {}

  // ---------------------------------------------------------------------
  // Per-atom vectors
  // ---------------------------------------------------------------------

  lemma TimesMeans(v: Vec, k: real, a: real, b: real)
    requires Mul(k, b) == a
    ensures SameVec(Times(v, k), b, v, a)
  {
    VecScales(v, k, a, b);
  }

  lemma ConvertibleMeans(u: UnitTable, from: string, to: string)
    requires Lawful(u) && Convertible(u, from, to).Ok?
    ensures Worth(u, to) > 0.0 && Convertible(u, from, to).value > 0.0 && Mul(Convertible(u, from, to).value, Worth(u, to)) == Worth(u, from)
  {
    Undone(Worth(u, from), Worth(u, to));
  }

  /** The exported positions in angstrom are the stored ones in the frame's own length unit, and so is the cell. */
  lemma LengthsMean(u: UnitTable, g: Geometry, f: Frame, idx: nat, o: Option<string>, i: nat)
    requires Lawful(u) && Show(u, g, f, idx, o).Ok? && i < |f.atoms|
    ensures var s, a, b := Show(u, g, f, idx, o).value, Worth(u, "angstrom"), Worth(u, LabelOf(f.header.units, "length"));
      && |s.positions| == |f.atoms| && SameVec(s.positions[i], a, f.atoms[i].pos, b)
      && SameVec(s.edges.a, a, EdgesOf(g, f.header).a, b)
      && SameVec(s.edges.b, a, EdgesOf(g, f.header).b, b) && SameVec(s.edges.c, a, EdgesOf(g, f.header).c, b)
  {
    hide Lawful, FrameTime, VelocityUnit, TimeScale, ForcesOf, EdgesOf, HasVelocities, HasForces, Over, Worth, SameVec, Times,
      Convertible, Factor, Mul, LabelFor, Show;
    ShowIs(u, g, f, idx, o);
    var k, a, b := LengthScale(u, f.header.units).value, Worth(u, "angstrom"), Worth(u, LabelOf(f.header.units, "length"));
    ConvertibleMeans(u, LabelOf(f.header.units, "length"), "angstrom");
    TimesMeans(f.atoms[i].pos, k, b, a);
    TimesMeans(EdgesOf(g, f.header).a, k, b, a);
    TimesMeans(EdgesOf(g, f.header).b, k, b, a);
    TimesMeans(EdgesOf(g, f.header).c, k, b, a);
  }

  /** The size of the exported force unit, a kJ/mol per angstrom. */
  function Newtons(u: UnitTable): real {
    Mul(KJ_MOL_ANGSTROM, Over(Worth(u, "J"), Worth(u, "m")))
  }

  /** The exported forces in kJ/mol per angstrom are the stored ones in the frame's own units; an atom without a force has zero. */
  lemma ForcesMean(u: UnitTable, g: Geometry, f: Frame, idx: nat, o: Option<string>, i: nat)
    requires Lawful(u) && Show(u, g, f, idx, o).Ok? && i < |f.atoms|
    ensures var s, w := Show(u, g, f, idx, o).value, WorthsOf(u, f.header.units);
      && (s.forces.Some? <==> HasForces(f.atoms))
      && (s.forces.Some? ==> (
          && |s.forces.value| == |f.atoms|
          && SameVec(s.forces.value[i], Newtons(u), OrZero(f.atoms[i].force), Over(w.energy, w.length))))
  {
    hide Lawful, FrameTime, VelocityUnit, TimeScale, EdgesOf, HasVelocities, HasForces, Over, Worth, SameVec, Times,
      Convertible, Factor, Mul, LabelFor, Show, ForceScale, Newtons;
    ShowIs(u, g, f, idx, o);
    if HasForces(f.atoms) {
      var energy, length := LabelOf(f.header.units, "energy"), LabelOf(f.header.units, "length");
      ForceScaleMeans(u, energy, length);
      TimesMeans(OrZero(f.atoms[i].force), ForceScale(u, energy, length).value, Over(Worth(u, energy), Worth(u, length)),
        Newtons(u));
    }
  }

  lemma ForceScaleMeans(u: UnitTable, energy: string, length: string)
    requires Lawful(u) && ForceScale(u, energy, length).Ok?
    ensures Mul(ForceScale(u, energy, length).value, Newtons(u)) == Over(Worth(u, energy), Worth(u, length))
  {
    hide Lawful, Convertible, Worth, Mul, InForceUnits;
    ConvertibleMeans(u, energy, "J");
    ConvertibleMeans(u, length, "m");
    var e, l := Convertible(u, energy, "J").value, Convertible(u, length, "m").value;
    RatioChain(e, l, Worth(u, energy), Worth(u, length), Worth(u, "J"), Worth(u, "m"));
    Times3(InForceUnits(e / l), KJ_MOL_ANGSTROM, Over(Worth(u, "J"), Worth(u, "m")));
  }

  /**
   * The exported velocities in angstrom per picosecond are the stored ones per their time unit: the caller's, else
   * before v3.1 the natural one whatever the header says, else the declared one.
   */
  lemma VelocitiesMean(u: UnitTable, g: Geometry, f: Frame, idx: nat, o: Option<string>, i: nat)
    requires Lawful(u) && Show(u, g, f, idx, o).Ok? && HasVelocities(f.atoms) && i < |f.atoms|
    ensures var s, w := Show(u, g, f, idx, o).value, WorthsOf(u, f.header.units);
      var unit := if o.Some? then o else if !f.header.declaresTime then Some(NATURAL_TIME) else DeclaredTime(f.header);
      && s.velocities.Some? && |s.velocities.value| == |f.atoms| && unit.Some? && TimeScale(u, unit.value).Ok?
      && SameVec(s.velocities.value[i], Worth(u, "angstrom"), OrZero(f.atoms[i].vel), Over(w.length, TimeScale(u, unit.value).value))
  {
    hide Lawful, FrameTime, TimeScale, EdgesOf, HasForces, HasVelocities, Over, Worth, SameVec, Times, Convertible, Factor, Mul,
      LabelFor, Show, ForceScale, DeclaredTime;
    ShowIs(u, g, f, idx, o);
    var length := LabelOf(f.header.units, "length");
    var k, t := LengthScale(u, f.header.units).value, TimeScale(u, VelocityUnit(f.header, true, o).value).value;
    ConvertibleMeans(u, length, "angstrom");
    TimeScalePositive(u, VelocityUnit(f.header, true, o).value);
    OverTimes(k, t, Worth(u, "angstrom"), Worth(u, length));
    TimesMeans(OrZero(f.atoms[i].vel), Over(k, t), Over(Worth(u, length), t), Worth(u, "angstrom"));
  }

  lemma OverTimes(k: real, t: real, a: real, b: real)
    requires t > 0.0 && Mul(k, a) == b
    ensures Mul(Over(k, t), a) == Over(b, t)
  {
    var q, r := k / t, b / t;
    assert q * t == k && r * t == b;
    assert (q * a) * t == (q * t) * a;
  }
}

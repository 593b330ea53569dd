/** Element rotation and the stable time step estimate (src/fe_utils.cpp).
    The Euclidean norm and the square root are floating-point library
    functions; they enter as the parameters `norm` and `sqrt`. */
module FeUtils {
  import opened LinAlg
  import opened Elements

  /** `v.normalized()` for the given norm. A vector of norm zero is returned
      unchanged rather than divided by zero. */
  function Normalized(v: Vec3, norm: Vec3 -> real): Vec3
  {
    var n := norm(v);
    if n != 0.0 then v.Times(1.0 / n) else v
  }

  /** The element's local axes: x from node nn1 to node nn2, y along the
      reference direction, z along x cross y, each normalised. */
  datatype Axes = Axes(nx: Vec3, ny: Vec3, nz: Vec3)
  {
    /** Row r (0, 1 or 2) of a 3 x 3 block of the rotation matrix. */
    function Row(r: int): Vec3
      requires 0 <= r < 3
    {
      if r == 0 then nx else if r == 1 then ny else nz
    }
  }

  function LocalAxes(nodes: seq<Vec3>, elem: Element, norm: Vec3 -> real): Axes
    requires elem.RefersTo(|nodes|)
  {
    var nx := Normalized(nodes[elem.nn2].Minus(nodes[elem.nn1]), norm);
    var ny := Normalized(elem.props.normalVec, norm);
    Axes(nx, ny, Normalized(nx.Cross(ny), norm))
  }

  lemma ScaledDot(a: Vec3, s: real, b: Vec3)
    ensures a.Times(s).Dot(b) == s * a.Dot(b)
  {
    calc {
      a.Times(s).Dot(b);
      (s * a.x) * b.x + (s * a.y) * b.y + (s * a.z) * b.z;
      s * (a.x * b.x) + s * (a.y * b.y) + s * (a.z * b.z);
    }
  }

  lemma CrossIsPerpendicular(a: Vec3, b: Vec3)
    ensures a.Cross(b).Dot(a) == 0.0 && a.Cross(b).Dot(b) == 0.0
  {
  }

  /** The local x-axis points from node nn1 to node nn2, and the local z-axis
      is perpendicular to both the x- and the y-axis. */
  lemma LocalAxesGeometry(nodes: seq<Vec3>, elem: Element, norm: Vec3 -> real)
    requires elem.RefersTo(|nodes|)
    requires norm(nodes[elem.nn2].Minus(nodes[elem.nn1])) > 0.0
    ensures var ax := LocalAxes(nodes, elem, norm);
      && (exists k: real :: k > 0.0 && ax.nx == nodes[elem.nn2].Minus(nodes[elem.nn1]).Times(k))
      && ax.nz.Dot(ax.nx) == 0.0
      && ax.nz.Dot(ax.ny) == 0.0
  {
    var ax := LocalAxes(nodes, elem, norm);
    var d := nodes[elem.nn2].Minus(nodes[elem.nn1]);
    var k := 1.0 / norm(d);
    assert k > 0.0 && ax.nx == d.Times(k);
    var c := ax.nx.Cross(ax.ny);
    CrossIsPerpendicular(ax.nx, ax.ny);
    var n := norm(c);
    if n != 0.0 {
      var s := 1.0 / n;
      assert ax.nz == c.Times(s);
      ScaledDot(c, s, ax.nx);
      ScaledDot(c, s, ax.ny);
    }
  }

  /** Which of the four 3 x 3 diagonal blocks index i (0 to 11) falls in. */
  function BlockOf(i: int): int
  {
    if i < 3 then 0 else if i < 6 then 1 else if i < 9 then 2 else 3
  }

  /** The entry (i, j) of the local-to-global rotation: the 3 x 3 block whose
      rows are nx, ny, nz, repeated four times along the diagonal, and zero
      elsewhere. */
  function RotationEntry(ax: Axes, i: int, j: int): real
    requires 0 <= i < LocalSize && 0 <= j < LocalSize
  {
    if BlockOf(i) == BlockOf(j) then ax.Row(i - 3 * BlockOf(i)).Component(j - 3 * BlockOf(j))
    else 0.0
  }

  /** `setZero()` on a 12 x 12 matrix. */
  method SetZero(m: array2<real>)
    requires m.Length0 == LocalSize && m.Length1 == LocalSize
    modifies m
    ensures forall i, j :: 0 <= i < LocalSize && 0 <= j < LocalSize ==> m[i, j] == 0.0
  {
    var i := 0;
    while i < LocalSize
      invariant 0 <= i <= LocalSize
      invariant forall r, c :: 0 <= r < i && 0 <= c < LocalSize ==> m[r, c] == 0.0
    {
      var j := 0;
      while j < LocalSize
        invariant 0 <= j <= LocalSize
        invariant forall r, c :: 0 <= r < i && 0 <= c < LocalSize ==> m[r, c] == 0.0
        invariant forall c :: 0 <= c < j ==> m[i, c] == 0.0
      {
        m[i, j] := 0.0;
        j := j + 1;
      }
      i := i + 1;
    }
  }

  /** Writes diagonal block b of the rotation (or of its transpose) into m
      and leaves every other entry alone. */
  method FillBlock(m: array2<real>, b: int, ax: Axes, transposed: bool)
    requires m.Length0 == LocalSize && m.Length1 == LocalSize && 0 <= b < 4
    modifies m
    ensures forall i, j :: 0 <= i < LocalSize && 0 <= j < LocalSize ==>
      m[i, j] == if BlockOf(i) == b && BlockOf(j) == b
                 then (if transposed then RotationEntry(ax, j, i) else RotationEntry(ax, i, j))
                 else old(m[i, j])
  {
    var o := 3 * b;
    if !transposed {
      m[o, o] := ax.nx.x;      m[o, o + 1] := ax.nx.y;      m[o, o + 2] := ax.nx.z;
      m[o + 1, o] := ax.ny.x;  m[o + 1, o + 1] := ax.ny.y;  m[o + 1, o + 2] := ax.ny.z;
      m[o + 2, o] := ax.nz.x;  m[o + 2, o + 1] := ax.nz.y;  m[o + 2, o + 2] := ax.nz.z;
    } else {
      m[o, o] := ax.nx.x;      m[o, o + 1] := ax.ny.x;      m[o, o + 2] := ax.nz.x;
      m[o + 1, o] := ax.nx.y;  m[o + 1, o + 1] := ax.ny.y;  m[o + 1, o + 2] := ax.nz.y;
      m[o + 2, o] := ax.nx.z;  m[o + 2, o + 1] := ax.ny.z;  m[o + 2, o + 2] := ax.nz.z;
    }
  }

  /** `update_rotation`: zeroes both matrices, then fills the four diagonal
      blocks of the rotation with rows nx, ny, nz and those of the second
      matrix with its transpose. */
  method UpdateRotation(nodes: seq<Vec3>, elem: Element, norm: Vec3 -> real,
                        rotation: array2<real>, rotationTransposed: array2<real>)
    requires elem.RefersTo(|nodes|)
    requires rotation.Length0 == LocalSize && rotation.Length1 == LocalSize
    requires rotationTransposed.Length0 == LocalSize && rotationTransposed.Length1 == LocalSize
    requires rotation != rotationTransposed
    modifies rotation, rotationTransposed
    ensures forall i, j :: 0 <= i < LocalSize && 0 <= j < LocalSize ==>
      rotation[i, j] == RotationEntry(LocalAxes(nodes, elem, norm), i, j)
    ensures forall i, j :: 0 <= i < LocalSize && 0 <= j < LocalSize ==>
      rotationTransposed[i, j] == rotation[j, i]
  {
    SetZero(rotation);
    SetZero(rotationTransposed);
    var ax := LocalAxes(nodes, elem, norm);
    FillBlock(rotation, 0, ax, false);
    FillBlock(rotation, 1, ax, false);
    FillBlock(rotation, 2, ax, false);
    FillBlock(rotation, 3, ax, false);
    FillBlock(rotationTransposed, 0, ax, true);
    FillBlock(rotationTransposed, 1, ax, true);
    FillBlock(rotationTransposed, 2, ax, true);
    FillBlock(rotationTransposed, 3, ax, true);
  }

  /** Both rotation matrices vanish outside the four diagonal blocks, and
      each block's rows are nx, ny and nz in that order. */
  lemma RotationBlockStructure(ax: Axes, i: int, j: int)
    requires 0 <= i < LocalSize && 0 <= j < LocalSize
    ensures BlockOf(i) != BlockOf(j) ==> RotationEntry(ax, i, j) == 0.0
    ensures BlockOf(i) == BlockOf(j) && i % 3 == 0 ==> RotationEntry(ax, i, j) == ax.nx.Component(j % 3)
    ensures BlockOf(i) == BlockOf(j) && i % 3 == 1 ==> RotationEntry(ax, i, j) == ax.ny.Component(j % 3)
    ensures BlockOf(i) == BlockOf(j) && i % 3 == 2 ==> RotationEntry(ax, i, j) == ax.nz.Component(j % 3)
  {
  }

  /** `std::numeric_limits<double>::max()`, exactly. */
  const MaxDouble: real := 179769313486231570814527423731704356798070567525844996598917476803157260780028538760589558632766878171540458953514382464234321326889464182768467546703537516986049910576551282076245490090389328944075868508455133942304583236903222948165808559332123348274797826204144723168738177180919299881250404026184124858368.0

  /** The axial wave speed sqrt(E / rho). */
  function WaveSpeed(e: Element, sqrt: real -> real): real
    requires e.props.density != 0.0
  {
    sqrt(e.props.youngsModulus / e.props.density)
  }

  /** The elements' material is sound: non-zero density and a positive wave
      speed. */
  ghost predicate PositiveWaveSpeeds(elems: seq<Element>, sqrt: real -> real)
  {
    forall k :: 0 <= k < |elems| ==>
      elems[k].props.density != 0.0 && WaveSpeed(elems[k], sqrt) > 0.0
  }

  /** One element's candidate step: its length over its wave speed. */
  function Candidate(nodes: seq<Vec3>, e: Element, norm: Vec3 -> real, sqrt: real -> real): real
    requires e.RefersTo(|nodes|) && e.props.density != 0.0 && WaveSpeed(e, sqrt) > 0.0
  {
    norm(nodes[e.nn2].Minus(nodes[e.nn1])) / WaveSpeed(e, sqrt)
  }

  /** The candidates of all elements, in element order. */
  function Candidates(nodes: seq<Vec3>, elems: seq<Element>, norm: Vec3 -> real, sqrt: real -> real): (cs: seq<real>)
    requires forall k :: 0 <= k < |elems| ==> elems[k].RefersTo(|nodes|)
    requires PositiveWaveSpeeds(elems, sqrt)
    ensures |cs| == |elems|
    ensures forall k :: 0 <= k < |elems| ==> cs[k] == Candidate(nodes, elems[k], norm, sqrt)
  {
    seq(|elems|, k requires 0 <= k < |elems| => Candidate(nodes, elems[k], norm, sqrt))
  }

  /** The running minimum, started at MaxDouble, after scanning cs in order
      and replacing it by any strictly smaller candidate. */
  function RunningMin(cs: seq<real>): real
  {
    if cs == [] then MaxDouble
    else
      var m := RunningMin(cs[..|cs| - 1]);
      if cs[|cs| - 1] < m then cs[|cs| - 1] else m
  }

  /** The running minimum is below MaxDouble and below every candidate. */
  lemma {:induction false} RunningMinIsLowerBound(cs: seq<real>)
    ensures RunningMin(cs) <= MaxDouble
    ensures forall k :: 0 <= k < |cs| ==> RunningMin(cs) <= cs[k]
  {
    if cs != [] {
      RunningMinIsLowerBound(cs[..|cs| - 1]);
      assert forall k :: 0 <= k < |cs| - 1 ==> cs[..|cs| - 1][k] == cs[k];
    }
  }

  /** The running minimum is MaxDouble or one of the candidates; it is a
      candidate as soon as some candidate lies below MaxDouble. */
  lemma {:induction false} RunningMinIsAttained(cs: seq<real>)
    ensures RunningMin(cs) == MaxDouble || exists k :: 0 <= k < |cs| && RunningMin(cs) == cs[k]
    ensures (exists k :: 0 <= k < |cs| && cs[k] < MaxDouble) ==>
      exists k :: 0 <= k < |cs| && RunningMin(cs) == cs[k]
  {
    if cs != [] {
      var p := cs[..|cs| - 1];
      RunningMinIsAttained(p);
      RunningMinIsLowerBound(p);
      if RunningMin(cs) != cs[|cs| - 1] {
        assert RunningMin(cs) == RunningMin(p);
        if exists k :: 0 <= k < |cs| && cs[k] < MaxDouble {
          var k :| 0 <= k < |cs| && cs[k] < MaxDouble;
          if k < |p| {
            assert p[k] == cs[k];
          }
        }
        if RunningMin(p) != MaxDouble {
          var k :| 0 <= k < |p| && RunningMin(p) == p[k];
          assert cs[k] == p[k];
        }
      }
    }
  }

  /** `estimate_stable_timestep`: the smallest element candidate (starting
      from MaxDouble) divided by the safety factor 10. */
  method EstimateStableTimestep(nodes: seq<Vec3>, elems: seq<Element>,
                                norm: Vec3 -> real, sqrt: real -> real) returns (dt: real)
    requires forall k :: 0 <= k < |elems| ==> elems[k].RefersTo(|nodes|)
    requires PositiveWaveSpeeds(elems, sqrt)
    ensures dt == RunningMin(Candidates(nodes, elems, norm, sqrt)) / 10.0
  {
    ghost var cs := Candidates(nodes, elems, norm, sqrt);
    var minTimestep := MaxDouble;
    var i := 0;
    while i < |elems|
      invariant 0 <= i <= |elems|
      invariant minTimestep == RunningMin(cs[..i])
    {
      var e := elems[i];
      var dn := nodes[e.nn2].Minus(nodes[e.nn1]);
      var length := norm(dn);
      var wavespeed := sqrt(e.props.youngsModulus / e.props.density);
      var timestep := length / wavespeed;
      assert cs[..i + 1][..i] == cs[..i];
      if timestep < minTimestep {
        minTimestep := timestep;
      }
      i := i + 1;
    }
    assert cs[..|elems|] == cs;
    dt := minTimestep / 10.0;
  }

  /** The estimate is at most every element's candidate over 10; with no
      element it is MaxDouble / 10; otherwise it is some element's candidate
      over 10 whenever some candidate lies below MaxDouble. */
  lemma StableTimestepBounds(nodes: seq<Vec3>, elems: seq<Element>, norm: Vec3 -> real, sqrt: real -> real)
    requires forall k :: 0 <= k < |elems| ==> elems[k].RefersTo(|nodes|)
    requires PositiveWaveSpeeds(elems, sqrt)
    ensures var cs := Candidates(nodes, elems, norm, sqrt);
      && (forall k :: 0 <= k < |elems| ==> RunningMin(cs) / 10.0 <= cs[k] / 10.0)
      && (elems == [] ==> RunningMin(cs) / 10.0 == MaxDouble / 10.0)
      && ((exists k :: 0 <= k < |elems| && cs[k] < MaxDouble) ==>
            exists k :: 0 <= k < |elems| && RunningMin(cs) / 10.0 == cs[k] / 10.0)
  {
    var cs := Candidates(nodes, elems, norm, sqrt);
    RunningMinIsLowerBound(cs);
    RunningMinIsAttained(cs);
  }
}

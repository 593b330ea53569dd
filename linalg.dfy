/** Dense vectors, 3-vectors and a sparse square-matrix value type, standing in
    for the Eigen containers of include/containers.h. Numbers are `real`. */
module LinAlg {

  /** A dense column vector (Eigen ColumnVector): copies on assignment. */
  type Vector = seq<real>

  function Zero(n: nat): (z: Vector)
    ensures |z| == n && forall i :: 0 <= i < n ==> z[i] == 0.0
  {
    seq(n, _ => 0.0)
  }

  function Add(x: Vector, y: Vector): (r: Vector)
    requires |x| == |y|
    ensures |r| == |x| && forall i :: 0 <= i < |r| ==> r[i] == x[i] + y[i]
  {
    seq(|x|, i requires 0 <= i < |x| => x[i] + y[i])
  }

  function Sub(x: Vector, y: Vector): (r: Vector)
    requires |x| == |y|
    ensures |r| == |x| && forall i :: 0 <= i < |r| ==> r[i] == x[i] - y[i]
  {
    seq(|x|, i requires 0 <= i < |x| => x[i] - y[i])
  }

  function Scale(a: real, x: Vector): (r: Vector)
    ensures |r| == |x| && forall i :: 0 <= i < |r| ==> r[i] == a * x[i]
  {
    seq(|x|, i requires 0 <= i < |x| => a * x[i])
  }

  function Abs(x: real): real
  {
    if x < 0.0 then -x else x
  }

  /** A point or direction in space (Eigen Vector3d, the `Node` type). */
  datatype Vec3 = Vec3(x: real, y: real, z: real)
  {
    /** Component 0, 1 or 2, as `v(i)` in Eigen. */
    function Component(i: int): real
      requires 0 <= i < 3
    {
      if i == 0 then x else if i == 1 then y else z
    }

    function Minus(w: Vec3): Vec3
    {
      Vec3(x - w.x, y - w.y, z - w.z)
    }

    function Times(a: real): Vec3
    {
      Vec3(a * x, a * y, a * z)
    }

    function Dot(w: Vec3): real
    {
      x * w.x + y * w.y + z * w.z
    }

    function Cross(w: Vec3): Vec3
    {
      Vec3(y * w.z - z * w.y, z * w.x - x * w.z, x * w.y - y * w.x)
    }
  }

  /** One (row, col, value) contribution to a sparse matrix (Eigen::Triplet). */
  datatype Triplet = Triplet(row: int, col: int, value: real)

  /** A sparse matrix: its dimensions and its stored (structurally non-zero)
      entries. An entry that is not stored reads as zero. */
  datatype Sparse = Sparse(rows: nat, cols: nat, entries: map<(int, int), real>)
  {
    ghost predicate Valid()
    {
      forall k :: k in entries ==> 0 <= k.0 < rows && 0 <= k.1 < cols
    }

    /** The coefficient at (i, j), as `A.coeff(i, j)`. */
    function At(i: int, j: int): real
    {
      if (i, j) in entries then entries[(i, j)] else 0.0
    }
  }

  /** An empty rows x cols matrix (Eigen `resize`). */
  function EmptySparse(rows: nat, cols: nat): (m: Sparse)
    ensures m.Valid() && m.rows == rows && m.cols == cols
    ensures forall i, j :: m.At(i, j) == 0.0
  {
    Sparse(rows, cols, map[])
  }

  /** The sum of the values of the triplets addressing (i, j). */
  function SumAt(ts: seq<Triplet>, i: int, j: int): real
  {
    if ts == [] then 0.0
    else
      var t := ts[|ts| - 1];
      SumAt(ts[..|ts| - 1], i, j) + (if t.row == i && t.col == j then t.value else 0.0)
  }

  /** The stored entries `setFromTriplets` builds: every addressed position is
      stored, and values at a repeated position accumulate. */
  function Accumulate(ts: seq<Triplet>): map<(int, int), real>
  {
    if ts == [] then map[]
    else
      var m := Accumulate(ts[..|ts| - 1]);
      var t := ts[|ts| - 1];
      var key := (t.row, t.col);
      m[key := (if key in m then m[key] else 0.0) + t.value]
  }

  /** Every triplet addresses a position inside a rows x cols matrix. */
  ghost predicate InBounds(ts: seq<Triplet>, rows: nat, cols: nat)
  {
    forall k :: 0 <= k < |ts| ==> 0 <= ts[k].row < rows && 0 <= ts[k].col < cols
  }

  /** setFromTriplets: position (i, j) is stored exactly when some triplet
      addresses it, and then holds the sum of all triplet values addressed to it. */
  lemma {:induction false} AccumulateSums(ts: seq<Triplet>, i: int, j: int)
    ensures (i, j) in Accumulate(ts) <==> exists k :: 0 <= k < |ts| && ts[k].row == i && ts[k].col == j
    ensures (i, j) in Accumulate(ts) ==> Accumulate(ts)[(i, j)] == SumAt(ts, i, j)
    ensures (i, j) !in Accumulate(ts) ==> SumAt(ts, i, j) == 0.0
  {
    if ts != [] {
      var p := ts[..|ts| - 1];
      AccumulateSums(p, i, j);
      var t := ts[|ts| - 1];
      if (i, j) in Accumulate(ts) && !(t.row == i && t.col == j) {
        var k :| 0 <= k < |p| && p[k].row == i && p[k].col == j;
        assert ts[k] == p[k];
      }
      if exists k :: 0 <= k < |ts| && ts[k].row == i && ts[k].col == j {
        var k :| 0 <= k < |ts| && ts[k].row == i && ts[k].col == j;
        if k < |p| {
          assert p[k] == ts[k];
        }
      }
    }
  }

  /** Triplets whose positions lie inside the matrix build a valid matrix. */
  lemma AccumulateInBounds(ts: seq<Triplet>, rows: nat, cols: nat)
    requires InBounds(ts, rows, cols)
    ensures Sparse(rows, cols, Accumulate(ts)).Valid()
  {
    forall key | key in Accumulate(ts)
      ensures 0 <= key.0 < rows && 0 <= key.1 < cols
    {
      AccumulateSums(ts, key.0, key.1);
    }
  }

  /** A rows x cols matrix set from triplets (Eigen `setFromTriplets`): each
      coefficient is the sum of the triplet values addressed to it. */
  function FromTriplets(rows: nat, cols: nat, ts: seq<Triplet>): (m: Sparse)
    requires InBounds(ts, rows, cols)
    ensures m.Valid() && m.rows == rows && m.cols == cols
    ensures forall i, j :: m.At(i, j) == SumAt(ts, i, j)
  {
    AccumulateInBounds(ts, rows, cols);
    var m := Sparse(rows, cols, Accumulate(ts));
    forall i, j ensures m.At(i, j) == SumAt(ts, i, j) {
      AccumulateSums(ts, i, j);
    }
    m
  }

  /** Predicate-based pruning (Eigen `prune(keep)`): the stored entries for
      which `keep` holds survive, unchanged; the others are removed. */
  function Prune(m: Sparse, keep: (int, int, real) -> bool): (r: Sparse)
    requires m.Valid()
    ensures r.Valid() && r.rows == m.rows && r.cols == m.cols
    ensures r.entries.Keys <= m.entries.Keys
    ensures forall k :: k in r.entries ==> r.entries[k] == m.entries[k]
    ensures forall k :: k in m.entries ==> (k in r.entries <==> keep(k.0, k.1, m.entries[k]))
  {
    Sparse(m.rows, m.cols, map k | k in m.entries && keep(k.0, k.1, m.entries[k]) :: m.entries[k])
  }

  /** The absolute tolerance of `prune(1.e-14)`. */
  const PruneTolerance: real := 0.00000000000001

  /** Small-value pruning (`prune(1.e-14)`): removes stored entries whose
      magnitude is within the tolerance. */
  function PruneSmall(m: Sparse): (r: Sparse)
    requires m.Valid()
    ensures r.Valid() && r.rows == m.rows && r.cols == m.cols
    ensures forall i, j :: r.At(i, j) == m.At(i, j) || (r.At(i, j) == 0.0 && Abs(m.At(i, j)) <= PruneTolerance)
  {
    Prune(m, (i, j, v) => Abs(v) > PruneTolerance)
  }

  lemma PruneSmallAt(m: Sparse, i: int, j: int)
    requires m.Valid()
    ensures PruneSmall(m).At(i, j) == m.At(i, j) || (PruneSmall(m).At(i, j) == 0.0 && Abs(m.At(i, j)) <= PruneTolerance)
  {
  }

  /** Coefficient-wise a + b over the union of both structures. */
  function MatAdd(a: Sparse, b: Sparse): (r: Sparse)
    requires a.Valid() && b.Valid() && a.rows == b.rows && a.cols == b.cols
    ensures r.Valid() && r.rows == a.rows && r.cols == a.cols
    ensures forall i, j :: r.At(i, j) == a.At(i, j) + b.At(i, j)
  {
    Sparse(a.rows, a.cols,
      map k | k in a.entries.Keys + b.entries.Keys :: a.At(k.0, k.1) + b.At(k.0, k.1))
  }

  /** Scalar times matrix, keeping the structure. */
  function MatScale(s: real, a: Sparse): (r: Sparse)
    requires a.Valid()
    ensures r.Valid() && r.rows == a.rows && r.cols == a.cols
    ensures forall i, j :: r.At(i, j) == s * a.At(i, j)
  {
    Sparse(a.rows, a.cols, map k | k in a.entries :: s * a.entries[k])
  }

  lemma AddAt(a: Sparse, b: Sparse, i: int, j: int)
    requires a.Valid() && b.Valid() && a.rows == b.rows && a.cols == b.cols
    ensures MatAdd(a, b).At(i, j) == a.At(i, j) + b.At(i, j)
  {
  }

  lemma ScaleAt(s: real, a: Sparse, i: int, j: int)
    requires a.Valid()
    ensures MatScale(s, a).At(i, j) == s * a.At(i, j)
  {
  }

  /** sum over j < k of a(i, j) * x[j]. */
  function RowDot(a: Sparse, i: int, x: Vector, k: nat): real
    requires k <= |x|
  {
    if k == 0 then 0.0 else RowDot(a, i, x, k - 1) + a.At(i, k - 1) * x[k - 1]
  }

  /** Sparse matrix times dense vector. */
  function MatVec(a: Sparse, x: Vector): (r: Vector)
    requires |x| == a.cols
    ensures |r| == a.rows && forall i :: 0 <= i < |r| ==> r[i] == RowDot(a, i, x, a.cols)
  {
    seq(a.rows, i => RowDot(a, i, x, a.cols))
  }

  lemma {:induction false} RowDotZero(a: Sparse, i: int, x: Vector, k: nat)
    requires k <= |x| && forall j :: 0 <= j < |x| ==> x[j] == 0.0
    ensures RowDot(a, i, x, k) == 0.0
  {
    if k > 0 {
      RowDotZero(a, i, x, k - 1);
    }
  }

  /** A matrix maps the zero vector to the zero vector. */
  lemma MatVecZero(a: Sparse)
    ensures MatVec(a, Zero(a.cols)) == Zero(a.rows)
  {
    forall i | 0 <= i < a.rows ensures MatVec(a, Zero(a.cols))[i] == 0.0 {
      RowDotZero(a, i, Zero(a.cols), a.cols);
    }
  }

  lemma {:induction false} RowDotZeroRow(a: Sparse, i: int, x: Vector, k: nat)
    requires k <= |x| && forall j :: a.At(i, j) == 0.0
    ensures RowDot(a, i, x, k) == 0.0
  {
    if k > 0 {
      RowDotZeroRow(a, i, x, k - 1);
    }
  }

  /** The zero matrix maps every vector to the zero vector. */
  lemma MatVecOfZeroMatrix(a: Sparse, x: Vector)
    requires |x| == a.cols && forall i, j :: a.At(i, j) == 0.0
    ensures MatVec(a, x) == Zero(a.rows)
  {
    forall i | 0 <= i < a.rows ensures MatVec(a, x)[i] == 0.0 {
      RowDotZeroRow(a, i, x, a.cols);
    }
  }
}

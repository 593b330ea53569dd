/** The mesh assembler (src/mesh.cpp): scatters element matrices into global
    6N x 6N stiffness, mass and inverse-mass matrices, and enforces the
    boundary conditions structurally on the inverse-mass matrix. */
module Meshes {
  import opened LinAlg
  import opened Elements
  import opened PrescribedValues
  import opened Bcs

  /** The global row (or column) of local index l (0 to 11) of an element
      joining nodes nn1 and nn2: below 6 through nn1's 6-dof block, from 6 on
      through nn2's, as `6 * (nn2 - 1) + l`. */
  function GlobalDof(nn1: int, nn2: int, l: int): int
  {
    if l < NumDofs then NumDofs * nn1 + l else NumDofs * (nn2 - 1) + l
  }

  /** Local index l addresses dof l of node nn1 or dof l - 6 of node nn2. */
  lemma GlobalDofIsNodeBlock(nn1: int, nn2: int, l: int)
    requires 0 <= l < LocalSize
    ensures l < NumDofs ==> GlobalDof(nn1, nn2, l) == GlobalIndexOf(nn1, l)
    ensures l >= NumDofs ==> GlobalDof(nn1, nn2, l) == GlobalIndexOf(nn2, l - NumDofs)
  {
  }

  /** For an element joining two distinct nodes, distinct local indices have
      distinct global indices. */
  lemma GlobalDofInjective(nn1: int, nn2: int, l1: int, l2: int)
    requires nn1 != nn2 && 0 <= l1 < LocalSize && 0 <= l2 < LocalSize && l1 != l2
    ensures GlobalDof(nn1, nn2, l1) != GlobalDof(nn1, nn2, l2)
  {
    var n1 := if l1 < NumDofs then nn1 else nn2;
    var d1 := if l1 < NumDofs then l1 else l1 - NumDofs;
    var n2 := if l2 < NumDofs then nn1 else nn2;
    var d2 := if l2 < NumDofs then l2 else l2 - NumDofs;
    GlobalDofIsNodeBlock(nn1, nn2, l1);
    GlobalDofIsNodeBlock(nn1, nn2, l2);
    GlobalIndexInjective(n1, d1, n2, d2);
  }

  /** The triplets `append_triplets` emits for the first k positions of its
      column-major scan of the element matrix: one per non-zero entry, at the
      mapped global position, with the entry's value. */
  function Emitted(nn1: int, nn2: int, mat: LocalMatrix, k: nat): seq<Triplet>
    requires IsLocal(mat) && k <= LocalSize * LocalSize
  {
    if k == 0 then []
    else
      var c := (k - 1) / LocalSize;
      var r := (k - 1) % LocalSize;
      Emitted(nn1, nn2, mat, k - 1) +
        (if mat[r][c] != 0.0 then [Triplet(GlobalDof(nn1, nn2, r), GlobalDof(nn1, nn2, c), mat[r][c])] else [])
  }

  /** Position 12 j + i of the column-major scan is row i of column j. */
  lemma EmittedStep(nn1: int, nn2: int, mat: LocalMatrix, j: int, i: int)
    requires IsLocal(mat) && 0 <= j < LocalSize && 0 <= i < LocalSize
    ensures Emitted(nn1, nn2, mat, LocalSize * j + i + 1) ==
      Emitted(nn1, nn2, mat, LocalSize * j + i) +
        (if mat[i][j] != 0.0 then [Triplet(GlobalDof(nn1, nn2, i), GlobalDof(nn1, nn2, j), mat[i][j])] else [])
  {
    var p := LocalSize * j + i;
    assert p / LocalSize == j && p % LocalSize == i;
  }

  /** All triplets of one element matrix. */
  function ElementTriplets(nn1: int, nn2: int, mat: LocalMatrix): seq<Triplet>
    requires IsLocal(mat)
  {
    Emitted(nn1, nn2, mat, LocalSize * LocalSize)
  }

  /** t is the image of a non-zero entry of the element matrix. */
  ghost predicate FromEntry(t: Triplet, nn1: int, nn2: int, mat: LocalMatrix)
    requires IsLocal(mat)
  {
    exists r, c :: 0 <= r < LocalSize && 0 <= c < LocalSize && mat[r][c] != 0.0 &&
      t == Triplet(GlobalDof(nn1, nn2, r), GlobalDof(nn1, nn2, c), mat[r][c])
  }

  lemma {:induction false} EmittedShape(nn1: int, nn2: int, mat: LocalMatrix, k: nat)
    requires IsLocal(mat) && k <= LocalSize * LocalSize
    ensures forall q :: 0 <= q < |Emitted(nn1, nn2, mat, k)| ==> FromEntry(Emitted(nn1, nn2, mat, k)[q], nn1, nn2, mat)
  {
    if k > 0 {
      EmittedShape(nn1, nn2, mat, k - 1);
      var prev := Emitted(nn1, nn2, mat, k - 1);
      var c := (k - 1) / LocalSize;
      var r := (k - 1) % LocalSize;
      forall q | 0 <= q < |Emitted(nn1, nn2, mat, k)|
        ensures FromEntry(Emitted(nn1, nn2, mat, k)[q], nn1, nn2, mat)
      {
        if q < |prev| {
          assert Emitted(nn1, nn2, mat, k)[q] == prev[q];
        } else {
          assert Emitted(nn1, nn2, mat, k)[q] == Triplet(GlobalDof(nn1, nn2, r), GlobalDof(nn1, nn2, c), mat[r][c]);
        }
      }
    }
  }

  /** Only non-zero local entries become triplets, each at its mapped global
      position with its value unchanged. */
  lemma ElementTripletsShape(nn1: int, nn2: int, mat: LocalMatrix)
    requires IsLocal(mat)
    ensures forall t :: t in ElementTriplets(nn1, nn2, mat) ==> FromEntry(t, nn1, nn2, mat)
  {
    EmittedShape(nn1, nn2, mat, LocalSize * LocalSize);
  }

  lemma SumAtAppend(ts: seq<Triplet>, us: seq<Triplet>, i: int, j: int)
    ensures SumAt(ts + us, i, j) == SumAt(ts, i, j) + SumAt(us, i, j)
    decreases |us|
  {
    if us == [] {
      assert ts + us == ts;
    } else {
      var p := us[..|us| - 1];
      assert (ts + us)[..|ts + us| - 1] == ts + p;
      assert (ts + us)[|ts + us| - 1] == us[|us| - 1];
      SumAtAppend(ts, p, i, j);
    }
  }

  lemma {:induction false} EmittedScatter(nn1: int, nn2: int, mat: LocalMatrix, r0: int, c0: int, k: nat)
    requires IsLocal(mat) && k <= LocalSize * LocalSize && nn1 != nn2
    requires 0 <= r0 < LocalSize && 0 <= c0 < LocalSize
    ensures SumAt(Emitted(nn1, nn2, mat, k), GlobalDof(nn1, nn2, r0), GlobalDof(nn1, nn2, c0))
      == if LocalSize * c0 + r0 < k then mat[r0][c0] else 0.0
  {
    if k > 0 {
      EmittedScatter(nn1, nn2, mat, r0, c0, k - 1);
      var c := (k - 1) / LocalSize;
      var r := (k - 1) % LocalSize;
      var tail := if mat[r][c] != 0.0 then [Triplet(GlobalDof(nn1, nn2, r), GlobalDof(nn1, nn2, c), mat[r][c])] else [];
      SumAtAppend(Emitted(nn1, nn2, mat, k - 1), tail, GlobalDof(nn1, nn2, r0), GlobalDof(nn1, nn2, c0));
      if r != r0 {
        GlobalDofInjective(nn1, nn2, r, r0);
      }
      if c != c0 {
        GlobalDofInjective(nn1, nn2, c, c0);
      }
    }
  }

  /** For an element joining two distinct nodes, the triplets addressed to
      the global image of local entry (r, c) sum to exactly that entry. */
  lemma ElementScatter(nn1: int, nn2: int, mat: LocalMatrix, r: int, c: int)
    requires IsLocal(mat) && nn1 != nn2
    requires 0 <= r < LocalSize && 0 <= c < LocalSize
    ensures SumAt(ElementTriplets(nn1, nn2, mat), GlobalDof(nn1, nn2, r), GlobalDof(nn1, nn2, c)) == mat[r][c]
  {
    EmittedScatter(nn1, nn2, mat, r, c, LocalSize * LocalSize);
  }

  lemma {:induction false} EmittedOutside(nn1: int, nn2: int, mat: LocalMatrix, i: int, j: int, k: nat)
    requires IsLocal(mat) && k <= LocalSize * LocalSize
    requires (forall l :: 0 <= l < LocalSize ==> GlobalDof(nn1, nn2, l) != i) ||
             (forall l :: 0 <= l < LocalSize ==> GlobalDof(nn1, nn2, l) != j)
    ensures SumAt(Emitted(nn1, nn2, mat, k), i, j) == 0.0
  {
    if k > 0 {
      EmittedOutside(nn1, nn2, mat, i, j, k - 1);
      var c := (k - 1) / LocalSize;
      var r := (k - 1) % LocalSize;
      var tail := if mat[r][c] != 0.0 then [Triplet(GlobalDof(nn1, nn2, r), GlobalDof(nn1, nn2, c), mat[r][c])] else [];
      SumAtAppend(Emitted(nn1, nn2, mat, k - 1), tail, i, j);
    }
  }

  /** An element contributes nothing to a global row or column outside the
      6-dof blocks of its two nodes. */
  lemma ElementOutsideBlocks(nn1: int, nn2: int, mat: LocalMatrix, i: int, j: int)
    requires IsLocal(mat)
    requires (forall l :: 0 <= l < LocalSize ==> GlobalDof(nn1, nn2, l) != i) ||
             (forall l :: 0 <= l < LocalSize ==> GlobalDof(nn1, nn2, l) != j)
    ensures SumAt(ElementTriplets(nn1, nn2, mat), i, j) == 0.0
  {
    EmittedOutside(nn1, nn2, mat, i, j, LocalSize * LocalSize);
  }

  /** The three global matrices the assembler builds. */
  datatype MatrixKind = StiffnessMatrix | MassMatrix | InvMassMatrix

  /** Element matrices are 12 x 12 and the elements name nodes of the list;
      `inverse` is the dense inverse of a 12 x 12 matrix. */
  ghost predicate WellFormed(nodes: seq<Vec3>, elems: seq<Element>, inverse: LocalMatrix -> LocalMatrix)
  {
    forall k :: 0 <= k < |elems| ==>
      && elems[k].RefersTo(|nodes|)
      && IsLocal(elems[k].stiffness(nodes))
      && IsLocal(elems[k].invMass(nodes))
      && IsLocal(inverse(elems[k].invMass(nodes)))
  }

  /** The element matrix of a kind: the stiffness, the inverse of the inverse
      mass, or the inverse mass. */
  function LocalOf(nodes: seq<Vec3>, e: Element, inverse: LocalMatrix -> LocalMatrix, kind: MatrixKind): LocalMatrix
  {
    match kind
    case StiffnessMatrix => e.stiffness(nodes)
    case MassMatrix => inverse(e.invMass(nodes))
    case InvMassMatrix => e.invMass(nodes)
  }

  /** The triplets of all elements of a kind, in element order. */
  function AllTriplets(nodes: seq<Vec3>, elems: seq<Element>, inverse: LocalMatrix -> LocalMatrix, kind: MatrixKind): seq<Triplet>
    requires WellFormed(nodes, elems, inverse)
  {
    if elems == [] then []
    else
      var e := elems[|elems| - 1];
      AllTriplets(nodes, elems[..|elems| - 1], inverse, kind) + ElementTriplets(e.nn1, e.nn2, LocalOf(nodes, e, inverse, kind))
  }

  lemma WellFormedPrefix(nodes: seq<Vec3>, elems: seq<Element>, inverse: LocalMatrix -> LocalMatrix, i: int)
    requires WellFormed(nodes, elems, inverse) && 0 <= i <= |elems|
    ensures WellFormed(nodes, elems[..i], inverse)
  {
    assert forall k :: 0 <= k < i ==> elems[..i][k] == elems[k];
  }

  /** One more element appends its triplets after the earlier ones. */
  lemma AllTripletsSnoc(nodes: seq<Vec3>, elems: seq<Element>, inverse: LocalMatrix -> LocalMatrix, kind: MatrixKind, i: int)
    requires WellFormed(nodes, elems, inverse) && 0 <= i < |elems|
    ensures WellFormed(nodes, elems[..i], inverse) && WellFormed(nodes, elems[..i + 1], inverse)
    ensures AllTriplets(nodes, elems[..i + 1], inverse, kind) ==
      AllTriplets(nodes, elems[..i], inverse, kind) + ElementTriplets(elems[i].nn1, elems[i].nn2, LocalOf(nodes, elems[i], inverse, kind))
  {
    WellFormedPrefix(nodes, elems, inverse, i);
    WellFormedPrefix(nodes, elems, inverse, i + 1);
    assert elems[..i + 1][..i] == elems[..i];
  }

  /** The sum over elements of each element's contribution at (i, j). */
  function ElementsSum(nodes: seq<Vec3>, elems: seq<Element>, inverse: LocalMatrix -> LocalMatrix, kind: MatrixKind, i: int, j: int): real
    requires WellFormed(nodes, elems, inverse)
  {
    if elems == [] then 0.0
    else
      var e := elems[|elems| - 1];
      ElementsSum(nodes, elems[..|elems| - 1], inverse, kind, i, j) + SumAt(ElementTriplets(e.nn1, e.nn2, LocalOf(nodes, e, inverse, kind)), i, j)
  }

  /** The accumulated triplets hold, at every position, the sum of the
      elements' contributions there. */
  lemma {:induction false} AllTripletsSum(nodes: seq<Vec3>, elems: seq<Element>, inverse: LocalMatrix -> LocalMatrix, kind: MatrixKind, i: int, j: int)
    requires WellFormed(nodes, elems, inverse)
    ensures SumAt(AllTriplets(nodes, elems, inverse, kind), i, j) == ElementsSum(nodes, elems, inverse, kind, i, j)
  {
    if elems != [] {
      var e := elems[|elems| - 1];
      AllTripletsSum(nodes, elems[..|elems| - 1], inverse, kind, i, j);
      SumAtAppend(AllTriplets(nodes, elems[..|elems| - 1], inverse, kind),
                  ElementTriplets(e.nn1, e.nn2, LocalOf(nodes, e, inverse, kind)), i, j);
    }
  }

  lemma {:induction false} EmittedInBounds(nn1: int, nn2: int, mat: LocalMatrix, numNodes: nat, k: nat)
    requires IsLocal(mat) && k <= LocalSize * LocalSize
    requires 0 <= nn1 < numNodes && 0 <= nn2 < numNodes
    ensures InBounds(Emitted(nn1, nn2, mat, k), NumDofs * numNodes, NumDofs * numNodes)
  {
    if k > 0 {
      EmittedInBounds(nn1, nn2, mat, numNodes, k - 1);
    }
  }

  lemma {:induction false} AllTripletsInBounds(nodes: seq<Vec3>, elems: seq<Element>, inverse: LocalMatrix -> LocalMatrix, kind: MatrixKind)
    requires WellFormed(nodes, elems, inverse)
    ensures InBounds(AllTriplets(nodes, elems, inverse, kind), NumDofs * |nodes|, NumDofs * |nodes|)
  {
    if elems != [] {
      var e := elems[|elems| - 1];
      AllTripletsInBounds(nodes, elems[..|elems| - 1], inverse, kind);
      EmittedInBounds(e.nn1, e.nn2, LocalOf(nodes, e, inverse, kind), |nodes|, LocalSize * LocalSize);
    }
  }

  /** The global matrix of a kind after accumulation and small-value
      pruning: 6N x 6N. */
  function Assembled(nodes: seq<Vec3>, elems: seq<Element>, inverse: LocalMatrix -> LocalMatrix, kind: MatrixKind): (m: Sparse)
    requires WellFormed(nodes, elems, inverse)
    ensures m.Valid() && m.rows == NumDofs * |nodes| && m.cols == NumDofs * |nodes|
  {
    var n := NumDofs * |nodes|;
    AllTripletsInBounds(nodes, elems, inverse, kind);
    PruneSmall(FromTriplets(n, n, AllTriplets(nodes, elems, inverse, kind)))
  }

  /** Global entry (i, j) is the sum of all element contributions there,
      unless that sum is small enough for the pruning to drop it. */
  lemma AssembledEntry(nodes: seq<Vec3>, elems: seq<Element>, inverse: LocalMatrix -> LocalMatrix, kind: MatrixKind, i: int, j: int)
    requires WellFormed(nodes, elems, inverse)
    ensures var s := ElementsSum(nodes, elems, inverse, kind, i, j);
      Assembled(nodes, elems, inverse, kind).At(i, j) == s ||
      (Assembled(nodes, elems, inverse, kind).At(i, j) == 0.0 && Abs(s) <= PruneTolerance)
  {
    AllTripletsSum(nodes, elems, inverse, kind, i, j);
  }

  /** The set of global indices named by the boundary conditions. */
  function BcIndexSet(bcs: BCList): set<int>
  {
    set k | 0 <= k < |bcs| :: bcs[k].GlobalIndex()
  }

  /** Every boundary condition's global index lies inside the n global dofs. */
  ghost predicate BcsInRange(bcs: BCList, n: int)
  {
    forall k :: 0 <= k < |bcs| ==> 0 <= bcs[k].GlobalIndex() < n
  }

  /** `BcsPruneFunctor`: the constrained-index set and the keep test. */
  datatype BcsPruneFunctor = BcsPruneFunctor(bcsIndSet: set<int>)
  {
    /** Keep an entry unless its row, or else its column, is constrained. */
    predicate Keep(row: int, col: int, value: real)
      ensures Keep(row, col, value) <==> row !in bcsIndSet && col !in bcsIndSet
    {
      if row in bcsIndSet then false else col !in bcsIndSet
    }
  }

  /** The functor's constructor: inserts every condition's global index into
      the set, so several conditions on one dof give one member. */
  method NewBcsPruneFunctor(bcs: BCList) returns (f: BcsPruneFunctor)
    ensures f.bcsIndSet == BcIndexSet(bcs)
    ensures forall g :: g in f.bcsIndSet <==> exists k :: 0 <= k < |bcs| && bcs[k].GlobalIndex() == g
    ensures |f.bcsIndSet| <= |bcs|
  {
    var s: set<int> := {};
    var i := 0;
    while i < |bcs|
      invariant 0 <= i <= |bcs|
      invariant s == BcIndexSet(bcs[..i])
      invariant |s| <= i
    {
      assert BcIndexSet(bcs[..i + 1]) == BcIndexSet(bcs[..i]) + {bcs[i].GlobalIndex()} by {
        assert forall k :: 0 <= k < i ==> bcs[..i + 1][k] == bcs[..i][k];
      }
      s := s + {bcs[i].GlobalIndex()};
      i := i + 1;
    }
    assert bcs[..|bcs|] == bcs;
    f := BcsPruneFunctor(s);
  }

  /** A 1 on the diagonal of every index in s. */
  function Ones(s: set<int>): map<(int, int), real>
  {
    map g | g in s :: (g, g) := 1.0
  }

  lemma NonEmptyHasMember(s: set<int>)
    requires s != {}
    ensures exists g :: g in s
  {
    if forall g :: g !in s {
      assert false;
    }
  }

  lemma OnesAdd(s: set<int>, g: int)
    ensures Ones(s + {g}) == Ones(s)[(g, g) := 1.0]
  {
  }

  /** One step of the diagonal insertion: inserting a 1 at (g, g) moves g
      from the indices still to insert to those already inserted. */
  lemma InsertOneStep(base: map<(int, int), real>, e: map<(int, int), real>, s: set<int>, remaining: set<int>, g: int)
    requires g in remaining && remaining <= s
    requires e == base + Ones(s - remaining)
    ensures e[(g, g) := 1.0] == base + Ones(s - (remaining - {g}))
  {
    OnesAdd(s - remaining, g);
    assert s - (remaining - {g}) == (s - remaining) + {g};
  }

  /** The inverse-mass matrix with boundary conditions enforced: entries in a
      constrained row or column removed, then 1 on each constrained diagonal. */
  function Constrain(m: Sparse, s: set<int>): Sparse
    requires m.Valid()
  {
    var kept := Prune(m, (r, c, v) => BcsPruneFunctor(s).Keep(r, c, v));
    Sparse(m.rows, m.cols, kept.entries + Ones(s))
  }

  /** After enforcement a constrained dof's row and column are the unit
      vector (1 on the diagonal, 0 elsewhere), and every entry whose row and
      column are both unconstrained is unchanged. */
  lemma ConstrainEntries(m: Sparse, s: set<int>, i: int, j: int)
    requires m.Valid()
    ensures i in s ==> Constrain(m, s).At(i, i) == 1.0
    ensures i in s && j != i ==> Constrain(m, s).At(i, j) == 0.0 && Constrain(m, s).At(j, i) == 0.0
    ensures i !in s && j !in s ==> Constrain(m, s).At(i, j) == m.At(i, j)
  {
    var kept := Prune(m, (r, c, v) => BcsPruneFunctor(s).Keep(r, c, v));
    var ones := Ones(s);
    if i in s {
      assert (i, i) in ones;
      if j != i {
        assert (i, j) !in ones && (j, i) !in ones;
        assert (i, j) !in kept.entries && (j, i) !in kept.entries;
      }
    }
    if i !in s && j !in s {
      assert (i, j) !in ones;
    }
  }

  class Mesh {
    /** The boundary conditions, owned by the mesh. */
    var bcs: BCList
    var stiffness: Sparse
    var mass: Sparse
    var invMass: Sparse

    /** All three matrices are n x n for the same n, and every condition
        names one of the n dofs. */
    ghost predicate Valid()
      reads this
    {
      && stiffness.Valid() && mass.Valid() && invMass.Valid()
      && stiffness.rows == stiffness.cols
      && mass.rows == mass.cols == stiffness.rows
      && invMass.rows == invMass.cols == stiffness.rows
      && BcsInRange(bcs, stiffness.rows)
    }

    /** `Mesh(nodes, elems, bcs)`: assembles the matrices and applies the
        boundary conditions to the inverse-mass matrix. */
    constructor (nodes: seq<Vec3>, elems: seq<Element>, bcs: BCList, inverse: LocalMatrix -> LocalMatrix)
      requires WellFormed(nodes, elems, inverse)
      requires BcsInRange(bcs, NumDofs * |nodes|)
      ensures Valid()
      ensures this.bcs == bcs
      ensures stiffness == Assembled(nodes, elems, inverse, StiffnessMatrix)
      ensures mass == Assembled(nodes, elems, inverse, MassMatrix)
      ensures invMass == Constrain(Assembled(nodes, elems, inverse, InvMassMatrix), BcIndexSet(bcs))
    {
      this.bcs := bcs;
      stiffness := EmptySparse(0, 0);
      mass := EmptySparse(0, 0);
      invMass := EmptySparse(0, 0);
      new;
      AssembleMatrices(nodes, elems, inverse);
      ApplyBcs();
    }

    /** `assemble_matrices`: sizes the matrices to 6N x 6N, collects the
        triplets element by element, builds the matrices and prunes them. */
    method AssembleMatrices(nodes: seq<Vec3>, elems: seq<Element>, inverse: LocalMatrix -> LocalMatrix)
      requires WellFormed(nodes, elems, inverse)
      modifies this
      ensures bcs == old(bcs)
      ensures stiffness == Assembled(nodes, elems, inverse, StiffnessMatrix)
      ensures mass == Assembled(nodes, elems, inverse, MassMatrix)
      ensures invMass == Assembled(nodes, elems, inverse, InvMassMatrix)
    {
      var n := NumDofs * |nodes|;
      var stiffnessTriplets, massTriplets, invMassTriplets := CollectTriplets(nodes, elems, inverse);
      AllTripletsInBounds(nodes, elems, inverse, StiffnessMatrix);
      AllTripletsInBounds(nodes, elems, inverse, MassMatrix);
      AllTripletsInBounds(nodes, elems, inverse, InvMassMatrix);
      stiffness := PruneSmall(FromTriplets(n, n, stiffnessTriplets));
      mass := PruneSmall(FromTriplets(n, n, massTriplets));
      invMass := PruneSmall(FromTriplets(n, n, invMassTriplets));
    }

    /** The element loop of `assemble_matrices`: the stiffness, mass and
        inverse-mass triplets of every element, in element order. The mass
        matrix of an element is the inverse of its inverse-mass matrix. */
    static method CollectTriplets(nodes: seq<Vec3>, elems: seq<Element>, inverse: LocalMatrix -> LocalMatrix)
      returns (stiffnessTriplets: seq<Triplet>, massTriplets: seq<Triplet>, invMassTriplets: seq<Triplet>)
      requires WellFormed(nodes, elems, inverse)
      ensures stiffnessTriplets == AllTriplets(nodes, elems, inverse, StiffnessMatrix)
      ensures massTriplets == AllTriplets(nodes, elems, inverse, MassMatrix)
      ensures invMassTriplets == AllTriplets(nodes, elems, inverse, InvMassMatrix)
    {
      stiffnessTriplets, massTriplets, invMassTriplets := [], [], [];
      var i := 0;
      while i < |elems|
        invariant 0 <= i <= |elems|
        invariant WellFormed(nodes, elems[..i], inverse)
        invariant stiffnessTriplets == AllTriplets(nodes, elems[..i], inverse, StiffnessMatrix)
        invariant massTriplets == AllTriplets(nodes, elems[..i], inverse, MassMatrix)
        invariant invMassTriplets == AllTriplets(nodes, elems[..i], inverse, InvMassMatrix)
      {
        AllTripletsSnoc(nodes, elems, inverse, StiffnessMatrix, i);
        AllTripletsSnoc(nodes, elems, inverse, MassMatrix, i);
        AllTripletsSnoc(nodes, elems, inverse, InvMassMatrix, i);
        var e := elems[i];
        var invMassLocal := e.invMass(nodes);
        var massLocal := inverse(invMassLocal);
        stiffnessTriplets := AppendTriplets(e, stiffnessTriplets, e.stiffness(nodes));
        massTriplets := AppendTriplets(e, massTriplets, massLocal);
        invMassTriplets := AppendTriplets(e, invMassTriplets, invMassLocal);
        i := i + 1;
      }
      assert elems[..|elems|] == elems;
    }

    /** `append_triplets`: scans the element matrix column by column and
        appends one triplet per non-zero entry, at its mapped global position. */
    static method AppendTriplets(elem: Element, triplets: seq<Triplet>, mat: LocalMatrix) returns (out: seq<Triplet>)
      requires IsLocal(mat)
      ensures out == triplets + ElementTriplets(elem.nn1, elem.nn2, mat)
    {
      var nn1 := elem.nn1;
      var nn2 := elem.nn2;
      out := triplets;
      var j := 0;
      while j < LocalSize
        invariant 0 <= j <= LocalSize
        invariant out == triplets + Emitted(nn1, nn2, mat, LocalSize * j)
      {
        var i := 0;
        while i < LocalSize
          invariant 0 <= i <= LocalSize
          invariant out == triplets + Emitted(nn1, nn2, mat, LocalSize * j + i)
        {
          EmittedStep(nn1, nn2, mat, j, i);
          if mat[i][j] != 0.0 {
            var row, col;
            if i < NumDofs {
              row := NumDofs * nn1 + i;
            } else {
              row := NumDofs * (nn2 - 1) + i;
            }
            if j < NumDofs {
              col := NumDofs * nn1 + j;
            } else {
              col := NumDofs * (nn2 - 1) + j;
            }
            assert row == GlobalDof(nn1, nn2, i) && col == GlobalDof(nn1, nn2, j);
            out := out + [Triplet(row, col, mat[i][j])];
          }
          i := i + 1;
        }
        assert LocalSize * j + LocalSize == LocalSize * (j + 1);
        j := j + 1;
      }
    }

    /** `apply_bcs`: prunes every inverse-mass entry in a constrained row or
        column, then inserts 1 on each constrained diagonal. The stiffness and
        mass matrices and the condition list are untouched. */
    method ApplyBcs()
      requires Valid()
      modifies this
      ensures Valid()
      ensures bcs == old(bcs) && stiffness == old(stiffness) && mass == old(mass)
      ensures invMass == Constrain(old(invMass), BcIndexSet(bcs))
    {
      var functor := NewBcsPruneFunctor(bcs);
      var pruned := Prune(invMass, (r, c, v) => functor.Keep(r, c, v));
      invMass := InsertOnes(pruned, functor.bcsIndSet);
    }

    /** The insertion loop of `apply_bcs`: a 1 is inserted on the diagonal of
        every index of s, one index at a time; the diagonals were pruned. */
    static method InsertOnes(m: Sparse, s: set<int>) returns (r: Sparse)
      requires m.Valid() && forall g :: g in s ==> 0 <= g < m.rows && g < m.cols && (g, g) !in m.entries
      ensures r.Valid() && r.rows == m.rows && r.cols == m.cols
      ensures r.entries == m.entries + Ones(s)
    {
      r := m;
      var remaining := s;
      while remaining != {}
        invariant remaining <= s
        invariant r.rows == m.rows && r.cols == m.cols
        invariant r.entries == m.entries + Ones(s - remaining)
        invariant r.Valid()
        decreases remaining
      {
        assert exists g :: g in remaining by {
          NonEmptyHasMember(remaining);
        }
        var g :| g in remaining;
        InsertOneStep(m.entries, r.entries, s, remaining, g);
        r := Sparse(r.rows, r.cols, r.entries[(g, g) := 1.0]);
        remaining := remaining - {g};
      }
    }
  }
}

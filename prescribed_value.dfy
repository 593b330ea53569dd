/** Nodal values set by the user (include/prescribed_value.h): every boundary
    condition and external force addresses one nodal degree of freedom, whose
    position in the global vectors is `6 * node + dof`. */
module PrescribedValues {

  /** Degrees of freedom per node (`DOF::NUM_DOFS`). */
  const NumDofs: int := 6

  /** The named local degrees of freedom (`enum DOF`). */
  const DisplacementX: int := 0
  const DisplacementY: int := 1
  const DisplacementZ: int := 2
  const RotationX: int := 3
  const RotationY: int := 4
  const RotationZ: int := 5

  /** How a prescribed value varies in time: the `get_value(time)` that a
      concrete subclass supplies. `Constant` is what ConstantBC and
      ConstantForce supply; `Varying` is any other user subclass. */
  datatype Profile = Constant(value: real) | Varying(f: real -> real)
  {
    function GetValue(time: real): real
    {
      match this
      case Constant(v) => v
      case Varying(f) => f(time)
    }
  }

  /** `DOF::NUM_DOFS * node + dof`. */
  function GlobalIndexOf(node: int, dof: int): int
  {
    NumDofs * node + dof
  }

  /** The common shape of boundary conditions and forces. Its fields are fixed
      once built, as the const members of the source are. */
  datatype PrescribedValue = PrescribedValue(node: int, dof: int, profile: Profile)
  {
    function GlobalIndex(): int
    {
      GlobalIndexOf(node, dof)
    }

    function GetValue(time: real): real
    {
      profile.GetValue(time)
    }
  }

  /** From a global index back to the node and the local dof. */
  lemma GlobalIndexRoundTrip(node: int, dof: int)
    requires 0 <= dof < NumDofs
    ensures GlobalIndexOf(node, dof) / NumDofs == node
    ensures GlobalIndexOf(node, dof) % NumDofs == dof
  {
  }

  /** From a non-negative global index to (node, dof) and back. */
  lemma LocalIndexRoundTrip(g: int)
    requires 0 <= g
    ensures 0 <= g / NumDofs && 0 <= g % NumDofs < NumDofs
    ensures GlobalIndexOf(g / NumDofs, g % NumDofs) == g
  {
  }

  /** Distinct (node, dof) pairs address distinct global entries. */
  lemma GlobalIndexInjective(n1: int, d1: int, n2: int, d2: int)
    requires 0 <= d1 < NumDofs && 0 <= d2 < NumDofs
    requires (n1, d1) != (n2, d2)
    ensures GlobalIndexOf(n1, d1) != GlobalIndexOf(n2, d2)
  {
    GlobalIndexRoundTrip(n1, d1);
    GlobalIndexRoundTrip(n2, d2);
  }

  /** A dof of a node of an N-node mesh lies inside the 6N global vectors. */
  lemma GlobalIndexInRange(node: int, dof: int, numNodes: nat)
    requires 0 <= node < numNodes && 0 <= dof < NumDofs
    ensures 0 <= GlobalIndexOf(node, dof) < NumDofs * numNodes
  {
  }
}

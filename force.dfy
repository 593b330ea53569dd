/** External nodal forces (include/force.h). A force has no kind: it is a
    prescribed value and nothing more. */
module Forces {
  import opened PrescribedValues

  datatype Force = Force(base: PrescribedValue)
  {
    function GlobalIndex(): int
    {
      base.GlobalIndex()
    }

    function GetValue(time: real): real
    {
      base.GetValue(time)
    }
  }

  /** An ordered list of forces, each owned by the list alone. */
  type ForceList = seq<Force>

  /** `ConstantForce(node, dof, value)`. */
  function ConstantForce(node: int, dof: int, value: real): (f: Force)
    ensures f.base.node == node && f.base.dof == dof
    ensures f.GlobalIndex() == NumDofs * node + dof
    ensures forall time :: f.GetValue(time) == value
  {
    Force(PrescribedValue(node, dof, Constant(value)))
  }
}

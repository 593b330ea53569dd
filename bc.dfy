/** Boundary conditions (include/bc.h). */
module Bcs {
  import opened PrescribedValues

  /** Whether a condition holds the displacement or the velocity of its dof
      (`BC::Type`). */
  datatype BcType = Displacement | Velocity
  {
    /** The enumerator's integer value. */
    function Code(): int
    {
      if Displacement? then 0 else 1
    }
  }

  /** The cast `(BC::Type) n` over the enum's range of values; any other
      code names no enumerator. */
  function BcTypeFromCode(n: int): (r: Option<BcType>)
    ensures r.Some? <==> n == 0 || n == 1
    ensures r.Some? ==> r.value.Code() == n
  {
    if n == 0 then Some(Displacement) else if n == 1 then Some(Velocity) else None
  }

  datatype Option<T> = None | Some(value: T)

  /** The cast inverts `Code`. */
  lemma BcTypeCodeRoundTrip(t: BcType)
    ensures BcTypeFromCode(t.Code()) == Some(t)
  {
  }

  /** A boundary condition: a prescribed value together with its kind. */
  datatype BC = BC(base: PrescribedValue, kind: BcType)
  {
    function GlobalIndex(): int
    {
      base.GlobalIndex()
    }

    function GetValue(time: real): real
    {
      base.GetValue(time)
    }
  }

  type BCList = seq<BC>

  /** `ConstantBC(node, dof, value, type)`. */
  function ConstantBC(node: int, dof: int, value: real, kind: BcType): (b: BC)
    ensures b.base.node == node && b.base.dof == dof && b.kind == kind
    ensures b.GlobalIndex() == NumDofs * node + dof
    ensures forall time :: b.GetValue(time) == value
  {
    BC(PrescribedValue(node, dof, Constant(value)), kind)
  }
}

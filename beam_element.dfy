/** The element interface the core consumes (include/beam_element.h,
    include/containers.h): two node numbers, a property bundle, and the two
    providers of element matrices. The closed-form Euler-Bernoulli and
    Timoshenko formulas behind the providers are not part of this model; a
    provider is an opaque function of the node list. */
module Elements {
  import opened LinAlg

  /** Number of rows and columns of an element matrix (`LocalMatrix`). */
  const LocalSize: int := 12

  /** A 12 x 12 element matrix, row-major. */
  type LocalMatrix = seq<seq<real>>

  ghost predicate IsLocal(m: LocalMatrix)
  {
    |m| == LocalSize && forall r :: 0 <= r < LocalSize ==> |m[r]| == LocalSize
  }

  /** Material and section properties (`Props`). `normalVec` fixes the
      element's local y-axis. */
  datatype Props = Props(
    youngsModulus: real,
    shearModulus: real,
    area: real,
    iz: real,
    iy: real,
    j: real,
    density: real,
    normalVec: Vec3)

  /** A two-node beam element (`BeamElement`). `stiffness` and `invMass` are
      `calculate_stiffness_matrix` and `calculate_inv_mass_matrix`: given the
      node list they return the element matrices, already rotated into the
      global frame. */
  datatype Element = Element(
    nn1: int,
    nn2: int,
    props: Props,
    stiffness: seq<Vec3> -> LocalMatrix,
    invMass: seq<Vec3> -> LocalMatrix)
  {
    /** Both node numbers name nodes of the list. */
    predicate RefersTo(numNodes: int)
    {
      0 <= nn1 < numNodes && 0 <= nn2 < numNodes
    }
  }
}

# explicit-beam-fea in Dafny

A model of the discrete core of explicit-beam-fea, a 3D explicit finite-element
code for beam structures. The model has five parts:

- **Numbering and prescribed values.** Every boundary condition and every
  external force addresses one nodal degree of freedom. Its global index is
  `6 * node + dof` (`PrescribedValues`, `Bcs`, `Forces`).
- **The mesh assembler** (`Meshes.Mesh`). It scatters each element's 12 x 12
  stiffness, mass and inverse-mass matrices into 6N x 6N global matrices
  through the local-to-global index map. It sums the triplets and prunes
  small values. It then enforces the boundary conditions on the inverse-mass
  matrix: every entry in a constrained row or column is deleted, and a 1 is
  put back on each constrained diagonal.
- **The explicit Newmark-beta integrator** (`ExplicitSystems.ExplicitSystem`).
  One `Update(dt)` does the following, in order:
  - rebuilds and refactorises the left-hand side M + gamma dt C + beta dt^2 K,
    but only when dt differs (up to tolerance) from the previous step;
  - writes the external forces;
  - forms the right-hand side;
  - clamps the constrained degrees of freedom;
  - solves for the new accelerations;
  - applies the Newmark updates and rolls the state forward.
- **The tolerant comparator** `ValueCompare` (`ValueCompares`). It compares up
  to epsilon times the larger magnitude, and exactly for integral types.
- **Element geometry helpers** (`FeUtils`). `UpdateRotation` fills the
  block-diagonal local-to-global rotation and its transpose.
  `EstimateStableTimestep` is the running minimum of length over wave speed,
  divided by 10.

Numbers are `real`. Vectors are `seq<real>`, which matches the value semantics
of Eigen's dense vectors. Sparse matrices are a map from (row, column) to the
stored value (`LinAlg.Sparse`). The rotation matrices are `array2<real>`
out-parameters, and the mesh and the integrator are classes whose methods
reassign their fields.

These library routines enter as function parameters:

- the Euclidean norm and the square root;
- the dense 12 x 12 inverse;
- the sparse factorise-and-solve.

Each element's matrices also enter opaquely, as functions of the node list.

## Model

| member | source | states |
|---|---|---|
| PrescribedValues.GlobalIndexOf | include/prescribed_value.h:74 | defines the global index of dof `dof` of node `node` as `6 * node + dof` |
| PrescribedValues.PrescribedValue.GlobalIndex | include/prescribed_value.h:74 | defines a condition's or force's global index as `GlobalIndexOf` of its node and dof, fixed when it is built |
| PrescribedValues.GlobalIndexRoundTrip | include/prescribed_value.h:74 | for 0 <= dof < 6, dividing the global index `6*node+dof` by 6 gives back the node and the remainder gives back the dof |
| PrescribedValues.LocalIndexRoundTrip | include/prescribed_value.h:60-66 | every non-negative global index is `6*node+dof` for exactly the node g/6 and the dof g%6, with 0 <= dof < 6 |
| PrescribedValues.GlobalIndexInjective | include/prescribed_value.h:74 | distinct (node, dof) pairs with 0 <= dof < 6 have distinct global indices |
| PrescribedValues.GlobalIndexInRange | include/prescribed_value.h:74 | a dof of a node of an N-node mesh has its global index in [0, 6N) |
| Bcs.BcTypeFromCode | include/bc.h:45-48 | the integer code names a condition kind exactly when it is 0 or 1, and the kind's code is then that integer |
| Bcs.BcTypeCodeRoundTrip | include/bc.h:45-48 | DISPLACEMENT is 0 and VELOCITY is 1: converting a kind to its code and back gives the kind |
| Bcs.ConstantBC | include/bc.h:56-57 | a constant condition keeps its node, dof and kind, has global index `6*node+dof`, and returns the constructor value at every time |
| Forces.ConstantForce | include/force.h:47-63 | a constant force keeps its node and dof, has global index `6*node+dof`, and returns the constructor value at every time |
| ValueCompares.DefaultCompare | include/fe_utils.h:66 | the default tolerance is 1e-14 |
| ValueCompares.ValueCompare.LessThan | include/fe_utils.h:78-84 | defines the floating `lessThan` as b - a exceeding the larger magnitude times epsilon |
| ValueCompares.ValueCompare.GreaterThan | include/fe_utils.h:96-102 | defines the floating `greaterThan` as a - b exceeding the larger magnitude times epsilon |
| ValueCompares.ValueCompare.Equal | include/fe_utils.h:114-120 | defines the floating `equal` as the absolute difference of a and b being at most the larger magnitude times epsilon |
| ValueCompares.IntCompare.LessThan | include/fe_utils.h:78-81 | defines `lessThan` for an integral type as the exact a < b; epsilon is kept but unused |
| ValueCompares.IntCompare.GreaterThan | include/fe_utils.h:96-99 | defines `greaterThan` for an integral type as the exact a > b |
| ValueCompares.IntCompare.Equal | include/fe_utils.h:114-117 | defines `equal` for an integral type as the exact a == b |
| ValueCompares.EqualIsRelativeTolerance | include/fe_utils.h:114-120 | `equal(a, b)` holds iff abs(a - b) <= max(abs(a), abs(b)) * epsilon |
| ValueCompares.ToleranceNonNegative | include/fe_utils.h:83 | for epsilon >= 0 the tolerance is non-negative and does not depend on the order of the arguments |
| ValueCompares.EqualReflexive | include/fe_utils.h:119 | for epsilon >= 0 every value is equal to itself |
| ValueCompares.EqualSymmetric | include/fe_utils.h:119 | `equal(a, b)` iff `equal(b, a)` |
| ValueCompares.LessThanIsConverseOfGreaterThan | include/fe_utils.h:78-102 | `lessThan(a, b)` iff `greaterThan(b, a)` |
| ValueCompares.Trichotomy | include/fe_utils.h:78-120 | for epsilon >= 0 exactly one of `lessThan`, `equal` and `greaterThan` holds for any pair |
| ValueCompares.LessThanImpliesLess | include/fe_utils.h:78-102 | for epsilon >= 0 a tolerant `lessThan` (`greaterThan`) implies the exact < (>) |
| ValueCompares.EqualZeroIffZero | include/fe_utils.h:114-120 | for 0 <= epsilon < 1 a value is `equal` to zero iff it is zero |
| ValueCompares.IntegralIsZeroTolerance | include/fe_utils.h:78-120 | for an integral type the comparisons are exactly ==, < and >, which is the floating formula with the tolerance the integral epsilon holds (zero) |
| LinAlg.EmptySparse | src/mesh.cpp:57-60 | a resized matrix has the requested dimensions and every coefficient zero |
| LinAlg.AccumulateSums | src/mesh.cpp:75-77 | building from triplets stores position (i, j) exactly when some triplet addresses it, with the sum of all triplet values addressed there |
| LinAlg.FromTriplets | src/mesh.cpp:75-77 | the matrix built from in-range triplets is valid, has the given size, and holds at every position the sum of the triplet values addressed there |
| LinAlg.Prune | src/mesh.cpp:136 | pruning with a keep test only removes stored entries: exactly the entries that pass the test survive, each with its value unchanged |
| LinAlg.PruneSmall | src/mesh.cpp:79-81 | small-value pruning keeps the dimensions; each coefficient is unchanged or was within the tolerance and is now zero |
| LinAlg.MatAdd | src/explicit_system.cpp:137 | each coefficient of a sum of two matrices is the sum of their coefficients |
| LinAlg.MatScale | src/explicit_system.cpp:137 | each coefficient of a scaled matrix is the scalar times the coefficient |
| LinAlg.MatVec | src/explicit_system.cpp:97-98 | defines Eigen's sparse-times-dense product: entry i is row i's dot product with the vector (`MatVecZero` and `MatVecOfZeroMatrix` state what it does) |
| LinAlg.MatVecZero | src/explicit_system.cpp:122-123 | every matrix maps the zero vector to the zero vector |
| LinAlg.MatVecOfZeroMatrix | src/explicit_system.cpp:97-98 | a matrix with every coefficient zero maps every vector to zero |
| FeUtils.Normalized | src/fe_utils.cpp:41-48 | defines `normalize`/`normalized` as division by the given norm, leaving a vector of norm zero unchanged |
| FeUtils.LocalAxes | src/fe_utils.cpp:39-48 | defines the local axes: x is node nn2 minus node nn1, y the element's reference direction, z their cross product, each normalised |
| FeUtils.LocalAxesGeometry | src/fe_utils.cpp:39-48 | the local x-axis is a positive multiple of node nn2 minus node nn1, and the local z-axis is perpendicular to both the x- and the y-axis |
| FeUtils.CrossIsPerpendicular | src/fe_utils.cpp:47 | a cross product is perpendicular to both of its factors |
| FeUtils.SetZero | src/fe_utils.cpp:34-35 | every entry of the 12 x 12 matrix is zero |
| FeUtils.FillBlock | src/fe_utils.cpp:50-130 | diagonal block b receives rows nx, ny, nz (or their transpose) and every entry outside the block is left as it was |
| FeUtils.UpdateRotation | src/fe_utils.cpp:33-131 | the rotation is the block-diagonal matrix of the local axes, and `rotation_transposed(i, j) == rotation(j, i)` for all i, j |
| FeUtils.RotationBlockStructure | src/fe_utils.cpp:51-89 | the rotation is zero outside the four 3 x 3 diagonal blocks, and the rows of each block are nx, ny and nz in that order |
| FeUtils.Candidates | src/fe_utils.cpp:139-146 | one candidate per element, in element order, equal to its length over its wave speed sqrt(E / rho) |
| FeUtils.RunningMin | src/fe_utils.cpp:135-147 | defines the loop's minimum: it starts at `max()` and takes each candidate in order that is strictly below it |
| FeUtils.RunningMinIsLowerBound | src/fe_utils.cpp:135-147 | the running minimum is at most the starting `max()` and at most every candidate |
| FeUtils.RunningMinIsAttained | src/fe_utils.cpp:135-147 | the running minimum is the starting `max()` or a candidate, and it is a candidate whenever some candidate is below `max()` |
| FeUtils.EstimateStableTimestep | src/fe_utils.cpp:133-150 | the loop returns the running minimum of the candidates, divided by 10 |
| FeUtils.StableTimestepBounds | src/fe_utils.cpp:133-150 | the estimate is at most every candidate over 10; with no element it is `max()/10`; otherwise it is some candidate over 10 when some candidate is below `max()` |
| Meshes.GlobalDof | src/mesh.cpp:102-128 | defines the global row or column of an element's local index l: `6*nn1 + l` for l < 6 and `6*(nn2-1) + l` from 6 on |
| Meshes.GlobalDofIsNodeBlock | src/mesh.cpp:102-128 | local index l < 6 maps to dof l of node nn1, and l >= 6 (through `6*(nn2-1)+l`) to dof l-6 of node nn2 |
| Meshes.GlobalDofInjective | src/mesh.cpp:102-128 | for an element joining two distinct nodes, distinct local indices map to distinct global indices |
| Meshes.EmittedStep | src/mesh.cpp:96-131 | the scan visits column j, row i at position 12j + i, and emits a triplet there exactly when the entry is non-zero |
| Meshes.ElementTripletsShape | src/mesh.cpp:94-131 | every emitted triplet comes from a non-zero local entry, at its mapped global row and column, with its value unchanged |
| Meshes.ElementScatter | src/mesh.cpp:88-132 | for distinct nodes, the triplets addressed to the image of local entry (r, c) sum to exactly that entry |
| Meshes.ElementOutsideBlocks | src/mesh.cpp:88-132 | an element contributes nothing to a global row or column outside its two nodes' 6-dof blocks |
| Meshes.SumAtAppend | src/mesh.cpp:71-73 | appending triplets adds their sums at every position, leaving the earlier contributions as they were |
| Meshes.AllTripletsSnoc | src/mesh.cpp:68-74 | one more element appends its triplets after those of the earlier elements, which are kept |
| Meshes.AllTripletsSum | src/mesh.cpp:68-77 | the collected triplets sum, at every position, to the sum of the elements' contributions there |
| Meshes.AllTripletsInBounds | src/mesh.cpp:57-77 | every collected triplet addresses a position inside the 6N x 6N matrix |
| Meshes.Assembled | src/mesh.cpp:56-86 | each global matrix is valid and 6N x 6N |
| Meshes.AssembledEntry | src/mesh.cpp:56-86 | global entry (i, j) is the sum over elements of their contributions there, unless that sum is within the pruning tolerance and was pruned to zero |
| Meshes.BcsPruneFunctor.Keep | src/mesh.cpp:149-156 | an entry is kept iff neither its row nor its column is a constrained index |
| Meshes.NewBcsPruneFunctor | src/mesh.cpp:143-147 | the set holds exactly the global indices of the conditions, with one member for repeated conditions on a dof (at most one member per condition) |
| Meshes.InsertOneStep | src/mesh.cpp:137-140 | inserting 1 at (g, g) moves g from the indices still to insert to those inserted |
| Meshes.Constrain | src/mesh.cpp:134-141 | defines the effect of `apply_bcs` on the inverse mass: prune every entry in a constrained row or column, then set each constrained diagonal to 1 |
| Meshes.ConstrainEntries | src/mesh.cpp:134-141 | after enforcement a constrained index has 1 on its diagonal and 0 elsewhere in its row and column, and every entry with both row and column unconstrained is unchanged |
| Meshes.Mesh.constructor | src/mesh.cpp:31-38 | the mesh owns the conditions, its stiffness and mass matrices are the assembled ones, and its inverse-mass matrix is the assembled one with the conditions enforced |
| Meshes.Mesh.AssembleMatrices | src/mesh.cpp:56-86 | the three matrices become the assembled 6N x 6N stiffness, mass (the inverse of each element's inverse mass) and inverse-mass matrices; the conditions are untouched |
| Meshes.Mesh.CollectTriplets | src/mesh.cpp:62-74 | the loop collects the triplets of every element, in element order, for all three kinds |
| Meshes.Mesh.AppendTriplets | src/mesh.cpp:88-132 | the output is the input triplets followed by those of the element matrix; earlier triplets are untouched |
| Meshes.Mesh.ApplyBcs | src/mesh.cpp:134-141 | the inverse-mass matrix becomes the constrained one; stiffness, mass and the conditions are unchanged, and the mesh stays valid |
| Meshes.Mesh.InsertOnes | src/mesh.cpp:137-140 | inserting over the whole set adds exactly a 1 on the diagonal of every index in it and keeps every other entry |
| ExplicitSystems.DefaultOptions | include/explicit_system.h:54-59 | defines the default options: beta 0.25, gamma 0.5, and 0.01 for both Rayleigh damping constants |
| ExplicitSystems.Damping | src/explicit_system.cpp:135-140 | the damping matrix has the size of the stiffness matrix |
| ExplicitSystems.DampingIsProportional | src/explicit_system.cpp:137-138 | each damping entry is alpha M + beta K at that position, unless that is within the pruning tolerance and was pruned to zero |
| ExplicitSystems.NewmarkCombination | src/explicit_system.cpp:143-144 | defines M + x C + y K, pruned at 1e-14, as the common shape of the left-hand side; it keeps the size of K |
| ExplicitSystems.NewmarkCombinationAt | src/explicit_system.cpp:143-144 | each entry of M + x C + y K after pruning is m + x c + y k at that position, or was pruned to zero from a value within the tolerance |
| ExplicitSystems.Lhs | src/explicit_system.cpp:142-147 | the left-hand side has the size of the stiffness matrix |
| ExplicitSystems.LhsIsNewmarkMatrix | src/explicit_system.cpp:143-144 | each left-hand-side entry is M + gamma dt C + beta dt^2 K at that position, unless it was pruned to zero from a value within the tolerance |
| ExplicitSystems.ClampOne | src/explicit_system.cpp:150-158 | one condition keeps the vector lengths |
| ExplicitSystems.Clamp | src/explicit_system.cpp:149-159 | the loop over all conditions keeps the vector lengths |
| ExplicitSystems.ClampUntouched | src/explicit_system.cpp:149-159 | a dof named by no condition keeps its velocity and right-hand side, and a dof named by no displacement condition keeps its displacement |
| ExplicitSystems.ClampZeroesRhs | src/explicit_system.cpp:151 | every dof named by a condition ends with a zero right-hand side |
| ExplicitSystems.ClampLastWins | src/explicit_system.cpp:152-157 | the last condition on a dof decides it: displacement condition gives u = value(t) and v = 0, velocity condition gives v = value(t) |
| ExplicitSystems.ClampKeepsZeroRhs | src/explicit_system.cpp:151 | a zero right-hand side stays zero |
| ExplicitSystems.Load | src/explicit_system.cpp:161-165 | writing the forces keeps the vector length |
| ExplicitSystems.LoadUntouched | src/explicit_system.cpp:161-165 | an entry named by no force keeps its prior value |
| ExplicitSystems.LoadLastWins | src/explicit_system.cpp:163 | the last force on a dof sets its entry to that force's value at the time |
| ExplicitSystems.VelocityPredictor | src/explicit_system.cpp:97 | entry i is v[i] + (1 - gamma) dt a[i] |
| ExplicitSystems.DisplacementPredictor | src/explicit_system.cpp:98 | entry i is u[i] + dt v[i] + (1/2 - beta) dt^2 a[i] |
| ExplicitSystems.RightHandSide | src/explicit_system.cpp:96-98 | entry i is the force less row i of C times the velocity predictor less row i of K times the displacement predictor |
| ExplicitSystems.VelocityUpdate | src/explicit_system.cpp:102 | entry i is base[i] + (1 - gamma) dt a0[i] + gamma dt a1[i] |
| ExplicitSystems.DisplacementUpdate | src/explicit_system.cpp:105 | entry i is u[i] + dt v[i] + dt^2 (1/2 - beta) a0[i] + dt^2 beta a1[i] |
| ExplicitSystems.Solution | src/explicit_system.cpp:90-101 | the left-hand side used is n x n and every vector keeps length n |
| ExplicitSystems.Prepared | src/explicit_system.cpp:90-99 | the first half of a step keeps every size and leaves the solver factorised |
| ExplicitSystems.AdvancedAsWritten | src/explicit_system.cpp:101-109 | the second half as written keeps every size and the factorisation, and leaves `velocities_0 == velocities_1` and `accelerations_0 == accelerations_1`; its recurrences are stated by `StepAsWrittenIsNewmark` |
| ExplicitSystems.Advanced | src/explicit_system.cpp:101-109 | the same for the corrected second half, which adds the velocity increment to the clamped `velocities_0` instead of the line-102 buffer (see Findings) |
| ExplicitSystems.StepAsWritten | src/explicit_system.cpp:89-110 | a step as written keeps every size, leaves the solver factorised, and leaves both velocity buffers equal and both acceleration buffers equal; what it computes is stated by `StepAsWrittenIsNewmark` and `AsWrittenIgnoresVelocityCondition` |
| ExplicitSystems.Step | src/explicit_system.cpp:89-110 | the same for the corrected step the system takes, whose velocity base is `velocities_0` rather than line 102's `velocities_1` (see Findings) |
| ExplicitSystems.StepIsNewmark | src/explicit_system.cpp:99-107 | after a corrected step the accelerations are the solve of the clamped right-hand side, and velocities and displacements follow the Newmark recurrences from the clamped u and v0 |
| ExplicitSystems.StepAsWrittenIsNewmark | src/explicit_system.cpp:89-110 | after a step as written the accelerations are the solve of the clamped right-hand side, the new velocity is `velocities_1` plus (1 - gamma) dt a0 + gamma dt a1, the displacements follow the Newmark recurrence from the clamped u and v0, and t0 grows by dt while dt0 becomes dt |
| ExplicitSystems.AsWrittenIgnoresVelocityCondition | src/explicit_system.cpp:102 | a velocity condition that is last on its dof sets the clamped velocity to its value at t0 + dt (lines 155-156); the corrected step starts the new velocity there from that value, while the step as written starts it from `velocities_1`, so the prescribed value does not reach the reported velocity |
| ExplicitSystems.StepAdvancesTime | src/explicit_system.cpp:90-109 | a step sets `t_0` to `t_0 + dt` and `dt_0` to dt |
| ExplicitSystems.StepRebuildsIffDtChanges | src/explicit_system.cpp:91-93 | the left-hand side is rebuilt and refactorised exactly when dt is not `equal` to `dt_0`; otherwise both are kept |
| ExplicitSystems.RepeatedDtKeepsLhs | src/explicit_system.cpp:91-93 | repeating the same dt never rebuilds: the second step keeps the first step's left-hand side and factorisation |
| ExplicitSystems.FirstStepBuildsLhs | src/explicit_system.cpp:48-93 | from `dt_0 = 0`, any non-zero dt builds and factorises the left-hand side for that dt |
| ExplicitSystems.VelocityUpdateAtRest | src/explicit_system.cpp:102 | with both accelerations zero, the velocity update returns its base |
| ExplicitSystems.DisplacementUpdateUniform | src/explicit_system.cpp:105 | with both accelerations zero, the displacement update is the uniform motion u + dt v |
| ExplicitSystems.UnconstrainedPrepared | src/explicit_system.cpp:95-99 | with no conditions and no forces, the first half keeps every vector and leaves the unclamped right-hand side |
| ExplicitSystems.RhsVanishes | src/explicit_system.cpp:96-98 | the right-hand side is zero when the forces and both matrix products are zero |
| ExplicitSystems.RestIsPreserved | src/explicit_system.cpp:89-110 | an unloaded, unconstrained body at rest stays at rest when the solver maps zero to zero |
| ExplicitSystems.FreeMotionSolvesToZero | src/explicit_system.cpp:96-101 | with zero stiffness, damping, load and acceleration, the solve yields zero accelerations |
| ExplicitSystems.StepKeepsUniformMotion | src/explicit_system.cpp:101-106 | under free motion a step keeps the velocity and moves the body by dt times it |
| ExplicitSystems.AsWrittenVelocityIsBuffer | src/explicit_system.cpp:102-106 | under free motion the step as written moves the body by dt v0, but its new velocity is the old next-velocity buffer |
| ExplicitSystems.FreeBodyMoves | src/explicit_system.cpp:42-48 | the free body of the counterexample is consistent, in free motion, needs a first factorisation, and has velocity 1 against a zero buffer |
| ExplicitSystems.AsWrittenDropsInitialVelocity | src/explicit_system.cpp:102-106 | one step as written brings the free body with velocity 1 to rest, while `Step` keeps velocity 1 |
| ExplicitSystems.ExplicitSystem.constructor | src/explicit_system.cpp:32-58 | the system owns mesh, forces and options; displacements, velocities and right-hand side are the initial ones with the conditions applied at `t_0`; the other buffers are zero; `dt_0 = 0`; the damping matrix is assembled |
| ExplicitSystems.ExplicitSystem.Create | src/explicit_system.cpp:50-53 | construction fails on a velocity length mismatch, else on a mismatch with the stiffness columns, and succeeds exactly when both lengths match |
| ExplicitSystems.ExplicitSystem.Update | src/explicit_system.cpp:89-110 | the new state is `Step` of the old one, the damping matrix is kept, and the system stays valid |
| ExplicitSystems.ExplicitSystem.Prepare | src/explicit_system.cpp:90-99 | the new state is `Prepared` of the old one |
| ExplicitSystems.ExplicitSystem.Advance | src/explicit_system.cpp:101-109 | the new state is `Advanced` of the old one: the corrected second half, with `velocities_0` as the velocity base (see Findings) |
| ExplicitSystems.ExplicitSystem.GetForces | src/explicit_system.cpp:120-125 | entry i is row i of K times the displacements plus row i of M times the accelerations, and nothing changes |
| ExplicitSystems.ExplicitSystem.AssembleDampingMatrix | src/explicit_system.cpp:135-140 | the damping matrix becomes alpha M + beta K pruned; every other field is kept |
| ExplicitSystems.ExplicitSystem.AssembleLhs | src/explicit_system.cpp:142-147 | the left-hand side becomes M + gamma dt C + beta dt^2 K and the solver is factorised with it; every other field is kept |
| ExplicitSystems.ExplicitSystem.ApplyBcs | src/explicit_system.cpp:149-159 | displacements, velocities and right-hand side become `Clamp` of the old ones; every other field is kept |
| ExplicitSystems.ExplicitSystem.ApplyExternalForces | src/explicit_system.cpp:161-165 | the force vector becomes `Load` of the old one; every other field is kept |
| ExplicitSystems.ForcesAtRest | src/explicit_system.cpp:120-125 | with zero displacements and accelerations the reported nodal forces are zero |
| ExplicitSystems.FreshRhsIsZero | src/explicit_system.cpp:46-57 | a freshly built system has a zero right-hand side, because the conditions only write zeros into it |

## Left out

- The Euler-Bernoulli and Timoshenko element formulas (src/euler_bernoulli_beam_element.cpp, src/timoshenko_beam_element.cpp) are not part of this model. They are closed-form floating-point expressions. An element's stiffness and inverse-mass providers are opaque functions of the node list, and they return matrices already rotated into the global frame.
- The dense 12 x 12 inverse of `assemble_matrices` is the parameter `inverse`. The `SimplicialLDLT` factorise-and-solve is the parameter `solve`, and the factorisation is represented by the matrix it was computed from. Both are foreign numerical library calls.
- `norm`, `normalize` and `sqrt` are parameters. `Normalized` leaves a zero vector unchanged. These are floating-point library functions.
- IEEE rounding, overflow to infinity and NaN are not modelled; all arithmetic is exact on `real`. `std::numeric_limits<double>::max()` is its exact value. Integer width is not modelled either: global indices such as `6 * node + dof` (include/prescribed_value.h:74, src/mesh.cpp:105-126) are unbounded `int`, while the source computes them in C++ `int`, which overflows for node numbers above about 357 million.
- LinAlg.PruneSmall: uses an absolute threshold of 1e-14. Eigen's `prune(reference)` scales the reference by its own precision. No property relies on the threshold: every pruning contract says only that an entry is unchanged or was dropped to zero.
- `makeCompressed`, `reserve`, `resize` on storage and `sparseView` change only storage, not values. `sparseView` is modelled as the scan of the non-zero entries.
- The order in which `apply_bcs` inserts the ones (ascending, from `std::set`) is not modelled. `InsertOnes` picks any remaining index, and the result is the same for every order.
- `update` is modelled as two methods, `Prepare` (lines 90-99) and `Advance` (lines 101-109), which `Update` calls in sequence.
- ExplicitSystems.ExplicitSystem.Update: requires that the solver has been factorised or that dt differs from `dt_0`. A fresh system stepped with dt = 0 would solve with a solver that was never factorised.
- ExplicitSystems.ExplicitSystem.Update: follows the velocity update of `Step`, not the one the source writes (see Findings). `StepAsWritten` models the source's line 102.
- ExplicitSystems.ExplicitSystem.Advance: adds the velocity increment to `velocities_0`, not to the `velocities_1` buffer of line 102 (see Findings); `AdvancedAsWritten` models line 102.
- ExplicitSystems.Advanced: takes the velocity base from `velocities_0`, not from line 102's `velocities_1` buffer (see Findings); `AdvancedAsWritten` models line 102.
- ExplicitSystems.Step: takes the velocity base from `velocities_0`, not from line 102's `velocities_1` buffer (see Findings); `StepAsWritten` models the whole `update` as written.
- Out-of-range node numbers and degree-of-freedom indices: unchecked indexing in the source. The model requires elements, conditions and forces to name existing nodes and dofs (`WellFormed`, `BcsInRange`, `ForcesInRange`).
- Meshes.ElementScatter: requires the element's two node numbers to differ. With equal node numbers two local positions share one global position and their values add.
- FeUtils.EstimateStableTimestep: requires non-zero densities and positive wave speeds. The source would divide by zero.
- The getters `get_global_stiffness_matrix`, `get_mass_matrix`, `get_inv_mass_matrix`, `get_bcs`, `getMesh`, `getDisplacements`, `getVelocities` and `getTime` are reads of the class fields.
- Both `Options::load` methods, src/setup.cpp, include/csv_parser.h, the explicit system manager and src/main.cpp are not part of this model. They are JSON, CSV and file input/output, command-line handling, console output and timing.
- The rebuild test compares dt with the previous step's dt, not with the dt the left-hand side was built for. A slowly drifting dt can therefore keep an old left-hand side. This is the source's behaviour, and `StepRebuildsIffDtChanges` states it.

## Findings

| source | as written | input that shows it | evidently intended | confidence | as-written member | corrected member |
|---|---|---|---|---|---|---|
| src/explicit_system.cpp:102-106 | the Newmark increment is added to `velocities_1`, which is zero at construction (line 42), and `velocities_0` is then overwritten with it, so the first step discards the initial velocities | six dofs, unit (identity) mass, zero stiffness and damping matrices, a solve that returns zeros (the right-hand side is zero, so that is its exact solution), no loads or conditions, initial velocity 1 in dof 0, dt = 1: after one update the displacement of dof 0 is 1 but its velocity is 0 | v1 = v0 + (1 - gamma) dt a0 + gamma dt a1 from the current velocity, so a free body keeps velocity 1 | medium; not executed | ExplicitSystems.AsWrittenDropsInitialVelocity | ExplicitSystems.StepKeepsUniformMotion |

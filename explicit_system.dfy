/** The explicit Newmark-beta integrator (src/explicit_system.cpp): a system
    owns a mesh and its external forces and advances displacements,
    velocities and accelerations one time step at a time. The sparse solver
    is a parameter: `solve(L, rhs)` stands for factorising L and solving. */
module ExplicitSystems {
  import opened LinAlg
  import opened PrescribedValues
  import opened Bcs
  import opened Forces
  import opened ValueCompares
  import opened Meshes

  /** `ExplicitSystem::Options`: the Newmark constants and the proportional
      damping constants. */
  datatype Options = Options(beta: real, gamma: real, dampingAlpha: real, dampingBeta: real)

  /** The defaults of the `Options` constructor. */
  const DefaultOptions: Options := Options(0.25, 0.5, 0.01, 0.01)

  /** Factorise the left-hand side and solve for a right-hand side. */
  type Solver = (Sparse, Vector) -> Vector

  /** A solve returns a vector as long as its right-hand side. */
  ghost predicate PreservesLength(solve: Solver)
  {
    forall l: Sparse, r: Vector {:trigger solve(l, r)} :: |solve(l, r)| == |r|
  }

  /** Every force names one of the n global dofs. */
  ghost predicate ForcesInRange(fs: ForceList, n: int)
  {
    forall k :: 0 <= k < |fs| ==> 0 <= fs[k].GlobalIndex() < n
  }

  ghost predicate SquareOf(m: Sparse, n: int)
  {
    m.Valid() && m.rows == n && m.cols == n
  }

  /** r is e, or e pruned to zero as being within the pruning tolerance. */
  ghost predicate PrunedFrom(r: real, e: real)
  {
    r == e || (r == 0.0 && Abs(e) <= PruneTolerance)
  }

  /** An entry of a linear combination of two matrices. */
  lemma CombinationAt(x: real, a: Sparse, y: real, b: Sparse, i: int, j: int)
    requires a.Valid() && b.Valid() && a.rows == b.rows && a.cols == b.cols
    ensures MatAdd(MatScale(x, a), MatScale(y, b)).At(i, j) == x * a.At(i, j) + y * b.At(i, j)
  {
  }

  /** An entry of a matrix plus a linear combination of two others. */
  lemma ShiftedCombinationAt(m: Sparse, x: real, a: Sparse, y: real, b: Sparse, i: int, j: int)
    requires m.Valid() && a.Valid() && b.Valid()
    requires m.rows == a.rows == b.rows && m.cols == a.cols == b.cols
    ensures MatAdd(MatAdd(m, MatScale(x, a)), MatScale(y, b)).At(i, j) == m.At(i, j) + x * a.At(i, j) + y * b.At(i, j)
  {
    var sa := MatScale(x, a);
    var sb := MatScale(y, b);
    var ma := MatAdd(m, sa);
    ScaleAt(x, a, i, j);
    ScaleAt(y, b, i, j);
    AddAt(m, sa, i, j);
    AddAt(ma, sb, i, j);
  }

  /** `assemble_damping_matrix`: C = alpha M + beta K, pruned. */
  function Damping(k: Sparse, m: Sparse, alpha: real, beta: real): (c: Sparse)
    requires k.Valid() && m.Valid() && k.rows == m.rows && k.cols == m.cols
    ensures c.Valid() && c.rows == k.rows && c.cols == k.cols
  {
    PruneSmall(MatAdd(MatScale(alpha, m), MatScale(beta, k)))
  }

  /** A damping entry is alpha M + beta K at that position, unless that is
      within the pruning tolerance and was pruned to zero. */
  lemma DampingIsProportional(k: Sparse, m: Sparse, alpha: real, beta: real, i: int, j: int)
    requires k.Valid() && m.Valid() && k.rows == m.rows && k.cols == m.cols
    ensures PrunedFrom(Damping(k, m, alpha, beta).At(i, j), alpha * m.At(i, j) + beta * k.At(i, j))
  {
    var sum := MatAdd(MatScale(alpha, m), MatScale(beta, k));
    CombinationAt(alpha, m, beta, k, i, j);
    PruneSmallAt(sum, i, j);
  }

  /** M + x C + y K, pruned: the shape of the Newmark left-hand side for
      given damping and stiffness coefficients. */
  function NewmarkCombination(k: Sparse, m: Sparse, c: Sparse, x: real, y: real): (l: Sparse)
    requires k.Valid() && m.Valid() && c.Valid()
    requires k.rows == m.rows == c.rows && k.cols == m.cols == c.cols
    ensures l.Valid() && l.rows == k.rows && l.cols == k.cols
  {
    PruneSmall(MatAdd(MatAdd(m, MatScale(x, c)), MatScale(y, k)))
  }

  lemma NewmarkCombinationAt(k: Sparse, m: Sparse, c: Sparse, x: real, y: real, i: int, j: int)
    requires k.Valid() && m.Valid() && c.Valid()
    requires k.rows == m.rows == c.rows && k.cols == m.cols == c.cols
    ensures PrunedFrom(NewmarkCombination(k, m, c, x, y).At(i, j), m.At(i, j) + x * c.At(i, j) + y * k.At(i, j))
  {
    var sum := MatAdd(MatAdd(m, MatScale(x, c)), MatScale(y, k));
    ShiftedCombinationAt(m, x, c, y, k, i, j);
    PruneSmallAt(sum, i, j);
  }

  /** The coefficient of C in the Newmark left-hand side, gamma dt. */
  function DampingCoefficient(gamma: real, dt: real): real
  {
    gamma * dt
  }

  /** The coefficient of K in the Newmark left-hand side, beta dt^2. */
  function StiffnessCoefficient(beta: real, dt: real): real
  {
    beta * dt * dt
  }

  /** `assemble_LHS`: L = M + gamma dt C + beta dt^2 K, pruned. */
  function Lhs(k: Sparse, m: Sparse, c: Sparse, gamma: real, beta: real, dt: real): (l: Sparse)
    requires k.Valid() && m.Valid() && c.Valid()
    requires k.rows == m.rows == c.rows && k.cols == m.cols == c.cols
    ensures l.Valid() && l.rows == k.rows && l.cols == k.cols
  {
    NewmarkCombination(k, m, c, DampingCoefficient(gamma, dt), StiffnessCoefficient(beta, dt))
  }

  /** An LHS entry is M + gamma dt C + beta dt^2 K at that position, unless
      that is within the pruning tolerance and was pruned to zero. */
  lemma LhsIsNewmarkMatrix(k: Sparse, m: Sparse, c: Sparse, gamma: real, beta: real, dt: real, i: int, j: int)
    requires k.Valid() && m.Valid() && c.Valid()
    requires k.rows == m.rows == c.rows && k.cols == m.cols == c.cols
    ensures var x, y := DampingCoefficient(gamma, dt), StiffnessCoefficient(beta, dt);
      PrunedFrom(Lhs(k, m, c, gamma, beta, dt).At(i, j), m.At(i, j) + x * c.At(i, j) + y * k.At(i, j))
  {
    NewmarkCombinationAt(k, m, c, DampingCoefficient(gamma, dt), StiffnessCoefficient(beta, dt), i, j);
  }

  /** The three vectors `apply_bcs` writes: displacements, velocities and
      the right-hand side. */
  datatype Clamped = Clamped(u: Vector, v: Vector, rhs: Vector)

  /** One pass of the `apply_bcs` loop: zero the right-hand side at the
      condition's dof; a displacement condition prescribes the displacement
      and zeroes the velocity, a velocity condition prescribes the velocity. */
  function ClampOne(bc: BC, time: real, f: Clamped): (r: Clamped)
    requires 0 <= bc.GlobalIndex() < |f.u| && |f.u| == |f.v| == |f.rhs|
    ensures |r.u| == |r.v| == |r.rhs| == |f.u|
  {
    var g := bc.GlobalIndex();
    match bc.kind
    case Displacement => Clamped(f.u[g := bc.GetValue(time)], f.v[g := 0.0], f.rhs[g := 0.0])
    case Velocity => Clamped(f.u, f.v[g := bc.GetValue(time)], f.rhs[g := 0.0])
  }

  /** The whole `apply_bcs` loop, in list order (a later condition on the
      same dof overwrites an earlier one). */
  function Clamp(bcs: BCList, time: real, f: Clamped): (r: Clamped)
    requires BcsInRange(bcs, |f.u|) && |f.u| == |f.v| == |f.rhs|
    ensures |r.u| == |r.v| == |r.rhs| == |f.u|
    decreases |bcs|
  {
    if bcs == [] then f
    else
      var init := bcs[..|bcs| - 1];
      assert BcsInRange(init, |f.u|) by {
        assert forall k :: 0 <= k < |init| ==> init[k] == bcs[k];
      }
      ClampOne(bcs[|bcs| - 1], time, Clamp(init, time, f))
  }

  /** A dof named by no condition keeps its velocity and right-hand side,
      and a dof named by no displacement condition keeps its displacement. */
  lemma {:induction false} ClampUntouched(bcs: BCList, time: real, f: Clamped, g: int)
    requires BcsInRange(bcs, |f.u|) && |f.u| == |f.v| == |f.rhs| && 0 <= g < |f.u|
    ensures (forall k :: 0 <= k < |bcs| && bcs[k].GlobalIndex() == g ==> bcs[k].kind == Velocity)
      ==> Clamp(bcs, time, f).u[g] == f.u[g]
    ensures (forall k :: 0 <= k < |bcs| ==> bcs[k].GlobalIndex() != g)
      ==> Clamp(bcs, time, f).v[g] == f.v[g] && Clamp(bcs, time, f).rhs[g] == f.rhs[g]
  {
    if bcs != [] {
      var init := bcs[..|bcs| - 1];
      assert forall k :: 0 <= k < |init| ==> init[k] == bcs[k];
      ClampUntouched(init, time, f, g);
    }
  }

  /** Every dof named by some condition ends with a zero right-hand side. */
  lemma {:induction false} ClampZeroesRhs(bcs: BCList, time: real, f: Clamped, k: int)
    requires BcsInRange(bcs, |f.u|) && |f.u| == |f.v| == |f.rhs| && 0 <= k < |bcs|
    ensures Clamp(bcs, time, f).rhs[bcs[k].GlobalIndex()] == 0.0
  {
    var init := bcs[..|bcs| - 1];
    assert forall i :: 0 <= i < |init| ==> init[i] == bcs[i];
    if k < |bcs| - 1 {
      ClampZeroesRhs(init, time, f, k);
    }
  }

  /** The last condition naming a dof decides it: a displacement condition
      leaves its value as the displacement and a zero velocity, a velocity
      condition leaves its value as the velocity. */
  lemma {:induction false} ClampLastWins(bcs: BCList, time: real, f: Clamped, k: int)
    requires BcsInRange(bcs, |f.u|) && |f.u| == |f.v| == |f.rhs| && 0 <= k < |bcs|
    requires forall k2 :: k < k2 < |bcs| ==> bcs[k2].GlobalIndex() != bcs[k].GlobalIndex()
    ensures bcs[k].kind == Displacement ==>
      Clamp(bcs, time, f).u[bcs[k].GlobalIndex()] == bcs[k].GetValue(time)
      && Clamp(bcs, time, f).v[bcs[k].GlobalIndex()] == 0.0
    ensures bcs[k].kind == Velocity ==>
      Clamp(bcs, time, f).v[bcs[k].GlobalIndex()] == bcs[k].GetValue(time)
  {
    var init := bcs[..|bcs| - 1];
    assert forall i :: 0 <= i < |init| ==> init[i] == bcs[i];
    if k < |bcs| - 1 {
      ClampLastWins(init, time, f, k);
    }
  }

  /** A right-hand side that is zero stays zero. */
  lemma {:induction false} ClampKeepsZeroRhs(bcs: BCList, time: real, u: Vector, v: Vector)
    requires BcsInRange(bcs, |u|) && |u| == |v|
    ensures Clamp(bcs, time, Clamped(u, v, Zero(|u|))).rhs == Zero(|u|)
  {
    if bcs != [] {
      var init := bcs[..|bcs| - 1];
      assert forall i :: 0 <= i < |init| ==> init[i] == bcs[i];
      ClampKeepsZeroRhs(init, time, u, v);
    }
  }

  /** The `apply_external_forces` loop, in list order. */
  function Load(fs: ForceList, time: real, x: Vector): (r: Vector)
    requires ForcesInRange(fs, |x|)
    ensures |r| == |x|
    decreases |fs|
  {
    if fs == [] then x
    else
      var init := fs[..|fs| - 1];
      assert ForcesInRange(init, |x|) by {
        assert forall k :: 0 <= k < |init| ==> init[k] == fs[k];
      }
      var f := fs[|fs| - 1];
      Load(init, time, x)[f.GlobalIndex() := f.GetValue(time)]
  }

  /** A dof named by no force keeps its entry. */
  lemma {:induction false} LoadUntouched(fs: ForceList, time: real, x: Vector, g: int)
    requires ForcesInRange(fs, |x|) && 0 <= g < |x|
    requires forall k :: 0 <= k < |fs| ==> fs[k].GlobalIndex() != g
    ensures Load(fs, time, x)[g] == x[g]
  {
    if fs != [] {
      var init := fs[..|fs| - 1];
      assert forall k :: 0 <= k < |init| ==> init[k] == fs[k];
      LoadUntouched(init, time, x, g);
    }
  }

  /** The last force naming a dof sets its entry to that force's value. */
  lemma {:induction false} LoadLastWins(fs: ForceList, time: real, x: Vector, k: int)
    requires ForcesInRange(fs, |x|) && 0 <= k < |fs|
    requires forall k2 :: k < k2 < |fs| ==> fs[k2].GlobalIndex() != fs[k].GlobalIndex()
    ensures Load(fs, time, x)[fs[k].GlobalIndex()] == fs[k].GetValue(time)
  {
    var init := fs[..|fs| - 1];
    assert forall i :: 0 <= i < |init| ==> init[i] == fs[i];
    if k < |fs| - 1 {
      LoadLastWins(init, time, x, k);
    }
  }

  /** Everything the step reads but never writes. */
  datatype Params = Params(stiffness: Sparse, mass: Sparse, damping: Sparse, bcs: BCList,
                           externalForces: ForceList, options: Options, compare: ValueCompare, solve: Solver)

  /** The fields a step writes: displacements_0, velocities_0/1,
      accelerations_0/1, forces, RHS, t_0, dt_0, the LHS and the matrix the
      solver was last factorised with (None before the first factorisation). */
  datatype State = State(u: Vector, v0: Vector, v1: Vector, a0: Vector, a1: Vector,
                         forces: Vector, rhs: Vector, t0: real, dt0: real,
                         lhs: Sparse, factor: Option<Sparse>)

  /** All matrices are n x n, every vector has length n, and every condition
      and force names one of the n dofs. */
  ghost predicate Consistent(p: Params, s: State)
  {
    var n := p.stiffness.cols;
    && SquareOf(p.stiffness, n) && SquareOf(p.mass, n) && SquareOf(p.damping, n) && SquareOf(s.lhs, n)
    && BcsInRange(p.bcs, n) && ForcesInRange(p.externalForces, n) && PreservesLength(p.solve)
    && |s.u| == n && |s.v0| == n && |s.v1| == n && |s.a0| == n && |s.a1| == n
    && |s.forces| == n && |s.rhs| == n
  }

  /** The velocity predictor v + (1 - gamma) dt a. */
  function VelocityPredictor(gamma: real, v: Vector, a: Vector, dt: real): (r: Vector)
    requires |v| == |a|
    ensures |r| == |v| && forall i :: 0 <= i < |r| ==> r[i] == v[i] + (1.0 - gamma) * dt * a[i]
  {
    Add(v, Scale((1.0 - gamma) * dt, a))
  }

  /** The displacement predictor u + dt v + (1/2 - beta) dt^2 a. */
  function DisplacementPredictor(beta: real, u: Vector, v: Vector, a: Vector, dt: real): (r: Vector)
    requires |u| == |v| == |a|
    ensures |r| == |u| && forall i :: 0 <= i < |r| ==> r[i] == u[i] + dt * v[i] + (0.5 - beta) * dt * dt * a[i]
  {
    Add(Add(u, Scale(dt, v)), Scale((0.5 - beta) * dt * dt, a))
  }

  /** The right-hand side before the conditions are applied: the forces
      less C times the velocity predictor less K times the displacement
      predictor. */
  function RightHandSide(p: Params, forces: Vector, u: Vector, v: Vector, a: Vector, dt: real): (r: Vector)
    requires p.damping.Valid() && p.stiffness.Valid()
    requires |forces| == |u| == |v| == |a| == p.damping.cols == p.damping.rows == p.stiffness.cols == p.stiffness.rows
    ensures |r| == |u|
    ensures forall i :: 0 <= i < |r| ==>
      r[i] == forces[i] - RowDot(p.damping, i, VelocityPredictor(p.options.gamma, v, a, dt), |u|)
                        - RowDot(p.stiffness, i, DisplacementPredictor(p.options.beta, u, v, a, dt), |u|)
  {
    var damped := MatVec(p.damping, VelocityPredictor(p.options.gamma, v, a, dt));
    var elastic := MatVec(p.stiffness, DisplacementPredictor(p.options.beta, u, v, a, dt));
    Sub(Sub(forces, damped), elastic)
  }

  /** The Newmark velocity increment added to `base`. */
  function VelocityUpdate(gamma: real, base: Vector, a0: Vector, a1: Vector, dt: real): (r: Vector)
    requires |base| == |a0| == |a1|
    ensures |r| == |base|
    ensures forall i :: 0 <= i < |r| ==> r[i] == base[i] + (1.0 - gamma) * dt * a0[i] + gamma * dt * a1[i]
  {
    Add(base, Add(Scale((1.0 - gamma) * dt, a0), Scale(gamma * dt, a1)))
  }

  /** The Newmark displacement update. */
  function DisplacementUpdate(beta: real, u: Vector, v: Vector, a0: Vector, a1: Vector, dt: real): (r: Vector)
    requires |u| == |v| == |a0| == |a1|
    ensures |r| == |u|
    ensures forall i :: 0 <= i < |r| ==>
      r[i] == u[i] + dt * v[i] + dt * dt * (0.5 - beta) * a0[i] + dt * dt * beta * a1[i]
  {
    Add(u, Add(Add(Scale(dt, v), Scale(dt * dt * (0.5 - beta), a0)), Scale(dt * dt * beta, a1)))
  }

  /** The part of `update` up to the solve: the LHS (rebuilt only when dt is
      not tolerance-equal to the previous dt), the forces, the clamped
      vectors and the new accelerations. */
  datatype Solved = Solved(lhs: Sparse, factor: Sparse, forces: Vector, clamped: Clamped, a1: Vector)

  function Solution(p: Params, s: State, dt: real): (x: Solved)
    requires Consistent(p, s) && (s.factor.Some? || !p.compare.Equal(dt, s.dt0))
    ensures SquareOf(x.lhs, p.stiffness.cols)
    ensures |x.forces| == |x.clamped.u| == |x.clamped.v| == |x.clamped.rhs| == |x.a1| == |s.u|
  {
    var t1 := s.t0 + dt;
    var rebuild := !p.compare.Equal(dt, s.dt0);
    var lhs := if rebuild then Lhs(p.stiffness, p.mass, p.damping, p.options.gamma, p.options.beta, dt) else s.lhs;
    var factor := if rebuild then lhs else s.factor.value;
    var forces := Load(p.externalForces, t1, s.forces);
    var rhs := RightHandSide(p, forces, s.u, s.v0, s.a0, dt);
    var c := Clamp(p.bcs, t1, Clamped(s.u, s.v0, rhs));
    Solved(lhs, factor, forces, c, p.solve(factor, c.rhs))
  }

  /** The state after the first half of `update(dt)`: the LHS and the
      factorisation, the forces at t0 + dt, and the clamped displacements,
      velocities and right-hand side. */
  function Prepared(p: Params, s: State, dt: real): (r: State)
    requires Consistent(p, s) && (s.factor.Some? || !p.compare.Equal(dt, s.dt0))
    ensures Consistent(p, r) && r.factor.Some?
  {
    var x := Solution(p, s, dt);
    s.(lhs := x.lhs, factor := Some(x.factor), forces := x.forces,
       u := x.clamped.u, v0 := x.clamped.v, rhs := x.clamped.rhs)
  }

  /** The second half of `update(dt)` as the source writes it, from a
      prepared state: solve for the new accelerations, add the Newmark
      increment to the next-velocity buffer `velocities_1` (which a fresh
      system holds at zero), move the displacements, and roll every field
      forward. */
  function AdvancedAsWritten(p: Params, s: State, dt: real): (r: State)
    requires Consistent(p, s) && s.factor.Some?
    ensures Consistent(p, r) && r.factor == s.factor
    ensures r.v0 == r.v1 && r.a0 == r.a1
  {
    var a1 := p.solve(s.factor.value, s.rhs);
    var v1 := VelocityUpdate(p.options.gamma, s.v1, s.a0, a1, dt);
    var u := DisplacementUpdate(p.options.beta, s.u, s.v0, s.a0, a1, dt);
    s.(u := u, v0 := v1, v1 := v1, a0 := a1, a1 := a1, t0 := s.t0 + dt, dt0 := dt)
  }

  /** The second half of `update(dt)` with the Newmark velocity update
      v1 = v0 + (1 - gamma) dt a0 + gamma dt a1: the increment is added to
      the current (clamped) velocity rather than to the next-velocity
      buffer. Otherwise as the source. */
  function Advanced(p: Params, s: State, dt: real): (r: State)
    requires Consistent(p, s) && s.factor.Some?
    ensures Consistent(p, r) && r.factor == s.factor
    ensures r.v0 == r.v1 && r.a0 == r.a1
  {
    var a1 := p.solve(s.factor.value, s.rhs);
    var v1 := VelocityUpdate(p.options.gamma, s.v0, s.a0, a1, dt);
    var u := DisplacementUpdate(p.options.beta, s.u, s.v0, s.a0, a1, dt);
    s.(u := u, v0 := v1, v1 := v1, a0 := a1, a1 := a1, t0 := s.t0 + dt, dt0 := dt)
  }

  /** `update(dt)` as the source writes it. */
  function StepAsWritten(p: Params, s: State, dt: real): (r: State)
    requires Consistent(p, s) && (s.factor.Some? || !p.compare.Equal(dt, s.dt0))
    ensures Consistent(p, r) && r.factor.Some?
    ensures r.v0 == r.v1 && r.a0 == r.a1
  {
    AdvancedAsWritten(p, Prepared(p, s, dt), dt)
  }

  /** One step of `update(dt)`, with the Newmark velocity update taken from
      the current velocity. */
  function Step(p: Params, s: State, dt: real): (r: State)
    requires Consistent(p, s) && (s.factor.Some? || !p.compare.Equal(dt, s.dt0))
    ensures Consistent(p, r) && r.factor.Some?
    ensures r.v0 == r.v1 && r.a0 == r.a1
  {
    Advanced(p, Prepared(p, s, dt), dt)
  }

  /** After a step the accelerations are the solve of the prepared
      right-hand side, and the velocities and displacements follow the
      Newmark recurrences from the clamped velocities and displacements. */
  lemma StepIsNewmark(p: Params, s: State, dt: real)
    requires Consistent(p, s) && (s.factor.Some? || !p.compare.Equal(dt, s.dt0))
    ensures var q, r := Prepared(p, s, dt), Step(p, s, dt);
      && r.a0 == r.a1 == p.solve(q.factor.value, q.rhs)
      && q.a0 == s.a0
      && forall i :: 0 <= i < |r.u| ==>
           && r.v0[i] == q.v0[i] + (1.0 - p.options.gamma) * dt * s.a0[i] + p.options.gamma * dt * r.a0[i]
           && r.u[i] == q.u[i] + dt * q.v0[i] + dt * dt * (0.5 - p.options.beta) * s.a0[i] + dt * dt * p.options.beta * r.a0[i]
  {
    var q := Prepared(p, s, dt);
    var a1 := p.solve(q.factor.value, q.rhs);
    var v1 := VelocityUpdate(p.options.gamma, q.v0, q.a0, a1, dt);
    var u := DisplacementUpdate(p.options.beta, q.u, q.v0, q.a0, a1, dt);
    assert Step(p, s, dt).u == u && Step(p, s, dt).v0 == v1;
  }

  /** The step as written: the accelerations are the solve of the prepared
      right-hand side, the displacements follow the same Newmark recurrence
      as `Step`, but the new velocity is the Newmark increment added to the
      next-velocity buffer `velocities_1`, not to the clamped velocity. */
  lemma StepAsWrittenIsNewmark(p: Params, s: State, dt: real)
    requires Consistent(p, s) && (s.factor.Some? || !p.compare.Equal(dt, s.dt0))
    ensures var q, r := Prepared(p, s, dt), StepAsWritten(p, s, dt);
      && r.a0 == r.a1 == p.solve(q.factor.value, q.rhs)
      && q.a0 == s.a0 && q.v1 == s.v1
      && r.t0 == s.t0 + dt && r.dt0 == dt
      && forall i :: 0 <= i < |r.u| ==>
           && r.v0[i] == s.v1[i] + (1.0 - p.options.gamma) * dt * s.a0[i] + p.options.gamma * dt * r.a0[i]
           && r.u[i] == q.u[i] + dt * q.v0[i] + dt * dt * (0.5 - p.options.beta) * s.a0[i] + dt * dt * p.options.beta * r.a0[i]
  {
    var q := Prepared(p, s, dt);
    var a1 := p.solve(q.factor.value, q.rhs);
    var v1 := VelocityUpdate(p.options.gamma, q.v1, q.a0, a1, dt);
    var u := DisplacementUpdate(p.options.beta, q.u, q.v0, q.a0, a1, dt);
    assert StepAsWritten(p, s, dt).u == u && StepAsWritten(p, s, dt).v0 == v1;
  }

  /** A velocity condition that is the last one on its dof sets the clamped
      velocity there to its value at t0 + dt. `Step` starts the new velocity
      from that value; the step as written starts it from the next-velocity
      buffer, so the prescribed value never reaches the reported velocity. */
  lemma AsWrittenIgnoresVelocityCondition(p: Params, s: State, dt: real, k: int)
    requires Consistent(p, s) && (s.factor.Some? || !p.compare.Equal(dt, s.dt0))
    requires 0 <= k < |p.bcs| && p.bcs[k].kind == Velocity
    requires forall k2 :: k < k2 < |p.bcs| ==> p.bcs[k2].GlobalIndex() != p.bcs[k].GlobalIndex()
    ensures var g, q := p.bcs[k].GlobalIndex(), Prepared(p, s, dt);
      var r, w := Step(p, s, dt), StepAsWritten(p, s, dt);
      && q.v0[g] == p.bcs[k].GetValue(s.t0 + dt)
      && r.v0[g] == p.bcs[k].GetValue(s.t0 + dt)
                    + (1.0 - p.options.gamma) * dt * s.a0[g] + p.options.gamma * dt * r.a0[g]
      && w.v0[g] == s.v1[g] + (1.0 - p.options.gamma) * dt * s.a0[g] + p.options.gamma * dt * w.a0[g]
  {
    var x := Solution(p, s, dt);
    var rhs := RightHandSide(p, x.forces, s.u, s.v0, s.a0, dt);
    ClampLastWins(p.bcs, s.t0 + dt, Clamped(s.u, s.v0, rhs), k);
    StepIsNewmark(p, s, dt);
    StepAsWrittenIsNewmark(p, s, dt);
  }

  /** A step advances the time by dt and records dt as the previous step. */
  lemma StepAdvancesTime(p: Params, s: State, dt: real)
    requires Consistent(p, s) && (s.factor.Some? || !p.compare.Equal(dt, s.dt0))
    ensures Step(p, s, dt).t0 == s.t0 + dt && Step(p, s, dt).dt0 == dt
  {
  }

  /** The LHS is rebuilt and refactorised exactly when dt is not
      tolerance-equal to the previous dt; otherwise both are kept. */
  lemma StepRebuildsIffDtChanges(p: Params, s: State, dt: real)
    requires Consistent(p, s) && (s.factor.Some? || !p.compare.Equal(dt, s.dt0))
    ensures !p.compare.Equal(dt, s.dt0) ==>
      Step(p, s, dt).lhs == Lhs(p.stiffness, p.mass, p.damping, p.options.gamma, p.options.beta, dt)
      && Step(p, s, dt).factor == Some(Step(p, s, dt).lhs)
    ensures p.compare.Equal(dt, s.dt0) ==>
      Step(p, s, dt).lhs == s.lhs && Step(p, s, dt).factor == s.factor
  {
  }

  /** Repeating the same dt never rebuilds: the second step keeps the LHS
      and the factorisation of the first. */
  lemma RepeatedDtKeepsLhs(p: Params, s: State, dt: real)
    requires Consistent(p, s) && (s.factor.Some? || !p.compare.Equal(dt, s.dt0))
    requires p.compare.epsilon >= 0.0
    ensures var r := Step(p, s, dt); Step(p, r, dt).lhs == r.lhs && Step(p, r, dt).factor == r.factor
  {
    EqualReflexive(p.compare, dt);
  }

  /** From the initial state (previous dt 0), a non-zero dt always builds and
      factorises the LHS for that dt. */
  lemma FirstStepBuildsLhs(p: Params, s: State, dt: real)
    requires Consistent(p, s) && s.dt0 == 0.0 && dt != 0.0
    requires 0.0 <= p.compare.epsilon < 1.0
    ensures !p.compare.Equal(dt, s.dt0)
    ensures Step(p, s, dt).lhs == Lhs(p.stiffness, p.mass, p.damping, p.options.gamma, p.options.beta, dt)
    ensures Step(p, s, dt).factor == Some(Step(p, s, dt).lhs)
  {
    EqualZeroIffZero(p.compare, dt);
    EqualSymmetric(p.compare, dt, 0.0);
  }

  /** With both accelerations zero the Newmark velocity increment vanishes. */
  lemma VelocityUpdateAtRest(gamma: real, base: Vector, dt: real)
    ensures VelocityUpdate(gamma, base, Zero(|base|), Zero(|base|), dt) == base
  {
    var n := |base|;
    var r := VelocityUpdate(gamma, base, Zero(n), Zero(n), dt);
    forall i | 0 <= i < n
      ensures r[i] == base[i]
    {
      assert Zero(n)[i] == 0.0;
    }
  }

  /** With both accelerations zero the Newmark displacement update is the
      uniform motion u + dt v. */
  lemma DisplacementUpdateUniform(beta: real, u: Vector, v: Vector, dt: real)
    requires |u| == |v|
    ensures DisplacementUpdate(beta, u, v, Zero(|u|), Zero(|u|), dt) == Add(u, Scale(dt, v))
  {
    var n := |u|;
    var r := DisplacementUpdate(beta, u, v, Zero(n), Zero(n), dt);
    forall i | 0 <= i < n
      ensures r[i] == Add(u, Scale(dt, v))[i]
    {
      assert Zero(n)[i] == 0.0;
    }
  }

  /** Without conditions or external forces, the first half of a step keeps
      every vector and leaves the unclamped right-hand side. */
  lemma UnconstrainedPrepared(p: Params, s: State, dt: real)
    requires Consistent(p, s) && (s.factor.Some? || !p.compare.Equal(dt, s.dt0))
    requires p.bcs == [] && p.externalForces == []
    ensures var q := Prepared(p, s, dt);
      && q.u == s.u && q.v0 == s.v0 && q.v1 == s.v1 && q.a0 == s.a0 && q.forces == s.forces
      && q.rhs == RightHandSide(p, s.forces, s.u, s.v0, s.a0, dt)
  {
  }

  /** The right-hand side vanishes when both matrix products do and the
      force vector is zero. */
  lemma RhsVanishes(p: Params, s: State, dt: real)
    requires Consistent(p, s) && s.forces == Zero(|s.u|)
    requires MatVec(p.damping, VelocityPredictor(p.options.gamma, s.v0, s.a0, dt)) == Zero(|s.u|)
    requires MatVec(p.stiffness, DisplacementPredictor(p.options.beta, s.u, s.v0, s.a0, dt)) == Zero(|s.u|)
    ensures RightHandSide(p, s.forces, s.u, s.v0, s.a0, dt) == Zero(|s.u|)
  {
    var n := |s.u|;
    var r := RightHandSide(p, s.forces, s.u, s.v0, s.a0, dt);
    var damped := MatVec(p.damping, VelocityPredictor(p.options.gamma, s.v0, s.a0, dt));
    var elastic := MatVec(p.stiffness, DisplacementPredictor(p.options.beta, s.u, s.v0, s.a0, dt));
    forall i | 0 <= i < n ensures r[i] == 0.0 {
      assert s.forces[i] == 0.0 && damped[i] == 0.0 && elastic[i] == 0.0;
    }
    assert r == Zero(n);
  }

  /** A body at rest, unloaded and unconstrained, stays at rest when the
      solver maps a zero right-hand side to zero. */
  lemma RestIsPreserved(p: Params, s: State, dt: real)
    requires Consistent(p, s) && (s.factor.Some? || !p.compare.Equal(dt, s.dt0))
    requires p.bcs == [] && p.externalForces == []
    requires var n := |s.u|; s.u == Zero(n) && s.v0 == Zero(n) && s.a0 == Zero(n) && s.forces == Zero(n)
    requires forall l: Sparse :: p.solve(l, Zero(|s.u|)) == Zero(|s.u|)
    ensures var n := |s.u|; var r := Step(p, s, dt); r.u == Zero(n) && r.v0 == Zero(n) && r.a0 == Zero(n)
  {
    var n := |s.u|;
    assert VelocityPredictor(p.options.gamma, s.v0, s.a0, dt) == Zero(n);
    assert DisplacementPredictor(p.options.beta, s.u, s.v0, s.a0, dt) == Zero(n);
    MatVecZero(p.damping);
    MatVecZero(p.stiffness);
    RhsVanishes(p, s, dt);
    UnconstrainedPrepared(p, s, dt);
    var q := Prepared(p, s, dt);
    assert p.solve(q.factor.value, q.rhs) == Zero(n);
    VelocityUpdateAtRest(p.options.gamma, s.v0, dt);
    DisplacementUpdateUniform(p.options.beta, s.u, s.v0, dt);
    assert Add(s.u, Scale(dt, s.v0)) == Zero(n);
  }

  /** Free motion: no stiffness, no damping, no load, no constraint, no
      acceleration, and a solver that maps a zero right-hand side to zero. */
  ghost predicate FreeMotion(p: Params, s: State)
  {
    && p.bcs == [] && p.externalForces == []
    && (forall i, j :: p.stiffness.At(i, j) == 0.0 && p.damping.At(i, j) == 0.0)
    && s.a0 == Zero(|s.u|) && s.forces == Zero(|s.u|)
    && (forall l: Sparse :: p.solve(l, Zero(|s.u|)) == Zero(|s.u|))
  }

  /** Under free motion the solve in the second half of a step yields zero
      accelerations. */
  lemma FreeMotionSolvesToZero(p: Params, s: State, dt: real)
    requires Consistent(p, s) && (s.factor.Some? || !p.compare.Equal(dt, s.dt0))
    requires FreeMotion(p, s)
    ensures var q := Prepared(p, s, dt); p.solve(q.factor.value, q.rhs) == Zero(|s.u|)
  {
    MatVecOfZeroMatrix(p.damping, VelocityPredictor(p.options.gamma, s.v0, s.a0, dt));
    MatVecOfZeroMatrix(p.stiffness, DisplacementPredictor(p.options.beta, s.u, s.v0, s.a0, dt));
    RhsVanishes(p, s, dt);
    UnconstrainedPrepared(p, s, dt);
  }

  /** Under free motion from zero acceleration a step keeps the
      velocity and moves the body by dt times it. */
  lemma StepKeepsUniformMotion(p: Params, s: State, dt: real)
    requires Consistent(p, s) && (s.factor.Some? || !p.compare.Equal(dt, s.dt0))
    requires FreeMotion(p, s)
    ensures Step(p, s, dt).v0 == s.v0
    ensures Step(p, s, dt).u == Add(s.u, Scale(dt, s.v0))
  {
    FreeMotionSolvesToZero(p, s, dt);
    UnconstrainedPrepared(p, s, dt);
    VelocityUpdateAtRest(p.options.gamma, s.v0, dt);
    DisplacementUpdateUniform(p.options.beta, s.u, s.v0, dt);
  }

  /** Under the same free motion the step as written moves the body by dt
      times its velocity, but then takes the next-velocity buffer as the new
      velocity. */
  lemma AsWrittenVelocityIsBuffer(p: Params, s: State, dt: real)
    requires Consistent(p, s) && (s.factor.Some? || !p.compare.Equal(dt, s.dt0))
    requires FreeMotion(p, s)
    ensures StepAsWritten(p, s, dt).v0 == s.v1
    ensures StepAsWritten(p, s, dt).u == Add(s.u, Scale(dt, s.v0))
  {
    FreeMotionSolvesToZero(p, s, dt);
    UnconstrainedPrepared(p, s, dt);
    VelocityUpdateAtRest(p.options.gamma, s.v1, dt);
    DisplacementUpdateUniform(p.options.beta, s.u, s.v0, dt);
  }

  /** The free body of the counterexample below: six dofs, unit masses, no
      stiffness or damping, no conditions or loads, a solver that returns
      zeros (the exact solution for the zero right-hand side such a body
      has), velocity 1 in the first dof, and the zero next-velocity buffer
      of a fresh system. */
  ghost predicate FreeBody(p: Params, s: State)
  {
    && p == Params(EmptySparse(6, 6), Sparse(6, 6, Ones({0, 1, 2, 3, 4, 5})), EmptySparse(6, 6), [], [],
                   DefaultOptions, DefaultCompare(), (l: Sparse, r: Vector) => Zero(|r|))
    && s == State(Zero(6), [1.0, 0.0, 0.0, 0.0, 0.0, 0.0], Zero(6), Zero(6), Zero(6), Zero(6), Zero(6),
                  0.0, 0.0, EmptySparse(6, 6), None)
  }

  lemma FreeBodyMoves(p: Params, s: State)
    requires FreeBody(p, s)
    ensures Consistent(p, s) && !p.compare.Equal(1.0, s.dt0) && FreeMotion(p, s)
    ensures s.v0[0] == 1.0 && s.v1[0] == 0.0
  {
    assert PreservesLength(p.solve);
    EqualZeroIffZero(p.compare, 1.0);
    EqualSymmetric(p.compare, 1.0, 0.0);
  }

  /** The step as written breaks free motion: the free body comes to rest
      after one step, while `Step` keeps its velocity. */
  lemma AsWrittenDropsInitialVelocity(p: Params, s: State)
    requires FreeBody(p, s)
    ensures Consistent(p, s) && !p.compare.Equal(1.0, s.dt0) && s.v0[0] == 1.0
    ensures StepAsWritten(p, s, 1.0).v0[0] == 0.0 && Step(p, s, 1.0).v0[0] == 1.0
  {
    FreeBodyMoves(p, s);
    AsWrittenVelocityIsBuffer(p, s, 1.0);
    StepKeepsUniformMotion(p, s, 1.0);
  }

  /** Why `ExplicitSystem` construction fails. */
  datatype CreateError = VelocitySizeMismatch | MatrixSizeMismatch

  datatype Result<T> = Success(value: T) | Failure(error: CreateError)

  class ExplicitSystem {
    const mesh: Mesh
    const externalForces: ForceList
    const options: Options
    const compare: ValueCompare
    const solve: Solver

    var displacements: Vector
    var velocities0: Vector
    var velocities1: Vector
    var accelerations0: Vector
    var accelerations1: Vector
    var forces: Vector
    var rhs: Vector
    var t0: real
    var dt0: real
    var damping: Sparse
    var lhs: Sparse
    var factor: Option<Sparse>

    function Parameters(): Params
      reads this, mesh
    {
      Params(mesh.stiffness, mesh.mass, damping, mesh.bcs, externalForces, options, compare, solve)
    }

    function Current(): State
      reads this
    {
      State(displacements, velocities0, velocities1, accelerations0, accelerations1,
            forces, rhs, t0, dt0, lhs, factor)
    }

    ghost predicate Valid()
      reads this, mesh
    {
      && mesh.Valid()
      && Consistent(Parameters(), Current())
      && compare == DefaultCompare()
    }

    /** The damping matrix is the Rayleigh combination of the mesh's mass and
        stiffness matrices; kept apart from `Valid` since every step leaves
        `damping` as it is. */
    ghost predicate DampingAssembled()
      reads this, mesh
    {
      mesh.Valid() && damping == Damping(mesh.stiffness, mesh.mass, options.dampingAlpha, options.dampingBeta)
    }

    /** The constructor, once its size checks have passed: zero buffers,
        dt_0 = 0, an empty n x n LHS, the damping matrix, and the boundary
        conditions applied at t_0. */
    constructor (mesh: Mesh, externalForces: ForceList, u0: Vector, v0: Vector, t0: real,
                 options: Options, solve: Solver)
      requires mesh.Valid() && |u0| == |v0| == mesh.stiffness.cols
      requires ForcesInRange(externalForces, |u0|) && PreservesLength(solve)
      ensures Valid() && DampingAssembled()
      ensures this.mesh == mesh && this.externalForces == externalForces
      ensures this.options == options && this.solve == solve
      ensures var n := |u0|; var c := Clamp(mesh.bcs, t0, Clamped(u0, v0, Zero(n)));
        && displacements == c.u && velocities0 == c.v && rhs == c.rhs
        && velocities1 == Zero(n) && accelerations0 == Zero(n) && accelerations1 == Zero(n) && forces == Zero(n)
        && this.t0 == t0 && dt0 == 0.0 && lhs == EmptySparse(n, n) && factor == None
    {
      var n := |u0|;
      this.mesh := mesh;
      this.externalForces := externalForces;
      this.options := options;
      this.compare := DefaultCompare();
      this.solve := solve;
      displacements := u0;
      velocities0 := v0;
      velocities1 := Zero(n);
      accelerations0 := Zero(n);
      accelerations1 := Zero(n);
      forces := Zero(n);
      rhs := Zero(n);
      this.t0 := t0;
      dt0 := 0.0;
      lhs := EmptySparse(n, n);
      factor := None;
      damping := EmptySparse(n, n);
      new;
      AssembleDampingMatrix();
      ApplyBcs(t0);
    }

    /** Construction with the source's two size checks: the velocities must
        be as long as the displacements, and the displacements as long as
        the stiffness matrix has columns. */
    static method Create(mesh: Mesh, externalForces: ForceList, u0: Vector, v0: Vector, t0: real,
                         options: Options, solve: Solver) returns (r: Result<ExplicitSystem>)
      requires mesh.Valid() && ForcesInRange(externalForces, mesh.stiffness.cols) && PreservesLength(solve)
      ensures |u0| != |v0| ==> r == Failure(VelocitySizeMismatch)
      ensures |u0| == |v0| && |u0| != mesh.stiffness.cols ==> r == Failure(MatrixSizeMismatch)
      ensures r.Success? <==> |u0| == |v0| == mesh.stiffness.cols
      ensures r.Success? ==> fresh(r.value) && r.value.Valid() && r.value.DampingAssembled() && r.value.mesh == mesh && r.value.dt0 == 0.0
    {
      if |u0| != |v0| {
        return Failure(VelocitySizeMismatch);
      }
      if |u0| != mesh.stiffness.cols {
        return Failure(MatrixSizeMismatch);
      }
      var system := new ExplicitSystem(mesh, externalForces, u0, v0, t0, options, solve);
      return Success(system);
    }

    /** `update(dt)`: one explicit step, as `Step`. The solver must have been
        factorised, or be about to be. */
    method Update(dt: real)
      requires Valid() && (factor.Some? || !compare.Equal(dt, dt0))
      modifies this
      ensures damping == old(damping)
      ensures Current() == Step(Parameters(), old(Current()), dt)
      ensures Valid()
    {
      Prepare(dt);
      Advance(dt);
    }

    /** The first half of `update(dt)`: the LHS when dt changed, the forces
        at t0 + dt, the right-hand side, and the conditions at t0 + dt. */
    method Prepare(dt: real)
      requires Valid() && (factor.Some? || !compare.Equal(dt, dt0))
      modifies this
      ensures damping == old(damping)
      ensures Current() == Prepared(Parameters(), old(Current()), dt)
      ensures Valid()
    {
      var t1 := t0 + dt;
      if !compare.Equal(dt, dt0) {
        AssembleLhs(dt);
      }
      ApplyExternalForces(t1);
      rhs := RightHandSide(Parameters(), forces, displacements, velocities0, accelerations0, dt);
      ApplyBcs(t1);
    }

    /** The second half of `update(dt)`, as `Advanced`: the solve, the velocity and
        displacement updates, and the roll-forward of every field. */
    method Advance(dt: real)
      requires Valid() && factor.Some?
      modifies this
      ensures damping == old(damping)
      ensures Current() == Advanced(Parameters(), old(Current()), dt)
      ensures Valid()
    {
      var a1 := solve(factor.value, rhs);
      var v1 := VelocityUpdate(options.gamma, velocities0, accelerations0, a1, dt);
      var u := DisplacementUpdate(options.beta, displacements, velocities0, accelerations0, a1, dt);
      displacements, velocities0, velocities1, accelerations0, accelerations1 := u, v1, v1, a1, a1;
      t0, dt0 := t0 + dt, dt;
    }

    /** `getForces`: K u + M a0, changing nothing. */
    function GetForces(): (f: Vector)
      reads this, mesh
      requires Valid()
      ensures |f| == |displacements|
      ensures forall i :: 0 <= i < |f| ==>
        f[i] == RowDot(mesh.stiffness, i, displacements, |f|) + RowDot(mesh.mass, i, accelerations0, |f|)
    {
      Add(MatVec(mesh.stiffness, displacements), MatVec(mesh.mass, accelerations0))
    }

    /** `assemble_damping_matrix`. */
    method AssembleDampingMatrix()
      requires mesh.Valid()
      modifies this
      ensures damping == Damping(mesh.stiffness, mesh.mass, options.dampingAlpha, options.dampingBeta)
      ensures Current() == old(Current())
    {
      damping := Damping(mesh.stiffness, mesh.mass, options.dampingAlpha, options.dampingBeta);
    }

    /** `assemble_LHS(dt)`: builds the LHS and factorises it. */
    method AssembleLhs(dt: real)
      requires mesh.Valid() && SquareOf(damping, mesh.stiffness.cols)
      modifies this
      ensures damping == old(damping)
      ensures var l := Lhs(mesh.stiffness, mesh.mass, damping, options.gamma, options.beta, dt);
        Current() == old(Current()).(lhs := l, factor := Some(l))
    {
      lhs := Lhs(mesh.stiffness, mesh.mass, damping, options.gamma, options.beta, dt);
      factor := Some(lhs);
    }

    /** `apply_bcs(time)`: writes each condition's dof in turn. */
    method ApplyBcs(time: real)
      requires mesh.Valid() && |displacements| == |velocities0| == |rhs| == mesh.stiffness.cols
      modifies this
      ensures var c := Clamp(mesh.bcs, time, Clamped(old(displacements), old(velocities0), old(rhs)));
        Current() == old(Current()).(u := c.u, v0 := c.v, rhs := c.rhs)
      ensures damping == old(damping)
    {
      var bcs := mesh.bcs;
      ghost var start := Clamped(displacements, velocities0, rhs);
      var u, v, r := displacements, velocities0, rhs;
      var i := 0;
      while i < |bcs|
        invariant 0 <= i <= |bcs|
        invariant BcsInRange(bcs[..i], |start.u|)
        invariant Clamped(u, v, r) == Clamp(bcs[..i], time, start)
      {
        assert bcs[..i + 1][..i] == bcs[..i];
        var bc := bcs[i];
        var g := bc.GlobalIndex();
        r := r[g := 0.0];
        if bc.kind == Displacement {
          u := u[g := bc.GetValue(time)];
          v := v[g := 0.0];
        } else if bc.kind == Velocity {
          v := v[g := bc.GetValue(time)];
        }
        i := i + 1;
      }
      assert bcs[..|bcs|] == bcs;
      displacements, velocities0, rhs := u, v, r;
    }

    /** `apply_external_forces(time)`: writes each force's dof in turn. */
    method ApplyExternalForces(time: real)
      requires ForcesInRange(externalForces, |forces|)
      modifies this
      ensures Current() == old(Current()).(forces := Load(externalForces, time, old(forces)))
      ensures damping == old(damping)
    {
      ghost var start := forces;
      var x := forces;
      var i := 0;
      while i < |externalForces|
        invariant 0 <= i <= |externalForces|
        invariant ForcesInRange(externalForces[..i], |start|)
        invariant x == Load(externalForces[..i], time, start)
      {
        assert externalForces[..i + 1][..i] == externalForces[..i];
        var f := externalForces[i];
        x := x[f.GlobalIndex() := f.GetValue(time)];
        i := i + 1;
      }
      assert externalForces[..|externalForces|] == externalForces;
      forces := x;
    }
  }

  /** A system at rest (zero displacements and accelerations) reports zero
      nodal forces. */
  lemma ForcesAtRest(sys: ExplicitSystem)
    requires sys.Valid()
    requires sys.displacements == Zero(|sys.displacements|) && sys.accelerations0 == Zero(|sys.displacements|)
    ensures sys.GetForces() == Zero(|sys.displacements|)
  {
    MatVecZero(sys.mesh.stiffness);
    MatVecZero(sys.mesh.mass);
  }

  /** A freshly built system has a zero right-hand side: the conditions only
      write zeros into it. */
  lemma FreshRhsIsZero(bcs: BCList, t0: real, u0: Vector, v0: Vector)
    requires BcsInRange(bcs, |u0|) && |u0| == |v0|
    ensures Clamp(bcs, t0, Clamped(u0, v0, Zero(|u0|))).rhs == Zero(|u0|)
  {
    ClampKeepsZeroRhs(bcs, t0, u0, v0);
  }
}

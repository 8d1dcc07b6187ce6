/**
 * The part of a CP-SAT model that the flexible job-shop builder uses
 * (src/get_makespan.py), as symbolic data: declared integer and Boolean
 * variables, optional intervals, linear constraints guarded by enforcement
 * literals, exactly-one, no-overlap, max-equality and the objective.
 *
 * Variables are identified by the role the builder gives them (the names
 * it passes to the solver), so `Start(TaskKey(0, 1))` is the start of the
 * second operation of the first job. An `Assignment` gives every variable
 * a value, as a solver's answer does; `Satisfies` says when it meets every
 * declared bound and every constraint. The solver itself is not modelled.
 */
module CpSat {
  import opened Wrappers

  /** An operation of the instance: the position of its job, and its position within that job. */
  datatype TaskKey = TaskKey(job: nat, op: nat)

  /** The integer variables the builder declares. */
  datatype IntVar = Start(task: TaskKey) | End(task: TaskKey) | MakespanVar

  /**
   * The Boolean variables the builder declares: the presence literal of the
   * k-th candidate machine or equipment of a task, and the `before_op`
   * choice for the d-th downtime point of its k-th candidate machine.
   */
  datatype BoolVar =
    | MachinePresent(task: TaskKey, k: nat)
    | EquipmentPresent(task: TaskKey, k: nat)
    | BeforeOp(task: TaskKey, k: nat, d: nat)

  /** A Boolean variable or its negation (`v.Not()`). */
  datatype Literal = Pos(v: BoolVar) | Neg(v: BoolVar)

  /** An optional interval of fixed size, present when `presence` is true. */
  datatype Interval = Interval(start: IntVar, size: int, end: IntVar, presence: BoolVar)

  /** The three linear relations the builder states. */
  datatype Linear =
    | ConstBelow(p: int, v: IntVar)      // p < v
    | ConstAtLeast(p: int, v: IntVar)    // p >= v
    | AtLeast(a: IntVar, b: IntVar)      // a >= b

  datatype Constraint =
    | IntervalOf(interval: Interval)                  // an interval variable: enforced start + size == end
    | Enforced(literals: seq<Literal>, linear: Linear)   // `Add(linear).OnlyEnforceIf(literals)`
    | ExactlyOne(vars: seq<BoolVar>)
    | NoOverlap(intervals: seq<Interval>)
    | MaxEquality(target: IntVar, exprs: seq<IntVar>)

  /** An integer variable together with its domain [lo, hi]. */
  datatype IntVarDecl = IntVarDecl(v: IntVar, lo: int, hi: int)

  /** What a stretch of builder code adds to the model, in order. */
  datatype Delta = Delta(intVars: seq<IntVarDecl>, boolVars: seq<BoolVar>, constraints: seq<Constraint>)

  /** The whole model: everything declared so far and the variable to minimise, if any. */
  datatype Model = Model(intVars: seq<IntVarDecl>, boolVars: seq<BoolVar>, constraints: seq<Constraint>, objective: Option<IntVar>)

  const NoDelta := Delta([], [], [])
  const EmptyModel := Model([], [], [], None)

  /** Adds only constraints. */
  function Constraints(cs: seq<Constraint>): Delta
  {
    Delta([], [], cs)
  }

  /** `a` followed by `b`. */
  function Join(a: Delta, b: Delta): Delta
  {
    Delta(a.intVars + b.intVars, a.boolVars + b.boolVars, a.constraints + b.constraints)
  }

  /** The model after the additions `d`. */
  function Extend(m: Model, d: Delta): Model
  {
    Model(m.intVars + d.intVars, m.boolVars + d.boolVars, m.constraints + d.constraints, m.objective)
  }

  /** Adding `a` and then `b` is adding their join. */
  lemma ExtendJoin(m: Model, a: Delta, b: Delta)
    ensures Extend(Extend(m, a), b) == Extend(m, Join(a, b))
  {
    assert (m.intVars + a.intVars) + b.intVars == m.intVars + (a.intVars + b.intVars);
    assert (m.boolVars + a.boolVars) + b.boolVars == m.boolVars + (a.boolVars + b.boolVars);
    assert (m.constraints + a.constraints) + b.constraints == m.constraints + (a.constraints + b.constraints);
  }

  /** Adding the constraints a and then b is adding a + b. */
  lemma ExtendConstraints(m: Model, a: seq<Constraint>, b: seq<Constraint>)
    ensures Extend(Extend(m, Constraints(a)), Constraints(b)) == Extend(m, Constraints(a + b))
  {
    ExtendJoin(m, Constraints(a), Constraints(b));
    assert Join(Constraints(a), Constraints(b)) == Constraints(a + b);
  }

  /** Adding no constraint leaves the model as it is. */
  lemma ExtendNothing(m: Model)
    ensures Extend(m, Constraints([])) == m
  {
    assert m.intVars + [] == m.intVars;
    assert m.boolVars + [] == m.boolVars;
    assert m.constraints + [] == m.constraints;
  }

  /** A value for every variable, as read back with `solver.Value`. */
  datatype Assignment = Assignment(value: IntVar -> int, truth: BoolVar -> bool)

  /** The status `solver.Solve` reports. */
  datatype Status = Optimal | Feasible | Infeasible | ModelInvalid | Unknown

  predicate LiteralHolds(l: Literal, a: Assignment)
  {
    match l
    case Pos(v) => a.truth(v)
    case Neg(v) => !a.truth(v)
  }

  predicate LinearHolds(c: Linear, a: Assignment)
  {
    match c
    case ConstBelow(p, v) => p < a.value(v)
    case ConstAtLeast(p, v) => p >= a.value(v)
    case AtLeast(x, y) => a.value(x) >= a.value(y)
  }

  predicate Present(iv: Interval, a: Assignment)
  {
    a.truth(iv.presence)
  }

  /** One interval ends before the other starts. */
  predicate Disjoint(x: Interval, y: Interval, a: Assignment)
  {
    a.value(x.end) <= a.value(y.start) || a.value(y.end) <= a.value(x.start)
  }

  /** True of exactly one position of `vs`. */
  predicate ExactlyOneTrue(vs: seq<BoolVar>, a: Assignment)
  {
    exists i :: 0 <= i < |vs| && a.truth(vs[i]) && forall k :: 0 <= k < |vs| && k != i ==> !a.truth(vs[k])
  }

  /** `target` equals the largest of `exprs`; a maximum over no expression cannot be met. */
  predicate IsMaxOf(target: IntVar, exprs: seq<IntVar>, a: Assignment)
  {
    && (forall k :: 0 <= k < |exprs| ==> a.value(exprs[k]) <= a.value(target))
    && (exists k :: 0 <= k < |exprs| && a.value(exprs[k]) == a.value(target))
  }

  predicate Holds(c: Constraint, a: Assignment)
  {
    match c
    case IntervalOf(iv) => Present(iv, a) ==> a.value(iv.start) + iv.size == a.value(iv.end)
    case Enforced(lits, lin) => (forall l :: l in lits ==> LiteralHolds(l, a)) ==> LinearHolds(lin, a)
    case ExactlyOne(vs) => ExactlyOneTrue(vs, a)
    case NoOverlap(ivs) =>
      forall i, j :: 0 <= i < |ivs| && 0 <= j < |ivs| && i != j && Present(ivs[i], a) && Present(ivs[j], a) ==>
        Disjoint(ivs[i], ivs[j], a)
    case MaxEquality(target, exprs) => IsMaxOf(target, exprs, a)
  }

  /** The assignment keeps every variable in its domain and meets every constraint. */
  predicate Satisfies(m: Model, a: Assignment)
  {
    && (forall d :: d in m.intVars ==> d.lo <= a.value(d.v) <= d.hi)
    && (forall c :: c in m.constraints ==> Holds(c, a))
  }

  /** Two different present intervals of one no-overlap constraint do not overlap. */
  lemma NoOverlapMembers(ivs: seq<Interval>, x: Interval, y: Interval, a: Assignment)
    requires Holds(NoOverlap(ivs), a)
    requires x in ivs && y in ivs && x != y && Present(x, a) && Present(y, a)
    ensures Disjoint(x, y, a)
  {
    var i :| 0 <= i < |ivs| && ivs[i] == x;
    var j :| 0 <= j < |ivs| && ivs[j] == y;
    assert i != j;
  }

  /** The model under construction: `cp_model.CpModel()` and the calls the builder makes on it. */
  class CpModel {
    var intVars: seq<IntVarDecl>
    var boolVars: seq<BoolVar>
    var constraints: seq<Constraint>
    var objective: Option<IntVar>

    function Snapshot(): Model
      reads this
    {
      Model(intVars, boolVars, constraints, objective)
    }

    constructor()
      ensures Snapshot() == EmptyModel
    {
      intVars, boolVars, constraints, objective := [], [], [], None;
    }

    /** `NewIntVar(lo, hi, name)`: declares `v` with domain [lo, hi]. */
    method NewIntVar(lo: int, hi: int, v: IntVar) returns (r: IntVar)
      modifies this
      ensures r == v
      ensures Snapshot() == Extend(old(Snapshot()), Delta([IntVarDecl(v, lo, hi)], [], []))
    {
      intVars := intVars + [IntVarDecl(v, lo, hi)];
      r := v;
    }

    /** `NewBoolVar(name)`. */
    method NewBoolVar(v: BoolVar) returns (r: BoolVar)
      modifies this
      ensures r == v
      ensures Snapshot() == Extend(old(Snapshot()), Delta([], [v], []))
    {
      boolVars := boolVars + [v];
      r := v;
    }

    /** `NewOptionalIntervalVar(start, size, end, presence, name)`: an interval is itself a constraint of the model. */
    method NewOptionalIntervalVar(start: IntVar, size: int, end: IntVar, presence: BoolVar) returns (iv: Interval)
      modifies this
      ensures iv == Interval(start, size, end, presence)
      ensures Snapshot() == Extend(old(Snapshot()), Constraints([IntervalOf(iv)]))
    {
      iv := Interval(start, size, end, presence);
      constraints := constraints + [IntervalOf(iv)];
    }

    /** `Add(linear).OnlyEnforceIf(literals)`; a plain `Add` has no literal. */
    method Add(literals: seq<Literal>, linear: Linear)
      modifies this
      ensures Snapshot() == Extend(old(Snapshot()), Constraints([Enforced(literals, linear)]))
    {
      constraints := constraints + [Enforced(literals, linear)];
    }

    method AddExactlyOne(vars: seq<BoolVar>)
      modifies this
      ensures Snapshot() == Extend(old(Snapshot()), Constraints([ExactlyOne(vars)]))
    {
      constraints := constraints + [ExactlyOne(vars)];
    }

    method AddNoOverlap(intervals: seq<Interval>)
      modifies this
      ensures Snapshot() == Extend(old(Snapshot()), Constraints([NoOverlap(intervals)]))
    {
      constraints := constraints + [NoOverlap(intervals)];
    }

    method AddMaxEquality(target: IntVar, exprs: seq<IntVar>)
      modifies this
      ensures Snapshot() == Extend(old(Snapshot()), Constraints([MaxEquality(target, exprs)]))
    {
      constraints := constraints + [MaxEquality(target, exprs)];
    }

    method Minimize(v: IntVar)
      modifies this
      ensures Snapshot() == old(Snapshot()).(objective := Some(v))
    {
      objective := Some(v);
    }
  }
}

/**
 * The shape of the model `solve_fjsp_with_equipment` builds
 * (src/get_makespan.py:16-124): which resources it collects, which
 * variables it declares and with which domain, which exactly-one,
 * no-overlap and precedence constraints it adds and over what, and how
 * the decoder's scan picks the selected resource (lines 138-152).
 */
module FjspStructure {
  import opened Wrappers
  import opened CpSat
  import opened Fjsp
  import opened FjspBuilder
  import opened FjspValidity

  // ---------------------------------------------------------------------
  // Resources (lines 16-24)
  // ---------------------------------------------------------------------

  lemma {:induction false} OpsResourcesOnly(ops: seq<OpSpec>, kind: Kind, r: int)
    requires r in OpsResources(ops, kind)
    ensures exists o :: 0 <= o < |ops| && r in Candidates(ops[o], kind)
    decreases |ops|
  {
    var init := ops[..|ops| - 1];
    if r in OpsResources(init, kind) {
      OpsResourcesOnly(init, kind, r);
      var o :| 0 <= o < |init| && r in Candidates(init[o], kind);
      assert init[o] == ops[o];
    } else {
      assert r in Candidates(ops[|ops| - 1], kind);
    }
  }

  lemma {:induction false} JobsResourcesOnly(jobs: seq<JobSpec>, kind: Kind, r: int)
    requires r in JobsResources(jobs, kind)
    ensures exists j, o :: 0 <= j < |jobs| && 0 <= o < |jobs[j].ops| && r in Candidates(jobs[j].ops[o], kind)
    decreases |jobs|
  {
    var init := jobs[..|jobs| - 1];
    if r in JobsResources(init, kind) {
      JobsResourcesOnly(init, kind, r);
      var j, o :| 0 <= j < |init| && 0 <= o < |init[j].ops| && r in Candidates(init[j].ops[o], kind);
      assert init[j] == jobs[j];
    } else {
      OpsResourcesOnly(jobs[|jobs| - 1].ops, kind, r);
    }
  }

  /** `all_machines` (`all_equipment`) holds exactly the resources some operation names, in increasing order. */
  lemma AllResourcesExactly(inst: Instance, kind: Kind, r: int)
    ensures Increasing(AllResources(inst, kind))
    ensures r in AllResources(inst, kind) <==>
      exists j, o :: 0 <= j < |inst.jobs| && 0 <= o < |inst.jobs[j].ops| && r in Candidates(inst.jobs[j].ops[o], kind)
  {
    if r in AllResources(inst, kind) {
      JobsResourcesOnly(inst.jobs, kind, r);
    }
    if exists j, o :: 0 <= j < |inst.jobs| && 0 <= o < |inst.jobs[j].ops| && r in Candidates(inst.jobs[j].ops[o], kind) {
      var j, o :| 0 <= j < |inst.jobs| && 0 <= o < |inst.jobs[j].ops| && r in Candidates(inst.jobs[j].ops[o], kind);
      JobsResourcesContain(inst.jobs, j, o, kind, r);
    }
  }

  // ---------------------------------------------------------------------
  // The parts of the built model
  // ---------------------------------------------------------------------

  /** The constraints of `m` are those of the builder's blocks and no other. */
  ghost predicate MadeOf(inst: Instance, m: Model)
  {
    var h, tasks := Horizon(inst), TaskList(inst, |inst.jobs|);
    var ms, es := AllResources(inst, Machines), AllResources(inst, Equipment);
    forall c :: c in m.constraints <==>
      || c in TasksDelta(inst, h, |inst.jobs|).constraints
      || c in ChoicesUpTo(tasks, |tasks|)
      || c in NoOverlapsUpTo(tasks, Machines, ms, |ms|)
      || c in NoOverlapsUpTo(tasks, Equipment, es, |es|)
      || c in PrecedencesUpTo(inst, |inst.jobs|)
      || c == MaxEquality(MakespanVar, EndsUpTo(inst, |inst.jobs|))
  }

  lemma WithChoicesParts(inst: Instance)
    ensures WithChoices(inst).intVars == TasksDelta(inst, Horizon(inst), |inst.jobs|).intVars
    ensures WithChoices(inst).constraints ==
      TasksDelta(inst, Horizon(inst), |inst.jobs|).constraints
      + ChoicesUpTo(TaskList(inst, |inst.jobs|), |TaskList(inst, |inst.jobs|)|)
  {
    FromEmptyParts(TasksDelta(inst, Horizon(inst), |inst.jobs|),
                   ChoicesUpTo(TaskList(inst, |inst.jobs|), |TaskList(inst, |inst.jobs|)|));
  }

  /** A model built from nothing by d and then the constraints cs holds d's variables and d's constraints before cs. */
  lemma FromEmptyParts(d: Delta, cs: seq<Constraint>)
    ensures Extend(Extend(EmptyModel, d), Constraints(cs)).intVars == d.intVars
    ensures Extend(Extend(EmptyModel, d), Constraints(cs)).constraints == d.constraints + cs
  {
    assert [] + d.intVars == d.intVars;
    assert [] + d.constraints == d.constraints;
  }

  lemma WithNoOverlapsParts(inst: Instance)
    ensures var tasks, ms, es := TaskList(inst, |inst.jobs|), AllResources(inst, Machines), AllResources(inst, Equipment);
      && WithNoOverlaps(inst).intVars == WithChoices(inst).intVars
      && WithNoOverlaps(inst).constraints ==
           WithChoices(inst).constraints + NoOverlapsUpTo(tasks, Machines, ms, |ms|) + NoOverlapsUpTo(tasks, Equipment, es, |es|)
  {
  }

  lemma BuiltLastParts(inst: Instance)
    ensures Built(inst).intVars == WithNoOverlaps(inst).intVars + [IntVarDecl(MakespanVar, 0, Horizon(inst))]
    ensures Built(inst).constraints ==
      WithNoOverlaps(inst).constraints + PrecedencesUpTo(inst, |inst.jobs|)
      + [MaxEquality(MakespanVar, EndsUpTo(inst, |inst.jobs|))]
    ensures Built(inst).objective == Some(MakespanVar)
  {
    var w := WithNoOverlaps(inst);
    var ps := PrecedencesUpTo(inst, |inst.jobs|);
    assert Built(inst) == Extend(Extend(w, Constraints(ps)), MakespanDelta(inst, Horizon(inst))).(objective := Some(MakespanVar));
    assert w.intVars + [] == w.intVars;
  }

  /** The built model is made of the blocks of the builder, minimising the makespan. */
  lemma BuiltParts(inst: Instance)
    ensures MadeOf(inst, Built(inst))
    ensures Built(inst).intVars == TasksDelta(inst, Horizon(inst), |inst.jobs|).intVars + [IntVarDecl(MakespanVar, 0, Horizon(inst))]
    ensures Built(inst).objective == Some(MakespanVar)
  {
    WithChoicesParts(inst);
    WithNoOverlapsParts(inst);
    BuiltLastParts(inst);
  }

  /** The constraints added per operation: its intervals and its guarded downtime constraints, two literals each. */
  ghost predicate TaskConstraint(c: Constraint)
  {
    c.IntervalOf? || (c.Enforced? && |c.literals| == 2)
  }

  lemma {:induction false} DowntimeStepsShape(t: TaskKey, k: nat, points: seq<int>, n: nat)
    requires n <= |points|
    ensures DowntimeSteps(t, k, points, n).intVars == []
    ensures forall c :: c in DowntimeSteps(t, k, points, n).constraints ==> TaskConstraint(c)
    decreases n
  {
    if n > 0 {
      DowntimeStepsShape(t, k, points, n - 1);
    }
  }

  lemma {:induction false} CandidateStepsShape(inst: Instance, t: TaskKey, op: OpSpec, kind: Kind, n: nat)
    requires n <= |Candidates(op, kind)|
    ensures CandidateSteps(inst, t, op, kind, n).intVars == []
    ensures forall c :: c in CandidateSteps(inst, t, op, kind, n).constraints ==> TaskConstraint(c)
    decreases n
  {
    if n > 0 {
      CandidateStepsShape(inst, t, op, kind, n - 1);
      var m := Candidates(op, kind)[n - 1];
      if kind == Machines && m in inst.downtimes {
        DowntimeStepsShape(t, n - 1, inst.downtimes[m], |inst.downtimes[m]|);
      }
    }
  }

  /** A start or end variable of one of the first n operations of job j, with domain [0, h]. */
  ghost predicate JobDecl(d: IntVarDecl, h: int, j: nat, n: nat)
  {
    d.lo == 0 && d.hi == h && (d.v.Start? || d.v.End?) && d.v.task.job == j && d.v.task.op < n
  }

  lemma {:induction false} JobDeltaShape(inst: Instance, h: int, j: nat, n: nat)
    requires j < |inst.jobs| && n <= |inst.jobs[j].ops|
    ensures forall d :: d in JobDelta(inst, h, j, n).intVars ==> JobDecl(d, h, j, n)
    ensures forall c :: c in JobDelta(inst, h, j, n).constraints ==> TaskConstraint(c)
    decreases n
  {
    if n > 0 {
      JobDeltaShape(inst, h, j, n - 1);
      OpDeltaShape(inst, h, TaskKey(j, n - 1));
    }
  }

  /** One operation declares its own start and end, with domain [0, h], and adds only task constraints. */
  lemma OpDeltaShape(inst: Instance, h: int, t: TaskKey)
    requires ValidTask(inst, t)
    ensures forall d :: d in OpDelta(inst, h, t).intVars ==>
      d.lo == 0 && d.hi == h && (d.v.Start? || d.v.End?) && d.v.task == t
    ensures forall c :: c in OpDelta(inst, h, t).constraints ==> TaskConstraint(c)
  {
    var op := OpAt(inst, t);
    CandidateStepsShape(inst, t, op, Machines, |op.machines|);
    CandidateStepsShape(inst, t, op, Equipment, |op.equipment|);
  }

  lemma {:induction false} TasksDeltaShape(inst: Instance, h: int, n: nat)
    requires n <= |inst.jobs|
    ensures forall d :: d in TasksDelta(inst, h, n).intVars ==>
      d.lo == 0 && d.hi == h && (d.v.Start? || d.v.End?) && ValidTask(inst, d.v.task)
    ensures forall c :: c in TasksDelta(inst, h, n).constraints ==> TaskConstraint(c)
    decreases n
  {
    if n > 0 {
      TasksDeltaShape(inst, h, n - 1);
      JobDeltaShape(inst, h, n - 1, |inst.jobs[n - 1].ops|);
    }
  }

  // ---------------------------------------------------------------------
  // Variables and their domain (lines 26, 37-38 and 115)
  // ---------------------------------------------------------------------

  /**
   * The model declares exactly the start and end of every operation and the
   * makespan, each with domain [0, horizon], the horizon being the
   * `"timespan"` or 1000.
   */
  lemma DeclaredExactly(inst: Instance, d: IntVarDecl)
    ensures d in Built(inst).intVars <==>
      && d.lo == 0 && d.hi == Horizon(inst)
      && (d.v == MakespanVar || ((d.v.Start? || d.v.End?) && ValidTask(inst, d.v.task)))
  {
    var h := Horizon(inst);
    BuiltParts(inst);
    TasksDeltaShape(inst, h, |inst.jobs|);
    if d.lo == 0 && d.hi == h && (d.v.Start? || d.v.End?) && ValidTask(inst, d.v.task) {
      BuiltIncludes(inst);
      OpInBuilt(inst, Built(inst), d.v.task);
      assert d in OpDelta(inst, h, d.v.task).intVars;
    }
  }

  // ---------------------------------------------------------------------
  // Intervals and downtime constraints (lines 44-71)
  // ---------------------------------------------------------------------

  /** One of the two guarded constraints of the d-th downtime point p of the k-th candidate machine of task t. */
  ghost predicate DowntimeForm(c: Constraint, t: TaskKey, k: nat, p: int, d: nat)
  {
    || c == Enforced([Pos(MachinePresent(t, k)), Pos(BeforeOp(t, k, d))], ConstBelow(p, Start(t)))
    || c == Enforced([Pos(MachinePresent(t, k)), Neg(BeforeOp(t, k, d))], ConstAtLeast(p, End(t)))
  }

  /** The interval of the k-th candidate of the kind, or a guarded constraint of a downtime point of that machine. */
  ghost predicate CandidateConstraint(inst: Instance, t: TaskKey, op: OpSpec, kind: Kind, k: nat, c: Constraint)
    requires k < |Candidates(op, kind)|
  {
    || c == IntervalOf(OptionAt(t, op, kind, k).interval)
    || (kind == Machines && op.machines[k] in inst.downtimes &&
        exists d :: 0 <= d < |inst.downtimes[op.machines[k]]| &&
          DowntimeForm(c, t, k, inst.downtimes[op.machines[k]][d], d))
  }

  /** c was added for some candidate of some operation. */
  ghost predicate FromSomeCandidate(inst: Instance, c: Constraint)
  {
    exists t, kind, k :: ValidTask(inst, t) && 0 <= k < |Candidates(OpAt(inst, t), kind)| &&
      CandidateConstraint(inst, t, OpAt(inst, t), kind, k, c)
  }

  /** iv is the optional interval of some candidate machine or equipment item of some operation. */
  ghost predicate IsCandidateInterval(inst: Instance, iv: Interval)
  {
    exists t, kind, k: nat :: ValidTask(inst, t) && k < |Candidates(OpAt(inst, t), kind)| &&
      iv == OptionAt(t, OpAt(inst, t), kind, k).interval
  }

  /** c is a guarded constraint of some downtime point of some candidate machine of some operation. */
  ghost predicate IsDowntimeConstraint(inst: Instance, c: Constraint)
  {
    exists t, k: nat, d: nat ::
      && ValidTask(inst, t) && k < |OpAt(inst, t).machines|
      && OpAt(inst, t).machines[k] in inst.downtimes
      && d < |inst.downtimes[OpAt(inst, t).machines[k]]|
      && DowntimeForm(c, t, k, inst.downtimes[OpAt(inst, t).machines[k]][d], d)
  }

  lemma {:induction false} DowntimeStepsOnly(t: TaskKey, k: nat, points: seq<int>, n: nat, c: Constraint)
    requires n <= |points| && c in DowntimeSteps(t, k, points, n).constraints
    ensures exists d :: 0 <= d < n && DowntimeForm(c, t, k, points[d], d)
    decreases n
  {
    var prev, step := DowntimeSteps(t, k, points, n - 1), DowntimeStep(t, k, points[n - 1], n - 1);
    assert DowntimeSteps(t, k, points, n).constraints == prev.constraints + step.constraints;
    if c in prev.constraints {
      DowntimeStepsOnly(t, k, points, n - 1, c);
    } else {
      assert DowntimeForm(c, t, k, points[n - 1], n - 1);
    }
  }

  lemma {:induction false} CandidateStepsOnly(inst: Instance, t: TaskKey, op: OpSpec, kind: Kind, n: nat, c: Constraint)
    requires n <= |Candidates(op, kind)| && c in CandidateSteps(inst, t, op, kind, n).constraints
    ensures exists k :: 0 <= k < n && CandidateConstraint(inst, t, op, kind, k, c)
    decreases n
  {
    var prev, step := CandidateSteps(inst, t, op, kind, n - 1), CandidateStep(inst, t, op, kind, n - 1);
    assert CandidateSteps(inst, t, op, kind, n).constraints == prev.constraints + step.constraints;
    if c in prev.constraints {
      CandidateStepsOnly(inst, t, op, kind, n - 1, c);
    } else if c != IntervalOf(OptionAt(t, op, kind, n - 1).interval) {
      var m := op.machines[n - 1];
      assert kind == Machines && m in inst.downtimes;
      DowntimeStepsOnly(t, n - 1, inst.downtimes[m], |inst.downtimes[m]|, c);
      assert CandidateConstraint(inst, t, op, kind, n - 1, c);
    } else {
      assert CandidateConstraint(inst, t, op, kind, n - 1, c);
    }
  }

  /** Every constraint added for one operation is an interval or a downtime constraint of one of its candidates. */
  lemma OpDeltaOnly(inst: Instance, h: int, t: TaskKey, c: Constraint)
    requires ValidTask(inst, t) && c in OpDelta(inst, h, t).constraints
    ensures exists kind, k :: 0 <= k < |Candidates(OpAt(inst, t), kind)| && CandidateConstraint(inst, t, OpAt(inst, t), kind, k, c)
  {
    var op := OpAt(inst, t);
    var ms, es := CandidateSteps(inst, t, op, Machines, |op.machines|), CandidateSteps(inst, t, op, Equipment, |op.equipment|);
    assert OpDelta(inst, h, t).constraints == [] + ms.constraints + es.constraints;
    if c in ms.constraints {
      CandidateStepsOnly(inst, t, op, Machines, |op.machines|, c);
    } else {
      CandidateStepsOnly(inst, t, op, Equipment, |op.equipment|, c);
    }
  }

  lemma {:induction false} JobDeltaOnly(inst: Instance, h: int, j: nat, n: nat, c: Constraint)
    requires j < |inst.jobs| && n <= |inst.jobs[j].ops| && c in JobDelta(inst, h, j, n).constraints
    ensures FromSomeCandidate(inst, c)
    decreases n
  {
    var prev, step := JobDelta(inst, h, j, n - 1), OpDelta(inst, h, TaskKey(j, n - 1));
    assert JobDelta(inst, h, j, n).constraints == prev.constraints + step.constraints;
    if c in prev.constraints {
      JobDeltaOnly(inst, h, j, n - 1, c);
    } else {
      OpDeltaOnly(inst, h, TaskKey(j, n - 1), c);
    }
  }

  /** Every per-operation constraint is an interval or a downtime constraint of a candidate of some operation. */
  lemma {:induction false} TasksDeltaOnly(inst: Instance, h: int, n: nat, c: Constraint)
    requires n <= |inst.jobs| && c in TasksDelta(inst, h, n).constraints
    ensures FromSomeCandidate(inst, c)
    decreases n
  {
    var prev, step := TasksDelta(inst, h, n - 1), JobDelta(inst, h, n - 1, |inst.jobs[n - 1].ops|);
    assert TasksDelta(inst, h, n).constraints == prev.constraints + step.constraints;
    if c in prev.constraints {
      TasksDeltaOnly(inst, h, n - 1, c);
    } else {
      JobDeltaOnly(inst, h, n - 1, |inst.jobs[n - 1].ops|, c);
    }
  }

  /** An interval or guarded constraint of a model made of the builder's blocks was added for some candidate. */
  lemma TaskConstraintOfBuilt(inst: Instance, m: Model, c: Constraint)
    requires MadeOf(inst, m) && c in m.constraints && (c.IntervalOf? || (c.Enforced? && c.literals != []))
    ensures FromSomeCandidate(inst, c)
  {
    var tasks := TaskList(inst, |inst.jobs|);
    var ms, es := AllResources(inst, Machines), AllResources(inst, Equipment);
    ChoicesShape(tasks, |tasks|);
    NoOverlapsKind(tasks, Machines, ms, |ms|);
    NoOverlapsKind(tasks, Equipment, es, |es|);
    PrecedencesKind(inst, |inst.jobs|);
    assert c in TasksDelta(inst, Horizon(inst), |inst.jobs|).constraints;
    TasksDeltaOnly(inst, Horizon(inst), |inst.jobs|, c);
  }

  /**
   * The model has an optional interval exactly for each candidate machine
   * and equipment item of each operation: [start, end) of the operation's
   * duration, present with that candidate's literal.
   */
  lemma IntervalsExactly(inst: Instance, iv: Interval)
    ensures IntervalOf(iv) in Built(inst).constraints <==> IsCandidateInterval(inst, iv)
  {
    if IntervalOf(iv) in Built(inst).constraints {
      BuiltParts(inst);
      TaskConstraintOfBuilt(inst, Built(inst), IntervalOf(iv));
    }
    if IsCandidateInterval(inst, iv) {
      var t, kind, k: nat :| ValidTask(inst, t) && k < |Candidates(OpAt(inst, t), kind)| &&
        iv == OptionAt(t, OpAt(inst, t), kind, k).interval;
      BuiltIncludes(inst);
      CandidateInBuilt(inst, Built(inst), t, kind, k);
      assert IntervalOf(iv) in CandidateStep(inst, t, OpAt(inst, t), kind, k).constraints;
    }
  }

  /**
   * The only guarded constraints of the model are the downtime pairs: for
   * the d-th point p of the k-th candidate machine m of an operation,
   * p < start when m is chosen and `before_op` holds, and p >= end when m
   * is chosen and it does not.
   */
  lemma DowntimesExactly(inst: Instance, c: Constraint)
    requires c.Enforced? && c.literals != []
    ensures c in Built(inst).constraints <==> IsDowntimeConstraint(inst, c)
  {
    if c in Built(inst).constraints {
      BuiltParts(inst);
      DowntimeOfBuilt(inst, Built(inst), c);
    }
    if IsDowntimeConstraint(inst, c) {
      DowntimeInBuilt(inst, c);
    }
  }

  /** A guarded constraint of a model made of the builder's blocks is a downtime constraint. */
  lemma DowntimeOfBuilt(inst: Instance, m: Model, c: Constraint)
    requires MadeOf(inst, m) && c in m.constraints && c.Enforced? && c.literals != []
    ensures IsDowntimeConstraint(inst, c)
  {
    TaskConstraintOfBuilt(inst, m, c);
    var t, kind, k :| ValidTask(inst, t) && 0 <= k < |Candidates(OpAt(inst, t), kind)| &&
      CandidateConstraint(inst, t, OpAt(inst, t), kind, k, c);
    var op := OpAt(inst, t);
    assert kind == Machines && op.machines[k] in inst.downtimes;
    var d :| 0 <= d < |inst.downtimes[op.machines[k]]| && DowntimeForm(c, t, k, inst.downtimes[op.machines[k]][d], d);
  }

  /** Every downtime constraint is in the built model. */
  lemma DowntimeInBuilt(inst: Instance, c: Constraint)
    requires IsDowntimeConstraint(inst, c)
    ensures c in Built(inst).constraints
  {
    var t, k: nat, d: nat :|
      && ValidTask(inst, t) && k < |OpAt(inst, t).machines|
      && OpAt(inst, t).machines[k] in inst.downtimes
      && d < |inst.downtimes[OpAt(inst, t).machines[k]]|
      && DowntimeForm(c, t, k, inst.downtimes[OpAt(inst, t).machines[k]][d], d);
    DowntimePairInBuilt(inst, t, k, d, inst.downtimes[OpAt(inst, t).machines[k]][d]);
  }

  /** Both guarded constraints of the d-th downtime point of the k-th candidate machine are in the built model. */
  lemma DowntimePairInBuilt(inst: Instance, t: TaskKey, k: nat, d: nat, p: int)
    requires ValidTask(inst, t) && k < |OpAt(inst, t).machines| && OpAt(inst, t).machines[k] in inst.downtimes
    requires d < |inst.downtimes[OpAt(inst, t).machines[k]]| && p == inst.downtimes[OpAt(inst, t).machines[k]][d]
    ensures Enforced([Pos(MachinePresent(t, k)), Pos(BeforeOp(t, k, d))], ConstBelow(p, Start(t))) in Built(inst).constraints
    ensures Enforced([Pos(MachinePresent(t, k)), Neg(BeforeOp(t, k, d))], ConstAtLeast(p, End(t))) in Built(inst).constraints
  {
    var m, op := Built(inst), OpAt(inst, t);
    var points := inst.downtimes[op.machines[k]];
    assert HasTasks(inst, m) by { BuiltIncludes(inst); }
    CandidateInBuilt(inst, m, t, Machines, k);
    DowntimeStepsInclude(t, k, points, d, |points|);
    var step := DowntimeStep(t, k, points[d], d);
    assert Includes(CandidateStep(inst, t, op, Machines, k), DowntimeSteps(t, k, points, |points|));
    assert step.constraints[0] in m.constraints && step.constraints[1] in m.constraints;
  }

  // ---------------------------------------------------------------------
  // Boolean variables (lines 45, 58)
  // ---------------------------------------------------------------------

  /**
   * The Boolean variables the builder declares: a presence literal per
   * candidate machine and equipment item, and a `before_op` per downtime
   * point of a candidate machine.
   */
  ghost predicate BoolDeclared(inst: Instance, v: BoolVar)
  {
    && ValidTask(inst, v.task)
    && match v
       case MachinePresent(t, k) => k < |OpAt(inst, t).machines|
       case EquipmentPresent(t, k) => k < |OpAt(inst, t).equipment|
       case BeforeOp(t, k, d) =>
         && k < |OpAt(inst, t).machines|
         && OpAt(inst, t).machines[k] in inst.downtimes
         && d < |inst.downtimes[OpAt(inst, t).machines[k]]|
  }

  /** A member of a + b is a member of a or of b. */
  lemma InEither<T>(all: seq<T>, a: seq<T>, b: seq<T>, x: T)
    requires all == a + b && x in all
    ensures x in a || x in b
  {
    var i :| 0 <= i < |all| && all[i] == x;
    if i >= |a| {
      assert b[i - |a|] == x;
    }
  }

  lemma {:induction false} DowntimeStepsBools(t: TaskKey, k: nat, points: seq<int>, n: nat, v: BoolVar)
    requires n <= |points| && v in DowntimeSteps(t, k, points, n).boolVars
    ensures v.BeforeOp? && v.task == t && v.k == k && v.d < n
    decreases n
  {
    var prev, step := DowntimeSteps(t, k, points, n - 1), DowntimeStep(t, k, points[n - 1], n - 1);
    InEither(DowntimeSteps(t, k, points, n).boolVars, prev.boolVars, step.boolVars, v);
    if v in prev.boolVars {
      DowntimeStepsBools(t, k, points, n - 1, v);
    }
  }

  lemma {:induction false} CandidateStepsBools(inst: Instance, t: TaskKey, op: OpSpec, kind: Kind, n: nat, v: BoolVar)
    requires n <= |Candidates(op, kind)| && v in CandidateSteps(inst, t, op, kind, n).boolVars
    ensures v.task == t && v.k < n
    ensures v.MachinePresent? ==> kind == Machines
    ensures v.EquipmentPresent? ==> kind == Equipment
    ensures v.BeforeOp? ==> kind == Machines && op.machines[v.k] in inst.downtimes && v.d < |inst.downtimes[op.machines[v.k]]|
    decreases n
  {
    var prev, step := CandidateSteps(inst, t, op, kind, n - 1), CandidateStep(inst, t, op, kind, n - 1);
    InEither(CandidateSteps(inst, t, op, kind, n).boolVars, prev.boolVars, step.boolVars, v);
    if v in prev.boolVars {
      CandidateStepsBools(inst, t, op, kind, n - 1, v);
    } else if v != Presence(kind, t, n - 1) {
      var m := op.machines[n - 1];
      assert kind == Machines && m in inst.downtimes;
      DowntimeStepsBools(t, n - 1, inst.downtimes[m], |inst.downtimes[m]|, v);
    }
  }

  lemma OpDeltaBools(inst: Instance, h: int, t: TaskKey, v: BoolVar)
    requires ValidTask(inst, t) && v in OpDelta(inst, h, t).boolVars
    ensures BoolDeclared(inst, v)
  {
    var op := OpAt(inst, t);
    var ms, es := CandidateSteps(inst, t, op, Machines, |op.machines|), CandidateSteps(inst, t, op, Equipment, |op.equipment|);
    assert OpDelta(inst, h, t).boolVars == [] + ms.boolVars + es.boolVars;
    if v in ms.boolVars {
      CandidateStepsBools(inst, t, op, Machines, |op.machines|, v);
    } else {
      CandidateStepsBools(inst, t, op, Equipment, |op.equipment|, v);
    }
  }

  lemma {:induction false} JobDeltaBools(inst: Instance, h: int, j: nat, n: nat, v: BoolVar)
    requires j < |inst.jobs| && n <= |inst.jobs[j].ops| && v in JobDelta(inst, h, j, n).boolVars
    ensures BoolDeclared(inst, v)
    decreases n
  {
    var prev, step := JobDelta(inst, h, j, n - 1), OpDelta(inst, h, TaskKey(j, n - 1));
    InEither(JobDelta(inst, h, j, n).boolVars, prev.boolVars, step.boolVars, v);
    if v in prev.boolVars {
      JobDeltaBools(inst, h, j, n - 1, v);
    } else {
      OpDeltaBools(inst, h, TaskKey(j, n - 1), v);
    }
  }

  lemma {:induction false} TasksDeltaBools(inst: Instance, h: int, n: nat, v: BoolVar)
    requires n <= |inst.jobs| && v in TasksDelta(inst, h, n).boolVars
    ensures BoolDeclared(inst, v)
    decreases n
  {
    assert n != 0;
    var prev, step := TasksDelta(inst, h, n - 1), JobDelta(inst, h, n - 1, |inst.jobs[n - 1].ops|);
    InEither(TasksDelta(inst, h, n).boolVars, prev.boolVars, step.boolVars, v);
    if v in prev.boolVars {
      assert n - 1 <= |inst.jobs|;
      assert v in TasksDelta(inst, h, n - 1).boolVars;
      TasksDeltaBools(inst, h, n - 1, v);
    } else {
      assert v in step.boolVars;
      assert n - 1 < |inst.jobs|;
      assert v in JobDelta(inst, h, n - 1, |inst.jobs[n - 1].ops|).boolVars;
      JobDeltaBools(inst, h, n - 1, |inst.jobs[n - 1].ops|, v);
    }
  }

  /** Only the per-operation block declares Boolean variables. */
  lemma BuiltBools(inst: Instance)
    ensures Built(inst).boolVars == TasksDelta(inst, Horizon(inst), |inst.jobs|).boolVars
  {
    var d, tasks := TasksDelta(inst, Horizon(inst), |inst.jobs|), TaskList(inst, |inst.jobs|);
    var ms, es := AllResources(inst, Machines), AllResources(inst, Equipment);
    assert Extend(EmptyModel, d).boolVars == d.boolVars;
    ConstraintsKeepBools(Extend(EmptyModel, d), ChoicesUpTo(tasks, |tasks|));
    ConstraintsKeepBools(WithChoices(inst), NoOverlapsUpTo(tasks, Machines, ms, |ms|));
    ConstraintsKeepBools(Extend(WithChoices(inst), Constraints(NoOverlapsUpTo(tasks, Machines, ms, |ms|))),
                         NoOverlapsUpTo(tasks, Equipment, es, |es|));
    ConstraintsKeepBools(WithNoOverlaps(inst), PrecedencesUpTo(inst, |inst.jobs|));
  }

  /** Adding only constraints declares no Boolean variable. */
  lemma ConstraintsKeepBools(m: Model, cs: seq<Constraint>)
    ensures Extend(m, Constraints(cs)).boolVars == m.boolVars
  {
  }

  /** A declared Boolean variable is in the built model. */
  lemma BoolInBuilt(inst: Instance, v: BoolVar)
    requires BoolDeclared(inst, v)
    ensures v in Built(inst).boolVars
  {
    var t, op := v.task, OpAt(inst, v.task);
    BuiltIncludes(inst);
    match v
    case MachinePresent(_, k) =>
      CandidateInBuilt(inst, Built(inst), t, Machines, k);
      assert v in CandidateStep(inst, t, op, Machines, k).boolVars;
    case EquipmentPresent(_, k) =>
      CandidateInBuilt(inst, Built(inst), t, Equipment, k);
      assert v in CandidateStep(inst, t, op, Equipment, k).boolVars;
    case BeforeOp(_, k, d) =>
      var points := inst.downtimes[op.machines[k]];
      CandidateInBuilt(inst, Built(inst), t, Machines, k);
      DowntimeStepsInclude(t, k, points, d, |points|);
      assert v in DowntimeStep(t, k, points[d], d).boolVars;
  }

  /**
   * The model declares exactly one presence literal per candidate machine
   * and equipment item of each operation and one `before_op` per downtime
   * point of each candidate machine, and no other Boolean variable.
   */
  lemma BoolsExactly(inst: Instance, v: BoolVar)
    ensures v in Built(inst).boolVars <==> BoolDeclared(inst, v)
  {
    if v in Built(inst).boolVars {
      BuiltBools(inst);
      TasksDeltaBools(inst, Horizon(inst), |inst.jobs|, v);
    }
    if BoolDeclared(inst, v) {
      BoolInBuilt(inst, v);
    }
  }

  // ---------------------------------------------------------------------
  // Exactly one machine and one equipment (lines 77-85)
  // ---------------------------------------------------------------------

  lemma {:induction false} ChoicesOnly(tasks: seq<TaskVars>, n: nat, c: Constraint)
    requires n <= |tasks| && c in ChoicesUpTo(tasks, n)
    ensures exists i, kind :: 0 <= i < n && |OptionsOf(tasks[i], kind)| > 0 && c == ExactlyOne(Presences(OptionsOf(tasks[i], kind)))
    decreases n
  {
    if c in ChoicesUpTo(tasks, n - 1) {
      ChoicesOnly(tasks, n - 1, c);
    } else if |tasks[n - 1].machines| > 0 && c == ExactlyOne(Presences(tasks[n - 1].machines)) {
      assert OptionsOf(tasks[n - 1], Machines) == tasks[n - 1].machines;
    } else {
      assert OptionsOf(tasks[n - 1], Equipment) == tasks[n - 1].equipment;
    }
  }

  /** An exactly-one constraint over the candidates of one kind of a task, when it has candidates. */
  ghost predicate IsChoice(inst: Instance, c: Constraint)
  {
    exists t, kind :: ValidTask(inst, t) && |Candidates(OpAt(inst, t), kind)| > 0 &&
      c == ExactlyOne(Presences(Options(t, OpAt(inst, t), kind)))
  }

  lemma ChoiceOfTask(inst: Instance, c: Constraint)
    requires c in ChoicesUpTo(TaskList(inst, |inst.jobs|), |TaskList(inst, |inst.jobs|)|)
    ensures IsChoice(inst, c)
  {
    var tasks := TaskList(inst, |inst.jobs|);
    ChoicesOnly(tasks, |tasks|, c);
    var i, kind :| 0 <= i < |tasks| && |OptionsOf(tasks[i], kind)| > 0 && c == ExactlyOne(Presences(OptionsOf(tasks[i], kind)));
    TaskListOnly(inst, |inst.jobs|, i);
    var t :| ValidTask(inst, t) && tasks[i] == TaskOf(inst, t);
    assert OptionsOf(tasks[i], kind) == Options(t, OpAt(inst, t), kind) by {
      match kind
      case Machines =>
      case Equipment =>
    }
  }

  /** Every record of `TaskList` is the record of some operation. */
  lemma {:induction false} TaskListOnly(inst: Instance, n: nat, i: nat)
    requires n <= |inst.jobs| && i < |TaskList(inst, n)|
    ensures exists t :: ValidTask(inst, t) && TaskList(inst, n)[i] == TaskOf(inst, t)
    decreases n
  {
    var before := TaskList(inst, n - 1);
    if i < |before| {
      TaskListOnly(inst, n - 1, i);
    } else {
      assert TaskList(inst, n)[i] == TaskOf(inst, TaskKey(n - 1, i - |before|));
    }
  }

  /**
   * The model has an exactly-one constraint over the presence literals of
   * a task's machines (equipment) exactly when that list is non-empty, and
   * no other exactly-one constraint.
   */
  lemma ChoicesExactly(inst: Instance, c: Constraint)
    requires c.ExactlyOne?
    ensures c in Built(inst).constraints <==> IsChoice(inst, c)
  {
    BuiltParts(inst);
    BuiltIncludes(inst);
    ChoicesExactlyIn(inst, Built(inst), c);
  }

  lemma ChoicesExactlyIn(inst: Instance, m: Model, c: Constraint)
    requires MadeOf(inst, m) && HasChoices(inst, m) && c.ExactlyOne?
    ensures c in m.constraints <==> IsChoice(inst, c)
  {
    var h, tasks := Horizon(inst), TaskList(inst, |inst.jobs|);
    var ms, es := AllResources(inst, Machines), AllResources(inst, Equipment);
    if c in m.constraints {
      ConstraintBlock(inst, m, c);
      ChoiceOfTask(inst, c);
    }
    if IsChoice(inst, c) {
      var t, kind :| ValidTask(inst, t) && |Candidates(OpAt(inst, t), kind)| > 0 &&
        c == ExactlyOne(Presences(Options(t, OpAt(inst, t), kind)));
      ChoiceInBuilt(inst, m, t, kind);
    }
  }

  // ---------------------------------------------------------------------
  // No overlap per resource (lines 87-105)
  // ---------------------------------------------------------------------

  lemma {:induction false} NoOverlapsShape(tasks: seq<TaskVars>, kind: Kind, rs: seq<int>, n: nat)
    requires n <= |rs|
    ensures forall c :: c in NoOverlapsUpTo(tasks, kind, rs, n) ==>
      exists i :: 0 <= i < n && |IntervalsFor(tasks, kind, rs[i])| > 0 && c == NoOverlap(IntervalsFor(tasks, kind, rs[i]))
    decreases n
  {
    if n > 0 {
      NoOverlapsShape(tasks, kind, rs, n - 1);
      var ivs := IntervalsFor(tasks, kind, rs[n - 1]);
      forall c | c in NoOverlapsUpTo(tasks, kind, rs, n)
        ensures exists i :: 0 <= i < n && |IntervalsFor(tasks, kind, rs[i])| > 0 && c == NoOverlap(IntervalsFor(tasks, kind, rs[i]))
      {
        if c !in NoOverlapsUpTo(tasks, kind, rs, n - 1) {
          assert |ivs| > 0 && c == NoOverlap(ivs);
        }
      }
    }
  }

  lemma {:induction false} MatchingUpToOnly(opts: seq<ResourceOption>, r: int, iv: Interval, n: nat)
    requires n <= |opts| && iv in MatchingUpTo(opts, r, n)
    ensures exists k :: 0 <= k < n && opts[k].resource == r && opts[k].interval == iv
    decreases n
  {
    assert n > 0;
    if iv in MatchingUpTo(opts, r, n - 1) {
      MatchingUpToOnly(opts, r, iv, n - 1);
    }
  }

  lemma {:induction false} IntervalsUpToOnly(tasks: seq<TaskVars>, kind: Kind, r: int, iv: Interval, n: nat)
    requires n <= |tasks| && iv in IntervalsUpTo(tasks, kind, r, n)
    ensures exists i, k ::
      0 <= i < n && 0 <= k < |OptionsOf(tasks[i], kind)| &&
      OptionsOf(tasks[i], kind)[k].resource == r && OptionsOf(tasks[i], kind)[k].interval == iv
    decreases n
  {
    assert n > 0;
    if iv in IntervalsUpTo(tasks, kind, r, n - 1) {
      IntervalsUpToOnly(tasks, kind, r, iv, n - 1);
    } else {
      var opts := OptionsOf(tasks[n - 1], kind);
      MatchingUpToOnly(opts, r, iv, |opts|);
      var k :| 0 <= k < |opts| && opts[k].resource == r && opts[k].interval == iv;
    }
  }

  /** The interval of one candidate of one operation naming r. */
  ghost predicate IntervalNaming(inst: Instance, kind: Kind, r: int, iv: Interval)
  {
    exists t, k :: ValidTask(inst, t) && 0 <= k < |Candidates(OpAt(inst, t), kind)| &&
      Candidates(OpAt(inst, t), kind)[k] == r && iv == OptionAt(t, OpAt(inst, t), kind, k).interval
  }

  /** The list built for resource r holds exactly the intervals of the candidates naming r. */
  lemma IntervalsForExactly(inst: Instance, kind: Kind, r: int, iv: Interval)
    ensures iv in IntervalsFor(TaskList(inst, |inst.jobs|), kind, r) <==> IntervalNaming(inst, kind, r, iv)
  {
    var tasks := TaskList(inst, |inst.jobs|);
    if iv in IntervalsFor(tasks, kind, r) {
      IntervalsUpToOnly(tasks, kind, r, iv, |tasks|);
      var i, k :| 0 <= i < |tasks| && 0 <= k < |OptionsOf(tasks[i], kind)| &&
        OptionsOf(tasks[i], kind)[k].resource == r && OptionsOf(tasks[i], kind)[k].interval == iv;
      TaskListOnly(inst, |inst.jobs|, i);
      var t :| ValidTask(inst, t) && tasks[i] == TaskOf(inst, t);
      assert OptionsOf(tasks[i], kind) == Options(t, OpAt(inst, t), kind) by {
        match kind
        case Machines =>
        case Equipment =>
      }
      assert OptionsOf(tasks[i], kind)[k] == OptionAt(t, OpAt(inst, t), kind, k);
    }
    if IntervalNaming(inst, kind, r, iv) {
      var t, k :| ValidTask(inst, t) && 0 <= k < |Candidates(OpAt(inst, t), kind)| &&
        Candidates(OpAt(inst, t), kind)[k] == r && iv == OptionAt(t, OpAt(inst, t), kind, k).interval;
      OptionIntervalListed(inst, t, kind, k);
    }
  }

  /** A no-overlap constraint over the intervals naming a collected resource, when there are any. */
  ghost predicate IsNoOverlapOf(inst: Instance, c: Constraint)
  {
    exists kind, r :: r in AllResources(inst, kind) &&
      |IntervalsFor(TaskList(inst, |inst.jobs|), kind, r)| > 0 &&
      c == NoOverlap(IntervalsFor(TaskList(inst, |inst.jobs|), kind, r))
  }

  /**
   * The model has a no-overlap constraint over the intervals of each
   * collected machine (equipment item) that some candidate names, and no
   * other no-overlap constraint.
   */
  lemma NoOverlapsExactly(inst: Instance, c: Constraint)
    requires c.NoOverlap?
    ensures c in Built(inst).constraints <==> IsNoOverlapOf(inst, c)
  {
    if c in Built(inst).constraints {
      NoOverlapOfBuilt(inst, c);
    }
    if IsNoOverlapOf(inst, c) {
      var tasks := TaskList(inst, |inst.jobs|);
      var kind, r :| r in AllResources(inst, kind) && |IntervalsFor(tasks, kind, r)| > 0 && c == NoOverlap(IntervalsFor(tasks, kind, r));
      NoOverlapInModel(inst, kind, r);
    }
  }

  lemma NoOverlapOfBuilt(inst: Instance, c: Constraint)
    requires c.NoOverlap? && c in Built(inst).constraints
    ensures IsNoOverlapOf(inst, c)
  {
    BuiltParts(inst);
    ConstraintBlock(inst, Built(inst), c);
    NoOverlapOnly(inst, c);
  }

  lemma NoOverlapInModel(inst: Instance, kind: Kind, r: int)
    requires r in AllResources(inst, kind) && |IntervalsFor(TaskList(inst, |inst.jobs|), kind, r)| > 0
    ensures NoOverlap(IntervalsFor(TaskList(inst, |inst.jobs|), kind, r)) in Built(inst).constraints
  {
    BuiltIncludes(inst);
    ResourceNoOverlap(inst, Built(inst), kind, r);
  }

  lemma NoOverlapOnly(inst: Instance, c: Constraint)
    requires var tasks, ms, es := TaskList(inst, |inst.jobs|), AllResources(inst, Machines), AllResources(inst, Equipment);
      c in NoOverlapsUpTo(tasks, Machines, ms, |ms|) || c in NoOverlapsUpTo(tasks, Equipment, es, |es|)
    ensures IsNoOverlapOf(inst, c)
  {
    var tasks := TaskList(inst, |inst.jobs|);
    var ms, es := AllResources(inst, Machines), AllResources(inst, Equipment);
    NoOverlapsShape(tasks, Machines, ms, |ms|);
    NoOverlapsShape(tasks, Equipment, es, |es|);
    if c in NoOverlapsUpTo(tasks, Machines, ms, |ms|) {
      var i :| 0 <= i < |ms| && |IntervalsFor(tasks, Machines, ms[i])| > 0 && c == NoOverlap(IntervalsFor(tasks, Machines, ms[i]));
      assert ms[i] in AllResources(inst, Machines);
    } else {
      var i :| 0 <= i < |es| && |IntervalsFor(tasks, Equipment, es[i])| > 0 && c == NoOverlap(IntervalsFor(tasks, Equipment, es[i]));
      assert es[i] in AllResources(inst, Equipment);
    }
  }

  lemma {:induction false} NoOverlapsKind(tasks: seq<TaskVars>, kind: Kind, rs: seq<int>, n: nat)
    requires n <= |rs|
    ensures forall c :: c in NoOverlapsUpTo(tasks, kind, rs, n) ==> c.NoOverlap?
    decreases n
  {
    if n > 0 {
      NoOverlapsKind(tasks, kind, rs, n - 1);
    }
  }

  lemma {:induction false} PrecedencesKind(inst: Instance, n: nat)
    requires n <= |inst.jobs|
    ensures forall c :: c in PrecedencesUpTo(inst, n) ==> c.Enforced? && c.literals == []
    decreases n
  {
    if n > 0 {
      PrecedencesKind(inst, n - 1);
    }
  }

  /** The block a constraint of the model comes from, told by its form. */
  lemma ConstraintBlock(inst: Instance, m: Model, c: Constraint)
    requires MadeOf(inst, m) && c in m.constraints
    ensures var tasks := TaskList(inst, |inst.jobs|);
      var ms, es := AllResources(inst, Machines), AllResources(inst, Equipment);
      && (c.ExactlyOne? ==> c in ChoicesUpTo(tasks, |tasks|))
      && (c.NoOverlap? ==> c in NoOverlapsUpTo(tasks, Machines, ms, |ms|) || c in NoOverlapsUpTo(tasks, Equipment, es, |es|))
      && (c.Enforced? && c.literals == [] ==> c in PrecedencesUpTo(inst, |inst.jobs|))
  {
    var tasks := TaskList(inst, |inst.jobs|);
    var ms, es := AllResources(inst, Machines), AllResources(inst, Equipment);
    TasksDeltaShape(inst, Horizon(inst), |inst.jobs|);
    ChoicesShape(tasks, |tasks|);
    NoOverlapsKind(tasks, Machines, ms, |ms|);
    NoOverlapsKind(tasks, Equipment, es, |es|);
    PrecedencesKind(inst, |inst.jobs|);
  }

  lemma {:induction false} ChoicesShape(tasks: seq<TaskVars>, n: nat)
    requires n <= |tasks|
    ensures forall c :: c in ChoicesUpTo(tasks, n) ==> c.ExactlyOne?
    decreases n
  {
    if n > 0 {
      ChoicesShape(tasks, n - 1);
    }
  }

  // ---------------------------------------------------------------------
  // Precedence (lines 107-112)
  // ---------------------------------------------------------------------

  lemma {:induction false} PrecedencesShape(inst: Instance, n: nat)
    requires n <= |inst.jobs|
    ensures forall c :: c in PrecedencesUpTo(inst, n) ==>
      exists j: nat, o: nat :: j < n && o + 1 < |inst.jobs[j].ops| && c == PrecedenceAt(j, o)
    decreases n
  {
    if n > 0 {
      PrecedencesShape(inst, n - 1);
    }
  }

  /**
   * The only unguarded linear constraints of the model are the
   * precedences: one per pair of consecutive operations of a job.
   */
  lemma PrecedencesExactly(inst: Instance, lin: Linear)
    ensures Enforced([], lin) in Built(inst).constraints <==> IsPrecedence(inst, lin)
  {
    if Enforced([], lin) in Built(inst).constraints {
      BuiltParts(inst);
      PrecedenceOfBuilt(inst, Built(inst), lin);
    }
    if IsPrecedence(inst, lin) {
      PrecedenceInBuilt(inst, lin);
    }
  }

  /** An unguarded linear constraint of a model made of the builder's blocks is a precedence. */
  lemma PrecedenceOfBuilt(inst: Instance, m: Model, lin: Linear)
    requires MadeOf(inst, m) && Enforced([], lin) in m.constraints
    ensures IsPrecedence(inst, lin)
  {
    ConstraintBlock(inst, m, Enforced([], lin));
    PrecedencesShape(inst, |inst.jobs|);
  }

  /** Every precedence is in the built model. */
  lemma PrecedenceInBuilt(inst: Instance, lin: Linear)
    requires IsPrecedence(inst, lin)
    ensures Enforced([], lin) in Built(inst).constraints
  {
    var j: nat, o: nat :| j < |inst.jobs| && o + 1 < |inst.jobs[j].ops| && lin == AtLeast(Start(TaskKey(j, o + 1)), End(TaskKey(j, o)));
    PrecedencesInclude(inst, j, |inst.jobs|, o);
    BuiltIncludes(inst);
  }

  /** Operation o + 1 of job j starts no earlier than operation o ends. */
  ghost predicate IsPrecedence(inst: Instance, lin: Linear)
  {
    exists j: nat, o: nat :: j < |inst.jobs| && o + 1 < |inst.jobs[j].ops| &&
      lin == AtLeast(Start(TaskKey(j, o + 1)), End(TaskKey(j, o)))
  }

  /** The number of jobs among the first n that have an operation. */
  function NonEmptyJobs(inst: Instance, n: nat): nat
    requires n <= |inst.jobs|
  {
    if n == 0 then 0 else NonEmptyJobs(inst, n - 1) + (if |inst.jobs[n - 1].ops| > 0 then 1 else 0)
  }

  /** Each job with operations contributes one precedence fewer than it has operations; an empty job none. */
  lemma {:induction false} PrecedenceTotal(inst: Instance, n: nat)
    requires n <= |inst.jobs|
    ensures |PrecedencesUpTo(inst, n)| + NonEmptyJobs(inst, n) == |EndsUpTo(inst, n)|
    decreases n
  {
    if n > 0 {
      PrecedenceTotal(inst, n - 1);
    }
  }

  // ---------------------------------------------------------------------
  // Makespan (lines 114-124)
  // ---------------------------------------------------------------------

  /** The maximum ranges over the end of every operation and nothing else. */
  lemma EndsExactly(inst: Instance, x: IntVar)
    ensures x in EndsUpTo(inst, |inst.jobs|) <==> exists t :: ValidTask(inst, t) && x == End(t)
  {
    if x in EndsUpTo(inst, |inst.jobs|) {
      EndsUpToOnlyEnds(inst, |inst.jobs|, x);
    }
    if exists t :: ValidTask(inst, t) && x == End(t) {
      var t :| ValidTask(inst, t) && x == End(t);
      EndsUpToContain(inst, t, |inst.jobs|);
    }
  }

  // ---------------------------------------------------------------------
  // The selected resource (lines 138-152)
  // ---------------------------------------------------------------------

  /** Position k is the first option whose literal is true. */
  ghost predicate FirstTrueAt(opts: seq<ResourceOption>, a: Assignment, k: nat)
  {
    k < |opts| && a.truth(opts[k].presence) && forall k2 :: 0 <= k2 < k ==> !a.truth(opts[k2].presence)
  }

  /** The scan reports the resource of the first option whose literal is true. */
  lemma {:induction false} FirstPresentAt(opts: seq<ResourceOption>, a: Assignment, k: nat)
    requires FirstTrueAt(opts, a, k)
    ensures FirstPresent(opts, a) == Some(opts[k].resource)
    decreases k
  {
    if k > 0 {
      assert !a.truth(opts[0].presence);
      FirstPresentAt(opts[1..], a, k - 1);
    }
  }

  /** The scan reports nothing exactly when no literal is true. */
  lemma {:induction false} FirstPresentNone(opts: seq<ResourceOption>, a: Assignment)
    ensures FirstPresent(opts, a) == None <==> forall k :: 0 <= k < |opts| ==> !a.truth(opts[k].presence)
    decreases |opts|
  {
    if |opts| > 0 {
      FirstPresentNone(opts[1..], a);
      if !a.truth(opts[0].presence) {
        forall k | 0 < k < |opts|
          ensures opts[k] == opts[1..][k - 1]
        {
        }
      }
    }
  }

  /**
   * With a satisfying assignment, the resource the scan reports for an
   * operation is the one candidate the solver chose, and none when the
   * operation has no candidate of that kind.
   */
  lemma SelectedIsChosen(inst: Instance, a: Assignment, t: TaskKey, kind: Kind)
    requires Satisfies(Built(inst), a) && ValidTask(inst, t)
    ensures |Candidates(OpAt(inst, t), kind)| == 0 ==> FirstPresent(Options(t, OpAt(inst, t), kind), a) == None
    ensures |Candidates(OpAt(inst, t), kind)| > 0 ==>
      exists k :: 0 <= k < |Candidates(OpAt(inst, t), kind)| && a.truth(Presence(kind, t, k)) &&
        FirstPresent(Options(t, OpAt(inst, t), kind), a) == Some(Candidates(OpAt(inst, t), kind)[k])
  {
    BuiltIncludes(inst);
    SatisfiedChoices(inst, Built(inst), a);
    OneChosenSelected(inst, a, t, kind);
  }

  /** The scan over the options reports the one candidate chosen for the operation. */
  lemma OneChosenSelected(inst: Instance, a: Assignment, t: TaskKey, kind: Kind)
    requires OneCandidateEach(inst, a) && ValidTask(inst, t)
    ensures |Candidates(OpAt(inst, t), kind)| == 0 ==> FirstPresent(Options(t, OpAt(inst, t), kind), a) == None
    ensures |Candidates(OpAt(inst, t), kind)| > 0 ==>
      exists k :: 0 <= k < |Candidates(OpAt(inst, t), kind)| && a.truth(Presence(kind, t, k)) &&
        FirstPresent(Options(t, OpAt(inst, t), kind), a) == Some(Candidates(OpAt(inst, t), kind)[k])
  {
    var opts := Options(t, OpAt(inst, t), kind);
    if |Candidates(OpAt(inst, t), kind)| == 0 {
      FirstPresentNone(opts, a);
    } else {
      var n := |Candidates(OpAt(inst, t), kind)|;
      assert ChosenOnce(a, kind, t, n);
      var k :| 0 <= k < n && a.truth(Presence(kind, t, k)) &&
        forall k2 :: 0 <= k2 < n && k2 != k ==> !a.truth(Presence(kind, t, k2));
      assert opts[k] == OptionAt(t, OpAt(inst, t), kind, k);
      forall k2 | 0 <= k2 < k
        ensures !a.truth(opts[k2].presence)
      {
        assert opts[k2] == OptionAt(t, OpAt(inst, t), kind, k2);
      }
      FirstPresentAt(opts, a, k);
    }
  }

  /**
   * What is reported for an operation of a satisfying assignment: its start
   * and duration, and the machine and equipment the solver chose for it.
   */
  lemma DecodedIsChosen(inst: Instance, a: Assignment, t: TaskKey)
    requires Satisfies(Built(inst), a) && ValidTask(inst, t)
    ensures var d, op := DecodedAt(inst, a, t), OpAt(inst, t);
      && d.start == a.value(Start(t)) && d.duration == op.duration
      && (|op.machines| == 0 <==> d.machine == None)
      && (|op.equipment| == 0 <==> d.equipment == None)
      && (d.machine.Some? ==> exists k :: 0 <= k < |op.machines| && a.truth(MachinePresent(t, k)) && d.machine == Some(op.machines[k]))
      && (d.equipment.Some? ==> exists k :: 0 <= k < |op.equipment| && a.truth(EquipmentPresent(t, k)) && d.equipment == Some(op.equipment[k]))
  {
    SelectedIsChosen(inst, a, t, Machines);
    SelectedIsChosen(inst, a, t, Equipment);
  }
}

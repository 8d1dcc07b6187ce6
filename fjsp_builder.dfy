/**
 * `solve_fjsp_with_equipment` (src/get_makespan.py:5-167) as methods over
 * a `CpModel`, with the loops of the source. Each method is proved to add
 * exactly what the matching function of module Fjsp describes, so
 * `BuildModel` yields `Built(inst)`. The solver is not modelled: its
 * status and assignment are inputs of `SolveFjspWithEquipment`.
 */
module FjspBuilder {
  import opened Wrappers
  import opened CpSat
  import opened Fjsp
  import opened FjspValidity

  /** Lines 16-24: the machines and the equipment named anywhere, sorted, each once. */
  method CollectResources(inst: Instance) returns (allMachines: seq<int>, allEquipment: seq<int>)
    ensures allMachines == AllResources(inst, Machines)
    ensures allEquipment == AllResources(inst, Equipment)
  {
    var machines: set<int> := {};
    var equipment: set<int> := {};
    var j := 0;
    while j < |inst.jobs|
      invariant 0 <= j <= |inst.jobs|
      invariant machines == JobsResources(inst.jobs[..j], Machines)
      invariant equipment == JobsResources(inst.jobs[..j], Equipment)
    {
      var ops := inst.jobs[j].ops;
      ghost var machines0, equipment0 := machines, equipment;
      var o := 0;
      while o < |ops|
        invariant 0 <= o <= |ops|
        invariant machines == machines0 + OpsResources(ops[..o], Machines)
        invariant equipment == equipment0 + OpsResources(ops[..o], Equipment)
      {
        machines := machines + Elements(ops[o].machines);
        equipment := equipment + Elements(ops[o].equipment);
        OpsResourcesStep(ops, o, Machines);
        OpsResourcesStep(ops, o, Equipment);
        o := o + 1;
      }
      assert ops[..|ops|] == ops;
      JobsResourcesStep(inst.jobs, j, Machines);
      JobsResourcesStep(inst.jobs, j, Equipment);
      j := j + 1;
    }
    assert inst.jobs[..|inst.jobs|] == inst.jobs;
    allMachines := SortedElements(machines);
    allEquipment := SortedElements(equipment);
  }

  /** Lines 52-64: the downtime constraints of the k-th candidate machine of task t. */
  method AddDowntimes(model: CpModel, t: TaskKey, k: nat, points: seq<int>)
    modifies model
    ensures model.Snapshot() == Extend(old(model.Snapshot()), DowntimeSteps(t, k, points, |points|))
  {
    ghost var m0 := model.Snapshot();
    ExtendNothing(m0);
    var d := 0;
    while d < |points|
      invariant 0 <= d <= |points|
      invariant model.Snapshot() == Extend(m0, DowntimeSteps(t, k, points, d))
    {
      var p := points[d];
      var before := model.NewBoolVar(BeforeOp(t, k, d));
      model.Add([Pos(MachinePresent(t, k)), Pos(before)], ConstBelow(p, Start(t)));
      model.Add([Pos(MachinePresent(t, k)), Neg(before)], ConstAtLeast(p, End(t)));
      ExtendJoin(m0, DowntimeSteps(t, k, points, d), DowntimeStep(t, k, p, d));
      d := d + 1;
    }
  }

  /**
   * Lines 45-64 (kind Machines) and 68-71 (kind Equipment), the k-th
   * candidate: its presence literal, its optional interval over the operation's
   * start and end and, for a machine with downtime points, the downtime
   * constraints.
   */
  method AddCandidate(model: CpModel, inst: Instance, t: TaskKey, kind: Kind, k: nat) returns (opt: ResourceOption)
    requires ValidTask(inst, t) && k < |Candidates(OpAt(inst, t), kind)|
    modifies model
    ensures opt == OptionAt(t, OpAt(inst, t), kind, k)
    ensures model.Snapshot() == Extend(old(model.Snapshot()), CandidateStep(inst, t, OpAt(inst, t), kind, k))
  {
    var op := inst.jobs[t.job].ops[t.op];
    var r := Candidates(op, kind)[k];
    ghost var m0 := model.Snapshot();
    var present := model.NewBoolVar(Presence(kind, t, k));
    var iv := model.NewOptionalIntervalVar(Start(t), op.duration, End(t), present);
    opt := ResourceOption(r, iv, present);
    ExtendJoin(m0, Delta([], [present], []), Constraints([IntervalOf(iv)]));
    if kind == Machines && r in inst.downtimes {
      AddDowntimes(model, t, k, inst.downtimes[r]);
    }
    ExtendJoin(m0, Delta([], [present], [IntervalOf(iv)]), if kind == Machines then MachineDowntimes(inst, t, k, r) else NoDelta);
  }

  /** Lines 44-64 (67-71): every candidate of the given kind, in list order. */
  method AddCandidates(model: CpModel, inst: Instance, t: TaskKey, kind: Kind) returns (opts: seq<ResourceOption>)
    requires ValidTask(inst, t)
    modifies model
    ensures opts == Options(t, OpAt(inst, t), kind)
    ensures model.Snapshot()
         == Extend(old(model.Snapshot()), CandidateSteps(inst, t, OpAt(inst, t), kind, |Candidates(OpAt(inst, t), kind)|))
  {
    var op := inst.jobs[t.job].ops[t.op];
    var rs := Candidates(op, kind);
    ghost var m0 := model.Snapshot();
    ExtendNothing(m0);
    opts := [];
    var k := 0;
    while k < |rs|
      invariant 0 <= k <= |rs|
      invariant opts == Options(t, op, kind)[..k]
      invariant model.Snapshot() == Extend(m0, CandidateSteps(inst, t, op, kind, k))
    {
      var opt := AddCandidate(model, inst, t, kind, k);
      opts := opts + [opt];
      ExtendJoin(m0, CandidateSteps(inst, t, op, kind, k), CandidateStep(inst, t, op, kind, k));
      k := k + 1;
    }
  }

  /** Lines 35-75, one operation: its start and end variables in [0, h], then its machines, then its equipment. */
  method AddOperation(model: CpModel, inst: Instance, h: int, t: TaskKey) returns (task: TaskVars)
    requires ValidTask(inst, t)
    modifies model
    ensures task == TaskOf(inst, t)
    ensures model.Snapshot() == Extend(old(model.Snapshot()), OpDelta(inst, h, t))
  {
    var op := inst.jobs[t.job].ops[t.op];
    ghost var m0 := model.Snapshot();
    var start := model.NewIntVar(0, h, Start(t));
    var end := model.NewIntVar(0, h, End(t));
    ghost var vars := Delta([IntVarDecl(Start(t), 0, h), IntVarDecl(End(t), 0, h)], [], []);
    assert model.Snapshot() == Extend(m0, vars);
    var machineOptions := AddCandidates(model, inst, t, Machines);
    ExtendJoin(m0, vars, CandidateSteps(inst, t, op, Machines, |op.machines|));
    var equipmentOptions := AddCandidates(model, inst, t, Equipment);
    ExtendJoin(m0, Join(vars, CandidateSteps(inst, t, op, Machines, |op.machines|)),
               CandidateSteps(inst, t, op, Equipment, |op.equipment|));
    task := TaskVars(t, start, end, machineOptions, equipmentOptions, op.duration);
  }

  /** Lines 35-75 for job j: its operations in order. */
  method AddJob(model: CpModel, inst: Instance, h: int, j: nat) returns (tasks: seq<TaskVars>)
    requires j < |inst.jobs|
    modifies model
    ensures tasks == JobTasks(inst, j, |inst.jobs[j].ops|)
    ensures model.Snapshot() == Extend(old(model.Snapshot()), JobDelta(inst, h, j, |inst.jobs[j].ops|))
  {
    ghost var m0 := model.Snapshot();
    ExtendNothing(m0);
    var ops := inst.jobs[j].ops;
    tasks := [];
    var o := 0;
    while o < |ops|
      invariant 0 <= o <= |ops|
      invariant tasks == JobTasks(inst, j, o)
      invariant model.Snapshot() == Extend(m0, JobDelta(inst, h, j, o))
    {
      JobTasksStep(inst, j, o);
      ghost var before := model.Snapshot();
      var task := AddOperation(model, inst, h, TaskKey(j, o));
      tasks := tasks + [task];
      JobStep(m0, before, model.Snapshot(), inst, h, j, o);
      o := o + 1;
    }
  }

  /** One more operation of job j: the model grows by that operation's additions. */
  lemma JobStep(m0: Model, before: Model, after: Model, inst: Instance, h: int, j: nat, o: nat)
    requires j < |inst.jobs| && o < |inst.jobs[j].ops|
    requires before == Extend(m0, JobDelta(inst, h, j, o))
    requires after == Extend(before, OpDelta(inst, h, TaskKey(j, o)))
    ensures after == Extend(m0, JobDelta(inst, h, j, o + 1))
  {
    ExtendJoin(m0, JobDelta(inst, h, j, o), OpDelta(inst, h, TaskKey(j, o)));
  }

  /** Lines 34-75: every operation of every job, recorded in `task_intervals` order. */
  method AddTasks(model: CpModel, inst: Instance, h: int) returns (tasks: seq<TaskVars>)
    modifies model
    ensures tasks == TaskList(inst, |inst.jobs|)
    ensures model.Snapshot() == Extend(old(model.Snapshot()), TasksDelta(inst, h, |inst.jobs|))
  {
    ghost var m0 := model.Snapshot();
    ExtendNothing(m0);
    tasks := [];
    var j := 0;
    while j < |inst.jobs|
      invariant 0 <= j <= |inst.jobs|
      invariant tasks == TaskList(inst, j)
      invariant model.Snapshot() == Extend(m0, TasksDelta(inst, h, j))
    {
      var jobTasks := AddJob(model, inst, h, j);
      tasks := tasks + jobTasks;
      ExtendJoin(m0, TasksDelta(inst, h, j), JobDelta(inst, h, j, |inst.jobs[j].ops|));
      j := j + 1;
    }
  }

  /** Adding the machine and then the equipment constraint of task i extends the choices by one task. */
  lemma ChoicesStep(m0: Model, before: Model, mid: Model, after: Model, tasks: seq<TaskVars>, i: nat)
    requires i < |tasks|
    requires before == Extend(m0, Constraints(ChoicesUpTo(tasks, i)))
    requires mid == Extend(before, Constraints(ChoiceOf(tasks[i].machines)))
    requires after == Extend(mid, Constraints(ChoiceOf(tasks[i].equipment)))
    ensures after == Extend(m0, Constraints(ChoicesUpTo(tasks, i + 1)))
  {
    var m, e := ChoiceOf(tasks[i].machines), ChoiceOf(tasks[i].equipment);
    ExtendConstraints(m0, ChoicesUpTo(tasks, i), m);
    ExtendConstraints(m0, ChoicesUpTo(tasks, i) + m, e);
    assert ChoicesUpTo(tasks, i) + m + e == ChoicesUpTo(tasks, i) + (m + e);
  }

  /** Lines 78-85: exactly one machine literal and exactly one equipment literal, for tasks that have candidates. */
  method AddChoices(model: CpModel, tasks: seq<TaskVars>)
    modifies model
    ensures model.Snapshot() == Extend(old(model.Snapshot()), Constraints(ChoicesUpTo(tasks, |tasks|)))
  {
    ghost var m0 := model.Snapshot();
    ExtendNothing(m0);
    var i := 0;
    while i < |tasks|
      invariant 0 <= i <= |tasks|
      invariant model.Snapshot() == Extend(m0, Constraints(ChoicesUpTo(tasks, i)))
    {
      var task := tasks[i];
      ghost var before := model.Snapshot();
      AddChoice(model, task.machines);
      ghost var mid := model.Snapshot();
      AddChoice(model, task.equipment);
      ChoicesStep(m0, before, mid, model.Snapshot(), tasks, i);
      i := i + 1;
    }
  }

  /** Lines 80-81 (84-85): exactly one of the options is chosen, when there is any option. */
  method AddChoice(model: CpModel, opts: seq<ResourceOption>)
    modifies model
    ensures model.Snapshot() == Extend(old(model.Snapshot()), Constraints(ChoiceOf(opts)))
  {
    if |opts| > 0 {
      model.AddExactlyOne(Presences(opts));
    } else {
      ExtendNothing(model.Snapshot());
    }
  }

  /** Lines 89-93 (98-103): the intervals of every task's options naming resource r, in task order. */
  method CollectIntervals(tasks: seq<TaskVars>, kind: Kind, r: int) returns (intervals: seq<Interval>)
    ensures intervals == IntervalsFor(tasks, kind, r)
  {
    intervals := [];
    var i := 0;
    while i < |tasks|
      invariant 0 <= i <= |tasks|
      invariant intervals == IntervalsUpTo(tasks, kind, r, i)
    {
      var matching := CollectMatching(OptionsOf(tasks[i], kind), r);
      intervals := intervals + matching;
      i := i + 1;
    }
  }

  /** Lines 91-93 (100-102): the intervals of one task's options naming resource r, in option order. */
  method CollectMatching(opts: seq<ResourceOption>, r: int) returns (intervals: seq<Interval>)
    ensures intervals == MatchingUpTo(opts, r, |opts|)
  {
    intervals := [];
    var k := 0;
    while k < |opts|
      invariant 0 <= k <= |opts|
      invariant intervals == MatchingUpTo(opts, r, k)
    {
      if opts[k].resource == r {
        intervals := intervals + [opts[k].interval];
      }
      k := k + 1;
    }
  }

  /** One more resource: the model grows by that resource's no-overlap constraint, if any. */
  lemma NoOverlapsStep(m0: Model, before: Model, after: Model, tasks: seq<TaskVars>, kind: Kind, rs: seq<int>, n: nat)
    requires n < |rs|
    requires before == Extend(m0, Constraints(NoOverlapsUpTo(tasks, kind, rs, n)))
    requires after == Extend(before, Constraints(NoOverlapFor(tasks, kind, rs[n])))
    ensures after == Extend(m0, Constraints(NoOverlapsUpTo(tasks, kind, rs, n + 1)))
  {
    ExtendConstraints(m0, NoOverlapsUpTo(tasks, kind, rs, n), NoOverlapFor(tasks, kind, rs[n]));
  }

  /** Lines 88-95 (97-105): one no-overlap constraint per resource of `rs` that some interval names. */
  method AddNoOverlaps(model: CpModel, tasks: seq<TaskVars>, kind: Kind, rs: seq<int>)
    modifies model
    ensures model.Snapshot() == Extend(old(model.Snapshot()), Constraints(NoOverlapsUpTo(tasks, kind, rs, |rs|)))
  {
    ghost var m0 := model.Snapshot();
    ExtendNothing(m0);
    var n := 0;
    while n < |rs|
      invariant 0 <= n <= |rs|
      invariant model.Snapshot() == Extend(m0, Constraints(NoOverlapsUpTo(tasks, kind, rs, n)))
    {
      AddNoOverlapAt(model, tasks, kind, rs, n, m0);
      n := n + 1;
    }
  }

  /**
   * Lines 89-95 (98-105) for resource rs[n]: no overlap among the intervals
   * naming it, when there is any; the model grows from the constraints of
   * the first n resources to those of the first n + 1.
   */
  method AddNoOverlapAt(model: CpModel, tasks: seq<TaskVars>, kind: Kind, rs: seq<int>, n: nat, ghost m0: Model)
    requires n < |rs|
    requires model.Snapshot() == Extend(m0, Constraints(NoOverlapsUpTo(tasks, kind, rs, n)))
    modifies model
    ensures model.Snapshot() == Extend(m0, Constraints(NoOverlapsUpTo(tasks, kind, rs, n + 1)))
  {
    var intervals := CollectIntervals(tasks, kind, rs[n]);
    ghost var before := model.Snapshot();
    if |intervals| > 0 {
      model.AddNoOverlap(intervals);
    } else {
      ExtendNothing(before);
    }
    NoOverlapsStep(m0, before, model.Snapshot(), tasks, kind, rs, n);
  }

  /** Lines 108-112: start of operation o + 1 >= end of operation o, within every job. */
  method AddPrecedences(model: CpModel, inst: Instance)
    modifies model
    ensures model.Snapshot() == Extend(old(model.Snapshot()), Constraints(PrecedencesUpTo(inst, |inst.jobs|)))
  {
    ghost var m0 := model.Snapshot();
    ExtendNothing(m0);
    var j := 0;
    while j < |inst.jobs|
      invariant 0 <= j <= |inst.jobs|
      invariant model.Snapshot() == Extend(m0, Constraints(PrecedencesUpTo(inst, j)))
    {
      var count := |inst.jobs[j].ops| - 1;
      var o := 0;
      while o < count
        invariant 0 <= o <= PrecedenceCount(inst.jobs[j].ops)
        invariant model.Snapshot() == Extend(m0, Constraints(PrecedencesUpTo(inst, j) + JobPrecedences(j, o)))
      {
        model.Add([], AtLeast(Start(TaskKey(j, o + 1)), End(TaskKey(j, o))));
        JobPrecedencesStep(j, o);
        o := o + 1;
      }
      assert o == PrecedenceCount(inst.jobs[j].ops);
      j := j + 1;
    }
  }

  /** Lines 115-124: the makespan variable in [0, h], equal to the largest end, and minimised. */
  method AddMakespan(model: CpModel, inst: Instance, h: int)
    modifies model
    ensures model.Snapshot() == Extend(old(model.Snapshot()), MakespanDelta(inst, h)).(objective := Some(MakespanVar))
  {
    ghost var m0 := model.Snapshot();
    var makespan := model.NewIntVar(0, h, MakespanVar);
    var ends := EndsUpTo(inst, |inst.jobs|);
    model.AddMaxEquality(makespan, ends);
    ExtendJoin(m0, Delta([IntVarDecl(MakespanVar, 0, h)], [], []), Constraints([MaxEquality(makespan, ends)]));
    model.Minimize(makespan);
  }

  /** Lines 11-124: the model handed to the solver, and the `task_intervals` records. */
  method BuildModel(inst: Instance) returns (model: CpModel, tasks: seq<TaskVars>)
    ensures fresh(model)
    ensures model.Snapshot() == Built(inst)
    ensures tasks == TaskList(inst, |inst.jobs|)
  {
    model := new CpModel();
    var allMachines, allEquipment := CollectResources(inst);
    var horizon := match inst.timespan case Some(t) => t case None => DefaultHorizon;
    tasks := AddTasks(model, inst, horizon);
    AddChoices(model, tasks);
    assert model.Snapshot() == WithChoices(inst);
    AddNoOverlaps(model, tasks, Machines, allMachines);
    AddNoOverlaps(model, tasks, Equipment, allEquipment);
    assert model.Snapshot() == WithNoOverlaps(inst);
    AddPrecedences(model, inst);
    AddMakespan(model, inst, horizon);
  }

  // ---------------------------------------------------------------------
  // Reading the solver's answer (lines 130-167)
  // ---------------------------------------------------------------------

  /** The resource of the first option, in list order, whose literal the assignment makes true. */
  function FirstPresent(opts: seq<ResourceOption>, a: Assignment): Option<int>
  {
    if |opts| == 0 then None
    else if a.truth(opts[0].presence) then Some(opts[0].resource)
    else FirstPresent(opts[1..], a)
  }

  /** Lines 140-144 (148-152): the scan for the selected machine (equipment), stopping at the first true literal. */
  method SelectFirstPresent(opts: seq<ResourceOption>, a: Assignment) returns (selected: Option<int>)
    ensures selected == FirstPresent(opts, a)
  {
    selected := None;
    var k := 0;
    while k < |opts|
      invariant 0 <= k <= |opts|
      invariant FirstPresent(opts[k..], a) == FirstPresent(opts, a)
    {
      if a.truth(opts[k].presence) {
        selected := Some(opts[k].resource);
        break;
      }
      assert opts[k..][1..] == opts[k + 1..];
      k := k + 1;
    }
  }

  /** What the solution printout shows of one operation. */
  datatype Decoded = Decoded(job: string, op: nat, start: int, duration: int, machine: Option<int>, equipment: Option<int>)

  function DecodedAt(inst: Instance, a: Assignment, t: TaskKey): Decoded
    requires ValidTask(inst, t)
  {
    var task := TaskOf(inst, t);
    Decoded(inst.jobs[t.job].id, t.op, a.value(task.start), task.duration,
            FirstPresent(task.machines, a), FirstPresent(task.equipment, a))
  }

  /** The decoded first n operations of job j. */
  function JobDecoded(inst: Instance, a: Assignment, j: nat, n: nat): seq<Decoded>
    requires j < |inst.jobs| && n <= |inst.jobs[j].ops|
  {
    seq(n, o requires 0 <= o < n => DecodedAt(inst, a, TaskKey(j, o)))
  }

  lemma JobDecodedStep(inst: Instance, a: Assignment, j: nat, o: nat)
    requires j < |inst.jobs| && o < |inst.jobs[j].ops|
    ensures JobDecoded(inst, a, j, o + 1) == JobDecoded(inst, a, j, o) + [DecodedAt(inst, a, TaskKey(j, o))]
  {
  }

  /** The decoded operations of the first n jobs, in job and operation order. */
  function DecodedUpTo(inst: Instance, a: Assignment, n: nat): seq<Decoded>
    requires n <= |inst.jobs|
  {
    if n == 0 then [] else DecodedUpTo(inst, a, n - 1) + JobDecoded(inst, a, n - 1, |inst.jobs[n - 1].ops|)
  }

  /** Lines 132-152: per job and operation, the start, the duration and the selected machine and equipment. */
  method DecodeSolution(inst: Instance, tasks: seq<TaskVars>, a: Assignment) returns (decoded: seq<Decoded>)
    requires tasks == TaskList(inst, |inst.jobs|)
    ensures decoded == DecodedUpTo(inst, a, |inst.jobs|)
  {
    decoded := [];
    var i := 0;
    var j := 0;
    while j < |inst.jobs|
      invariant 0 <= j <= |inst.jobs|
      invariant i == |TaskList(inst, j)|
      invariant decoded == DecodedUpTo(inst, a, j)
    {
      var ops := inst.jobs[j].ops;
      var o := 0;
      while o < |ops|
        invariant 0 <= o <= |ops|
        invariant i == |TaskList(inst, j)| + o
        invariant decoded == DecodedUpTo(inst, a, j) + JobDecoded(inst, a, j, o)
      {
        TaskListAt(inst, j, o);
        var task := tasks[i];
        var start := a.value(task.start);
        var machine := SelectFirstPresent(task.machines, a);
        var equipment := SelectFirstPresent(task.equipment, a);
        JobDecodedStep(inst, a, j, o);
        decoded := decoded + [Decoded(inst.jobs[j].id, o, start, task.duration, machine, equipment)];
        i := i + 1;
        o := o + 1;
      }
      j := j + 1;
    }
  }

  /**
   * `solve_fjsp_with_equipment` with the solver's status and assignment as
   * inputs: on OPTIMAL or FEASIBLE the objective, the makespan's value, and
   * the selected resources per operation; otherwise no value. The solver
   * answers OPTIMAL or FEASIBLE only with an assignment that satisfies the
   * model it was given, so the value returned is the makespan of a valid
   * schedule.
   */
  method SolveFjspWithEquipment(inst: Instance, status: Status, a: Assignment) returns (objective: Option<int>, decoded: seq<Decoded>)
    requires status == Optimal || status == Feasible ==> Satisfies(Built(inst), a)
    ensures objective.Some? <==> status == Optimal || status == Feasible
    ensures objective.Some? ==> objective.value == a.value(MakespanVar) && decoded == DecodedUpTo(inst, a, |inst.jobs|)
    ensures objective.Some? ==> ValidSchedule(inst, a)
    ensures objective.None? ==> decoded == []
  {
    var model, tasks := BuildModel(inst);
    if status == Optimal || status == Feasible {
      SatisfyingAssignmentIsValid(inst, a);
      decoded := DecodeSolution(inst, tasks, a);
      objective := Some(a.value(MakespanVar));
    } else {
      decoded := [];
      objective := None;
    }
  }
}

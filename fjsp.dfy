/**
 * The flexible job-shop instance read by `solve_fjsp_with_equipment`
 * (src/get_makespan.py:5-26) and, loop by loop, what the builder adds to
 * the CP-SAT model for it (lines 28-124). `Built` is the whole model; the
 * builder methods in module FjspBuilder are proved to produce exactly it.
 *
 * Jobs keep the order of the `"jobs"` dictionary, which is the order every
 * loop of the builder visits them in; a task is named by the position of
 * its job and its own position in the job.
 */
module Fjsp {
  import opened Wrappers
  import opened CpSat

  /** One operation triple: candidate machines, candidate equipment, duration. */
  datatype OpSpec = OpSpec(machines: seq<int>, equipment: seq<int>, duration: int)

  datatype JobSpec = JobSpec(id: string, ops: seq<OpSpec>)

  /**
   * `instance_json`: the jobs, the downtime points of each machine (an absent
   * `"machine_downtimes"` is the empty map) and the optional `"timespan"`.
   */
  datatype Instance = Instance(jobs: seq<JobSpec>, downtimes: map<int, seq<int>>, timespan: Option<int>)

  /** The horizon used when the instance has no `"timespan"`. */
  const DefaultHorizon := 1000

  function Horizon(inst: Instance): int
  {
    match inst.timespan
    case Some(t) => t
    case None => DefaultHorizon
  }

  /** The two kinds of resource an operation chooses one of. */
  datatype Kind = Machines | Equipment

  function Candidates(op: OpSpec, kind: Kind): seq<int>
  {
    match kind
    case Machines => op.machines
    case Equipment => op.equipment
  }

  /** The presence literal of the k-th candidate of the given kind. */
  function Presence(kind: Kind, t: TaskKey, k: nat): BoolVar
  {
    match kind
    case Machines => MachinePresent(t, k)
    case Equipment => EquipmentPresent(t, k)
  }

  predicate ValidTask(inst: Instance, t: TaskKey)
  {
    t.job < |inst.jobs| && t.op < |inst.jobs[t.job].ops|
  }

  function OpAt(inst: Instance, t: TaskKey): OpSpec
    requires ValidTask(inst, t)
  {
    inst.jobs[t.job].ops[t.op]
  }

  // ---------------------------------------------------------------------
  // Resources (lines 16-24)
  // ---------------------------------------------------------------------

  function Elements(s: seq<int>): set<int>
  {
    set x | x in s
  }

  /** The resources of the given kind named by some operation of `ops`. */
  function OpsResources(ops: seq<OpSpec>, kind: Kind): set<int>
  {
    if |ops| == 0 then {}
    else OpsResources(ops[..|ops| - 1], kind) + Elements(Candidates(ops[|ops| - 1], kind))
  }

  /** The resources of the given kind named by some operation of some job: the set the builder collects. */
  function JobsResources(jobs: seq<JobSpec>, kind: Kind): set<int>
  {
    if |jobs| == 0 then {}
    else JobsResources(jobs[..|jobs| - 1], kind) + OpsResources(jobs[|jobs| - 1].ops, kind)
  }

  /** One more operation adds the resources it names. */
  lemma OpsResourcesStep(ops: seq<OpSpec>, o: nat, kind: Kind)
    requires o < |ops|
    ensures OpsResources(ops[..o + 1], kind) == OpsResources(ops[..o], kind) + Elements(Candidates(ops[o], kind))
  {
    assert ops[..o + 1][..o] == ops[..o];
  }

  /** One more job adds the resources its operations name. */
  lemma JobsResourcesStep(jobs: seq<JobSpec>, j: nat, kind: Kind)
    requires j < |jobs|
    ensures JobsResources(jobs[..j + 1], kind) == JobsResources(jobs[..j], kind) + OpsResources(jobs[j].ops, kind)
  {
    assert jobs[..j + 1][..j] == jobs[..j];
    assert jobs[..j + 1][j].ops[..|jobs[j].ops|] == jobs[j].ops;
  }

  predicate Increasing(r: seq<int>)
  {
    forall i, j :: 0 <= i < j < |r| ==> r[i] < r[j]
  }

  /** m is the least element of s. */
  predicate IsLeast(m: int, s: set<int>)
  {
    m in s && forall x :: x in s ==> m <= x
  }

  lemma NoElementEmpty(s: set<int>)
    requires forall y :: y !in s
    ensures s == {}
  {
    assert forall y :: y in s <==> y in {};
  }

  lemma HasElement(s: set<int>)
    requires s != {}
    ensures exists y :: y in s
  {
    if forall y :: y !in s {
      NoElementEmpty(s);
    }
  }

  /** Every non-empty finite set of integers has a least element. */
  lemma {:induction false} LeastExists(s: set<int>)
    requires s != {}
    ensures exists m :: IsLeast(m, s)
    decreases |s|
  {
    HasElement(s);
    var y :| y in s;
    var rest := s - {y};
    if rest == {} {
      assert IsLeast(y, s) by {
        forall x | x in s ensures y <= x { assert x !in rest; }
      }
    } else {
      LeastExists(rest);
      var m :| IsLeast(m, rest);
      var least := if y < m then y else m;
      assert IsLeast(least, s) by {
        forall x | x in s ensures least <= x { if x != y { assert x in rest; } }
      }
    }
  }

  function Least(s: set<int>): (m: int)
    requires s != {}
    ensures IsLeast(m, s)
  {
    LeastExists(s);
    var m :| IsLeast(m, s);
    m
  }

  /** `sorted(s)`: the elements of s in increasing order, each once. */
  function SortedElements(s: set<int>): (r: seq<int>)
    ensures Increasing(r)
    ensures forall x :: x in r <==> x in s
    decreases |s|
  {
    if s == {} then []
    else
      var m := Least(s);
      var rest := SortedElements(s - {m});
      assert forall x :: x in rest ==> m < x;
      [m] + rest
  }

  /** `all_machines` or `all_equipment`. */
  function AllResources(inst: Instance, kind: Kind): seq<int>
  {
    SortedElements(JobsResources(inst.jobs, kind))
  }

  // ---------------------------------------------------------------------
  // The record kept per task (`task_intervals`, lines 40-75)
  // ---------------------------------------------------------------------

  /** `(m, interval, is_present)`: one candidate resource of a task. */
  datatype ResourceOption = ResourceOption(resource: int, interval: Interval, presence: BoolVar)

  /** `(start_var, end_var, machine_interval_vars, equipment_interval_vars, duration)`. */
  datatype TaskVars = TaskVars(key: TaskKey, start: IntVar, end: IntVar,
                               machines: seq<ResourceOption>, equipment: seq<ResourceOption>, duration: int)

  /** The option for the k-th candidate of the given kind: an interval [start, end) of the op's duration, present with its literal. */
  function OptionAt(t: TaskKey, op: OpSpec, kind: Kind, k: nat): ResourceOption
    requires k < |Candidates(op, kind)|
  {
    var p := Presence(kind, t, k);
    ResourceOption(Candidates(op, kind)[k], Interval(Start(t), op.duration, End(t), p), p)
  }

  function Options(t: TaskKey, op: OpSpec, kind: Kind): seq<ResourceOption>
  {
    seq(|Candidates(op, kind)|, k requires 0 <= k < |Candidates(op, kind)| => OptionAt(t, op, kind, k))
  }

  function OptionsOf(task: TaskVars, kind: Kind): seq<ResourceOption>
  {
    match kind
    case Machines => task.machines
    case Equipment => task.equipment
  }

  function TaskOf(inst: Instance, t: TaskKey): TaskVars
    requires ValidTask(inst, t)
  {
    var op := OpAt(inst, t);
    TaskVars(t, Start(t), End(t), Options(t, op, Machines), Options(t, op, Equipment), op.duration)
  }

  /** The records of the first n operations of job j. */
  function JobTasks(inst: Instance, j: nat, n: nat): seq<TaskVars>
    requires j < |inst.jobs| && n <= |inst.jobs[j].ops|
  {
    seq(n, o requires 0 <= o < n => TaskOf(inst, TaskKey(j, o)))
  }

  lemma JobTasksStep(inst: Instance, j: nat, o: nat)
    requires j < |inst.jobs| && o < |inst.jobs[j].ops|
    ensures JobTasks(inst, j, o + 1) == JobTasks(inst, j, o) + [TaskOf(inst, TaskKey(j, o))]
  {
  }

  /** `task_intervals` after the first n jobs, in insertion order. */
  function TaskList(inst: Instance, n: nat): seq<TaskVars>
    requires n <= |inst.jobs|
  {
    if n == 0 then []
    else TaskList(inst, n - 1) + JobTasks(inst, n - 1, |inst.jobs[n - 1].ops|)
  }

  /** The `task_intervals` record of operation o of job j sits after those of the earlier jobs. */
  lemma TaskListAt(inst: Instance, j: nat, o: nat)
    requires j < |inst.jobs| && o < |inst.jobs[j].ops|
    ensures |TaskList(inst, j)| + o < |TaskList(inst, |inst.jobs|)|
    ensures TaskList(inst, |inst.jobs|)[|TaskList(inst, j)| + o] == TaskOf(inst, TaskKey(j, o))
  {
    TaskListPrefix(inst, j + 1, |inst.jobs|);
  }

  /** TaskList of n jobs begins with TaskList of m jobs, m <= n. */
  lemma {:induction false} TaskListPrefix(inst: Instance, m: nat, n: nat)
    requires m <= n <= |inst.jobs|
    ensures TaskList(inst, m) <= TaskList(inst, n)
    decreases n
  {
    if m < n {
      TaskListPrefix(inst, m, n - 1);
    }
  }

  // ---------------------------------------------------------------------
  // Variables, intervals and downtime constraints (lines 34-75)
  // ---------------------------------------------------------------------

  /**
   * Downtime point p, the d-th of the k-th candidate machine: a fresh
   * `before_op` and two guarded constraints, p < start when the machine is
   * chosen and before_op holds, p >= end when it is chosen and it does not.
   */
  function DowntimeStep(t: TaskKey, k: nat, p: int, d: nat): Delta
  {
    var present, before := MachinePresent(t, k), BeforeOp(t, k, d);
    Delta([], [before], [Enforced([Pos(present), Pos(before)], ConstBelow(p, Start(t))),
                         Enforced([Pos(present), Neg(before)], ConstAtLeast(p, End(t)))])
  }

  /** The first n downtime points of the list. */
  function DowntimeSteps(t: TaskKey, k: nat, points: seq<int>, n: nat): Delta
    requires n <= |points|
  {
    if n == 0 then NoDelta
    else Join(DowntimeSteps(t, k, points, n - 1), DowntimeStep(t, k, points[n - 1], n - 1))
  }

  /** The downtime constraints of candidate machine m, none when m has no downtime entry. */
  function MachineDowntimes(inst: Instance, t: TaskKey, k: nat, m: int): Delta
  {
    if m in inst.downtimes then DowntimeSteps(t, k, inst.downtimes[m], |inst.downtimes[m]|) else NoDelta
  }

  /** The k-th candidate: its presence literal, its optional interval and, for a machine, its downtime constraints. */
  function CandidateStep(inst: Instance, t: TaskKey, op: OpSpec, kind: Kind, k: nat): Delta
    requires k < |Candidates(op, kind)|
  {
    var iv := OptionAt(t, op, kind, k).interval;
    Join(Delta([], [iv.presence], [IntervalOf(iv)]),
         if kind == Machines then MachineDowntimes(inst, t, k, op.machines[k]) else NoDelta)
  }

  /** The first n candidates of the given kind. */
  function CandidateSteps(inst: Instance, t: TaskKey, op: OpSpec, kind: Kind, n: nat): Delta
    requires n <= |Candidates(op, kind)|
  {
    if n == 0 then NoDelta
    else Join(CandidateSteps(inst, t, op, kind, n - 1), CandidateStep(inst, t, op, kind, n - 1))
  }

  /** One operation: start and end in [0, h], then its machines, then its equipment. */
  function OpDelta(inst: Instance, h: int, t: TaskKey): Delta
    requires ValidTask(inst, t)
  {
    var op := OpAt(inst, t);
    Join(Join(Delta([IntVarDecl(Start(t), 0, h), IntVarDecl(End(t), 0, h)], [], []),
              CandidateSteps(inst, t, op, Machines, |op.machines|)),
         CandidateSteps(inst, t, op, Equipment, |op.equipment|))
  }

  /** The first n operations of job j. */
  function JobDelta(inst: Instance, h: int, j: nat, n: nat): Delta
    requires j < |inst.jobs| && n <= |inst.jobs[j].ops|
  {
    if n == 0 then NoDelta
    else Join(JobDelta(inst, h, j, n - 1), OpDelta(inst, h, TaskKey(j, n - 1)))
  }

  /** The first n jobs. */
  function TasksDelta(inst: Instance, h: int, n: nat): Delta
    requires n <= |inst.jobs|
  {
    if n == 0 then NoDelta
    else Join(TasksDelta(inst, h, n - 1), JobDelta(inst, h, n - 1, |inst.jobs[n - 1].ops|))
  }

  // ---------------------------------------------------------------------
  // Exactly one machine and one equipment (lines 78-85)
  // ---------------------------------------------------------------------

  /** The presence literals of a candidate list, in list order. */
  function Presences(opts: seq<ResourceOption>): seq<BoolVar>
  {
    seq(|opts|, i requires 0 <= i < |opts| => opts[i].presence)
  }

  /** The exactly-one constraint over a candidate list, none for an empty list. */
  function ChoiceOf(opts: seq<ResourceOption>): seq<Constraint>
  {
    if |opts| > 0 then [ExactlyOne(Presences(opts))] else []
  }

  /** One record's machine constraint, then its equipment constraint. */
  function ChoiceConstraints(task: TaskVars): seq<Constraint>
  {
    ChoiceOf(task.machines) + ChoiceOf(task.equipment)
  }

  function ChoicesUpTo(tasks: seq<TaskVars>, n: nat): seq<Constraint>
    requires n <= |tasks|
  {
    if n == 0 then [] else ChoicesUpTo(tasks, n - 1) + ChoiceConstraints(tasks[n - 1])
  }

  // ---------------------------------------------------------------------
  // No overlap per machine and per equipment (lines 88-105)
  // ---------------------------------------------------------------------

  /** The intervals of the first n options naming resource r, in list order. */
  function MatchingUpTo(opts: seq<ResourceOption>, r: int, n: nat): seq<Interval>
    requires n <= |opts|
  {
    if n == 0 then []
    else MatchingUpTo(opts, r, n - 1) + (if opts[n - 1].resource == r then [opts[n - 1].interval] else [])
  }

  /** The intervals naming resource r over the first n tasks, in task order. */
  function IntervalsUpTo(tasks: seq<TaskVars>, kind: Kind, r: int, n: nat): seq<Interval>
    requires n <= |tasks|
  {
    if n == 0 then []
    else IntervalsUpTo(tasks, kind, r, n - 1) + MatchingUpTo(OptionsOf(tasks[n - 1], kind), r, |OptionsOf(tasks[n - 1], kind)|)
  }

  /** The intervals naming resource r over all tasks: the `intervals` list built for r. */
  function IntervalsFor(tasks: seq<TaskVars>, kind: Kind, r: int): seq<Interval>
  {
    IntervalsUpTo(tasks, kind, r, |tasks|)
  }

  function NoOverlapFor(tasks: seq<TaskVars>, kind: Kind, r: int): seq<Constraint>
  {
    var ivs := IntervalsFor(tasks, kind, r);
    if |ivs| > 0 then [NoOverlap(ivs)] else []
  }

  /** The no-overlap constraints of the first n resources of `rs`. */
  function NoOverlapsUpTo(tasks: seq<TaskVars>, kind: Kind, rs: seq<int>, n: nat): seq<Constraint>
    requires n <= |rs|
  {
    if n == 0 then [] else NoOverlapsUpTo(tasks, kind, rs, n - 1) + NoOverlapFor(tasks, kind, rs[n - 1])
  }

  // ---------------------------------------------------------------------
  // Precedence (lines 108-112) and makespan (lines 115-124)
  // ---------------------------------------------------------------------

  /** Operation o + 1 of job j starts no earlier than operation o ends. */
  function PrecedenceAt(j: nat, o: nat): Constraint
  {
    Enforced([], AtLeast(Start(TaskKey(j, o + 1)), End(TaskKey(j, o))))
  }

  /** The number of precedence constraints of a job: `range(len(job_ops) - 1)` is empty for an empty job. */
  function PrecedenceCount(ops: seq<OpSpec>): nat
  {
    if |ops| == 0 then 0 else |ops| - 1
  }

  function JobPrecedences(j: nat, n: nat): seq<Constraint>
  {
    seq(n, o requires 0 <= o < n => PrecedenceAt(j, o))
  }

  lemma JobPrecedencesStep(j: nat, o: nat)
    ensures JobPrecedences(j, o + 1) == JobPrecedences(j, o) + [PrecedenceAt(j, o)]
  {
  }

  function PrecedencesUpTo(inst: Instance, n: nat): seq<Constraint>
    requires n <= |inst.jobs|
  {
    if n == 0 then []
    else PrecedencesUpTo(inst, n - 1) + JobPrecedences(n - 1, PrecedenceCount(inst.jobs[n - 1].ops))
  }

  /** The end variables of every operation of the first n jobs, in job and operation order. */
  function EndsUpTo(inst: Instance, n: nat): seq<IntVar>
    requires n <= |inst.jobs|
  {
    if n == 0 then []
    else EndsUpTo(inst, n - 1) + seq(|inst.jobs[n - 1].ops|, o requires 0 <= o < |inst.jobs[n - 1].ops| => End(TaskKey(n - 1, o)))
  }

  function MakespanDelta(inst: Instance, h: int): Delta
  {
    Delta([IntVarDecl(MakespanVar, 0, h)], [], [MaxEquality(MakespanVar, EndsUpTo(inst, |inst.jobs|))])
  }

  // ---------------------------------------------------------------------
  // The whole model
  // ---------------------------------------------------------------------

  /** The model after the choices step (lines 34-85). */
  function WithChoices(inst: Instance): Model
  {
    var tasks := TaskList(inst, |inst.jobs|);
    Extend(Extend(EmptyModel, TasksDelta(inst, Horizon(inst), |inst.jobs|)), Constraints(ChoicesUpTo(tasks, |tasks|)))
  }

  /** The model after both no-overlap steps (lines 88-105). */
  function WithNoOverlaps(inst: Instance): Model
  {
    var tasks := TaskList(inst, |inst.jobs|);
    var ms, es := AllResources(inst, Machines), AllResources(inst, Equipment);
    Extend(Extend(WithChoices(inst), Constraints(NoOverlapsUpTo(tasks, Machines, ms, |ms|))),
           Constraints(NoOverlapsUpTo(tasks, Equipment, es, |es|)))
  }

  /** The model `solve_fjsp_with_equipment` hands to the solver. */
  function Built(inst: Instance): Model
  {
    var m := Extend(Extend(WithNoOverlaps(inst), Constraints(PrecedencesUpTo(inst, |inst.jobs|))),
                    MakespanDelta(inst, Horizon(inst)));
    m.(objective := Some(MakespanVar))
  }
}

/**
 * The priority-vector greedy decoder of src/test.py: `fitness` (the
 * closure returned by `make_fitness_function`), `simulate_schedule` and
 * `decode_solution`. All three walk the operations in argsort order, put
 * each on the candidate machine that becomes free first, start it as soon
 * as both that machine and its job are free, and update the two
 * availability dictionaries in place.
 *
 * `Run` is the specification of that loop, one placement per visited
 * index; the three methods are the source's loops, each proved to compute
 * what `Run` says.
 */
module Decoder {
  import opened Wrappers
  import opened Argsort

  /** A job, keyed by its name as the `job_available` dictionary is. */
  datatype JobId = JobName(name: string)

  type MachineId = int

  /** A flattened operation record: its job, its candidate machines and its duration. */
  datatype FlatOp = FlatOp(job: JobId, machines: seq<MachineId>, duration: int)

  /** One record of the list `simulate_schedule` returns. */
  datatype Entry = Entry(job: JobId, machine: MachineId, start: int, end: int, duration: int, opIndex: nat)

  /** The schedule built so far and the two availability dictionaries. */
  datatype Trace = Trace(schedule: seq<Entry>, machineAvailable: map<MachineId, int>, jobAvailable: map<JobId, int>)

  /**
   * The decoder's failures: `min` over an empty candidate list and `max`
   * over an empty list of end times both raise `ValueError`.
   */
  datatype Error = EmptyCandidates(opIndex: nat) | NoOperations

  /** `d.get(k, 0)`: a key that was never set counts as free at time 0. */
  function Get<K>(d: map<K, int>, k: K): int
  {
    if k in d then d[k] else 0
  }

  function Max(a: int, b: int): int
  {
    if a < b then b else a
  }

  /**
   * The position Python's `min(cands, key=...)` selects: scanning left to
   * right, a later candidate replaces the best so far only when it is
   * strictly less available (`FirstMinIndexIsEarliestLeast`).
   */
  function FirstMinIndex(cands: seq<MachineId>, avail: map<MachineId, int>): (j: nat)
    requires |cands| > 0
    ensures j < |cands|
    decreases |cands|
  {
    if |cands| == 1 then 0
    else
      var j := FirstMinIndex(cands[..|cands| - 1], avail);
      if Get(avail, cands[|cands| - 1]) < Get(avail, cands[j]) then |cands| - 1 else j
  }

  /**
   * `min` picks a candidate with the least availability (a machine never
   * used counts as free at 0) and, among several, the first in list order.
   */
  lemma {:induction false} FirstMinIndexIsEarliestLeast(cands: seq<MachineId>, avail: map<MachineId, int>)
    requires |cands| > 0
    ensures var j := FirstMinIndex(cands, avail);
      && (forall i :: 0 <= i < |cands| ==> Get(avail, cands[j]) <= Get(avail, cands[i]))
      && (forall i :: 0 <= i < j ==> Get(avail, cands[j]) < Get(avail, cands[i]))
    decreases |cands|
  {
    if |cands| > 1 {
      FirstMinIndexIsEarliestLeast(cands[..|cands| - 1], avail);
    }
  }

  /** Every entry of `order` indexes `ops`. */
  predicate Indexes(ops: seq<FlatOp>, order: seq<nat>)
  {
    forall k :: 0 <= k < |order| ==> order[k] < |ops|
  }

  /** An argsort of a priority vector with one entry per operation is a visiting order over `ops`. */
  lemma ArgsortIndexes(ops: seq<FlatOp>, solution: seq<int>, order: seq<nat>)
    requires |solution| == |ops| && IsArgsort(solution, order)
    ensures Indexes(ops, order)
  {
  }

  /**
   * Places operation `op`, whose position in the operation list is `idx`,
   * after the trace `tr`: the body of the loops at src/test.py:19-32,
   * 60-78 and 93-110. `AssignEffect` states what it does.
   */
  function Assign(tr: Trace, op: FlatOp, idx: nat): Trace
    requires |op.machines| > 0
  {
    var ma, ja := tr.machineAvailable, tr.jobAvailable;
    var machine := op.machines[FirstMinIndex(op.machines, ma)];
    var start := Max(Get(ma, machine), Get(ja, op.job));
    var end := start + op.duration;
    Trace(tr.schedule + [Entry(op.job, machine, start, end, op.duration, idx)],
          ma[machine := end], ja[op.job := end])
  }

  /** One step of the loop: `min` over an empty candidate list raises, otherwise the operation is placed. */
  function Place(tr: Trace, op: FlatOp, idx: nat): Result<Trace, Error>
  {
    if |op.machines| == 0 then Err(EmptyCandidates(idx)) else Ok(Assign(tr, op, idx))
  }

  /** The empty trace: no record, both dictionaries empty. */
  const Initial: Trace := Trace([], map[], map[])

  /**
   * The decoder's run over the first `n` indices of the visiting order,
   * from empty dictionaries: one placement per visited index, stopping at
   * the first failure.
   */
  function RunPrefix(ops: seq<FlatOp>, order: seq<nat>, n: nat): Result<Trace, Error>
    requires Indexes(ops, order) && n <= |order|
  {
    if n == 0 then Ok(Initial)
    else
      match RunPrefix(ops, order, n - 1)
      case Err(e) => Err(e)
      case Ok(tr) => Place(tr, ops[order[n - 1]], order[n - 1])
  }

  /** The decoder's run over the whole visiting order; `RunOutcome` and `RunRecords` state what it produces. */
  function Run(ops: seq<FlatOp>, order: seq<nat>): Result<Trace, Error>
    requires Indexes(ops, order)
  {
    RunPrefix(ops, order, |order|)
  }

  /**
   * `traces` lists the state of the loop after 0, 1, ... placements along
   * `order`, every visited operation having a candidate machine: the
   * history a loop carries as it runs.
   */
  ghost predicate Follows(ops: seq<FlatOp>, order: seq<nat>, traces: seq<Trace>)
    requires Indexes(ops, order)
  {
    && 0 < |traces| <= |order| + 1
    && traces[0] == Initial
    && (forall k {:trigger order[k]} :: 0 <= k < |traces| - 1 ==> |ops[order[k]].machines| > 0)
    && (forall k {:trigger order[k]} :: 0 <= k < |traces| - 1 ==>
          traces[k + 1] == Assign(traces[k], ops[order[k]], order[k]))
  }

  /** Extending a history by one placement keeps it a history of the run. */
  lemma FollowsStep(ops: seq<FlatOp>, order: seq<nat>, traces: seq<Trace>)
    requires Indexes(ops, order) && Follows(ops, order, traces)
    requires |traces| <= |order| && |ops[order[|traces| - 1]].machines| > 0
    ensures Follows(ops, order, traces + [Assign(traces[|traces| - 1], ops[order[|traces| - 1]], order[|traces| - 1])])
  {
  }

  /** Each state of such a history is the run over the indices visited before it. */
  lemma {:induction false} FollowsRun(ops: seq<FlatOp>, order: seq<nat>, traces: seq<Trace>, n: nat)
    requires Indexes(ops, order) && Follows(ops, order, traces) && n < |traces|
    ensures RunPrefix(ops, order, n) == Ok(traces[n])
    decreases n
  {
    if n > 0 {
      FollowsRun(ops, order, traces, n - 1);
    }
  }

  /** Once the run has failed on a prefix of the order, it fails with the same error on every longer one. */
  lemma {:induction false} ErrorPersists(ops: seq<FlatOp>, order: seq<nat>, k: nat, n: nat)
    requires Indexes(ops, order) && k <= n <= |order|
    requires RunPrefix(ops, order, k).Err?
    ensures RunPrefix(ops, order, n) == RunPrefix(ops, order, k)
    decreases n
  {
    if k < n {
      ErrorPersists(ops, order, k, n - 1);
    }
  }

  /** A history that reaches an operation without candidates makes the whole run fail there. */
  lemma FollowsFails(ops: seq<FlatOp>, order: seq<nat>, traces: seq<Trace>)
    requires Indexes(ops, order) && Follows(ops, order, traces)
    requires |traces| <= |order| && |ops[order[|traces| - 1]].machines| == 0
    ensures Run(ops, order) == Err(EmptyCandidates(order[|traces| - 1]))
  {
    FollowsRun(ops, order, traces, |traces| - 1);
    ErrorPersists(ops, order, |traces|, |order|);
  }

  /** The largest element of a non-empty list, as Python's `max`. */
  function MaxOf(xs: seq<int>): (m: int)
    requires |xs| > 0
    ensures forall k :: 0 <= k < |xs| ==> xs[k] <= m
    ensures exists k :: 0 <= k < |xs| && xs[k] == m
  {
    if |xs| == 1 then xs[0]
    else
      var m := MaxOf(xs[..|xs| - 1]);
      Max(m, xs[|xs| - 1])
  }

  /** The end times of a schedule, in schedule order. */
  function Ends(schedule: seq<Entry>): (ends: seq<int>)
    ensures |ends| == |schedule|
    ensures forall k :: 0 <= k < |schedule| ==> ends[k] == schedule[k].end
  {
    if |schedule| == 0 then [] else Ends(schedule[..|schedule| - 1]) + [schedule[|schedule| - 1].end]
  }

  /** Appending a record appends its end time. */
  lemma EndsAppend(schedule: seq<Entry>, e: Entry)
    ensures Ends(schedule + [e]) == Ends(schedule) + [e.end]
  {
    assert (schedule + [e])[..|schedule|] == schedule;
  }

  /**
   * The value of `fitness`: the largest end time of the run, an error when
   * the run fails or when there is no operation at all
   * (`MakespanIsLargestEnd`).
   */
  function Makespan(ops: seq<FlatOp>, order: seq<nat>): Result<int, Error>
    requires Indexes(ops, order)
  {
    match Run(ops, order)
    case Err(e) => Err(e)
    case Ok(tr) =>
      if |tr.schedule| == 0 then Err(NoOperations)
      else
        Ok(MaxOf(Ends(tr.schedule)))
  }

  /** One printed line of `decode_solution`: its 1-based position and the placement it reports. */
  datatype Line = Line(position: nat, job: JobId, machine: MachineId, duration: int, start: int, end: int)

  /** The lines `decode_solution` prints for a schedule, numbered from 1. */
  function Report(schedule: seq<Entry>): (lines: seq<Line>)
    ensures |lines| == |schedule|
    ensures forall k :: 0 <= k < |schedule| ==>
      lines[k] == Line(k + 1, schedule[k].job, schedule[k].machine, schedule[k].duration,
                       schedule[k].start, schedule[k].end)
  {
    if |schedule| == 0 then []
    else
      var e := schedule[|schedule| - 1];
      Report(schedule[..|schedule| - 1]) + [Line(|schedule|, e.job, e.machine, e.duration, e.start, e.end)]
  }

  /** Appending a record appends its line, numbered after the others. */
  lemma ReportAppend(schedule: seq<Entry>, e: Entry)
    ensures Report(schedule + [e])
      == Report(schedule) + [Line(|schedule| + 1, e.job, e.machine, e.duration, e.start, e.end)]
  {
    assert (schedule + [e])[..|schedule|] == schedule;
  }

  /**
   * The body shared by the three loops (src/test.py:26-32, 63-76, 95-101):
   * the first machine among the candidates that frees up earliest, the
   * start and end of the operation on it, and both dictionaries updated
   * with the end time; together they are one `Assign` step.
   */
  method PlaceOperation(ghost schedule: seq<Entry>, machineAvailable: map<MachineId, int>,
                        jobAvailable: map<JobId, int>, op: FlatOp, idx: nat)
    returns (machine: MachineId, startTime: int, endTime: int,
             machineAvailable': map<MachineId, int>, jobAvailable': map<JobId, int>)
    requires |op.machines| > 0
    ensures machine in op.machines && endTime == startTime + op.duration
    ensures Assign(Trace(schedule, machineAvailable, jobAvailable), op, idx)
      == Trace(schedule + [Entry(op.job, machine, startTime, endTime, op.duration, idx)],
               machineAvailable', jobAvailable')
  {
    machine := op.machines[FirstMinIndex(op.machines, machineAvailable)];
    startTime := Max(Get(machineAvailable, machine), Get(jobAvailable, op.job));
    endTime := startTime + op.duration;
    machineAvailable' := machineAvailable[machine := endTime];
    jobAvailable' := jobAvailable[op.job := endTime];
  }

  /**
   * `simulate_schedule` (src/test.py:86-112), with `order` the result of
   * `np.argsort(solution_vec)` (`ArgsortIndexes`): the schedule list, one
   * record per visited operation.
   */
  method SimulateSchedule(ops: seq<FlatOp>, order: seq<nat>) returns (r: Result<seq<Entry>, Error>)
    requires Indexes(ops, order)
    ensures Run(ops, order).Ok? ==> r == Ok(Run(ops, order).value.schedule)
    ensures Run(ops, order).Err? ==> r == Err(Run(ops, order).error)
  {
    var machineAvailable: map<MachineId, int> := map[];
    var jobAvailable: map<JobId, int> := map[];
    var schedule: seq<Entry> := [];
    ghost var traces := [Initial];
    var i := 0;
    while i < |order|
      invariant 0 <= i <= |order|
      invariant |traces| == i + 1 && Follows(ops, order, traces)
      invariant traces[i] == Trace(schedule, machineAvailable, jobAvailable)
    {
      var idx := order[i];
      var op := ops[idx];
      var job := op.job;
      if |op.machines| == 0 {
        FollowsFails(ops, order, traces);
        return Err(EmptyCandidates(idx));
      }
      FollowsStep(ops, order, traces);
      traces := traces + [Assign(traces[i], op, idx)];
      var machine, startTime, endTime;
      machine, startTime, endTime, machineAvailable, jobAvailable :=
        PlaceOperation(schedule, machineAvailable, jobAvailable, op, idx);
      schedule := schedule + [Entry(job, machine, startTime, endTime, op.duration, idx)];
      i := i + 1;
    }
    FollowsRun(ops, order, traces, i);
    r := Ok(schedule);
  }

  /**
   * `fitness` (src/test.py:46-81), the closure `make_fitness_function`
   * returns, with the flattened operations it captures passed in and
   * `order` the result of `np.argsort(solution)`: the largest end time.
   */
  method Fitness(ops: seq<FlatOp>, order: seq<nat>) returns (r: Result<int, Error>)
    requires Indexes(ops, order)
    ensures r == Makespan(ops, order)
  {
    var machineAvailable: map<MachineId, int> := map[];
    var jobAvailable: map<JobId, int> := map[];
    var endTimes: seq<int> := [];
    ghost var schedule: seq<Entry> := [];
    ghost var traces := [Initial];
    var i := 0;
    while i < |order|
      invariant 0 <= i <= |order|
      invariant |traces| == i + 1 && Follows(ops, order, traces)
      invariant traces[i] == Trace(schedule, machineAvailable, jobAvailable)
      invariant endTimes == Ends(schedule)
    {
      var idx := order[i];
      var op := ops[idx];
      var job := op.job;
      if |op.machines| == 0 {
        FollowsFails(ops, order, traces);
        return Err(EmptyCandidates(idx));
      }
      FollowsStep(ops, order, traces);
      traces := traces + [Assign(traces[i], op, idx)];
      var machine, startTime, endTime;
      machine, startTime, endTime, machineAvailable, jobAvailable :=
        PlaceOperation(schedule, machineAvailable, jobAvailable, op, idx);
      EndsAppend(schedule, Entry(job, machine, startTime, endTime, op.duration, idx));
      schedule := schedule + [Entry(job, machine, startTime, endTime, op.duration, idx)];
      endTimes := endTimes + [endTime];
      i := i + 1;
    }
    FollowsRun(ops, order, traces, i);
    if |endTimes| == 0 {
      return Err(NoOperations);
    }
    r := Ok(MaxOf(endTimes));
  }

  /**
   * `decode_solution` (src/test.py:9-34), with `order` the result of
   * `np.argsort(solution_vec)`: the same loop, returning the numbered
   * lines it prints.
   */
  method DecodeSolution(ops: seq<FlatOp>, order: seq<nat>) returns (r: Result<seq<Line>, Error>)
    requires Indexes(ops, order)
    ensures Run(ops, order).Ok? ==> r == Ok(Report(Run(ops, order).value.schedule))
    ensures Run(ops, order).Err? ==> r == Err(Run(ops, order).error)
  {
    var machineAvailable: map<MachineId, int> := map[];
    var jobAvailable: map<JobId, int> := map[];
    var lines: seq<Line> := [];
    ghost var schedule: seq<Entry> := [];
    ghost var traces := [Initial];
    var i := 0;
    while i < |order|
      invariant 0 <= i <= |order|
      invariant |traces| == i + 1 && Follows(ops, order, traces)
      invariant traces[i] == Trace(schedule, machineAvailable, jobAvailable)
      invariant |schedule| == i && lines == Report(schedule)
    {
      var idx := order[i];
      var op := ops[idx];
      var job := op.job;
      if |op.machines| == 0 {
        FollowsFails(ops, order, traces);
        return Err(EmptyCandidates(idx));
      }
      FollowsStep(ops, order, traces);
      traces := traces + [Assign(traces[i], op, idx)];
      var machine, startTime, endTime;
      machine, startTime, endTime, machineAvailable, jobAvailable :=
        PlaceOperation(schedule, machineAvailable, jobAvailable, op, idx);
      ghost var e := Entry(job, machine, startTime, endTime, op.duration, idx);
      ReportAppend(schedule, e);
      lines := lines + [Line(i + 1, job, machine, op.duration, startTime, endTime)];
      schedule := schedule + [e];
      i := i + 1;
    }
    FollowsRun(ops, order, traces, i);
    r := Ok(lines);
  }
}

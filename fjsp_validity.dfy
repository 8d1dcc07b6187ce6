/**
 * What a solution of the model built by `solve_fjsp_with_equipment`
 * (src/get_makespan.py:11-124) means for the instance: any assignment that
 * satisfies `Built(inst)` is a valid schedule. It keeps every variable in
 * [0, horizon], gives each operation one machine and one equipment item
 * when it has candidates, runs each operation for its duration, keeps the
 * operations of a job in order, never overlaps two operations on one
 * machine or one equipment item, keeps every downtime point of the chosen
 * machine outside [start, end), and makes the makespan the latest end.
 */
module FjspValidity {
  import opened Wrappers
  import opened CpSat
  import opened Fjsp

  // ---------------------------------------------------------------------
  // The schedule an assignment describes
  // ---------------------------------------------------------------------

  ghost predicate WithinHorizon(inst: Instance, a: Assignment)
  {
    && (forall t :: ValidTask(inst, t) ==>
          0 <= a.value(Start(t)) <= Horizon(inst) && 0 <= a.value(End(t)) <= Horizon(inst))
    && 0 <= a.value(MakespanVar) <= Horizon(inst)
  }

  /** An operation that uses any of its candidates runs for its duration. */
  ghost predicate DurationsKept(inst: Instance, a: Assignment)
  {
    forall t, kind, k: nat :: ValidTask(inst, t) && k < |Candidates(OpAt(inst, t), kind)| && a.truth(Presence(kind, t, k)) ==>
      a.value(Start(t)) + OpAt(inst, t).duration == a.value(End(t))
  }

  /** Exactly one of the first n candidates of the given kind is chosen. */
  ghost predicate ChosenOnce(a: Assignment, kind: Kind, t: TaskKey, n: nat)
  {
    exists k :: 0 <= k < n && a.truth(Presence(kind, t, k)) &&
      forall k2 :: 0 <= k2 < n && k2 != k ==> !a.truth(Presence(kind, t, k2))
  }

  /** Every operation with candidate machines (equipment) uses exactly one of them. */
  ghost predicate OneCandidateEach(inst: Instance, a: Assignment)
  {
    forall t, kind :: ValidTask(inst, t) && |Candidates(OpAt(inst, t), kind)| > 0 ==>
      ChosenOnce(a, kind, t, |Candidates(OpAt(inst, t), kind)|)
  }

  /** Within a job, an operation starts no earlier than its predecessor ends. */
  ghost predicate PrecedenceKept(inst: Instance, a: Assignment)
  {
    forall t :: ValidTask(inst, t) && t.op + 1 < |inst.jobs[t.job].ops| ==>
      a.value(End(t)) <= a.value(Start(TaskKey(t.job, t.op + 1)))
  }

  /** Two different chosen candidates that name the same resource are not in use at the same time. */
  ghost predicate ResourceExclusive(inst: Instance, a: Assignment, kind: Kind)
  {
    forall t1, k1: nat, t2, k2: nat ::
      && ValidTask(inst, t1) && ValidTask(inst, t2)
      && k1 < |Candidates(OpAt(inst, t1), kind)| && k2 < |Candidates(OpAt(inst, t2), kind)|
      && (t1 != t2 || k1 != k2)
      && Candidates(OpAt(inst, t1), kind)[k1] == Candidates(OpAt(inst, t2), kind)[k2]
      && a.truth(Presence(kind, t1, k1)) && a.truth(Presence(kind, t2, k2))
      ==> a.value(End(t1)) <= a.value(Start(t2)) || a.value(End(t2)) <= a.value(Start(t1))
  }

  /** No downtime point of a chosen machine lies in [start, end) of the operation. */
  ghost predicate DowntimesAvoided(inst: Instance, a: Assignment)
  {
    forall t, k: nat, d: nat ::
      && ValidTask(inst, t) && k < |OpAt(inst, t).machines|
      && OpAt(inst, t).machines[k] in inst.downtimes
      && d < |inst.downtimes[OpAt(inst, t).machines[k]]|
      && a.truth(MachinePresent(t, k))
      ==> inst.downtimes[OpAt(inst, t).machines[k]][d] < a.value(Start(t))
          || inst.downtimes[OpAt(inst, t).machines[k]][d] >= a.value(End(t))
  }

  /** The makespan is the latest end of all operations. */
  ghost predicate MakespanIsLatestEnd(inst: Instance, a: Assignment)
  {
    && (forall t :: ValidTask(inst, t) ==> a.value(End(t)) <= a.value(MakespanVar))
    && (exists t :: ValidTask(inst, t) && a.value(End(t)) == a.value(MakespanVar))
  }

  ghost predicate ValidSchedule(inst: Instance, a: Assignment)
  {
    && WithinHorizon(inst, a)
    && DurationsKept(inst, a)
    && OneCandidateEach(inst, a)
    && PrecedenceKept(inst, a)
    && ResourceExclusive(inst, a, Machines)
    && ResourceExclusive(inst, a, Equipment)
    && DowntimesAvoided(inst, a)
    && MakespanIsLatestEnd(inst, a)
  }

  // ---------------------------------------------------------------------
  // Where each constraint sits in the built model
  // ---------------------------------------------------------------------

  /** Every declaration and every constraint of `small` is one of `big`. */
  ghost predicate Includes(big: Delta, small: Delta)
  {
    && (forall v :: v in small.intVars ==> v in big.intVars)
    && (forall b :: b in small.boolVars ==> b in big.boolVars)
    && (forall c :: c in small.constraints ==> c in big.constraints)
  }

  function Whole(m: Model): Delta
  {
    Delta(m.intVars, m.boolVars, m.constraints)
  }

  /** When each f(k) adds g(k - 1) to f(k - 1), f(n) includes every g(o) with o < n. */
  lemma {:induction false} JoinsInclude(f: nat -> Delta, g: nat -> Delta, o: nat, n: nat)
    requires o < n
    requires forall k: nat :: 0 < k <= n ==> f(k) == Join(f(k - 1), g(k - 1))
    ensures Includes(f(n), g(o))
    decreases n
  {
    if o < n - 1 {
      JoinsInclude(f, g, o, n - 1);
    }
  }

  lemma DowntimeStepsInclude(t: TaskKey, k: nat, points: seq<int>, d: nat, n: nat)
    requires d < n <= |points|
    ensures Includes(DowntimeSteps(t, k, points, n), DowntimeStep(t, k, points[d], d))
  {
    var f := (i: nat) => if i <= |points| then DowntimeSteps(t, k, points, i) else NoDelta;
    var g := (i: nat) => if i < |points| then DowntimeStep(t, k, points[i], i) else NoDelta;
    JoinsInclude(f, g, d, n);
  }

  lemma CandidateStepsInclude(inst: Instance, t: TaskKey, op: OpSpec, kind: Kind, k: nat, n: nat)
    requires k < n <= |Candidates(op, kind)|
    ensures Includes(CandidateSteps(inst, t, op, kind, n), CandidateStep(inst, t, op, kind, k))
  {
    var size := |Candidates(op, kind)|;
    var f := (i: nat) => if i <= size then CandidateSteps(inst, t, op, kind, i) else NoDelta;
    var g := (i: nat) => if i < size then CandidateStep(inst, t, op, kind, i) else NoDelta;
    JoinsInclude(f, g, k, n);
  }

  lemma JobDeltaIncludes(inst: Instance, h: int, j: nat, o: nat, n: nat)
    requires j < |inst.jobs| && o < n <= |inst.jobs[j].ops|
    ensures Includes(JobDelta(inst, h, j, n), OpDelta(inst, h, TaskKey(j, o)))
  {
    JoinsInclude(JobDeltas(inst, h, j), OpDeltas(inst, h, j), o, n);
  }

  /** JobDelta and OpDelta of job j as total functions of the operation count and index. */
  function JobDeltas(inst: Instance, h: int, j: nat): nat -> Delta
  {
    (i: nat) => if j < |inst.jobs| && i <= |inst.jobs[j].ops| then JobDelta(inst, h, j, i) else NoDelta
  }

  function OpDeltas(inst: Instance, h: int, j: nat): nat -> Delta
  {
    (i: nat) => if j < |inst.jobs| && i < |inst.jobs[j].ops| then OpDelta(inst, h, TaskKey(j, i)) else NoDelta
  }

  lemma TasksDeltaIncludes(inst: Instance, h: int, j: nat, n: nat)
    requires j < n <= |inst.jobs|
    ensures Includes(TasksDelta(inst, h, n), JobDelta(inst, h, j, |inst.jobs[j].ops|))
  {
    var f := (i: nat) => if i <= |inst.jobs| then TasksDelta(inst, h, i) else NoDelta;
    var g := (i: nat) => if i < |inst.jobs| then JobDelta(inst, h, i, |inst.jobs[i].ops|) else NoDelta;
    JoinsInclude(f, g, j, n);
  }

  /** `m` holds the variables, intervals and downtime constraints of every operation. */
  ghost predicate HasTasks(inst: Instance, m: Model)
  {
    Includes(Whole(m), TasksDelta(inst, Horizon(inst), |inst.jobs|))
  }

  /** `m` holds the exactly-one constraints of every operation. */
  ghost predicate HasChoices(inst: Instance, m: Model)
  {
    var tasks := TaskList(inst, |inst.jobs|);
    forall c :: c in ChoicesUpTo(tasks, |tasks|) ==> c in m.constraints
  }

  /** `m` holds the no-overlap constraints of every resource of the kind. */
  ghost predicate HasNoOverlaps(inst: Instance, m: Model, kind: Kind)
  {
    var rs := AllResources(inst, kind);
    forall c :: c in NoOverlapsUpTo(TaskList(inst, |inst.jobs|), kind, rs, |rs|) ==> c in m.constraints
  }

  ghost predicate HasPrecedences(inst: Instance, m: Model)
  {
    forall c :: c in PrecedencesUpTo(inst, |inst.jobs|) ==> c in m.constraints
  }

  ghost predicate HasMakespan(inst: Instance, m: Model)
  {
    && MaxEquality(MakespanVar, EndsUpTo(inst, |inst.jobs|)) in m.constraints
    && IntVarDecl(MakespanVar, 0, Horizon(inst)) in m.intVars
  }

  /** `m` holds every part the built model is made of. */
  ghost predicate BuiltFrom(inst: Instance, m: Model)
  {
    && HasTasks(inst, m)
    && HasChoices(inst, m)
    && HasNoOverlaps(inst, m, Machines)
    && HasNoOverlaps(inst, m, Equipment)
    && HasPrecedences(inst, m)
    && HasMakespan(inst, m)
  }

  lemma BuiltIncludes(inst: Instance)
    ensures BuiltFrom(inst, Built(inst))
  {
  }

  /** Everything added for one operation is in the built model. */
  lemma OpInBuilt(inst: Instance, m: Model, t: TaskKey)
    requires HasTasks(inst, m) && ValidTask(inst, t)
    ensures Includes(Whole(m), OpDelta(inst, Horizon(inst), t))
  {
    JobDeltaIncludes(inst, Horizon(inst), t.job, t.op, |inst.jobs[t.job].ops|);
    TasksDeltaIncludes(inst, Horizon(inst), t.job, |inst.jobs|);
  }

  /** Everything added for one candidate of one operation is in the built model. */
  lemma CandidateInBuilt(inst: Instance, m: Model, t: TaskKey, kind: Kind, k: nat)
    requires HasTasks(inst, m) && ValidTask(inst, t) && k < |Candidates(OpAt(inst, t), kind)|
    ensures Includes(Whole(m), CandidateStep(inst, t, OpAt(inst, t), kind, k))
  {
    var op := OpAt(inst, t);
    CandidateStepsInclude(inst, t, op, kind, k, |Candidates(op, kind)|);
    OpInBuilt(inst, m, t);
    match kind
    case Machines =>
    case Equipment =>
  }

  lemma {:induction false} ChoicesInclude(tasks: seq<TaskVars>, i: nat, n: nat)
    requires i < n <= |tasks|
    ensures forall c :: c in ChoiceConstraints(tasks[i]) ==> c in ChoicesUpTo(tasks, n)
    decreases n
  {
    if i < n - 1 {
      ChoicesInclude(tasks, i, n - 1);
    }
  }

  lemma {:induction false} NoOverlapsInclude(tasks: seq<TaskVars>, kind: Kind, rs: seq<int>, i: nat, n: nat)
    requires i < n <= |rs|
    ensures forall c :: c in NoOverlapFor(tasks, kind, rs[i]) ==> c in NoOverlapsUpTo(tasks, kind, rs, n)
    decreases n
  {
    NoOverlapsLast(tasks, kind, rs, n);
    if i < n - 1 {
      NoOverlapsInclude(tasks, kind, rs, i, n - 1);
    }
  }

  /** The constraints of the first n resources hold those of the first n - 1 and those of the n-th. */
  lemma NoOverlapsLast(tasks: seq<TaskVars>, kind: Kind, rs: seq<int>, n: nat)
    requires 0 < n <= |rs|
    ensures forall c :: c in NoOverlapsUpTo(tasks, kind, rs, n - 1) ==> c in NoOverlapsUpTo(tasks, kind, rs, n)
    ensures forall c :: c in NoOverlapFor(tasks, kind, rs[n - 1]) ==> c in NoOverlapsUpTo(tasks, kind, rs, n)
  {
    assert NoOverlapsUpTo(tasks, kind, rs, n)
      == NoOverlapsUpTo(tasks, kind, rs, n - 1) + NoOverlapFor(tasks, kind, rs[n - 1]);
  }

  lemma {:induction false} MatchingUpToContain(opts: seq<ResourceOption>, r: int, k: nat, n: nat)
    requires k < n <= |opts| && opts[k].resource == r
    ensures opts[k].interval in MatchingUpTo(opts, r, n)
    decreases n
  {
    if k < n - 1 {
      MatchingUpToContain(opts, r, k, n - 1);
    }
  }

  /** The interval of every option naming r is in the list built for r. */
  lemma {:induction false} IntervalsUpToContain(tasks: seq<TaskVars>, kind: Kind, r: int, i: nat, k: nat, n: nat)
    requires i < n <= |tasks| && k < |OptionsOf(tasks[i], kind)| && OptionsOf(tasks[i], kind)[k].resource == r
    ensures OptionsOf(tasks[i], kind)[k].interval in IntervalsUpTo(tasks, kind, r, n)
    decreases n
  {
    if i < n - 1 {
      IntervalsUpToContain(tasks, kind, r, i, k, n - 1);
    } else {
      MatchingUpToContain(OptionsOf(tasks[i], kind), r, k, |OptionsOf(tasks[i], kind)|);
    }
  }

  lemma {:induction false} PrecedencesInclude(inst: Instance, j: nat, n: nat, o: nat)
    requires j < n <= |inst.jobs| && o < PrecedenceCount(inst.jobs[j].ops)
    ensures PrecedenceAt(j, o) in PrecedencesUpTo(inst, n)
    decreases n
  {
    if j < n - 1 {
      PrecedencesInclude(inst, j, n - 1, o);
    } else {
      assert JobPrecedences(j, PrecedenceCount(inst.jobs[j].ops))[o] == PrecedenceAt(j, o);
    }
  }

  /** The end of every operation of the first n jobs is among the ends. */
  lemma {:induction false} EndsUpToContain(inst: Instance, t: TaskKey, n: nat)
    requires ValidTask(inst, t) && t.job < n <= |inst.jobs|
    ensures End(t) in EndsUpTo(inst, n)
    decreases n
  {
    if t.job < n - 1 {
      EndsUpToContain(inst, t, n - 1);
    } else {
      var last := seq(|inst.jobs[n - 1].ops|, o requires 0 <= o < |inst.jobs[n - 1].ops| => End(TaskKey(n - 1, o)));
      assert last[t.op] == End(t);
    }
  }

  /** Every entry of the ends is the end of an operation. */
  lemma {:induction false} EndsUpToOnlyEnds(inst: Instance, n: nat, x: IntVar)
    requires n <= |inst.jobs| && x in EndsUpTo(inst, n)
    ensures exists t :: ValidTask(inst, t) && x == End(t)
    decreases n
  {
    var last := seq(|inst.jobs[n - 1].ops|, o requires 0 <= o < |inst.jobs[n - 1].ops| => End(TaskKey(n - 1, o)));
    assert EndsUpTo(inst, n) == EndsUpTo(inst, n - 1) + last;
    if x in EndsUpTo(inst, n - 1) {
      EndsUpToOnlyEnds(inst, n - 1, x);
    } else {
      var o :| 0 <= o < |last| && last[o] == x;
      assert ValidTask(inst, TaskKey(n - 1, o));
    }
  }

  lemma {:induction false} OpsResourcesContain(ops: seq<OpSpec>, o: nat, kind: Kind, r: int)
    requires o < |ops| && r in Candidates(ops[o], kind)
    ensures r in OpsResources(ops, kind)
    decreases |ops|
  {
    if o < |ops| - 1 {
      OpsResourcesContain(ops[..|ops| - 1], o, kind, r);
    }
  }

  lemma {:induction false} JobsResourcesContain(jobs: seq<JobSpec>, j: nat, o: nat, kind: Kind, r: int)
    requires j < |jobs| && o < |jobs[j].ops| && r in Candidates(jobs[j].ops[o], kind)
    ensures r in JobsResources(jobs, kind)
    decreases |jobs|
  {
    if j < |jobs| - 1 {
      JobsResourcesContain(jobs[..|jobs| - 1], j, o, kind, r);
    } else {
      OpsResourcesContain(jobs[j].ops, o, kind, r);
    }
  }

  // ---------------------------------------------------------------------
  // Each property of a satisfying assignment
  // ---------------------------------------------------------------------

  lemma SatisfiedWithinHorizon(inst: Instance, m: Model, a: Assignment)
    requires HasTasks(inst, m) && HasMakespan(inst, m) && Satisfies(m, a)
    ensures WithinHorizon(inst, a)
  {
    forall t | ValidTask(inst, t)
      ensures 0 <= a.value(Start(t)) <= Horizon(inst) && 0 <= a.value(End(t)) <= Horizon(inst)
    {
      OpInBuilt(inst, m, t);
      assert IntVarDecl(Start(t), 0, Horizon(inst)) in OpDelta(inst, Horizon(inst), t).intVars;
      assert IntVarDecl(End(t), 0, Horizon(inst)) in OpDelta(inst, Horizon(inst), t).intVars;
    }
  }

  lemma SatisfiedDurations(inst: Instance, m: Model, a: Assignment)
    requires HasTasks(inst, m) && Satisfies(m, a)
    ensures DurationsKept(inst, a)
  {
    forall t, kind, k: nat | ValidTask(inst, t) && k < |Candidates(OpAt(inst, t), kind)| && a.truth(Presence(kind, t, k))
      ensures a.value(Start(t)) + OpAt(inst, t).duration == a.value(End(t))
    {
      CandidateInBuilt(inst, m, t, kind, k);
      var iv := OptionAt(t, OpAt(inst, t), kind, k).interval;
      assert IntervalOf(iv) in CandidateStep(inst, t, OpAt(inst, t), kind, k).constraints;
      assert Holds(IntervalOf(iv), a);
    }
  }

  /** The exactly-one constraint of an operation's candidates of one kind is in the built model. */
  lemma ChoiceInBuilt(inst: Instance, m: Model, t: TaskKey, kind: Kind)
    requires HasChoices(inst, m) && ValidTask(inst, t) && |Candidates(OpAt(inst, t), kind)| > 0
    ensures ExactlyOne(Presences(Options(t, OpAt(inst, t), kind))) in m.constraints
  {
    var tasks := TaskList(inst, |inst.jobs|);
    TaskListAt(inst, t.job, t.op);
    var i := |TaskList(inst, t.job)| + t.op;
    ChoicesInclude(tasks, i, |tasks|);
    assert tasks[i] == TaskOf(inst, t);
    match kind
    case Machines =>
      assert ExactlyOne(Presences(tasks[i].machines)) in ChoiceConstraints(tasks[i]);
    case Equipment =>
      assert ExactlyOne(Presences(tasks[i].equipment)) in ChoiceConstraints(tasks[i]);
  }

  /** An exactly-one constraint over the presences of a candidate list chooses one candidate. */
  lemma ChosenFromExactlyOne(a: Assignment, kind: Kind, t: TaskKey, opts: seq<ResourceOption>)
    requires forall k :: 0 <= k < |opts| ==> opts[k].presence == Presence(kind, t, k)
    requires ExactlyOneTrue(Presences(opts), a)
    ensures ChosenOnce(a, kind, t, |opts|)
  {
    var vs := Presences(opts);
    var i :| 0 <= i < |vs| && a.truth(vs[i]) && forall k :: 0 <= k < |vs| && k != i ==> !a.truth(vs[k]);
    assert vs[i] == Presence(kind, t, i);
    forall k2 | 0 <= k2 < |vs| && k2 != i
      ensures !a.truth(Presence(kind, t, k2))
    {
      assert vs[k2] == Presence(kind, t, k2);
    }
  }

  lemma SatisfiedChoices(inst: Instance, m: Model, a: Assignment)
    requires HasChoices(inst, m) && Satisfies(m, a)
    ensures OneCandidateEach(inst, a)
  {
    forall t, kind | ValidTask(inst, t) && |Candidates(OpAt(inst, t), kind)| > 0
      ensures ChosenOnce(a, kind, t, |Candidates(OpAt(inst, t), kind)|)
    {
      ChoiceInBuilt(inst, m, t, kind);
      ChosenFromExactlyOne(a, kind, t, Options(t, OpAt(inst, t), kind));
    }
  }

  lemma SatisfiedPrecedence(inst: Instance, m: Model, a: Assignment)
    requires HasPrecedences(inst, m) && Satisfies(m, a)
    ensures PrecedenceKept(inst, a)
  {
    forall t | ValidTask(inst, t) && t.op + 1 < |inst.jobs[t.job].ops|
      ensures a.value(End(t)) <= a.value(Start(TaskKey(t.job, t.op + 1)))
    {
      PrecedencesInclude(inst, t.job, |inst.jobs|, t.op);
      assert Holds(PrecedenceAt(t.job, t.op), a);
    }
  }

  /** The interval of an operation's k-th candidate is in the list built for the resource it names. */
  lemma OptionIntervalListed(inst: Instance, t: TaskKey, kind: Kind, k: nat)
    requires ValidTask(inst, t) && k < |Candidates(OpAt(inst, t), kind)|
    ensures OptionAt(t, OpAt(inst, t), kind, k).interval
      in IntervalsFor(TaskList(inst, |inst.jobs|), kind, Candidates(OpAt(inst, t), kind)[k])
  {
    var tasks := TaskList(inst, |inst.jobs|);
    TaskListAt(inst, t.job, t.op);
    var i := |TaskList(inst, t.job)| + t.op;
    assert OptionsOf(tasks[i], kind)[k] == OptionAt(t, OpAt(inst, t), kind, k) by {
      match kind
      case Machines =>
      case Equipment =>
    }
    IntervalsUpToContain(tasks, kind, Candidates(OpAt(inst, t), kind)[k], i, k, |tasks|);
  }

  /** A resource some operation names gets a no-overlap constraint over its intervals, when it has any. */
  lemma ResourceNoOverlap(inst: Instance, m: Model, kind: Kind, r: int)
    requires HasNoOverlaps(inst, m, kind) && r in JobsResources(inst.jobs, kind)
    requires |IntervalsFor(TaskList(inst, |inst.jobs|), kind, r)| > 0
    ensures NoOverlap(IntervalsFor(TaskList(inst, |inst.jobs|), kind, r)) in m.constraints
  {
    var tasks := TaskList(inst, |inst.jobs|);
    var rs := AllResources(inst, kind);
    assert r in rs;
    var n :| 0 <= n < |rs| && rs[n] == r;
    NoOverlapsInclude(tasks, kind, rs, n, |rs|);
    assert NoOverlap(IntervalsFor(tasks, kind, r)) in NoOverlapFor(tasks, kind, r);
  }

  /** The no-overlap constraint of the resource an option names holds the option's interval. */
  lemma NoOverlapInBuilt(inst: Instance, m: Model, t: TaskKey, kind: Kind, k: nat)
    requires HasNoOverlaps(inst, m, kind) && ValidTask(inst, t) && k < |Candidates(OpAt(inst, t), kind)|
    ensures var r := Candidates(OpAt(inst, t), kind)[k];
      var ivs := IntervalsFor(TaskList(inst, |inst.jobs|), kind, r);
      && OptionAt(t, OpAt(inst, t), kind, k).interval in ivs
      && NoOverlap(ivs) in m.constraints
  {
    var r := Candidates(OpAt(inst, t), kind)[k];
    OptionIntervalListed(inst, t, kind, k);
    JobsResourcesContain(inst.jobs, t.job, t.op, kind, r);
    ResourceNoOverlap(inst, m, kind, r);
  }

  /** Two chosen options naming one resource do not overlap. */
  lemma SatisfiedPairExclusive(inst: Instance, m: Model, a: Assignment, kind: Kind, t1: TaskKey, k1: nat, t2: TaskKey, k2: nat)
    requires HasNoOverlaps(inst, m, kind) && Satisfies(m, a)
    requires ValidTask(inst, t1) && ValidTask(inst, t2)
    requires k1 < |Candidates(OpAt(inst, t1), kind)| && k2 < |Candidates(OpAt(inst, t2), kind)|
    requires t1 != t2 || k1 != k2
    requires Candidates(OpAt(inst, t1), kind)[k1] == Candidates(OpAt(inst, t2), kind)[k2]
    requires a.truth(Presence(kind, t1, k1)) && a.truth(Presence(kind, t2, k2))
    ensures a.value(End(t1)) <= a.value(Start(t2)) || a.value(End(t2)) <= a.value(Start(t1))
  {
    var ivs := IntervalsFor(TaskList(inst, |inst.jobs|), kind, Candidates(OpAt(inst, t1), kind)[k1]);
    NoOverlapInBuilt(inst, m, t1, kind, k1);
    NoOverlapInBuilt(inst, m, t2, kind, k2);
    var x, y := OptionAt(t1, OpAt(inst, t1), kind, k1).interval, OptionAt(t2, OpAt(inst, t2), kind, k2).interval;
    assert x.presence != y.presence by {
      match kind
      case Machines =>
      case Equipment =>
    }
    NoOverlapMembers(ivs, x, y, a);
  }

  lemma SatisfiedExclusive(inst: Instance, m: Model, a: Assignment, kind: Kind)
    requires HasNoOverlaps(inst, m, kind) && Satisfies(m, a)
    ensures ResourceExclusive(inst, a, kind)
  {
    forall t1, k1: nat, t2, k2: nat |
      && ValidTask(inst, t1) && ValidTask(inst, t2)
      && k1 < |Candidates(OpAt(inst, t1), kind)| && k2 < |Candidates(OpAt(inst, t2), kind)|
      && (t1 != t2 || k1 != k2)
      && Candidates(OpAt(inst, t1), kind)[k1] == Candidates(OpAt(inst, t2), kind)[k2]
      && a.truth(Presence(kind, t1, k1)) && a.truth(Presence(kind, t2, k2))
      ensures a.value(End(t1)) <= a.value(Start(t2)) || a.value(End(t2)) <= a.value(Start(t1))
    {
      SatisfiedPairExclusive(inst, m, a, kind, t1, k1, t2, k2);
    }
  }

  /** One downtime point of one chosen machine lies outside the operation. */
  lemma SatisfiedDowntime(inst: Instance, m: Model, a: Assignment, t: TaskKey, k: nat, d: nat)
    requires HasTasks(inst, m) && Satisfies(m, a)
    requires ValidTask(inst, t) && k < |OpAt(inst, t).machines|
    requires OpAt(inst, t).machines[k] in inst.downtimes
    requires d < |inst.downtimes[OpAt(inst, t).machines[k]]|
    requires a.truth(MachinePresent(t, k))
    ensures inst.downtimes[OpAt(inst, t).machines[k]][d] < a.value(Start(t))
         || inst.downtimes[OpAt(inst, t).machines[k]][d] >= a.value(End(t))
  {
    var points := inst.downtimes[OpAt(inst, t).machines[k]];
    CandidateInBuilt(inst, m, t, Machines, k);
    DowntimeStepsInclude(t, k, points, d, |points|);
    var step := DowntimeStep(t, k, points[d], d);
    assert Holds(step.constraints[0], a);
    assert Holds(step.constraints[1], a);
    if a.truth(BeforeOp(t, k, d)) {
      assert forall l :: l in [Pos(MachinePresent(t, k)), Pos(BeforeOp(t, k, d))] ==> LiteralHolds(l, a);
    } else {
      assert forall l :: l in [Pos(MachinePresent(t, k)), Neg(BeforeOp(t, k, d))] ==> LiteralHolds(l, a);
    }
  }

  lemma SatisfiedDowntimes(inst: Instance, m: Model, a: Assignment)
    requires HasTasks(inst, m) && Satisfies(m, a)
    ensures DowntimesAvoided(inst, a)
  {
    forall t, k: nat, d: nat |
      && ValidTask(inst, t) && k < |OpAt(inst, t).machines|
      && OpAt(inst, t).machines[k] in inst.downtimes
      && d < |inst.downtimes[OpAt(inst, t).machines[k]]|
      && a.truth(MachinePresent(t, k))
      ensures inst.downtimes[OpAt(inst, t).machines[k]][d] < a.value(Start(t))
           || inst.downtimes[OpAt(inst, t).machines[k]][d] >= a.value(End(t))
    {
      SatisfiedDowntime(inst, m, a, t, k, d);
    }
  }

  lemma SatisfiedMakespan(inst: Instance, m: Model, a: Assignment)
    requires HasMakespan(inst, m) && Satisfies(m, a)
    ensures MakespanIsLatestEnd(inst, a)
  {
    var ends := EndsUpTo(inst, |inst.jobs|);
    assert IsMaxOf(MakespanVar, ends, a) by {
      assert Holds(MaxEquality(MakespanVar, ends), a);
    }
    forall t | ValidTask(inst, t)
      ensures a.value(End(t)) <= a.value(MakespanVar)
    {
      EndsUpToContain(inst, t, |inst.jobs|);
    }
    var k :| 0 <= k < |ends| && a.value(ends[k]) == a.value(MakespanVar);
    EndsUpToOnlyEnds(inst, |inst.jobs|, ends[k]);
  }

  /** Any assignment that satisfies the built model is a valid schedule of the instance. */
  lemma SatisfyingAssignmentIsValid(inst: Instance, a: Assignment)
    requires Satisfies(Built(inst), a)
    ensures ValidSchedule(inst, a)
  {
    var m := Built(inst);
    BuiltIncludes(inst);
    SatisfiedWithinHorizon(inst, m, a);
    SatisfiedDurations(inst, m, a);
    SatisfiedChoices(inst, m, a);
    SatisfiedPrecedence(inst, m, a);
    SatisfiedExclusive(inst, m, a, Machines);
    SatisfiedExclusive(inst, m, a, Equipment);
    SatisfiedDowntimes(inst, m, a);
    SatisfiedMakespan(inst, m, a);
  }

  /** Without any operation the maximum has nothing to range over: no assignment satisfies the model. */
  lemma NoOperationsNoSolution(inst: Instance, a: Assignment)
    requires forall j :: 0 <= j < |inst.jobs| ==> |inst.jobs[j].ops| == 0
    ensures !Satisfies(Built(inst), a)
  {
    if Satisfies(Built(inst), a) {
      BuiltIncludes(inst);
      SatisfiedMakespan(inst, Built(inst), a);
    }
  }
}

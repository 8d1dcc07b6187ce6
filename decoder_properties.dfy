/**
 * What the greedy decoder of src/test.py guarantees about the schedule it
 * builds: the effect of one placement, when a run fails, what each record
 * holds, that no machine and no job runs two operations at once, that the
 * availabilities never decrease, what the makespan is, and the makespan on
 * a single machine.
 */
module DecoderProperties {
  import opened Wrappers
  import opened Argsort
  import opened Decoder

  /**
   * One placement (src/test.py:26-32, 63-76, 95-101): a record of the
   * operation is appended; its machine is a candidate with the least
   * availability, the first such in the candidate list; it starts as soon
   * as both that machine and the job are free and runs for its duration;
   * exactly the two dictionary entries of that machine and that job change,
   * to its end time.
   */
  lemma AssignEffect(tr: Trace, op: FlatOp, idx: nat)
    requires |op.machines| > 0
    ensures |Assign(tr, op, idx).schedule| == |tr.schedule| + 1
    ensures Assign(tr, op, idx).schedule[..|tr.schedule|] == tr.schedule
    ensures var e := Assign(tr, op, idx).schedule[|tr.schedule|];
      var ma, ja := tr.machineAvailable, tr.jobAvailable;
      && e.job == op.job && e.duration == op.duration && e.opIndex == idx
      && e.machine in op.machines
      && (forall i :: 0 <= i < |op.machines| ==> Get(ma, e.machine) <= Get(ma, op.machines[i]))
      && (exists j :: 0 <= j < |op.machines| && op.machines[j] == e.machine &&
            forall i :: 0 <= i < j ==> Get(ma, e.machine) < Get(ma, op.machines[i]))
      && Get(ma, e.machine) <= e.start && Get(ja, op.job) <= e.start
      && (e.start == Get(ma, e.machine) || e.start == Get(ja, op.job))
      && e.end == e.start + op.duration
      && Assign(tr, op, idx).machineAvailable == ma[e.machine := e.end]
      && Assign(tr, op, idx).jobAvailable == ja[op.job := e.end]
  {
    var j := FirstMinIndex(op.machines, tr.machineAvailable);
    FirstMinIndexIsEarliestLeast(op.machines, tr.machineAvailable);
    var e := Assign(tr, op, idx).schedule[|tr.schedule|];
    assert op.machines[j] == e.machine;
  }

  /** The first visited operation of the first n that has no candidate machine is the k-th. */
  predicate FirstWithoutCandidates(ops: seq<FlatOp>, order: seq<nat>, k: nat)
    requires Indexes(ops, order) && k < |order|
  {
    |ops[order[k]].machines| == 0 && forall l :: 0 <= l < k ==> |ops[order[l]].machines| > 0
  }

  /** The run over n indices succeeds exactly when each of them has a candidate machine. */
  lemma {:induction false} RunPrefixOutcome(ops: seq<FlatOp>, order: seq<nat>, n: nat)
    requires Indexes(ops, order) && n <= |order|
    ensures RunPrefix(ops, order, n).Ok? <==> forall k :: 0 <= k < n ==> |ops[order[k]].machines| > 0
    ensures RunPrefix(ops, order, n).Err? ==>
      exists k :: 0 <= k < n && FirstWithoutCandidates(ops, order, k) &&
        RunPrefix(ops, order, n).error == EmptyCandidates(order[k])
    decreases n
  {
    if n > 0 {
      RunPrefixOutcome(ops, order, n - 1);
      if RunPrefix(ops, order, n - 1).Ok? && |ops[order[n - 1]].machines| == 0 {
        assert FirstWithoutCandidates(ops, order, n - 1);
      }
    }
  }

  /**
   * The decoder fails exactly when it visits an operation without a
   * candidate machine, and then with the first such operation's index
   * (`min` of an empty list raising).
   */
  lemma RunOutcome(ops: seq<FlatOp>, order: seq<nat>)
    requires Indexes(ops, order)
    ensures Run(ops, order).Ok? <==> forall k :: 0 <= k < |order| ==> |ops[order[k]].machines| > 0
    ensures Run(ops, order).Err? ==>
      exists k :: 0 <= k < |order| && FirstWithoutCandidates(ops, order, k) &&
        Run(ops, order).error == EmptyCandidates(order[k])
  {
    RunPrefixOutcome(ops, order, |order|);
  }

  /** The record of visited operation `op`, at position `idx` of the operation list. */
  predicate Records(op: FlatOp, idx: nat, e: Entry)
  {
    && e.opIndex == idx && e.job == op.job && e.duration == op.duration
    && e.machine in op.machines && e.end == e.start + op.duration
  }

  lemma {:induction false} RunPrefixRecords(ops: seq<FlatOp>, order: seq<nat>, n: nat)
    requires Indexes(ops, order) && n <= |order| && RunPrefix(ops, order, n).Ok?
    ensures |RunPrefix(ops, order, n).value.schedule| == n
    ensures forall k :: 0 <= k < n ==>
      Records(ops[order[k]], order[k], RunPrefix(ops, order, n).value.schedule[k])
    decreases n
  {
    if n > 0 {
      var tr := RunPrefix(ops, order, n - 1).value;
      RunPrefixRecords(ops, order, n - 1);
      AssignEffect(tr, ops[order[n - 1]], order[n - 1]);
      var s := RunPrefix(ops, order, n).value.schedule;
      forall k | 0 <= k < n
        ensures Records(ops[order[k]], order[k], s[k])
      {
        if k < n - 1 {
          assert s[k] == s[..n - 1][k];
        }
      }
    }
  }

  /**
   * A successful run has one record per visited index, in visiting order:
   * the record of `order[k]` names its job, its duration and one of its
   * candidate machines, and ends its duration after it starts.
   */
  lemma RunRecords(ops: seq<FlatOp>, order: seq<nat>)
    requires Indexes(ops, order) && Run(ops, order).Ok?
    ensures |Run(ops, order).value.schedule| == |order|
    ensures forall k :: 0 <= k < |order| ==>
      Records(ops[order[k]], order[k], Run(ops, order).value.schedule[k])
  {
    RunPrefixRecords(ops, order, |order|);
  }

  /**
   * The value of `fitness` is the largest end time of the schedule; it is
   * an error when the run fails, and when there is no operation to visit.
   */
  lemma MakespanIsLargestEnd(ops: seq<FlatOp>, order: seq<nat>)
    requires Indexes(ops, order)
    ensures Run(ops, order).Err? ==> Makespan(ops, order) == Err(Run(ops, order).error)
    ensures Run(ops, order).Ok? && |order| == 0 ==> Makespan(ops, order) == Err(NoOperations)
    ensures Run(ops, order).Ok? && |order| > 0 ==> Makespan(ops, order).Ok?
    ensures Makespan(ops, order).Ok? ==>
      && Run(ops, order).Ok?
      && var s := Run(ops, order).value.schedule;
      && (forall k :: 0 <= k < |s| ==> s[k].end <= Makespan(ops, order).value)
      && (exists k :: 0 <= k < |s| && s[k].end == Makespan(ops, order).value)
  {
    if Run(ops, order).Ok? {
      RunRecords(ops, order);
      var s := Run(ops, order).value.schedule;
      if |s| > 0 {
        var ends := Ends(s);
        var k :| 0 <= k < |ends| && ends[k] == MaxOf(ends);
        assert s[k].end == MaxOf(ends);
      }
    }
  }

  /** Every operation's duration is non-negative, as the processing times of a job shop instance are. */
  predicate NonNegativeDurations(ops: seq<FlatOp>)
  {
    forall i :: 0 <= i < |ops| ==> ops[i].duration >= 0
  }

  /**
   * A trace the decoder can reach with non-negative durations: every
   * availability and start is non-negative, each record ends by the time
   * its machine and its job become free again, and two records on the
   * same machine, or of the same job, follow one another.
   */
  ghost predicate Consistent(tr: Trace)
  {
    var s, ma, ja := tr.schedule, tr.machineAvailable, tr.jobAvailable;
    && (forall m :: m in ma ==> 0 <= ma[m])
    && (forall j :: j in ja ==> 0 <= ja[j])
    && (forall k :: 0 <= k < |s| ==> 0 <= s[k].start <= s[k].end)
    && (forall k :: 0 <= k < |s| ==> s[k].end <= Get(ma, s[k].machine) && s[k].end <= Get(ja, s[k].job))
    && (forall a, b :: 0 <= a < b < |s| && s[a].machine == s[b].machine ==> s[a].end <= s[b].start)
    && (forall a, b :: 0 <= a < b < |s| && s[a].job == s[b].job ==> s[a].end <= s[b].start)
  }

  /** With a non-negative duration, no availability goes down when an operation is placed. */
  lemma AssignMonotone(tr: Trace, op: FlatOp, idx: nat)
    requires |op.machines| > 0 && op.duration >= 0
    ensures forall m :: Get(tr.machineAvailable, m) <= Get(Assign(tr, op, idx).machineAvailable, m)
    ensures forall j :: Get(tr.jobAvailable, j) <= Get(Assign(tr, op, idx).jobAvailable, j)
  {
    AssignEffect(tr, op, idx);
  }

  /** Placing an operation with a non-negative duration keeps a trace consistent. */
  lemma AssignConsistent(tr: Trace, op: FlatOp, idx: nat)
    requires |op.machines| > 0 && op.duration >= 0 && Consistent(tr)
    ensures Consistent(Assign(tr, op, idx))
  {
    AssignKeepsBounds(tr, op, idx);
    AssignKeepsOrder(tr, op, idx);
  }

  /** The availabilities and records of the new trace keep their bounds. */
  lemma AssignKeepsBounds(tr: Trace, op: FlatOp, idx: nat)
    requires |op.machines| > 0 && op.duration >= 0 && Consistent(tr)
    ensures var r := Assign(tr, op, idx);
      var s, ma, ja := r.schedule, r.machineAvailable, r.jobAvailable;
      && (forall m :: m in ma ==> 0 <= ma[m])
      && (forall j :: j in ja ==> 0 <= ja[j])
      && (forall k :: 0 <= k < |s| ==> 0 <= s[k].start <= s[k].end)
      && (forall k :: 0 <= k < |s| ==> s[k].end <= Get(ma, s[k].machine) && s[k].end <= Get(ja, s[k].job))
  {
    AssignEffect(tr, op, idx);
    AssignMonotone(tr, op, idx);
    var r := Assign(tr, op, idx);
    var s, n := r.schedule, |tr.schedule|;
    forall k | 0 <= k < |s|
      ensures s[k].end <= Get(r.machineAvailable, s[k].machine) && s[k].end <= Get(r.jobAvailable, s[k].job)
    {
      if k < n {
        assert s[k] == tr.schedule[k];
      }
    }
  }

  /** The new record starts after every earlier record on its machine and of its job has ended. */
  lemma AssignKeepsOrder(tr: Trace, op: FlatOp, idx: nat)
    requires |op.machines| > 0 && op.duration >= 0 && Consistent(tr)
    ensures var s := Assign(tr, op, idx).schedule;
      && (forall a, b :: 0 <= a < b < |s| && s[a].machine == s[b].machine ==> s[a].end <= s[b].start)
      && (forall a, b :: 0 <= a < b < |s| && s[a].job == s[b].job ==> s[a].end <= s[b].start)
  {
    AssignEffect(tr, op, idx);
    var s, n := Assign(tr, op, idx).schedule, |tr.schedule|;
    forall a, b | 0 <= a < b < |s| && s[a].machine == s[b].machine
      ensures s[a].end <= s[b].start
    {
      assert s[a] == tr.schedule[a];
      if b < n {
        assert s[b] == tr.schedule[b];
      }
    }
    forall a, b | 0 <= a < b < |s| && s[a].job == s[b].job
      ensures s[a].end <= s[b].start
    {
      assert s[a] == tr.schedule[a];
      if b < n {
        assert s[b] == tr.schedule[b];
      }
    }
  }

  lemma {:induction false} RunPrefixConsistent(ops: seq<FlatOp>, order: seq<nat>, n: nat)
    requires Indexes(ops, order) && n <= |order| && NonNegativeDurations(ops)
    requires RunPrefix(ops, order, n).Ok?
    ensures Consistent(RunPrefix(ops, order, n).value)
    decreases n
  {
    if n > 0 {
      RunPrefixConsistent(ops, order, n - 1);
      AssignConsistent(RunPrefix(ops, order, n - 1).value, ops[order[n - 1]], order[n - 1]);
    }
  }

  /**
   * With non-negative durations, the schedule of a successful run starts
   * nothing before time 0, never runs two operations on one machine at
   * once, and never runs two operations of one job at once; a job's
   * operations follow one another in VISITING order, which need not be the
   * job's own order (`LaterOperationFirst`).
   */
  lemma NoOverlap(ops: seq<FlatOp>, order: seq<nat>)
    requires Indexes(ops, order) && NonNegativeDurations(ops) && Run(ops, order).Ok?
    ensures var s := Run(ops, order).value.schedule;
      && (forall k :: 0 <= k < |s| ==> 0 <= s[k].start <= s[k].end)
      && (forall a, b :: 0 <= a < b < |s| && s[a].machine == s[b].machine ==> s[a].end <= s[b].start)
      && (forall a, b :: 0 <= a < b < |s| && s[a].job == s[b].job ==> s[a].end <= s[b].start)
  {
    RunPrefixConsistent(ops, order, |order|);
  }

  /**
   * With non-negative durations, the availability of every machine and
   * every job only grows as the run proceeds.
   */
  lemma {:induction false} AvailabilityGrows(ops: seq<FlatOp>, order: seq<nat>, a: nat, b: nat)
    requires Indexes(ops, order) && NonNegativeDurations(ops) && a <= b <= |order|
    requires RunPrefix(ops, order, b).Ok?
    ensures RunPrefix(ops, order, a).Ok?
    ensures forall m :: Get(RunPrefix(ops, order, a).value.machineAvailable, m)
                     <= Get(RunPrefix(ops, order, b).value.machineAvailable, m)
    ensures forall j :: Get(RunPrefix(ops, order, a).value.jobAvailable, j)
                     <= Get(RunPrefix(ops, order, b).value.jobAvailable, j)
    decreases b
  {
    if a < b {
      AvailabilityGrows(ops, order, a, b - 1);
      AssignMonotone(RunPrefix(ops, order, b - 1).value, ops[order[b - 1]], order[b - 1]);
    }
  }

  /** The durations of the operations at the indices `idxs`, summed. */
  function SumDurations(ops: seq<FlatOp>, idxs: seq<nat>): int
    requires Indexes(ops, idxs)
  {
    if |idxs| == 0 then 0
    else SumDurations(ops, idxs[..|idxs| - 1]) + ops[idxs[|idxs| - 1]].duration
  }

  /** The durations of all operations, summed. */
  function TotalDuration(ops: seq<FlatOp>): int
  {
    SumDurations(ops, Range(|ops|))
  }

  lemma {:induction false} SumConcat(ops: seq<FlatOp>, a: seq<nat>, b: seq<nat>)
    requires Indexes(ops, a) && Indexes(ops, b)
    ensures Indexes(ops, a + b)
    ensures SumDurations(ops, a + b) == SumDurations(ops, a) + SumDurations(ops, b)
    decreases |b|
  {
    assert Indexes(ops, a + b) by {
      forall k | 0 <= k < |a + b| ensures (a + b)[k] < |ops| {
        if k >= |a| {
          assert (a + b)[k] == b[k - |a|];
        }
      }
    }
    if |b| == 0 {
      assert a + b == a;
    } else {
      var b' := b[..|b| - 1];
      assert Indexes(ops, b');
      assert (a + b)[..|a + b| - 1] == a + b';
      assert (a + b)[|a + b| - 1] == b[|b| - 1];
      SumConcat(ops, a, b');
    }
  }

  /** Summing over the same indices in another order gives the same total. */
  lemma {:induction false} SumPermutation(ops: seq<FlatOp>, a: seq<nat>, b: seq<nat>)
    requires Indexes(ops, a) && Indexes(ops, b) && multiset(a) == multiset(b)
    ensures SumDurations(ops, a) == SumDurations(ops, b)
    decreases |a|
  {
    if |a| == 0 {
      assert |b| == |multiset(b)| == 0;
    } else {
      var a', x := a[..|a| - 1], a[|a| - 1];
      var b1, b2 := TakeOut(a', x, a, b);
      IndexesOfParts(ops, b1, x, b2, b);
      SumPermutation(ops, a', b1 + b2);
      SumLast(ops, a', x, a);
      SumMiddle(ops, b1, x, b2, b);
    }
  }

  /** An index that occurs in b splits b around one of its occurrences, and the rest matches a'. */
  lemma TakeOut(a': seq<nat>, x: nat, a: seq<nat>, b: seq<nat>) returns (b1: seq<nat>, b2: seq<nat>)
    requires |a| > 0 && a' == a[..|a| - 1] && x == a[|a| - 1] && multiset(a) == multiset(b)
    ensures b == b1 + [x] + b2 && multiset(a') == multiset(b1 + b2)
  {
    assert a == a' + [x];
    assert x in multiset(b);
    var j :| 0 <= j < |b| && b[j] == x;
    b1, b2 := b[..j], b[j + 1..];
    assert b == b1 + [x] + b2;
    RemoveOne(a', x, b1, b2);
  }

  /** The parts of a list of operation indices are lists of operation indices. */
  lemma IndexesOfParts(ops: seq<FlatOp>, b1: seq<nat>, x: nat, b2: seq<nat>, b: seq<nat>)
    requires Indexes(ops, b) && b == b1 + [x] + b2
    ensures Indexes(ops, b1) && Indexes(ops, b2) && Indexes(ops, b1 + b2) && x < |ops|
  {
    assert b[|b1|] == x;
    forall k | 0 <= k < |b1| ensures b1[k] < |ops| { assert b[k] == b1[k]; }
    forall k | 0 <= k < |b2| ensures b2[k] < |ops| { assert b[|b1| + 1 + k] == b2[k]; }
  }

  /** The sum over a list is the sum over all but its last index plus that index's duration. */
  lemma SumLast(ops: seq<FlatOp>, a': seq<nat>, x: nat, a: seq<nat>)
    requires Indexes(ops, a) && |a| > 0 && a' == a[..|a| - 1] && x == a[|a| - 1]
    ensures Indexes(ops, a') && x < |ops| && SumDurations(ops, a) == SumDurations(ops, a') + ops[x].duration
  {
  }

  /** Removing one index from the middle of a list lowers the sum by its duration. */
  lemma SumMiddle(ops: seq<FlatOp>, b1: seq<nat>, x: nat, b2: seq<nat>, b: seq<nat>)
    requires Indexes(ops, b1) && Indexes(ops, b2) && x < |ops| && b == b1 + [x] + b2
    ensures Indexes(ops, b) && Indexes(ops, b1 + b2)
    ensures SumDurations(ops, b) == SumDurations(ops, b1 + b2) + ops[x].duration
  {
    SumConcat(ops, b1, b2);
    SumConcat(ops, b1, [x]);
    SumConcat(ops, b1 + [x], b2);
    assert SumDurations(ops, [x]) == ops[x].duration;
  }

  /** Taking the same element out of two lists with the same elements leaves lists with the same elements. */
  lemma RemoveOne(a: seq<nat>, x: nat, b1: seq<nat>, b2: seq<nat>)
    requires multiset(a + [x]) == multiset(b1 + [x] + b2)
    ensures multiset(a) == multiset(b1 + b2)
  {
    calc {
      multiset(a);
      multiset(a + [x]) - multiset{x};
      multiset(b1 + [x] + b2) - multiset{x};
      multiset(b1) + multiset(b2);
      multiset(b1 + b2);
    }
  }

  /** Every operation can run on machine m only. */
  predicate OnlyMachine(ops: seq<FlatOp>, m: MachineId)
  {
    forall i :: 0 <= i < |ops| ==> |ops[i].machines| > 0 && forall c :: c in ops[i].machines ==> c == m
  }

  /** On one machine, an operation starts when the machine is free and pushes it by its duration. */
  lemma OneMachineStep(tr: Trace, op: FlatOp, idx: nat, m: MachineId)
    requires |op.machines| > 0 && (forall c :: c in op.machines ==> c == m) && op.duration >= 0
    requires forall j :: Get(tr.jobAvailable, j) <= Get(tr.machineAvailable, m)
    ensures var r := Assign(tr, op, idx);
      && |r.schedule| == |tr.schedule| + 1
      && Get(r.machineAvailable, m) == Get(tr.machineAvailable, m) + op.duration
      && (forall j :: Get(r.jobAvailable, j) <= Get(r.machineAvailable, m))
      && r.schedule[|tr.schedule|].end == Get(r.machineAvailable, m)
  {
    AssignEffect(tr, op, idx);
    var r := Assign(tr, op, idx);
    var e := r.schedule[|tr.schedule|];
    assert e.machine == m;
    forall j
      ensures Get(r.jobAvailable, j) <= Get(r.machineAvailable, m)
    {
      if j != op.job {
        assert Get(r.jobAvailable, j) == Get(tr.jobAvailable, j);
      }
    }
  }

  lemma {:induction false} RunPrefixOneMachine(ops: seq<FlatOp>, order: seq<nat>, m: MachineId, n: nat)
    requires Indexes(ops, order) && n <= |order| && OnlyMachine(ops, m) && NonNegativeDurations(ops)
    ensures RunPrefix(ops, order, n).Ok? && |RunPrefix(ops, order, n).value.schedule| == n
    ensures var tr := RunPrefix(ops, order, n).value;
      && Get(tr.machineAvailable, m) == SumDurations(ops, order[..n])
      && (forall j :: Get(tr.jobAvailable, j) <= Get(tr.machineAvailable, m))
      && (n > 0 ==> tr.schedule[n - 1].end == Get(tr.machineAvailable, m))
    decreases n
  {
    if n > 0 {
      RunPrefixOneMachine(ops, order, m, n - 1);
      OneMachineStep(RunPrefix(ops, order, n - 1).value, ops[order[n - 1]], order[n - 1], m);
      assert order[..n][..n - 1] == order[..n - 1];
    }
  }

  /** On one machine a run succeeds, every record ends by the last one's end, and that is the sum of the durations. */
  lemma OneMachineRun(ops: seq<FlatOp>, order: seq<nat>, m: MachineId)
    requires Indexes(ops, order) && |order| > 0 && OnlyMachine(ops, m) && NonNegativeDurations(ops)
    ensures Run(ops, order).Ok? && |Run(ops, order).value.schedule| == |order|
    ensures var s := Run(ops, order).value.schedule;
      && s[|s| - 1].end == SumDurations(ops, order)
      && forall k :: 0 <= k < |s| ==> s[k].end <= SumDurations(ops, order)
  {
    RunPrefixOneMachine(ops, order, m, |order|);
    assert order[..|order|] == order;
    RunPrefixConsistent(ops, order, |order|);
    RunRecords(ops, order);
  }

  /**
   * When every operation can only run on one machine, the makespan is the
   * sum of all durations, whatever the priority vector and whichever
   * argsort order it yields.
   */
  lemma OneMachineMakespan(ops: seq<FlatOp>, solution: seq<int>, order: seq<nat>, m: MachineId)
    requires |ops| > 0 && |solution| == |ops| && IsArgsort(solution, order)
    requires OnlyMachine(ops, m) && NonNegativeDurations(ops)
    ensures Makespan(ops, order) == Ok(TotalDuration(ops))
  {
    OneMachineRun(ops, order, m);
    SumPermutation(ops, order, Range(|ops|));
    MakespanIsLargestEnd(ops, order);
    var s := Run(ops, order).value.schedule;
    assert s[|s| - 1].end <= Makespan(ops, order).value;
  }
}

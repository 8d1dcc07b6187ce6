/**
 * Small instances of the greedy decoder of src/test.py, worked out
 * exactly.
 */
module DecoderExamples {
  import opened Wrappers
  import opened Argsort
  import opened Decoder

  /** Two single-operation jobs that can only use machine 1, taking 2 and 3. */
  const SharedMachine: seq<FlatOp> :=
    [FlatOp(JobName("J1"), [1], 2), FlatOp(JobName("J2"), [1], 3)]

  /** Visiting the operations in list order serialises them on machine 1: makespan 5. */
  lemma SharedMachineInOrder()
    ensures Makespan(SharedMachine, [0, 1]) == Ok(5)
  {
    var order: seq<nat> := [0, 1];
    var first := Entry(JobName("J1"), 1, 0, 2, 2, 0);
    var second := Entry(JobName("J2"), 1, 2, 5, 3, 1);
    var after1 := Trace([first], map[1 := 2], map[JobName("J1") := 2]);
    var after2 := Trace([first, second], map[1 := 5], map[JobName("J1") := 2, JobName("J2") := 5]);
    assert Assign(Initial, SharedMachine[0], 0) == after1;
    assert RunPrefix(SharedMachine, order, 1) == Ok(after1);
    assert Assign(after1, SharedMachine[1], 1) == after2;
    assert RunPrefix(SharedMachine, order, 2) == Ok(after2);
    assert Ends([first, second]) == [2, 5];
  }

  /** The swapped order serialises them the other way round, with the same makespan. */
  lemma SharedMachineSwapped()
    ensures Makespan(SharedMachine, [1, 0]) == Ok(5)
  {
    var order: seq<nat> := [1, 0];
    var first := Entry(JobName("J2"), 1, 0, 3, 3, 1);
    var second := Entry(JobName("J1"), 1, 3, 5, 2, 0);
    var after1 := Trace([first], map[1 := 3], map[JobName("J2") := 3]);
    var after2 := Trace([first, second], map[1 := 5], map[JobName("J2") := 3, JobName("J1") := 5]);
    assert Assign(Initial, SharedMachine[1], 1) == after1;
    assert RunPrefix(SharedMachine, order, 1) == Ok(after1);
    assert Assign(after1, SharedMachine[0], 0) == after2;
    assert RunPrefix(SharedMachine, order, 2) == Ok(after2);
    assert Ends([first, second]) == [3, 5];
  }

  /**
   * Equal priorities admit both orders as `np.argsort` results, and the
   * two orders put a different job first.
   */
  lemma TiedPriorities()
    ensures IsArgsort([0, 0], [0, 1]) && IsArgsort([0, 0], [1, 0])
    ensures Run(SharedMachine, [0, 1]).value.schedule[0].job == JobName("J1")
    ensures Run(SharedMachine, [1, 0]).value.schedule[0].job == JobName("J2")
  {
    assert Range(2) == [0, 1];
    var swapped: seq<nat> := [1, 0];
    assert multiset(swapped) == multiset(Range(2));
  }

  /** One job with two operations: the first on machine 1 for 2, the second on machine 2 for 3. */
  const TwoStepJob: seq<FlatOp> :=
    [FlatOp(JobName("J1"), [1], 2), FlatOp(JobName("J1"), [2], 3)]

  /**
   * A priority vector that ranks the job's second operation first gets it
   * scheduled first: the decoder keeps a job's operations apart only in
   * visiting order, not in the job's own order.
   */
  lemma LaterOperationFirst()
    ensures IsArgsort([5, 1], [1, 0])
    ensures Run(TwoStepJob, [1, 0]).value.schedule
      == [Entry(JobName("J1"), 2, 0, 3, 3, 1), Entry(JobName("J1"), 1, 3, 5, 2, 0)]
  {
    assert Range(2) == [0, 1];
    var swapped: seq<nat> := [1, 0];
    assert multiset(swapped) == multiset(Range(2));
  }

  /**
   * With both candidates free, `min` keeps the first one listed, here
   * machine 2, not the machine with the lower number.
   */
  lemma FirstListedMachineWins()
    ensures Run([FlatOp(JobName("J1"), [2, 1], 4)], [0]).value.schedule
      == [Entry(JobName("J1"), 2, 0, 4, 4, 0)]
  {
  }

  /** An operation without candidate machines makes the decoder fail at that operation. */
  lemma NoCandidateFails()
    ensures Run([FlatOp(JobName("J1"), [1], 2), FlatOp(JobName("J2"), [], 1)], [0, 1])
      == Err(EmptyCandidates(1))
    ensures Makespan([], []) == Err(NoOperations)
  {
  }
}

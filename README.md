# Flexible job-shop scheduling: greedy decoder and CP-SAT model builder

This project models the scheduling core of a small flexible job-shop
(FJSP) repository and proves properties of it in Dafny. An instance is a
set of jobs. Each job is an ordered list of operations. An operation can
run on one of several candidate machines, may need one of several
candidate pieces of equipment, and has a duration. Machines may have
downtime points.

The repository solves the problem in two ways.

- **The priority-vector greedy decoder** (`src/test.py`) is the fitness
  function of a metaheuristic search. It visits the flattened operations
  in `np.argsort` order. It puts each one on the candidate machine that
  becomes free first. It starts the operation as soon as both that
  machine and the operation's job are free. Then it updates two
  availability dictionaries in place.
- **The constraint-model builder** (`src/get_makespan.py`) states the
  problem to OR-Tools CP-SAT. It builds:
  - an optional interval per candidate machine and equipment item;
  - exactly-one choices;
  - a no-overlap constraint per resource;
  - guarded downtime constraints;
  - job precedences;
  - a makespan that is the maximum end.

  It then reads the chosen machine and the chosen equipment back from the
  solver's answer.

The domain records `Jssp_job` and `Operation` (`src/classes/`) are
modelled too.

Files and modules:

- `wrappers.dfy` (`Wrappers`) holds `Option` and `Result`.
- `operations.dfy` (`Operations`) is the operation record and its details
  mapping.
- `jobs.dfy` (`Jobs`) is the job class, whose constructor numbers the
  operations 1, 2, ….
- `argsort.dfy` (`Argsort`) defines what a result of `np.argsort` is: a
  permutation of the indices with non-decreasing priorities. A stable
  one always exists.
- `decoder.dfy` (`Decoder`) holds the specification `Run`, a fold of one
  placement per visited index. It also holds the three loops of the
  source (`Fitness`, `SimulateSchedule`, `DecodeSolution`), each proved
  to compute what `Run` says.
- `decoder_properties.dfy` and `decoder_examples.dfy` prove what the
  decoder guarantees, and check it on small concrete instances.
- `cpsat.dfy` (`CpSat`) is a symbolic CP-SAT model and the class
  `CpModel`, whose methods append to it. `Satisfies` says when an
  assignment meets the model.
- `fjsp.dfy` (`Fjsp`) holds the instance and, block by block, what the
  builder adds. `Built(inst)` is the whole model.
- `fjsp_builder.dfy` (`FjspBuilder`) holds the builder's loops. They are
  proved to produce exactly `Built(inst)`, and then to decode the
  solver's answer.
- `fjsp_structure.dfy` (`FjspStructure`) proves what the model contains
  and nothing else.
- `fjsp_validity.dfy` (`FjspValidity`) proves that every assignment
  satisfying the model is a valid schedule.

Points where the code's behaviour is easy to misread:

- **Tie-breaking in the visiting order.** The code sorts with numpy's
  default sort, which is not stable. The model therefore accepts every
  sorted permutation, not only the one that breaks ties by index.
- **Tie-breaking between machines.** Machine ties go to the first machine
  in the candidate list. This is Python's `min`, not the lowest machine
  number.
- **Downtimes.** A downtime is a list of points `p`, and each must fall
  outside `[start, end)`. It is not a list of windows.
- **Validation.** No input is validated. An empty candidate list or a
  non-positive duration is stored as given.
- **Operations without candidates.** An operation with neither machine
  nor equipment candidates gets no interval (src/get_makespan.py:44-71).
  Its end is then tied to its start only by the horizon, the precedences
  and the makespan, not by its duration, so the solver may end it before
  it starts. `FjspValidity.SatisfiedDurations` therefore speaks only of
  operations with a present candidate.
- **Default horizon.** A missing `"timespan"` gives the fixed horizon 1000.
- **Decoder failures.** The decoder can fail in two ways:
  - `min` of an empty candidate list raises;
  - `max` of an empty end-time list raises.

## Model

| member | source | states |
|---|---|---|
| Operations.New | src/classes/operation.py:2-5 | the record holds the given machines, equipment, duration and id, unchanged and unvalidated |
| Operations.GetOperationDetails | src/classes/operation.py:7-12 | the mapping has exactly the keys machines, equipments and duration, each holding the stored field |
| Operations.FromDetails | src/classes/operation.py:7-12 | reading a mapping back succeeds exactly when all three keys hold values of the right kind, and the result's details are that mapping on those keys |
| Operations.DetailsRoundTrip | src/classes/operation.py:7-12 | the details mapping and the id give back the operation: the accessor loses only the id |
| Operations.DetailsDetermineFields | src/classes/operation.py:8-11 | two operations with equal details have equal machines, equipment and duration |
| Operations.InitAsWritten | src/classes/operation.py:2-5 | the initialiser as written accepts exactly three positional arguments and stores them; any other count is a TypeError naming the count. The model counts arguments without `self`, so Python's message, which counts it, reads one higher |
| Jobs.Job.constructor | src/classes/job.py:4-12 | the name is kept; there is one operation per triple, in input order, the k-th with the k-th triple's fields and id k + 1 |
| Jobs.SequentialIds | src/classes/job.py:9-12 | a constructed job's ids are exactly 1, 2, …, n and strictly increasing |
| Jobs.Collect | src/classes/job.py:9-12 | the loop at job.py:9-12 succeeds exactly when every call succeeds, then holds each call's result in order; otherwise it fails with the error of the first failing call |
| Jobs.AsWrittenRejectsEveryTriple | src/classes/job.py:9-12 | with the four-argument call as written, constructing a job succeeds exactly when it has no triple, and otherwise fails with TypeError(4 given, 3 accepted). These counts leave out `self`: Python's message says "takes 4 positional arguments but 5 were given" |
| Argsort.SortPrefixPermutes | src/test.py:11 | the insertion sort of the first n indices is a permutation of 0 … n - 1 |
| Argsort.SortPrefixStable | src/test.py:51 | that sort keeps equal priorities in index order |
| Argsort.StableArgsort | src/test.py:51 | a stable argsort is an argsort: a permutation of the indices with non-decreasing priorities |
| Argsort.ArgsortExists | src/test.py:87 | every priority vector has an argsort, so the decoder always has a visiting order |
| Argsort.InsertSorted | src/test.py:87 | inserting an index at its position keeps an order sorted by priority |
| Decoder.ArgsortIndexes | src/test.py:51 | an argsort of a vector with one priority per operation visits only operation indices |
| Decoder.FirstMinIndexIsEarliestLeast | src/test.py:26 | the machine `min` picks has the least availability among the candidates, an unused machine counting as 0, and every earlier candidate is strictly later |
| Decoder.PlaceOperation | src/test.py:95-101 | the loop body picks a candidate machine, ends the operation its duration after it starts, and carries the trace exactly one placement step forward |
| Decoder.SimulateSchedule | src/test.py:86-112 | the returned schedule is the run's schedule, and the run's error when the run fails |
| Decoder.Fitness | src/test.py:46-81 | the returned value is the makespan of the run, or its error |
| Decoder.DecodeSolution | src/test.py:9-34 | the printed lines are the run's schedule as numbered lines, or the run's error |
| Decoder.Report | src/test.py:34 | line k is numbered k + 1 and shows the job, machine, duration, start and end of the k-th record |
| Decoder.MaxOf | src/test.py:81 | `max` is an upper bound of the list that the list attains |
| Decoder.Ends | src/test.py:78 | the k-th end time is the end of the k-th record |
| Decoder.ErrorPersists | src/test.py:59-63 | once `min` has raised, the run stays failed with that error |
| DecoderProperties.AssignEffect | src/test.py:26-32 | one placement appends one record with the operation's job, duration and index. Its machine is the first least-available candidate. It starts when both that machine and the job are free and runs for its duration. Exactly the machine's entry and the job's entry change, to its end |
| DecoderProperties.RunOutcome | src/test.py:59-63 | the decoder fails exactly when it visits an operation without candidates, and then names the first such operation |
| DecoderProperties.RunRecords | src/test.py:92-112 | a successful run has one record per visited index, in visiting order, with that index's job, duration and a candidate machine, and end = start + duration |
| DecoderProperties.MakespanIsLargestEnd | src/test.py:78-81 | the fitness is the largest end time of the schedule. A failed run is an error, and so is an empty operation list |
| DecoderProperties.AssignMonotone | src/test.py:31-32 | with a non-negative duration, no availability decreases when an operation is placed |
| DecoderProperties.AssignConsistent | src/test.py:97-101 | placing an operation keeps starts and availabilities non-negative, each record ended by its machine's and its job's availability, and same-machine and same-job records in sequence |
| DecoderProperties.NoOverlap | src/test.py:97-101 | the schedule starts nothing before 0 and never runs two operations at once on one machine or of one job; a job's operations follow visiting order |
| DecoderProperties.AvailabilityGrows | src/test.py:28-32 | along a run, every machine's and every job's availability only grows |
| DecoderProperties.SumPermutation | src/test.py:59 | summing the durations over the same indices in any order gives the same total |
| DecoderProperties.OneMachineRun | src/test.py:63-78 | when one machine is every operation's only candidate, the run succeeds and its last record ends at the sum of the visited durations, the latest end |
| DecoderProperties.OneMachineMakespan | src/test.py:46-81 | when one machine is every operation's only candidate, the fitness of every priority vector is the sum of all durations |
| DecoderExamples.SharedMachineInOrder | src/test.py:59-81 | two operations limited to machine 1, visited in list order, run one after the other: the makespan is the sum of their durations, 5 |
| DecoderExamples.SharedMachineSwapped | src/test.py:59-81 | the swapped order serialises them the other way round, with the same makespan 5 |
| DecoderExamples.TiedPriorities | src/test.py:51 | equal priorities admit both orders as argsort results, and the two orders schedule a different job first |
| DecoderExamples.LaterOperationFirst | src/test.py:92-101 | a priority vector can make a job's second operation run before its first |
| DecoderExamples.FirstListedMachineWins | src/test.py:95 | between two free machines, the first one listed (2) is chosen, not the lower-numbered one (1) |
| DecoderExamples.NoCandidateFails | src/test.py:63-81 | an operation without candidates makes the run fail at that operation, and an empty operation list has no makespan |
| CpSat.CpModel.constructor | src/get_makespan.py:14 | a new model declares nothing, constrains nothing and has no objective |
| CpSat.CpModel.NewIntVar | src/get_makespan.py:37-38 | the model gains the integer variable with domain [lo, hi] and nothing else |
| CpSat.CpModel.NewBoolVar | src/get_makespan.py:45 | the model gains the Boolean variable and nothing else |
| CpSat.CpModel.NewOptionalIntervalVar | src/get_makespan.py:46-47 | the model gains the optional interval over start, size, end and presence |
| CpSat.CpModel.Add | src/get_makespan.py:61-64 | the model gains the linear constraint guarded by the given literals |
| CpSat.CpModel.AddExactlyOne | src/get_makespan.py:81 | the model gains the exactly-one constraint over the literals |
| CpSat.CpModel.AddNoOverlap | src/get_makespan.py:95 | the model gains the no-overlap constraint over the intervals |
| CpSat.CpModel.AddMaxEquality | src/get_makespan.py:121 | the model gains target == max(exprs) |
| CpSat.CpModel.Minimize | src/get_makespan.py:124 | the objective becomes the variable; nothing else changes |
| Fjsp.SortedElements | src/get_makespan.py:23-24 | `sorted` of a set lists exactly its elements in strictly increasing order |
| Fjsp.TaskListAt | src/get_makespan.py:73-75 | the `task_intervals` record of operation o of job j comes after every record of the earlier jobs, o places in |
| FjspBuilder.CollectResources | src/get_makespan.py:16-24 | the two loops collect the machines and the equipment named anywhere, sorted |
| FjspBuilder.AddDowntimes | src/get_makespan.py:52-64 | for each downtime point p, the model gains a `before_op` literal and two guarded constraints: p < start and p >= end |
| FjspBuilder.AddCandidate | src/get_makespan.py:44-64 | a candidate adds its presence literal and its optional interval over the operation's start and end, and a machine also adds its downtime constraints |
| FjspBuilder.AddCandidates | src/get_makespan.py:44-71 | every candidate of one kind is added in list order, and the options returned are the records kept for them |
| FjspBuilder.AddOperation | src/get_makespan.py:35-75 | one operation declares its start and end in [0, h], then its machines, then its equipment, and is recorded as its task |
| FjspBuilder.AddJob | src/get_makespan.py:35-75 | a job's operations are added in order |
| FjspBuilder.AddTasks | src/get_makespan.py:34-75 | every operation of every job is added, and recorded in `task_intervals` order |
| FjspBuilder.AddChoices | src/get_makespan.py:78-85 | every task gains its machine choice, then its equipment choice |
| FjspBuilder.AddChoice | src/get_makespan.py:80-85 | a non-empty option list gains one exactly-one constraint over its presence literals; an empty one gains nothing |
| FjspBuilder.CollectIntervals | src/get_makespan.py:89-93 | the list built for a resource holds the intervals naming it, task by task |
| FjspBuilder.CollectMatching | src/get_makespan.py:91-93 | one task contributes the intervals of its options that name the resource, in option order |
| FjspBuilder.AddNoOverlaps | src/get_makespan.py:88-105 | each resource gains one no-overlap constraint over its intervals, if it has any |
| FjspBuilder.AddNoOverlapAt | src/get_makespan.py:88-95 | one resource's no-overlap step extends the model by that resource's constraint, if any |
| FjspBuilder.AddPrecedences | src/get_makespan.py:108-112 | within every job, start of operation o + 1 >= end of operation o |
| FjspBuilder.AddMakespan | src/get_makespan.py:115-124 | the makespan is declared in [0, h], equated with the maximum of all ends, and minimised |
| FjspBuilder.BuildModel | src/get_makespan.py:11-124 | the builder's model is exactly `Built(inst)`, and its records are `TaskList(inst)`, in `task_intervals` order |
| FjspBuilder.SelectFirstPresent | src/get_makespan.py:140-144 | the scan reports the resource of the first option whose literal is true, and none if there is no such option |
| FjspBuilder.DecodeSolution | src/get_makespan.py:132-152 | each job's operations are reported in order with start, duration, selected machine and selected equipment |
| FjspBuilder.SolveFjspWithEquipment | src/get_makespan.py:130-167 | a value exists exactly on OPTIMAL or FEASIBLE. It is then the makespan's value, with each operation's selection, and, since the solver's assignment then satisfies the model, the assignment is a valid schedule; otherwise it is nothing |
| FjspStructure.AllResourcesExactly | src/get_makespan.py:17-24 | `all_machines` (`all_equipment`) is increasing and holds exactly the resources some operation names |
| FjspStructure.DeclaredExactly | src/get_makespan.py:26-38 | the model declares every start and end and the makespan, and nothing else. Each has domain [0, horizon], the horizon being `"timespan"` or 1000 |
| FjspStructure.ChoicesExactly | src/get_makespan.py:78-85 | an exactly-one constraint is in the model exactly when it ranges over a task's non-empty machine or equipment literals |
| FjspStructure.IntervalsForExactly | src/get_makespan.py:88-93 | the list built for resource r holds exactly the intervals of the candidates naming r |
| FjspStructure.NoOverlapsExactly | src/get_makespan.py:88-105 | a no-overlap constraint is in the model exactly when it ranges over the intervals of a collected resource that has any |
| FjspStructure.PrecedencesExactly | src/get_makespan.py:108-112 | an unguarded linear constraint is in the model exactly when it is start[o + 1] >= end[o] within one job |
| FjspStructure.IntervalsExactly | src/get_makespan.py:44-71 | an optional interval is in the model exactly when it is the interval of a candidate machine or equipment item of some operation, over that operation's start, duration and end and guarded by that candidate's presence literal |
| FjspStructure.DowntimesExactly | src/get_makespan.py:52-64 | a guarded constraint is in the model exactly when, for a downtime point p of a candidate machine of some operation, it is p < start under that machine's presence and `before_op`, or p >= end under its presence and the negation of `before_op` |
| FjspStructure.BoolsExactly | src/get_makespan.py:44-71 | the model declares a Boolean variable exactly when it is the presence literal of a candidate machine or equipment item of some operation, or the `before_op` of a downtime point of a candidate machine |
| FjspStructure.PrecedenceTotal | src/get_makespan.py:108-109 | the number of precedences is the number of operations less the number of non-empty jobs: n - 1 for a job of n > 0 operations, none for an empty job |
| FjspStructure.EndsExactly | src/get_makespan.py:118-121 | the maximum ranges over the end of every operation and nothing else |
| FjspStructure.FirstPresentAt | src/get_makespan.py:141-144 | the scan reports the option at the first position whose literal is true |
| FjspStructure.FirstPresentNone | src/get_makespan.py:140-144 | the scan reports nothing exactly when no literal is true |
| FjspStructure.OneChosenSelected | src/get_makespan.py:141-152 | when every task has exactly one chosen candidate per non-empty kind, the scan reports that candidate, and nothing for an empty kind |
| FjspStructure.SelectedIsChosen | src/get_makespan.py:138-152 | for a satisfying assignment, the reported machine (equipment) is the one the solver chose, and none without candidates |
| FjspStructure.DecodedIsChosen | src/get_makespan.py:132-152 | an operation's report shows its start, its duration and its chosen machine and equipment, none exactly when it has no candidate |
| FjspValidity.SatisfiedWithinHorizon | src/get_makespan.py:37-38 | a satisfying assignment keeps every start, end and the makespan in [0, horizon] |
| FjspValidity.SatisfiedDurations | src/get_makespan.py:46-47 | an operation using any chosen candidate ends its duration after it starts |
| FjspValidity.SatisfiedChoices | src/get_makespan.py:80-85 | every operation with candidates of a kind uses exactly one of them |
| FjspValidity.SatisfiedPrecedence | src/get_makespan.py:108-112 | within a job, each operation starts no earlier than its predecessor ends |
| FjspValidity.SatisfiedExclusive | src/get_makespan.py:88-105 | two different chosen candidates naming one machine (equipment item) are never in use at once |
| FjspValidity.SatisfiedDowntime | src/get_makespan.py:58-64 | a downtime point of the chosen machine lies before the start or at or after the end |
| FjspValidity.SatisfiedDowntimes | src/get_makespan.py:51-64 | no downtime point of a chosen machine lies in [start, end) |
| FjspValidity.SatisfiedMakespan | src/get_makespan.py:115-121 | the makespan is the latest end of all operations |
| FjspValidity.SatisfyingAssignmentIsValid | src/get_makespan.py:33-124 | any assignment satisfying the built model is a valid schedule. It is within the horizon, runs durations, chooses once per kind and keeps precedences. It has no machine or equipment overlap, avoids downtimes, and its makespan is the latest end |
| FjspValidity.NoOperationsNoSolution | src/get_makespan.py:118-121 | with no operation at all, the maximum ranges over nothing and no assignment satisfies the model |

## Left out

- The CP-SAT solver (src/get_makespan.py:127-128) is a foreign library. Its status and its assignment are inputs of `FjspBuilder.SolveFjspWithEquipment`. Optimality and search are not modelled.
- FjspBuilder.SolveFjspWithEquipment: it returns the makespan variable's value in place of `solver.ObjectiveValue()`, which is a float equal to it.
- All printing is left out, because it is output only:
  - the solution listing, the downtime string, "No solution found." and the `__main__` example (src/get_makespan.py:132-187);
  - the prints of `decode_solution` (src/test.py:16, 34). `Decoder.DecodeSolution` returns the line-34 prints of a successful run as lines. The header (line 16) is not returned. Neither are the lines already printed when `min` raises part-way (line 26): the model then returns only the error.
  
  As a result, the listing's `if selected_machine` test is not modelled. That test prints a machine numbered 0 as "No machine".
- `plot_gantt`, the mealpy simulated-annealing driver and the module-level script (src/test.py:114-176) are left out. They are plotting and an external metaheuristic.
- Priority vectors are floats in the source. They are only compared, so they are integers here, and the decoder takes the visiting order as an input that `Argsort.IsArgsort` relates to them.
- numpy's sorting algorithm is not modelled. Its ties are not specified, so every sorted permutation is accepted.
- Decoder.Fitness, Decoder.SimulateSchedule, Decoder.DecodeSolution: these require every visited index to be an operation index. A priority vector longer than the operation list would raise IndexError in the source; that error is not modelled.
- Decoder.Fitness: it returns the number itself, not the 1-tuple `(max(end_times),)`.
- src/classes/jssp.py and its `get_flattened_operations` are not part of this model. The flattened record `{job, machines, duration}` is taken from its use at src/test.py:62-64.
- Missing keys in the instance are not modelled. A missing `"jobs"` key raises KeyError at src/get_makespan.py:11, but `Fjsp.Instance` always has jobs. A missing `"machine_downtimes"` is the empty map.
- Variable names such as `"start_job_1_0"` are replaced by structural variables such as `Start(TaskKey(0, 0))`. Jobs are kept in dictionary order, as a sequence.
- The CP-SAT meaning of an interval, of a no-overlap constraint and of max-equality is stated in `CpSat.Holds`. It is not derived from the library.
- tests/test1.py holds fixture dictionaries only. The concrete lemmas of `DecoderExamples` play their part.

## Findings

| source | as written | input that shows it | evidently intended | confidence | as-written member | corrected member |
|---|---|---|---|---|---|---|
| src/classes/job.py:11 | `Operation(machines, equipments, duration, operation_id)` passes four positional arguments, but `Operation.__init__` (src/classes/operation.py:2) declares three, so the call raises TypeError | `Jssp_job("J1", [([1], [], 3)])` | the operation stores its 1-based id as a fourth field | not executed | Jobs.AsWrittenRejectsEveryTriple | Jobs.Job.constructor |

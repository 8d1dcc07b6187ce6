/**
 * The job record of the domain model (src/classes/job.py): a name and the
 * job's operations, built from the raw `(machines, equipments, duration)`
 * triples with sequential 1-based ids.
 */
module Jobs {
  import opened Wrappers
  import opened Operations

  /** One raw operation triple of the instance input. */
  datatype OpTriple = OpTriple(machines: seq<MachineId>, equipments: seq<EquipmentId>, duration: int)

  class Job {
    const name: string
    var operations: seq<Operation>

    /**
     * Stores the name unchanged and appends one operation per triple, in
     * input order, the k-th (0-based) carrying the k-th triple's fields
     * and the id k + 1.
     */
    constructor (name: string, operationsData: seq<OpTriple>)
      ensures this.name == name
      ensures |operations| == |operationsData|
      ensures forall k :: 0 <= k < |operationsData| ==>
        operations[k] == Operation(operationsData[k].machines, operationsData[k].equipments,
                                   operationsData[k].duration, k + 1)
    {
      this.name := name;
      operations := [];
      new;
      var i := 0;
      while i < |operationsData|
        invariant 0 <= i <= |operationsData|
        invariant |operations| == i
        invariant forall k :: 0 <= k < i ==>
          operations[k] == Operation(operationsData[k].machines, operationsData[k].equipments,
                                     operationsData[k].duration, k + 1)
      {
        var t := operationsData[i];
        var operationId := i + 1;
        var operation := New(t.machines, t.equipments, t.duration, operationId);
        operations := operations + [operation];
        i := i + 1;
      }
    }
  }

  /** The ids of a sequence of operations, in order. */
  function Ids(ops: seq<Operation>): (ids: seq<int>)
    ensures |ids| == |ops|
    ensures forall k :: 0 <= k < |ops| ==> ids[k] == ops[k].id
  {
    if |ops| == 0 then [] else Ids(ops[..|ops| - 1]) + [ops[|ops| - 1].id]
  }

  /** A freshly built job's ids are 1, 2, ..., n: one per triple, without gaps or repeats. */
  lemma SequentialIds(job: Job, operationsData: seq<OpTriple>)
    requires |job.operations| == |operationsData|
    requires forall k :: 0 <= k < |operationsData| ==>
      job.operations[k] == Operation(operationsData[k].machines, operationsData[k].equipments,
                                     operationsData[k].duration, k + 1)
    ensures Ids(job.operations) == seq(|operationsData|, k => k + 1)
    ensures forall a, b :: 0 <= a < b < |job.operations| ==> job.operations[a].id < job.operations[b].id
  {
  }

  // ---------------------------------------------------------------------
  // The constructor as written: it passes four positional arguments to an
  // initialiser that declares three.

  /** The arguments the written constructor passes for the triple at 0-based position i. */
  function CallArgs(t: OpTriple, i: nat): (args: seq<Arg>)
    ensures |args| == 4
    ensures args == [IdsArg(t.machines), IdsArg(t.equipments), IntArg(t.duration), IntArg(i + 1)]
  {
    [IdsArg(t.machines), IdsArg(t.equipments), IntArg(t.duration), IntArg(i + 1)]
  }

  /**
   * The operation list that the written constructor builds: the loop calls
   * the initialiser for each triple in turn, and the first call that raises
   * ends the construction with that error.
   */
  function OperationsAsWritten(data: seq<OpTriple>): Result<seq<AsWrittenOperation>, CallError>
  {
    Collect(seq(|data|, i requires 0 <= i < |data| => InitAsWritten(CallArgs(data[i], i))))
  }

  /** The results of successive calls, kept in order until the first error, which is returned instead. */
  function Collect(calls: seq<Result<AsWrittenOperation, CallError>>): (r: Result<seq<AsWrittenOperation>, CallError>)
    ensures r.Ok? <==> forall k :: 0 <= k < |calls| ==> calls[k].Ok?
    ensures r.Ok? ==> |r.value| == |calls| && forall k :: 0 <= k < |calls| ==> r.value[k] == calls[k].value
    ensures r.Err? ==> exists k :: 0 <= k < |calls| && calls[k] == Err(r.error) && forall i :: 0 <= i < k ==> calls[i].Ok?
  {
    if |calls| == 0 then Ok([])
    else match calls[0]
      case Err(e) => Err(e)
      case Ok(op) =>
        match Collect(calls[1..])
        case Err(e) => Err(e)
        case Ok(rest) => Ok([op] + rest)
  }

  /**
   * As written, constructing a job succeeds only for an empty triple list:
   * the first triple already raises `TypeError` (four arguments given,
   * three accepted, `self` not counted; Python's message counts it and
   * says five given, four taken).
   */
  lemma AsWrittenRejectsEveryTriple(data: seq<OpTriple>)
    ensures OperationsAsWritten(data).Ok? <==> |data| == 0
    ensures |data| > 0 ==> OperationsAsWritten(data) == Err(TypeError(4, 3))
  {
  }
}

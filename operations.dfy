/**
 * The operation record of the domain model (src/classes/operation.py).
 *
 * An operation is an immutable record of its candidate machines, its
 * candidate equipment, its duration and its 1-based position in its job.
 * The position is the fourth argument that the job constructor passes;
 * the constructor as written declares only three parameters, which
 * `InitAsWritten` below makes explicit.
 */
module Operations {
  import opened Wrappers

  type MachineId = int
  type EquipmentId = int

  datatype Operation = Operation(
    machines: seq<MachineId>,
    equipments: seq<EquipmentId>,
    duration: int,
    id: int)

  /** The value stored under one key of the details mapping. */
  datatype Value = IdList(ids: seq<int>) | Number(n: int)

  /**
   * Builds an operation from the constructor's arguments. Nothing is
   * validated: an empty candidate list or a non-positive duration is
   * stored as given.
   */
  function New(machines: seq<MachineId>, equipments: seq<EquipmentId>, duration: int, id: int): (op: Operation)
    ensures op.machines == machines && op.equipments == equipments
    ensures op.duration == duration && op.id == id
  {
    Operation(machines, equipments, duration, id)
  }

  /** The three keys of the details mapping. */
  const DetailKeys: set<string> := {"machines", "equipments", "duration"}

  /**
   * The details accessor: a mapping with exactly the keys `machines`,
   * `equipments` and `duration`, each holding the stored field. The id is
   * not part of it.
   */
  function GetOperationDetails(op: Operation): (d: map<string, Value>)
    ensures d.Keys == DetailKeys
    ensures d["machines"] == IdList(op.machines)
    ensures d["equipments"] == IdList(op.equipments)
    ensures d["duration"] == Number(op.duration)
  {
    map["machines" := IdList(op.machines),
        "equipments" := IdList(op.equipments),
        "duration" := Number(op.duration)]
  }

  /**
   * Reads an operation back from a details mapping and an id; `None` when
   * a key is missing or holds a value of the wrong kind.
   */
  function FromDetails(d: map<string, Value>, id: int): (r: Option<Operation>)
    ensures r.Some? <==>
      && "machines" in d && d["machines"].IdList?
      && "equipments" in d && d["equipments"].IdList?
      && "duration" in d && d["duration"].Number?
    ensures r.Some? ==> r.value.id == id && GetOperationDetails(r.value) == map k | k in DetailKeys :: d[k]
  {
    if && "machines" in d && d["machines"].IdList?
       && "equipments" in d && d["equipments"].IdList?
       && "duration" in d && d["duration"].Number?
    then
      var op := Operation(d["machines"].ids, d["equipments"].ids, d["duration"].n, id);
      assert GetOperationDetails(op) == map k | k in DetailKeys :: d[k];
      Some(op)
    else None
  }

  /** The details mapping loses nothing but the id: reading it back gives the operation. */
  lemma DetailsRoundTrip(op: Operation)
    ensures FromDetails(GetOperationDetails(op), op.id) == Some(op)
  {
  }

  /** Two operations with the same details differ at most in their id. */
  lemma DetailsDetermineFields(a: Operation, b: Operation)
    requires GetOperationDetails(a) == GetOperationDetails(b)
    ensures a.machines == b.machines && a.equipments == b.equipments && a.duration == b.duration
  {
    assert GetOperationDetails(a)["machines"] == GetOperationDetails(b)["machines"];
    assert GetOperationDetails(a)["equipments"] == GetOperationDetails(b)["equipments"];
    assert GetOperationDetails(a)["duration"] == GetOperationDetails(b)["duration"];
  }

  // ---------------------------------------------------------------------
  // The constructor as written: three parameters after `self`.

  /** A positional argument of a call, as the job constructor passes them. */
  datatype Arg = IdsArg(ids: seq<int>) | IntArg(n: int)

  /** Python's error for a call with the wrong number of positional arguments (`self` not counted). */
  datatype CallError = TypeError(given: nat, accepted: nat)

  /** The record that the written constructor produces: three fields, no id. */
  datatype AsWrittenOperation = AsWrittenOperation(machines: Arg, equipments: Arg, duration: Arg)

  /** The number of parameters `Operation.__init__` declares after `self`. */
  const InitParameterCount: nat := 3

  /**
   * `Operation.__init__` as written: a call succeeds exactly when it passes
   * three positional arguments, and then stores them unchanged; any other
   * count raises `TypeError`.
   */
  function InitAsWritten(args: seq<Arg>): (r: Result<AsWrittenOperation, CallError>)
    ensures r.Ok? <==> |args| == InitParameterCount
    ensures r.Ok? ==> r.value == AsWrittenOperation(args[0], args[1], args[2])
    ensures r.Err? ==> r.error == TypeError(|args|, InitParameterCount)
  {
    if |args| == InitParameterCount then Ok(AsWrittenOperation(args[0], args[1], args[2]))
    else Err(TypeError(|args|, InitParameterCount))
  }
}

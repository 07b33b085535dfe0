/** Lineage records: which task produced an object, whether its last attempt completed, and how many
    resubmissions are left. Records are kept per output and must agree across a task's outputs. */
module TaskManager {
  import opened Bytes

  type TaskId = seq<byte>

  /** An object id: the task that returns it and the return index. */
  datatype OutputId = OutputId(task: TaskId, index: nat)

  /** The pickled callable, arguments and keyword arguments. */
  datatype Blobs = Blobs(callable: seq<byte>, args: seq<byte>, kwargs: Option<seq<byte>>)

  datatype Job = Job(task: TaskId, numReturns: nat, blobs: Blobs)

  datatype TaskRecord = TaskRecord(job: Job, retriesRemaining: nat, wasCompleted: bool)

  datatype LineageStatus = NotRecorded | NotYetCompleted | ReadyToResubmit | BudgetExhausted

  type Records = map<OutputId, TaskRecord>

  const DEFAULT_MAX_RETRIES: nat := 3

  predicate IsOutput(job: Job, oid: OutputId) { oid.task == job.task && oid.index < job.numReturns }

  function Outputs(job: Job): seq<OutputId> { seq(job.numReturns, i requires 0 <= i => OutputId(job.task, i)) }

  function NewRecord(job: Job): TaskRecord { TaskRecord(job, DEFAULT_MAX_RETRIES, false) }

  /** One record per listed output, replacing any that is there. */
  function Record(m: Records, outputs: seq<OutputId>, job: Job): Records {
    map oid | oid in m.Keys + (set o | o in outputs) :: if oid in outputs then NewRecord(job) else m[oid]
  }

  function MarkCompleted(m: Records, task: TaskId): Records {
    map oid | oid in m :: if m[oid].job.task == task then m[oid].(wasCompleted := true) else m[oid]
  }

  function Spent(r: TaskRecord): TaskRecord {
    r.(retriesRemaining := if r.retriesRemaining == 0 then 0 else r.retriesRemaining - 1, wasCompleted := false)
  }

  function SpendRetry(m: Records, task: TaskId): Records {
    map oid | oid in m :: if m[oid].job.task == task then Spent(m[oid]) else m[oid]
  }

  predicate CanResubmit(m: Records, oid: OutputId) {
    oid in m && m[oid].wasCompleted && m[oid].retriesRemaining > 0
  }

  function Status(m: Records, oid: OutputId): LineageStatus {
    if oid !in m then NotRecorded
    else if !m[oid].wasCompleted then NotYetCompleted
    else if m[oid].retriesRemaining == 0 then BudgetExhausted
    else ReadyToResubmit
  }

  /** The tracker as the driver keeps it. */
  class Tracker {
    var byObject: Records

    constructor ()
      ensures byObject == map[]
    {
      byObject := map[];
    }

    method RecordTask(outputs: seq<OutputId>, job: Job)
      modifies this
      ensures byObject == Record(old(byObject), outputs, job)
    {
      var record := TaskRecord(job, DEFAULT_MAX_RETRIES, false);
      for i := 0 to |outputs|
        invariant byObject == Record(old(byObject), outputs[..i], job)
      {
        byObject := byObject[outputs[i] := record];
        assert outputs[..i + 1] == outputs[..i] + [outputs[i]];
      }
      assert outputs[..|outputs|] == outputs;
    }

    method CompleteTask(task: TaskId)
      modifies this
      ensures byObject == MarkCompleted(old(byObject), task)
    {
      var left := byObject.Keys;
      while left != {}
        invariant byObject.Keys == old(byObject).Keys && left <= byObject.Keys
        invariant forall oid :: oid in byObject ==>
          byObject[oid] == if oid in left then old(byObject)[oid] else MarkCompleted(old(byObject), task)[oid]
      {
        var oid :| oid in left;
        if byObject[oid].job.task == task {
          byObject := byObject[oid := byObject[oid].(wasCompleted := true)];
        }
        left := left - {oid};
      }
    }

    method GetStatus(oid: OutputId) returns (status: LineageStatus)
      ensures status == Status(byObject, oid)
      ensures status == ReadyToResubmit <==>
              oid in byObject && byObject[oid].wasCompleted && byObject[oid].retriesRemaining > 0
      ensures status == NotRecorded <==> oid !in byObject
      ensures status == NotYetCompleted <==> oid in byObject && !byObject[oid].wasCompleted
      ensures status == BudgetExhausted <==>
              oid in byObject && byObject[oid].wasCompleted && byObject[oid].retriesRemaining == 0
    {
      if oid !in byObject { return NotRecorded; }
      if !byObject[oid].wasCompleted { return NotYetCompleted; }
      if byObject[oid].retriesRemaining == 0 { return BudgetExhausted; }
      return ReadyToResubmit;
    }

    method TryResubmit(oid: OutputId) returns (r: Option<Job>)
      modifies this
      ensures r.Some? <==>
              oid in old(byObject) && old(byObject)[oid].wasCompleted && old(byObject)[oid].retriesRemaining > 0
      ensures r.Some? ==> r.value == old(byObject)[oid].job && byObject == SpendRetry(old(byObject), r.value.task)
      ensures r.None? ==> byObject == old(byObject)
    {
      if oid !in byObject { return None; }
      if !byObject[oid].wasCompleted { return None; }
      if byObject[oid].retriesRemaining == 0 { return None; }
      var job := byObject[oid].job;
      var left := set k | k in byObject && byObject[k].job.task == job.task;
      while left != {}
        invariant byObject.Keys == old(byObject).Keys && left <= byObject.Keys
        invariant forall k :: k in left ==> old(byObject)[k].job.task == job.task
        invariant forall k :: k in byObject ==>
          byObject[k] == if k in left then old(byObject)[k] else SpendRetry(old(byObject), job.task)[k]
      {
        var k :| k in left;
        byObject := byObject[k := Spent(byObject[k])];
        left := left - {k};
      }
      return Some(job);
    }
  }
}

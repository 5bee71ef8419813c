/**
 * The batch recount: after one of its children finishes, a batch's
 * counters are recomputed from all of its children and its status follows
 * from them.
 */
module Batches {
  import opened Wrappers
  import opened Models
  import opened Sequences

  predicate IsCompleted(t: ConversionTask) { t.status == Completed }

  /** A failed child and a cancelled child both count against the batch. */
  predicate IsFailedOrCancelled(t: ConversionTask) { t.status == Failed || t.status == Cancelled }

  predicate IsRunning(t: ConversionTask) { t.status == Running }

  predicate IsFinished(t: ConversionTask) { IsTerminal(t.status) }

  predicate AllFinished(children: seq<ConversionTask>) {
    forall i :: 0 <= i < |children| ==> IsFinished(children[i])
  }

  predicate AnyRunning(children: seq<ConversionTask>) {
    exists i :: 0 <= i < |children| && IsRunning(children[i])
  }

  /** The children of batch `batchId` among the tasks with ids below `n`, in id order. */
  function ChildrenOf(tasks: map<nat, ConversionTask>, n: nat, batchId: nat): (r: seq<ConversionTask>)
    ensures forall i :: 0 <= i < |r| ==> r[i].batchId == Some(batchId)
  {
    Filter(Values(tasks, n), (t: ConversionTask) => t.batchId == Some(batchId))
  }

  /** Every stored task of the batch is among its children. */
  lemma ChildrenOfComplete(tasks: map<nat, ConversionTask>, n: nat, batchId: nat, k: nat)
    requires k < n && k in tasks && tasks[k].batchId == Some(batchId)
    ensures tasks[k] in ChildrenOf(tasks, n, batchId)
  {
    ValuesMembers(tasks, n, tasks[k]);
  }

  /**
   * `UpdateBatchTaskStatusAsync` on one batch: the counters are recounted
   * from the children; when every child has finished the batch is finished
   * too (Completed only with no failures) and gets a completion time; while
   * some child is running the batch is Running; otherwise it keeps its status.
   */
  function Recount(batch: BatchTask, children: seq<ConversionTask>, now: int): (r: BatchTask)
    ensures r.id == batch.id && r.name == batch.name && r.templateId == batch.templateId
    ensures r.totalFiles == batch.totalFiles && r.createdAt == batch.createdAt
    ensures r.completedFiles == Count(children, IsCompleted)
    ensures r.failedFiles == Count(children, IsFailedOrCancelled)
    ensures AllFinished(children) ==> r.completedAt == Some(now)
    ensures !AllFinished(children) ==> r.completedAt == batch.completedAt
  {
    var completed := Count(children, IsCompleted);
    var failed := Count(children, IsFailedOrCancelled);
    var status :=
      if AllFinished(children) then (if failed == 0 then Completed else Failed)
      else if AnyRunning(children) then Running
      else batch.status;
    batch.(completedFiles := completed, failedFiles := failed, status := status,
           completedAt := if AllFinished(children) then Some(now) else batch.completedAt)
  }

  /** The two counters together never exceed the number of children. */
  lemma RecountBounded(batch: BatchTask, children: seq<ConversionTask>, now: int)
    ensures var r := Recount(batch, children, now);
      0 <= r.completedFiles && 0 <= r.failedFiles && r.completedFiles + r.failedFiles <= |children|
  {
    CountDisjoint(children, IsCompleted, IsFailedOrCancelled);
  }

  /** A batch ends Completed exactly when all children have finished and none failed or was cancelled. */
  lemma RecountCompletes(batch: BatchTask, children: seq<ConversionTask>, now: int)
    ensures Recount(batch, children, now).status == Completed <==>
      (AllFinished(children) && forall i :: 0 <= i < |children| ==> IsCompleted(children[i]))
      || (!AllFinished(children) && !AnyRunning(children) && batch.status == Completed)
  {
    var p := IsFailedOrCancelled;
    if AllFinished(children) {
      if forall i :: 0 <= i < |children| ==> IsCompleted(children[i]) {
        CountNone(children, p);
      } else {
        var i :| 0 <= i < |children| && !IsCompleted(children[i]);
        assert p(children[i]);
        assert children[i] in Filter(children, p);
      }
    }
  }

  /** A batch whose children have all finished, with at least one failure, ends Failed. */
  lemma RecountFails(batch: BatchTask, children: seq<ConversionTask>, now: int, i: nat)
    requires AllFinished(children)
    requires i < |children| && IsFailedOrCancelled(children[i])
    ensures Recount(batch, children, now).status == Failed
  {
    assert children[i] in Filter(children, IsFailedOrCancelled);
  }

  /** A batch with no children at all is vacuously complete. */
  lemma EmptyBatchCompletes(batch: BatchTask, now: int)
    ensures Recount(batch, [], now).status == Completed
    ensures Recount(batch, [], now).completedAt == Some(now)
  {
  }

  /** When every child completed, every child is counted as completed. */
  lemma AllCompletedCounted(batch: BatchTask, children: seq<ConversionTask>, now: int)
    requires forall i :: 0 <= i < |children| ==> IsCompleted(children[i])
    ensures Recount(batch, children, now).completedFiles == |children|
  {
    CountAll(children, IsCompleted);
  }

  /** While some child is unfinished the batch is not given a finished status it did not already have. */
  lemma RecountWaits(batch: BatchTask, children: seq<ConversionTask>, now: int)
    requires !AllFinished(children)
    ensures var r := Recount(batch, children, now);
      r.status == (if AnyRunning(children) then Running else batch.status)
  {
  }

  /** Recounting twice from the same children changes nothing more. */
  lemma RecountIdempotent(batch: BatchTask, children: seq<ConversionTask>, now: int)
    ensures Recount(Recount(batch, children, now), children, now) == Recount(batch, children, now)
  {
  }
}

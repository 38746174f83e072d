/** The consumer of plain work items. */
module TaskQueueHostedService {
  import opened WorkQueues
  import opened TaskQueues
  import opened Hosting
  import opened ConsumerTraces

  /**
   * `BackgroundProcessing` (which `ExecuteAsync` calls after logging): until the token is
   * seen at the loop head, take the next plain item, await it with the token, and log
   * anything it throws. A cancelled wait ends the loop by propagating out of it.
   */
  method BackgroundProcessing(taskQueue: BackgroundTaskQueue, runtime: Runtime, stoppingToken: CancellationToken)
    returns (end: LoopEnd, processed: nat)
    requires taskQueue.Valid()
    modifies taskQueue.workItems, runtime`events
    ensures taskQueue.Valid()
    ensures processed == Processed(stoppingToken, |old(taskQueue.workItems.items)|)
    ensures end == EndOf(stoppingToken, |old(taskQueue.workItems.items)|)
    ensures taskQueue.workItems.items == old(taskQueue.workItems.items)[processed..]
    ensures runtime.events == old(runtime.events) + PlainTrace(old(taskQueue.workItems.items)[..processed], stoppingToken, runtime.fails)
  {
    ghost var queued := taskQueue.workItems.items;
    ghost var before := runtime.events;
    var i := 0;
    end := StoppedAtHead;
    while !IsCancellationRequested(stoppingToken, HeadCheck(i))
      invariant taskQueue.Valid()
      invariant i <= |queued|
      invariant i > 0 ==> !IsCancellationRequested(stoppingToken, WaitCheck(i - 1))
      invariant taskQueue.workItems.items == queued[i..]
      invariant runtime.events == before + PlainTrace(queued[..i], stoppingToken, runtime.fails)
      invariant end == StoppedAtHead
      decreases |queued| - i
    {
      var w := taskQueue.DequeueAsync(IsCancellationRequested(stoppingToken, WaitCheck(i)));
      if w.Cancelled? {
        // the cancelled wait throws out of the loop
        StopInWait(stoppingToken, |queued|, i);
        end := CancelledInWait;
        break;
      }
      if w.WouldBlock? {
        StopBlocked(stoppingToken, |queued|);
        end := Blocked;
        break;
      }
      var workItem := w.item;
      var threw := runtime.Invoke(Call(workItem, NoContext, stoppingToken));
      if threw {
        runtime.LogError(ItemThrew(workItem));
      }
      PlainTraceStep(before, queued, i, stoppingToken, runtime.fails);
      i := i + 1;
    }
    if end == StoppedAtHead {
      StopAtHead(stoppingToken, |queued|, i);
    }
    processed := i;
  }
}

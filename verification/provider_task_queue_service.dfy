/** The consumer of service-provider work items. */
module ProviderTaskQueueService {
  import opened WorkQueues
  import opened TaskQueues
  import opened Hosting
  import opened ConsumerTraces

  /**
   * The `try` block of one iteration: a fresh scope, the item awaited with the scope's service provider and
   * the token, the disposal, and the `catch` that logs.
   */
  method RunProviderWorkItem(runtime: Runtime, workItem: WorkItem, stoppingToken: CancellationToken)
    modifies runtime`events, runtime`openScopes, runtime`createdScopes
    ensures runtime.openScopes == old(runtime.openScopes)
    ensures runtime.createdScopes == old(runtime.createdScopes) + 1
    ensures runtime.events == old(runtime.events)
      + ScopedSteps(workItem, old(runtime.createdScopes), PassProvider, stoppingToken, runtime.fails)
  {
    var scope := runtime.CreateScope();
    var threw := runtime.Invoke(Call(workItem, ScopeProvider(scope), stoppingToken));
    runtime.DisposeScope(scope);
    if threw {
      runtime.LogError(ItemThrew(workItem));
    }
  }

  /**
   * `ExecuteAsync`: until the token is seen at the loop head, take the next provider item,
   * create a scope, await the item with the scope's service provider and the token,
   * dispose the scope, and log anything the item threw.
   */
  method ExecuteAsync(taskQueue: BackgroundTaskQueue, runtime: Runtime, stoppingToken: CancellationToken)
    returns (end: LoopEnd, processed: nat)
    requires taskQueue.Valid()
    modifies taskQueue.providerWorkItems, runtime`events, runtime`openScopes, runtime`createdScopes
    ensures taskQueue.Valid()
    ensures processed == Processed(stoppingToken, |old(taskQueue.providerWorkItems.items)|)
    ensures end == EndOf(stoppingToken, |old(taskQueue.providerWorkItems.items)|)
    ensures taskQueue.providerWorkItems.items == old(taskQueue.providerWorkItems.items)[processed..]
    ensures runtime.openScopes == old(runtime.openScopes)
    ensures runtime.createdScopes == old(runtime.createdScopes) + processed
    ensures runtime.events == old(runtime.events)
      + ScopedTrace(old(taskQueue.providerWorkItems.items)[..processed], old(runtime.createdScopes), PassProvider, stoppingToken, runtime.fails)
  {
    ghost var queued := taskQueue.providerWorkItems.items;
    ghost var before := runtime.events;
    ghost var first := runtime.createdScopes;
    var i := 0;
    end := StoppedAtHead;
    while !IsCancellationRequested(stoppingToken, HeadCheck(i))
      invariant taskQueue.Valid()
      invariant i <= |queued|
      invariant i > 0 ==> !IsCancellationRequested(stoppingToken, WaitCheck(i - 1))
      invariant taskQueue.providerWorkItems.items == queued[i..]
      invariant runtime.openScopes == old(runtime.openScopes)
      invariant runtime.createdScopes == first + i
      invariant runtime.events == before + ScopedTrace(queued[..i], first, PassProvider, stoppingToken, runtime.fails)
      invariant end == StoppedAtHead
      decreases |queued| - i
    {
      var w := taskQueue.DequeueProviderTaskAsync(IsCancellationRequested(stoppingToken, WaitCheck(i)));
      if w.Cancelled? {
        // the cancelled wait throws out of the loop
        StopInWait(stoppingToken, |queued|, i);
        end := CancelledInWait;
        break;
      }
      if w.WouldBlock? {
        StopBlocked(stoppingToken, |queued|);
        end := Blocked;
        break;
      }
      var workItem := w.item;
      RunProviderWorkItem(runtime, workItem, stoppingToken);
      ScopedTraceStep(before, queued, i, first, PassProvider, stoppingToken, runtime.fails);
      i := i + 1;
    }
    if end == StoppedAtHead {
      StopAtHead(stoppingToken, |queued|, i);
    }
    processed := i;
  }
}

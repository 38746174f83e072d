/** The consumer of per-user work items. */
module UserTaskQueuedService {
  import opened Wrappers
  import opened WorkQueues
  import opened TaskQueues
  import opened Hosting
  import opened ConsumerTraces

  /**
   * The `try` block of one iteration: the scope, the session's subject id, the user
   * lookup, the invocation, the disposal, and the `catch` that logs.
   */
  method RunUserWorkItem(runtime: Runtime, workItem: UserEntry, stoppingToken: CancellationToken)
    modifies runtime`events, runtime`openScopes, runtime`createdScopes, runtime`sessions
    ensures runtime.openScopes == old(runtime.openScopes)
    ensures runtime.createdScopes == old(runtime.createdScopes) + 1
    ensures runtime.sessions == old(runtime.sessions)[old(runtime.createdScopes) := workItem.key]
    ensures runtime.events == old(runtime.events)
      + UserSteps(workItem, old(runtime.createdScopes), stoppingToken, runtime.users, runtime.fails)
  {
    var scope := runtime.CreateScope();
    runtime.SetSubjectId(scope, workItem.key);
    var user := runtime.GetUserAsync(scope);
    assert runtime.events == old(runtime.events) + UserLookup(workItem, scope);
    if user.None? {
      runtime.DisposeScope(scope);
      runtime.LogError(UserNotFound);
    } else {
      var threw := runtime.Invoke(Call(workItem.item, UserContext(scope, user.value), stoppingToken));
      runtime.DisposeScope(scope);
      if threw {
        runtime.LogError(ItemThrew(workItem.item));
      }
    }
  }

  /**
   * `ExecuteAsync`: until the token is seen at the loop head, take the next subject
   * id/item pair and, inside a fresh scope, set the scope's session to that subject id
   * and load the user. A found user is handed to the item with the scope's provider and
   * the token; a missing user raises inside the scope. Either exception is logged after
   * the scope is disposed.
   */
  method ExecuteAsync(taskQueue: BackgroundTaskQueue, runtime: Runtime, stoppingToken: CancellationToken)
    returns (end: LoopEnd, processed: nat)
    requires taskQueue.Valid()
    modifies taskQueue.userWorkItems, runtime`events, runtime`openScopes, runtime`createdScopes, runtime`sessions
    ensures taskQueue.Valid()
    ensures processed == Processed(stoppingToken, |old(taskQueue.userWorkItems.items)|)
    ensures end == EndOf(stoppingToken, |old(taskQueue.userWorkItems.items)|)
    ensures taskQueue.userWorkItems.items == old(taskQueue.userWorkItems.items)[processed..]
    ensures runtime.openScopes == old(runtime.openScopes)
    ensures runtime.createdScopes == old(runtime.createdScopes) + processed
    ensures runtime.sessions == SessionsAfter(old(runtime.sessions), old(taskQueue.userWorkItems.items)[..processed], old(runtime.createdScopes))
    ensures runtime.events == old(runtime.events)
      + UserTrace(old(taskQueue.userWorkItems.items)[..processed], old(runtime.createdScopes), stoppingToken, runtime.users, runtime.fails)
  {
    ghost var queued := taskQueue.userWorkItems.items;
    ghost var before := runtime.events;
    ghost var first := runtime.createdScopes;
    var i := 0;
    end := StoppedAtHead;
    while !IsCancellationRequested(stoppingToken, HeadCheck(i))
      invariant taskQueue.Valid()
      invariant i <= |queued|
      invariant i > 0 ==> !IsCancellationRequested(stoppingToken, WaitCheck(i - 1))
      invariant taskQueue.userWorkItems.items == queued[i..]
      invariant runtime.openScopes == old(runtime.openScopes)
      invariant runtime.createdScopes == first + i
      invariant runtime.sessions == SessionsAfter(old(runtime.sessions), queued[..i], first)
      invariant runtime.events == before + UserTrace(queued[..i], first, stoppingToken, runtime.users, runtime.fails)
      invariant end == StoppedAtHead
      decreases |queued| - i
    {
      var w := taskQueue.DequeueUserTaskAsync(IsCancellationRequested(stoppingToken, WaitCheck(i)));
      if w.Cancelled? {
        // the cancelled wait throws out of the loop
        StopInWait(stoppingToken, |queued|, i);
        end := CancelledInWait;
        break;
      }
      if w.WouldBlock? {
        StopBlocked(stoppingToken, |queued|);
        end := Blocked;
        break;
      }
      RunUserWorkItem(runtime, w.item, stoppingToken);
      UserTraceStep(before, queued, i, first, stoppingToken, runtime.users, runtime.fails);
      SessionsAfterStep(old(runtime.sessions), queued, i, first);
      i := i + 1;
    }
    if end == StoppedAtHead {
      StopAtHead(stoppingToken, |queued|, i);
    }
    processed := i;
  }
}

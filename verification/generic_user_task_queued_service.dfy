/**
 * The consumer of per-user work items whose session and user service types are type
 * parameters. Once those services are resolved from the scope its loop is the same as
 * `UserTaskQueuedService.ExecuteAsync`, and it is modelled by it.
 */
module GenericUserTaskQueuedService {
  import opened WorkQueues
  import opened TaskQueues
  import opened Hosting
  import opened ConsumerTraces
  import UserTaskQueuedService

  method ExecuteAsync(taskQueue: BackgroundTaskQueue, runtime: Runtime, stoppingToken: CancellationToken)
    returns (end: LoopEnd, processed: nat)
    requires taskQueue.Valid()
    modifies taskQueue.userWorkItems, runtime`events, runtime`openScopes, runtime`createdScopes, runtime`sessions
    ensures taskQueue.Valid()
    ensures processed == Processed(stoppingToken, |old(taskQueue.userWorkItems.items)|)
    ensures end == EndOf(stoppingToken, |old(taskQueue.userWorkItems.items)|)
    ensures taskQueue.userWorkItems.items == old(taskQueue.userWorkItems.items)[processed..]
    ensures runtime.openScopes == old(runtime.openScopes)
    ensures runtime.createdScopes == old(runtime.createdScopes) + processed
    ensures runtime.sessions == SessionsAfter(old(runtime.sessions), old(taskQueue.userWorkItems.items)[..processed], old(runtime.createdScopes))
    ensures runtime.events == old(runtime.events)
      + UserTrace(old(taskQueue.userWorkItems.items)[..processed], old(runtime.createdScopes), stoppingToken, runtime.users, runtime.fails)
  {
    end, processed := UserTaskQueuedService.ExecuteAsync(taskQueue, runtime, stoppingToken);
  }
}

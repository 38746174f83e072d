/**
 * The background task registry: four independent queues, one per work-item shape
 * (plain, service-provider, service-scope, per-user). One class stands for both
 * registries of the source (the non-generic one and the one generic over the user type),
 * whose bodies are the same.
 */
module TaskQueues {
  import opened Wrappers
  import opened WorkQueues

  /** A queued delegate, represented by a value that identifies it. */
  datatype WorkItem = WorkItem(id: nat)

  /** The key/value pair stored for a per-user work item: the subject id and the delegate. */
  datatype UserEntry = UserEntry(key: string, item: WorkItem)

  /** Outcome of a `Queue…` call: accepted, or an `ArgumentNullException` naming a parameter. */
  datatype Submission = Accepted | ArgumentNullException(paramName: string)

  class BackgroundTaskQueue {
    const workItems: WorkQueue<WorkItem>
    const providerWorkItems: WorkQueue<WorkItem>
    const scopedWorkItems: WorkQueue<WorkItem>
    const userWorkItems: WorkQueue<UserEntry>

    /** The four queues are distinct objects, each paired with its own semaphore. */
    ghost predicate Valid()
      reads this, workItems, providerWorkItems, scopedWorkItems, userWorkItems
    {
      workItems != providerWorkItems && workItems != scopedWorkItems && providerWorkItems != scopedWorkItems
      && workItems.Valid() && providerWorkItems.Valid() && scopedWorkItems.Valid() && userWorkItems.Valid()
    }

    constructor ()
      ensures Valid() && fresh(workItems) && fresh(providerWorkItems) && fresh(scopedWorkItems) && fresh(userWorkItems)
      ensures workItems.items == [] && providerWorkItems.items == [] && scopedWorkItems.items == [] && userWorkItems.items == []
    {
      workItems := new WorkQueue();
      providerWorkItems := new WorkQueue();
      scopedWorkItems := new WorkQueue();
      userWorkItems := new WorkQueue();
    }

    /** Rejects a missing delegate; otherwise appends it to the plain queue and signals. */
    method QueueBackgroundWorkItem(workItem: Option<WorkItem>) returns (r: Submission)
      requires Valid()
      modifies workItems
      ensures Valid()
      ensures r.ArgumentNullException? <==> workItem.None?
      ensures r.ArgumentNullException? ==> r.paramName == "workItem"
      ensures workItem.None? ==> unchanged(workItems)
      ensures workItem.Some? ==> workItems.State() == Enqueued(old(workItems.State()), workItem.value)
      ensures unchanged(providerWorkItems, scopedWorkItems, userWorkItems)
    {
      if workItem.None? {
        return ArgumentNullException("workItem");
      }
      workItems.Enqueue(workItem.value);
      return Accepted;
    }

    /**
     * Waits on the plain queue's signal and takes its head. The source's null check after
     * `TryDequeue` never fires: `!w.Missing?`.
     */
    method DequeueAsync(cancellationRequested: bool) returns (w: Wait<WorkItem>)
      requires Valid()
      modifies workItems
      ensures Valid()
      ensures w == Dequeued(old(workItems.State()), cancellationRequested).0
      ensures workItems.State() == Dequeued(old(workItems.State()), cancellationRequested).1
      ensures !w.Missing?
      ensures unchanged(providerWorkItems, scopedWorkItems, userWorkItems)
    {
      SignalAlwaysFindsItem(workItems.State(), cancellationRequested);
      w := workItems.Dequeue(cancellationRequested);
    }

    method QueueBackgroundProviderWorkItem(workItem: Option<WorkItem>) returns (r: Submission)
      requires Valid()
      modifies providerWorkItems
      ensures Valid()
      ensures r.ArgumentNullException? <==> workItem.None?
      ensures r.ArgumentNullException? ==> r.paramName == "workItem"
      ensures workItem.None? ==> unchanged(providerWorkItems)
      ensures workItem.Some? ==> providerWorkItems.State() == Enqueued(old(providerWorkItems.State()), workItem.value)
      ensures unchanged(workItems, scopedWorkItems, userWorkItems)
    {
      if workItem.None? {
        return ArgumentNullException("workItem");
      }
      providerWorkItems.Enqueue(workItem.value);
      return Accepted;
    }

    method DequeueProviderTaskAsync(cancellationRequested: bool) returns (w: Wait<WorkItem>)
      requires Valid()
      modifies providerWorkItems
      ensures Valid()
      ensures w == Dequeued(old(providerWorkItems.State()), cancellationRequested).0
      ensures providerWorkItems.State() == Dequeued(old(providerWorkItems.State()), cancellationRequested).1
      ensures !w.Missing?
      ensures unchanged(workItems, scopedWorkItems, userWorkItems)
    {
      SignalAlwaysFindsItem(providerWorkItems.State(), cancellationRequested);
      w := providerWorkItems.Dequeue(cancellationRequested);
    }

    method QueueBackgroundScopedWorkItem(workItem: Option<WorkItem>) returns (r: Submission)
      requires Valid()
      modifies scopedWorkItems
      ensures Valid()
      ensures r.ArgumentNullException? <==> workItem.None?
      ensures r.ArgumentNullException? ==> r.paramName == "workItem"
      ensures workItem.None? ==> unchanged(scopedWorkItems)
      ensures workItem.Some? ==> scopedWorkItems.State() == Enqueued(old(scopedWorkItems.State()), workItem.value)
      ensures unchanged(workItems, providerWorkItems, userWorkItems)
    {
      if workItem.None? {
        return ArgumentNullException("workItem");
      }
      scopedWorkItems.Enqueue(workItem.value);
      return Accepted;
    }

    method DequeueScopedWorkItemAsync(cancellationRequested: bool) returns (w: Wait<WorkItem>)
      requires Valid()
      modifies scopedWorkItems
      ensures Valid()
      ensures w == Dequeued(old(scopedWorkItems.State()), cancellationRequested).0
      ensures scopedWorkItems.State() == Dequeued(old(scopedWorkItems.State()), cancellationRequested).1
      ensures !w.Missing?
      ensures unchanged(workItems, providerWorkItems, userWorkItems)
    {
      SignalAlwaysFindsItem(scopedWorkItems.State(), cancellationRequested);
      w := scopedWorkItems.Dequeue(cancellationRequested);
    }

    /**
     * Rejects a missing or empty subject id and a missing delegate, in every case with an
     * exception that names `workItem`; otherwise appends the pair and signals.
     */
    method QueueUserWorkItem(sub: Option<string>, workItem: Option<WorkItem>) returns (r: Submission)
      requires Valid()
      modifies userWorkItems
      ensures Valid()
      ensures r.ArgumentNullException? <==> sub.None? || sub.value == "" || workItem.None?
      ensures r.ArgumentNullException? ==> r.paramName == "workItem" && unchanged(userWorkItems)
      ensures r.Accepted? ==> userWorkItems.State() == Enqueued(old(userWorkItems.State()), UserEntry(sub.value, workItem.value))
      ensures unchanged(workItems, providerWorkItems, scopedWorkItems)
    {
      if sub.None? || sub.value == "" || workItem.None? {
        return ArgumentNullException("workItem");
      }
      userWorkItems.Enqueue(UserEntry(sub.value, workItem.value));
      return Accepted;
    }

    /**
     * Waits on the per-user signal and takes the head pair. The source has no null check
     * here (an empty `TryDequeue` would hand back a default pair); that case is `Missing`
     * and never happens.
     */
    method DequeueUserTaskAsync(cancellationRequested: bool) returns (w: Wait<UserEntry>)
      requires Valid()
      modifies userWorkItems
      ensures Valid()
      ensures w == Dequeued(old(userWorkItems.State()), cancellationRequested).0
      ensures userWorkItems.State() == Dequeued(old(userWorkItems.State()), cancellationRequested).1
      ensures !w.Missing?
      ensures unchanged(workItems, providerWorkItems, scopedWorkItems)
    {
      SignalAlwaysFindsItem(userWorkItems.State(), cancellationRequested);
      w := userWorkItems.Dequeue(cancellationRequested);
    }
  }
}
